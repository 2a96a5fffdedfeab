/** What an operation of an alias set tracker does to the active sets: which of them become one, what is in
    it, and exactly which access is recorded for it. */
module AliasSetJoins {
  import opened AliasResults
  import opened Options
  import opened AliasSets
  import opened AliasSetEdits
  import opened AliasSetMerge

  /** The same pointers, instructions and access, and both "must" sets or neither. */
  predicate SameGroup(a: AliasSet, b: AliasSet) {
    b.ptrs == a.ptrs && b.unknown == a.unknown && b.ref == a.ref && b.mod == a.mod && b.may == a.may
  }

  ghost predicate SameGroups(st: State, st': State) {
    forall x {:trigger st.Active(x)} {:trigger st'.Active(x)} ::
      (st'.Active(x) <==> st.Active(x)) && (st.Active(x) ==> SameGroup(st.sets[x], st'.sets[x]))
  }

  ghost predicate OnSome(st: State, hits: set<Id>, p: Ptr) { exists h :: h in hits && st.On(h, p) }

  ghost predicate HeldBySome(st: State, hits: set<Id>, i: Inst) { exists h :: h in hits && st.Holds(h, i) }

  ghost predicate SomeRef(st: State, hits: set<Id>) { exists h :: h in hits && h in st.sets && st.sets[h].ref }

  ghost predicate SomeMod(st: State, hits: set<Id>) { exists h :: h in hits && h in st.sets && st.sets[h].mod }

  /** From st to st', exactly the active sets that are hit have become s, or s is new. Apart from what was in
      them, s holds these pointers and instructions; its access is that of those sets and what is asked for.
      No other set has changed. */
  ghost predicate Joined(st: State, st': State, hits: set<Id>, s: Id, ptrs: set<Ptr>, insts: set<Inst>, ref: bool,
                         mod: bool)
  {
    && st'.Active(s) && (st.Active(s) ==> s in hits) && (forall h :: h in hits ==> st.Active(h))
    && (forall x {:trigger st'.Active(x)} {:trigger st.Active(x)} :: x != s ==>
          && (st'.Active(x) <==> st.Active(x) && x !in hits)
          && (st'.Active(x) ==> SameGroup(st.sets[x], st'.sets[x])))
    && (forall p {:trigger st'.On(s, p)} :: st'.On(s, p) <==> p in ptrs || OnSome(st, hits, p))
    && (forall i {:trigger st'.Holds(s, i)} :: st'.Holds(s, i) <==> i in insts || HeldBySome(st, hits, i))
    && (st'.sets[s].ref <==> ref || SomeRef(st, hits))
    && (st'.sets[s].mod <==> mod || SomeMod(st, hits))
  }

  predicate SameBits(a: AliasSet, b: AliasSet) { b.ref == a.ref && b.mod == a.mod && b.may == a.may }

  /** From st to st', only p is gone, and a set that is empty without it. */
  ghost predicate Removed(st: State, st': State, p: Ptr) {
    && (forall x {:trigger st'.Active(x)} {:trigger st.Active(x)} ::
          && (st'.Active(x) <==>
                st.Active(x) && ((exists q :: q != p && st.On(x, q)) || exists i :: st.Holds(x, i)))
          && (st'.Active(x) ==> SameBits(st.sets[x], st'.sets[x])))
    && (forall x, q {:trigger st'.On(x, q)} :: st'.Active(x) ==> (st'.On(x, q) <==> st.On(x, q) && q != p))
    && (forall x, i {:trigger st'.Holds(x, i)} :: st'.Active(x) ==> (st'.Holds(x, i) <==> st.Holds(x, i)))
  }

  ghost predicate SomeMay(st: State, hits: set<Id>) { exists h :: h in hits && h in st.sets && st.sets[h].may }

  /** All pointers of s must alias. */
  ghost predicate MustAlike(st: State, s: Id, aa: Oracle) {
    forall p, q {:trigger st.On(s, p), st.On(s, q)} :: st.On(s, p) && st.On(s, q) ==> aa.alias(p, q) == MustAlias
  }

  /** From st to st', the sets that are hit have become s: it is a "may" set exactly if it is taken for one, one
      of them was, or its pointers need not all alias. */
  ghost predicate Weak(st: State, st': State, hits: set<Id>, s: Id, weak: bool, aa: Oracle) {
    s in st'.sets && (st'.sets[s].may <==> weak || SomeMay(st, hits) || !MustAlike(st', s, aa))
  }

  /** A "must" set is one, so that the converse is what is to be shown. */
  lemma WeakIf(st: State, st': State, hits: set<Id>, s: Id, weak: bool, aa: Oracle)
    requires s in st'.sets && st'.MustSets(aa) && (weak || SomeMay(st, hits) ==> st'.sets[s].may)
    requires st'.sets[s].may ==> weak || SomeMay(st, hits) || !MustAlike(st', s, aa)
    ensures Weak(st, st', hits, s, weak, aa)
  {
  }

  lemma {:induction false} WeakOn(st: State, st1: State, st': State, hits: set<Id>, s: Id, weak: bool, aa: Oracle)
    requires Weak(st, st1, hits, s, weak, aa) && SameGroups(st1, st') && st1.Active(s)
    ensures Weak(st, st', hits, s, weak, aa)
  {
    assert st'.Active(s) && SameGroup(st1.sets[s], st'.sets[s]);
    assert forall p :: st'.On(s, p) == st1.On(s, p);
  }

  lemma {:induction false} WeakSelf(st: State, s: Id, aa: Oracle)
    requires st.Active(s) && st.MustSets(aa)
    ensures Weak(st, st, {s}, s, false, aa)
  {
    assert s in {s};
    WeakIf(st, st, {s}, s, false, aa);
  }

  /** s now has another pointer. */
  lemma {:induction false} WeakMore(st: State, st1: State, st': State, hits: set<Id>, s: Id, aa: Oracle)
    requires Weak(st, st1, hits, s, false, aa) && s in st'.sets && st'.MustSets(aa)
    requires forall p :: st1.On(s, p) ==> st'.On(s, p)
    requires st1.sets[s].may ==> st'.sets[s].may
    requires st'.sets[s].may ==> st1.sets[s].may || !MustAlike(st', s, aa)
    ensures Weak(st, st', hits, s, false, aa)
  {
    WeakIf(st, st', hits, s, false, aa);
  }

  ghost predicate Nonempty(st: State) {
    forall x {:trigger st.Active(x)} :: st.Active(x) ==> st.sets[x].ptrs != [] || st.sets[x].unknown != []
  }

  lemma {:induction false} InvNonempty(st: State, aa: Oracle)
    requires st.Inv(aa, {}, {})
    ensures Nonempty(st)
  {
    forall x | st.Active(x) && st.sets[x].unknown == []
      ensures st.sets[x].ptrs != []
    {
      LiveSetsHavePointers(st, x, x);
    }
  }

  lemma {:induction false} SameContentsGroups(st: State, st': State)
    requires SameContents(st, st') && Nonempty(st)
    ensures SameGroups(st, st') && Nonempty(st')
  {
    forall x
      ensures (st'.Active(x) <==> st.Active(x)) && (st.Active(x) ==> SameGroup(st.sets[x], st'.sets[x]))
    {
    }
  }

  lemma {:induction false} JoinedOn(st: State, st1: State, st': State, hits: set<Id>, s: Id, ptrs: set<Ptr>,
                                    insts: set<Inst>, ref: bool, mod: bool)
    requires Joined(st, st1, hits, s, ptrs, insts, ref, mod) && SameGroups(st1, st')
    ensures Joined(st, st', hits, s, ptrs, insts, ref, mod)
  {
    assert st1.Active(s) && st'.Active(s);
    forall x | x != s
      ensures st'.Active(x) <==> st.Active(x) && x !in hits
      ensures st'.Active(x) ==> SameGroup(st.sets[x], st'.sets[x])
    {
      assert st'.Active(x) <==> st1.Active(x);
    }
    assert forall p :: st'.On(s, p) == st1.On(s, p);
    assert forall i :: st'.Holds(s, i) == st1.Holds(s, i);
  }

  /** A set that is in p already. */
  lemma {:induction false} JoinedSelf(st: State, s: Id, p: Ptr)
    requires st.Active(s) && st.On(s, p)
    ensures Joined(st, st, {s}, s, {p}, {}, false, false)
  {
    forall q
      ensures OnSome(st, {s}, q) == st.On(s, q)
    {
    }
    forall i
      ensures HeldBySome(st, {s}, i) == st.Holds(s, i)
    {
    }
    assert s in {s};
  }

  /** s now has another pointer, instruction or access. */
  lemma {:induction false} JoinedMore(st: State, st1: State, st': State, hits: set<Id>, s: Id, ptrs: set<Ptr>,
                                      ptrs': set<Ptr>,
                                      insts: set<Inst>, insts': set<Inst>, ref: bool, mod: bool, ref': bool, mod': bool)
    requires Joined(st, st1, hits, s, ptrs, insts, ref, mod) && st'.Active(s)
    requires forall x {:trigger st'.Active(x)} {:trigger st1.Active(x)} :: x != s ==>
               (st'.Active(x) <==> st1.Active(x)) && (st1.Active(x) ==> SameGroup(st1.sets[x], st'.sets[x]))
    requires forall p {:trigger st'.On(s, p)} :: st'.On(s, p) <==> p in ptrs' || st1.On(s, p)
    requires forall i {:trigger st'.Holds(s, i)} :: st'.Holds(s, i) <==> i in insts' || st1.Holds(s, i)
    requires (st'.sets[s].ref <==> ref' || st1.sets[s].ref) && (st'.sets[s].mod <==> mod' || st1.sets[s].mod)
    ensures Joined(st, st', hits, s, ptrs + ptrs', insts + insts', ref || ref', mod || mod')
  {
    forall x | x != s
      ensures st'.Active(x) <==> st.Active(x) && x !in hits
      ensures st'.Active(x) ==> SameGroup(st.sets[x], st'.sets[x])
    {
      assert st'.Active(x) <==> st1.Active(x);
    }
    forall p
      ensures st'.On(s, p) <==> p in ptrs + ptrs' || OnSome(st, hits, p)
    {
      assert st1.On(s, p) <==> p in ptrs || OnSome(st, hits, p);
    }
    forall i
      ensures st'.Holds(s, i) <==> i in insts + insts' || HeldBySome(st, hits, i)
    {
      assert st1.Holds(s, i) <==> i in insts || HeldBySome(st, hits, i);
    }
  }

  /** A new set, which is empty as yet. */
  lemma {:induction false} JoinedNew(st: State, st1: State, st': State, s: Id)
    requires SameGroups(st, st1) && s !in st.sets && s !in st1.sets
    requires st' == NewSet(st1, EmptySet) && s == st1.next
    ensures Joined(st, st', {}, s, {}, {}, false, false)
  {
    forall x | x != s
      ensures st'.Active(x) <==> st.Active(x)
      ensures st'.Active(x) ==> SameGroup(st.sets[x], st'.sets[x])
    {
      assert st1.Active(x) <==> st.Active(x);
    }
  }
}
