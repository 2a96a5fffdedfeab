/** Updates of an alias set tracker that change what is in which set, and that they keep its state
    consistent. */
module AliasSetMerge {
  import opened AliasResults
  import opened Options
  import opened AliasSets
  import opened AliasSetEdits

  // ----- merging -----

  function MergedHome(home: map<Id, Id>, s: Id, t: Id): map<Id, Id> {
    map x | x in home :: if home[x] == t then s else home[x]
  }

  /** Everything in t moves to s, and t forwards to s. If t had unknown instructions it is owed a
      decrement, for the reference they stood for. */
  function Merge(st: State, s: Id, t: Id, may: bool): State
    requires s in st.sets && t in st.sets
  {
    var a := st.sets[s];
    var b := st.sets[t];
    var a' := a.(ptrs := a.ptrs + b.ptrs, unknown := a.unknown + b.unknown,
                 refs := a.refs + 1 + (if a.unknown == [] && b.unknown != [] then 1 else 0),
                 ref := a.ref || b.ref, mod := a.mod || b.mod, may := may,
                 size := if b.ptrs == [] then a.size else a.size + b.size);
    var b' := b.(ptrs := [], unknown := [], forward := Some(s), size := if b.ptrs == [] then b.size else 0);
    st.(sets := st.sets[s := a'][t := b'], home := MergedHome(st.home, s, t))
  }

  function OwedAfterMerge(b: AliasSet, t: Id): set<Id> { if b.unknown == [] then {} else {t} }

  /** s and t are different active sets, and t may forward to s. */
  ghost predicate Mergeable(st: State, s: Id, t: Id) {
    st.Shape() && st.Active(s) && st.Active(t) && s != t && st.Rank(s) < st.Rank(t)
  }

  lemma {:induction false} MergeShape(st: State, s: Id, t: Id, may: bool)
    requires Mergeable(st, s, t) && (st.sets[s].may ==> may)
    ensures Merge(st, s, t, may).Shape()
  {
    var st' := Merge(st, s, t, may);
    forall x | x in st'.sets
      ensures st'.ShapeAt(x)
    {
      MergeShapeAt(st, s, t, may, x);
    }
    assert st.any.Some? ==> st'.Active(st.any.value) && st'.sets[st.any.value].may;
    hide State.ShapeAt;
    ShapeFrom(st');
  }

  lemma {:induction false} MergeShapeAt(st: State, s: Id, t: Id, may: bool, x: Id)
    requires Mergeable(st, s, t) && x in st.sets
    ensures Merge(st, s, t, may).ShapeAt(x)
  {
    ShapeOf(st, x);
    ShapeOf(st, s);
    ShapeOf(st, t);
    if st.sets[x].forward.Some? {
      ShapeOf(st, st.sets[x].forward.value);
    }
  }

  lemma {:induction false} MergeReferrers(st: State, s: Id, t: Id, may: bool, x: Id)
    requires st.Active(s) && st.Active(t) && s != t && x in st.sets
    ensures var st' := Merge(st, s, t, may);
            && st'.Namers(x) == st.Namers(x)
            && st'.Forwarders(x) == if x == s then st.Forwarders(x) + {t} else st.Forwarders(x)
    ensures t !in st.Forwarders(x)
  {
  }

  lemma {:induction false} MergeCounted(st: State, s: Id, t: Id, may: bool)
    requires st.Active(s) && st.Active(t) && s != t && st.Counted({})
    ensures Merge(st, s, t, may).Counted(OwedAfterMerge(st.sets[t], t))
  {
    var st' := Merge(st, s, t, may);
    forall x | x in st'.sets
      ensures st'.sets[x].refs == st'.Count(x) + if x in OwedAfterMerge(st.sets[t], t) then 1 else 0
    {
      MergeReferrers(st, s, t, may, x);
      assert st.sets[x].refs == st.Count(x);
    }
  }

  lemma {:induction false} MergeListed(st: State, s: Id, t: Id, may: bool)
    requires s in st.sets && t in st.sets && s != t && st.Listed()
    requires forall p :: p in st.recs && st.HomeOf(p) == t ==> st.recs[p] in st.home
    ensures Merge(st, s, t, may).Listed()
  {
    var st' := Merge(st, s, t, may);
    forall p | p in st'.recs
      ensures st'.Tracks(p) && st'.On(st'.HomeOf(p), p)
    {
      assert st.On(st.HomeOf(p), p);
    }
    forall x, p | st'.On(x, p)
      ensures p in st'.recs && st'.Tracks(p) && st'.HomeOf(p) == x
    {
      assert st.On(x, p) || (x == s && st.On(t, p));
    }
    assert NoDuplicates(st.sets[s].ptrs + st.sets[t].ptrs) by {
      forall i, j | 0 <= i < |st.sets[s].ptrs| && 0 <= j < |st.sets[t].ptrs|
        ensures st.sets[s].ptrs[i] != st.sets[t].ptrs[j]
      {
        assert st.On(s, st.sets[s].ptrs[i]) && st.On(t, st.sets[t].ptrs[j]);
      }
    }
  }

  /** Merging makes a "must" set only of "must" sets with pointers that must alias. */
  lemma {:induction false} MergeMust(st: State, s: Id, t: Id, may: bool, aa: Oracle, l: Ptr, r: Ptr)
    requires s in st.sets && t in st.sets && s != t && st.MustSets(aa) && aa.Coherent()
    requires !may ==> !st.sets[s].may && !st.sets[t].may && st.On(s, l) && st.On(t, r) && aa.alias(l, r) == MustAlias
    ensures Merge(st, s, t, may).MustSets(aa)
  {
    var st' := Merge(st, s, t, may);
    forall x, i | st'.Holds(x, i)
      ensures st.Holds(x, i) || (x == s && st.Holds(t, i))
    {
    }
    forall x, p, q | st'.On(x, p) && st'.On(x, q) && !st'.sets[x].may
      ensures aa.alias(p, q) == MustAlias
    {
      if x == s {
        assert st.On(s, p) || st.On(t, p);
        assert st.On(s, q) || st.On(t, q);
        MustAcross(st, s, t, aa, l, r, p, q);
        MustAcross(st, s, t, aa, l, r, q, p);
      } else {
        assert st.On(x, p) && st.On(x, q);
      }
    }
  }

  lemma {:induction false} MustAcross(st: State, s: Id, t: Id, aa: Oracle, l: Ptr, r: Ptr, p: Ptr, q: Ptr)
    requires s in st.sets && t in st.sets && st.MustSets(aa) && aa.Coherent()
    requires !st.sets[s].may && !st.sets[t].may && st.On(s, l) && st.On(t, r) && aa.alias(l, r) == MustAlias
    requires (st.On(s, p) || st.On(t, p)) && (st.On(s, q) || st.On(t, q))
    ensures st.On(s, p) && st.On(t, q) ==> aa.alias(p, q) == MustAlias
    ensures st.On(s, p) && st.On(s, q) ==> aa.alias(p, q) == MustAlias
    ensures st.On(t, p) && st.On(t, q) ==> aa.alias(p, q) == MustAlias
    ensures st.On(t, p) && st.On(s, q) ==> aa.alias(p, q) == MustAlias
  {
    if st.On(s, p) && st.On(t, q) {
      assert aa.alias(p, l) == MustAlias && aa.alias(r, q) == MustAlias;
      assert Triple(p, l, r) && Triple(p, r, q);
    }
    if st.On(t, p) && st.On(s, q) {
      assert aa.alias(q, l) == MustAlias && aa.alias(r, p) == MustAlias;
      assert Triple(q, l, r) && Triple(q, r, p);
      assert aa.alias(q, p) == MustAlias;
    }
  }

  lemma {:induction false} MergePartition(st: State, s: Id, t: Id, may: bool, aa: Oracle)
    requires s in st.sets && t in st.sets && s != t && st.Partition(aa)
    ensures Merge(st, s, t, may).Partition(aa)
  {
    var st' := Merge(st, s, t, may);
    forall x, i | st'.Holds(x, i)
      ensures st.Holds(x, i) || (x == s && st.Holds(t, i))
    {
    }
    forall p, q | st'.Tracks(p) && st'.Tracks(q) && aa.alias(p, q) != NoAlias
      ensures st'.HomeOf(p) == st'.HomeOf(q)
    {
      assert st.Tracks(p) && st.Tracks(q);
    }
    forall x, i, p | st'.Holds(x, i) && st'.Tracks(p) && aa.touches(i, p)
      ensures st'.HomeOf(p) == x
    {
      assert st.Tracks(p);
    }
  }

  // ----- new members -----

  function NewSet(st: State, a: AliasSet): State {
    st.(sets := st.sets[st.next := a], home := st.home[st.next := st.next], next := st.next + 1,
        any := if a.any then Some(st.next) else st.any)
  }

  lemma {:induction false} NewSetReferrers(st: State, a: AliasSet, x: Id)
    requires st.Shape() && a.forward.None?
    ensures NewSet(st, a).Namers(x) == st.Namers(x) && NewSet(st, a).Forwarders(x) == st.Forwarders(x)
    ensures x == st.next ==> st.Namers(x) == {} && st.Forwarders(x) == {}
  {
    hide State.Shape;
    NextIsNew(st);
  }

  /** Nothing refers to the next set yet. */
  lemma {:induction false} NextIsNew(st: State)
    requires st.Shape()
    ensures st.next !in st.sets && st.Namers(st.next) == {} && st.Forwarders(st.next) == {}
  {
    assert forall t :: t in st.sets ==> st.sets[t].forward != Some(st.next);
    assert st.Forwarders(st.next) == {};
    assert st.Namers(st.next) == {};
  }

  lemma {:induction false} NewSetCounted(st: State, a: AliasSet)
    requires st.Shape() && st.Counted({}) && a.unknown == [] && a.forward.None? && a.refs == 0
    ensures NewSet(st, a).Counted({})
  {
    var st' := NewSet(st, a);
    forall x | x in st'.sets
      ensures st'.sets[x].refs == st'.Count(x)
    {
      NewSetReferrers(st, a, x);
      if x != st.next {
        assert st.sets[x].refs == st.Count(x);
      }
    }
  }

  lemma {:induction false} NewSetShape(st: State, a: AliasSet)
    requires st.Shape() && st.any.None?
    requires a.ptrs == [] && a.unknown == [] && a.forward.None? && (a.any ==> a.may)
    ensures NewSet(st, a).Shape()
  {
  }

  lemma {:induction false} NewSetMembers(st: State, a: AliasSet)
    requires st.Shape() && st.Listed() && a.ptrs == [] && a.unknown == []
    ensures var st' := NewSet(st, a);
            && (forall s, p {:trigger st'.On(s, p)} :: st'.On(s, p) <==> st.On(s, p))
            && (forall s, i {:trigger st'.Holds(s, i)} :: st'.Holds(s, i) <==> st.Holds(s, i))
            && (forall p {:trigger st'.Tracks(p)} :: st'.Tracks(p) <==> st.Tracks(p))
            && (forall p :: p in st.recs ==> st.Tracks(p) && st'.HomeOf(p) == st.HomeOf(p))
  {
  }

  lemma {:induction false} NewSetContents(st: State, a: AliasSet, aa: Oracle)
    requires st.Shape() && Contents(st, aa)
    requires a.ptrs == [] && a.unknown == []
    ensures Contents(NewSet(st, a), aa)
  {
    NewSetMembers(st, a);
    var st' := NewSet(st, a);
    assert st'.recs == st.recs && forall s :: s in st.sets ==> s in st'.sets && st'.sets[s] == st.sets[s];
    hide State.Shape;
    forall p, q | st'.Tracks(p) && st'.Tracks(q) && aa.alias(p, q) != NoAlias
      ensures st'.HomeOf(p) == st'.HomeOf(q)
    {
      assert st.Tracks(p) && st.Tracks(q);
    }
  }

  /** A new pointer record that names s. */
  function Attach(st: State, s: Id, p: Ptr, may: bool): State
    requires s in st.sets
  {
    var a := st.sets[s];
    st.Update(s, a.(ptrs := a.ptrs + [p], refs := a.refs + 1, may := may, size := a.size + 1)).(recs := st.recs[p := s])
  }

  /** Everything that p may alias is in s. */
  ghost predicate OnlyAliases(st: State, s: Id, p: Ptr, aa: Oracle) {
    && (forall q {:trigger aa.alias(p, q)} :: st.Tracks(q) && aa.alias(p, q) != NoAlias ==> st.HomeOf(q) == s)
    && (forall x, i {:trigger st.Holds(x, i)} :: st.Holds(x, i) && aa.touches(i, p) ==> x == s)
  }

  lemma {:induction false} AttachReferrers(st: State, s: Id, p: Ptr, may: bool, x: Id)
    requires s in st.sets && p !in st.recs && x in st.sets
    ensures var st' := Attach(st, s, p, may);
            && st'.Namers(x) == (if x == s then st.Namers(x) + {p} else st.Namers(x))
            && st'.Forwarders(x) == st.Forwarders(x)
    ensures p !in st.Namers(x)
  {
  }

  lemma {:induction false} AttachCounted(st: State, s: Id, p: Ptr, may: bool)
    requires s in st.sets && p !in st.recs && st.Counted({})
    ensures Attach(st, s, p, may).Counted({})
  {
    var st' := Attach(st, s, p, may);
    forall x | x in st'.sets
      ensures st'.sets[x].refs == st'.Count(x)
    {
      AttachReferrers(st, s, p, may, x);
      assert st.sets[x].refs == st.Count(x);
    }
  }

  lemma AttachMembers(st: State, s: Id, p: Ptr, may: bool)
    requires s in st.sets
    ensures var st' := Attach(st, s, p, may);
            && (forall x, q {:trigger st'.On(x, q)} :: st'.On(x, q) <==> (x == s && q == p) || st.On(x, q))
            && (forall x, i {:trigger st'.Holds(x, i)} :: st'.Holds(x, i) <==> st.Holds(x, i))
            && (forall x :: x in st.sets ==>
                  && st'.sets[x].may == (if x == s then may else st.sets[x].may)
                  && st'.sets[x].unknown == st.sets[x].unknown
                  && st'.sets[x].ref == st.sets[x].ref && st'.sets[x].mod == st.sets[x].mod)
  {
  }

  lemma {:induction false} AttachListed(st: State, s: Id, p: Ptr, may: bool)
    requires s in st.sets && s in st.home && st.home[s] == s && p !in st.recs && st.Listed()
    ensures Attach(st, s, p, may).Listed()
    ensures forall q :: q in st.recs ==> Attach(st, s, p, may).HomeOf(q) == st.HomeOf(q)
  {
    var st' := Attach(st, s, p, may);
    AttachMembers(st, s, p, may);
    forall q | q in st'.recs
      ensures st'.Tracks(q) && st'.On(st'.HomeOf(q), q) && (q != p ==> st.Tracks(q) && st'.HomeOf(q) == st.HomeOf(q))
    {
      if q != p {
        assert st.On(st.HomeOf(q), q);
      }
    }
    assert NoDuplicates(st'.sets[s].ptrs) by {
      assert !st.On(s, p);
      assert NoDuplicates(st.sets[s].ptrs);
    }
  }

  lemma {:induction false} AttachMust(st: State, s: Id, p: Ptr, may: bool, aa: Oracle)
    requires s in st.sets && st.MustSets(aa) && aa.Coherent()
    requires !may ==> !st.sets[s].may && forall q :: st.On(s, q) ==> aa.alias(q, p) == MustAlias
    ensures Attach(st, s, p, may).MustSets(aa)
  {
    AttachMembers(st, s, p, may);
  }

  lemma {:induction false} AttachPartition(st: State, s: Id, p: Ptr, may: bool, aa: Oracle)
    requires s in st.sets && s in st.home && st.home[s] == s && p !in st.recs && st.Partition(aa) && aa.Coherent()
    requires OnlyAliases(st, s, p, aa)
    ensures Attach(st, s, p, may).Partition(aa)
  {
    var st' := Attach(st, s, p, may);
    AttachMembers(st, s, p, may);
    assert st'.Tracks(p) && st'.HomeOf(p) == s;
    forall q, r | st'.Tracks(q) && st'.Tracks(r) && aa.alias(q, r) != NoAlias
      ensures st'.HomeOf(q) == st'.HomeOf(r)
    {
      assert aa.alias(r, q) == aa.alias(q, r);
    }
  }

  lemma {:induction false} AttachContents(st: State, s: Id, p: Ptr, may: bool, aa: Oracle)
    requires s in st.sets && s in st.home && st.home[s] == s && p !in st.recs && Contents(st, aa) && aa.Coherent()
    requires OnlyAliases(st, s, p, aa)
    requires !may ==> !st.sets[s].may && forall q :: st.On(s, q) ==> aa.alias(q, p) == MustAlias
    ensures Contents(Attach(st, s, p, may), aa)
  {
    AttachListed(st, s, p, may);
    AttachMust(st, s, p, may, aa);
    AttachPartition(st, s, p, may, aa);
  }

  /** A new unknown instruction in s. */
  function AttachInst(st: State, s: Id, i: Inst, writes: bool): State
    requires s in st.sets
  {
    var a := st.sets[s];
    st.Update(s, a.(unknown := a.unknown + [i], refs := a.refs + (if a.unknown == [] then 1 else 0),
                    may := true, ref := true, mod := a.mod || writes))
  }

  /** Everything that i may interfere with is in s. */
  ghost predicate OnlyInterferes(st: State, s: Id, i: Inst, aa: Oracle) {
    && (forall p {:trigger aa.touches(i, p)} :: st.Tracks(p) && aa.touches(i, p) ==> st.HomeOf(p) == s)
    && (forall x, j {:trigger st.Holds(x, j)} :: st.Holds(x, j) && aa.Conflict(i, j) ==> x == s)
  }

  lemma {:induction false} AttachInstCounted(st: State, s: Id, i: Inst, writes: bool)
    requires s in st.sets && st.Counted({})
    ensures AttachInst(st, s, i, writes).Counted({})
  {
    var st' := AttachInst(st, s, i, writes);
    forall x | x in st'.sets
      ensures st'.sets[x].refs == st'.Count(x)
    {
      assert st'.Namers(x) == st.Namers(x) && st'.Forwarders(x) == st.Forwarders(x);
      assert st.sets[x].refs == st.Count(x);
    }
  }

  lemma {:induction false} AttachInstContents(st: State, s: Id, i: Inst, writes: bool, aa: Oracle)
    requires s in st.sets && Contents(st, aa) && OnlyInterferes(st, s, i, aa) && (aa.writes(i) ==> writes)
    ensures Contents(AttachInst(st, s, i, writes), aa)
  {
    var st' := AttachInst(st, s, i, writes);
    forall x, j | st'.Holds(x, j)
      ensures (x == s && j == i) || st.Holds(x, j)
    {
    }
    forall x, q | st'.On(x, q)
      ensures st.On(x, q)
    {
    }
    forall p | p in st.recs
      ensures st'.Tracks(p) && st'.HomeOf(p) == st.HomeOf(p) && st'.On(st.HomeOf(p), p)
    {
      assert st.On(st.HomeOf(p), p);
    }
    forall p, q | st'.Tracks(p) && st'.Tracks(q) && aa.alias(p, q) != NoAlias
      ensures st'.HomeOf(p) == st'.HomeOf(q)
    {
      assert st.Tracks(p) && st.Tracks(q);
    }
    forall x, y, j, k | st'.Holds(x, j) && st'.Holds(y, k) && aa.Conflict(j, k)
      ensures x == y
    {
      assert aa.Conflict(k, j);
    }
  }

  // ----- removing a pointer -----

  function Without(ptrs: seq<Ptr>, p: Ptr): seq<Ptr> {
    if ptrs == [] then [] else if ptrs[0] == p then Without(ptrs[1..], p) else [ptrs[0]] + Without(ptrs[1..], p)
  }

  lemma {:induction false} WithoutElements(ptrs: seq<Ptr>, p: Ptr)
    requires NoDuplicates(ptrs)
    ensures NoDuplicates(Without(ptrs, p))
    ensures forall q :: q in Without(ptrs, p) <==> q in ptrs && q != p
  {
    if ptrs != [] {
      assert NoDuplicates(ptrs[1..]);
      WithoutElements(ptrs[1..], p);
      assert ptrs[0] !in ptrs[1..];
    }
  }

  /** The record of p is deleted; the set it named is owed a decrement. */
  function Detach(st: State, p: Ptr): State
    requires p in st.recs && st.recs[p] in st.sets
  {
    var s := st.recs[p];
    var a := st.sets[s];
    st.Update(s, a.(ptrs := Without(a.ptrs, p), size := if a.may then a.size - 1 else a.size)).(recs := st.recs - {p})
  }

  lemma {:induction false} DetachCounted(st: State, p: Ptr)
    requires p in st.recs && st.recs[p] in st.sets && st.Counted({})
    ensures Detach(st, p).Counted({st.recs[p]})
  {
    var st' := Detach(st, p);
    var s := st.recs[p];
    forall x | x in st'.sets
      ensures st'.sets[x].refs == st'.Count(x) + if x in {s} then 1 else 0
    {
      assert st'.Forwarders(x) == st.Forwarders(x);
      if x == s {
        assert st.Namers(s) == st'.Namers(s) + {p};
      } else {
        assert st'.Namers(x) == st.Namers(x);
      }
      assert st.sets[x].refs == st.Count(x);
    }
  }

  lemma {:induction false} DetachContents(st: State, p: Ptr, aa: Oracle)
    requires p in st.recs && st.recs[p] in st.sets && st.Tracks(p) && st.HomeOf(p) == st.recs[p] && Contents(st, aa)
    ensures Contents(Detach(st, p), aa)
  {
    var st' := Detach(st, p);
    var s := st.recs[p];
    assert NoDuplicates(st.sets[s].ptrs);
    WithoutElements(st.sets[s].ptrs, p);
    hide Without, NoDuplicates;
    forall x, q | st'.On(x, q)
      ensures st.On(x, q) && q != p
    {
      assert st.On(x, q);
    }
    forall x, i | st'.Holds(x, i)
      ensures st.Holds(x, i)
    {
    }
    forall q | q in st'.recs
      ensures st'.Tracks(q) && st'.HomeOf(q) == st.HomeOf(q) && st'.On(st.HomeOf(q), q)
    {
      assert st.On(st.HomeOf(q), q);
    }
    forall q, r | st'.Tracks(q) && st'.Tracks(r) && aa.alias(q, r) != NoAlias
      ensures st'.HomeOf(q) == st'.HomeOf(r)
    {
      assert st.Tracks(q) && st.Tracks(r);
    }
  }

  // ----- the edits and the whole invariant -----

  lemma {:induction false} MergeContents(st: State, s: Id, t: Id, may: bool, aa: Oracle, l: Ptr, r: Ptr)
    requires s in st.sets && t in st.sets && s != t && Contents(st, aa) && aa.Coherent()
    requires !may ==> !st.sets[s].may && !st.sets[t].may && st.On(s, l) && st.On(t, r) && aa.alias(l, r) == MustAlias
    ensures Contents(Merge(st, s, t, may), aa)
  {
    MergeListed(st, s, t, may);
    MergeMust(st, s, t, may, aa, l, r);
    MergePartition(st, s, t, may, aa);
  }

  lemma {:induction false} MergeLive(st: State, s: Id, t: Id, may: bool, except: set<Id>)
    requires st.Active(s) && st.Active(t) && s != t && st.Counted({}) && st.Live(except) && t !in except
    ensures Merge(st, s, t, may).Live(except - {s})
  {
    assert st.sets[s].refs == st.Count(s);
  }

  lemma {:induction false} MergeKeeps(st: State, s: Id, t: Id, may: bool, aa: Oracle, except: set<Id>, l: Ptr, r: Ptr)
    requires st.Inv(aa, {}, except) && Mergeable(st, s, t) && (st.sets[s].may ==> may) && aa.Coherent()
    requires !may ==> !st.sets[s].may && !st.sets[t].may && st.On(s, l) && st.On(t, r) && aa.alias(l, r) == MustAlias
    requires t !in except
    ensures Merge(st, s, t, may).Inv(aa, OwedAfterMerge(st.sets[t], t), except - {s})
  {
    MergeShape(st, s, t, may);
    MergeCounted(st, s, t, may);
    MergeContents(st, s, t, may, aa, l, r);
    MergeLive(st, s, t, may, except);
  }

  lemma {:induction false} NewSetKeeps(st: State, a: AliasSet, aa: Oracle)
    requires st.Inv(aa, {}, {}) && st.any.None?
    requires a.ptrs == [] && a.unknown == [] && a.forward.None? && a.refs == 0 && (a.any ==> a.may)
    ensures NewSet(st, a).Inv(aa, {}, {st.next})
  {
    NewSetShape(st, a);
    NewSetCounted(st, a);
    NewSetContents(st, a, aa);
  }

  lemma {:induction false} AttachShape(st: State, s: Id, p: Ptr, may: bool)
    requires st.Shape() && st.Active(s) && (st.sets[s].may ==> may)
    ensures Attach(st, s, p, may).Shape()
  {
  }

  lemma {:induction false} AttachKeeps(st: State, s: Id, p: Ptr, may: bool, aa: Oracle, except: set<Id>)
    requires st.Inv(aa, {}, except) && st.Active(s) && p !in st.recs && aa.Coherent() && except <= {s}
    requires OnlyAliases(st, s, p, aa) && (st.sets[s].may ==> may)
    requires !may ==> forall q :: st.On(s, q) ==> aa.alias(q, p) == MustAlias
    ensures Attach(st, s, p, may).Inv(aa, {}, {})
  {
    var st' := Attach(st, s, p, may);
    OfInv(st, aa, {}, except);
    AttachLive(st, s, p, may, except);
    hide State.Inv, State.Shape, State.Counted, State.Live, Contents, Homes, Attach;
    AttachShape(st, s, p, may);
    AttachCounted(st, s, p, may);
    AttachContents(st, s, p, may, aa);
    InvOf(st', aa, {}, {});
  }

  lemma AttachLive(st: State, s: Id, p: Ptr, may: bool, except: set<Id>)
    requires st.Counted({}) && st.Live(except) && except <= {s} && s in st.sets
    ensures Attach(st, s, p, may).Live({})
  {
    assert st.sets[s].refs == st.Count(s);
  }

  lemma {:induction false} AttachInstShape(st: State, s: Id, i: Inst, writes: bool)
    requires st.Shape() && st.Active(s)
    ensures AttachInst(st, s, i, writes).Shape()
  {
  }

  lemma {:induction false} AttachInstKeeps(st: State, s: Id, i: Inst, writes: bool, aa: Oracle, except: set<Id>)
    requires st.Inv(aa, {}, except) && st.Active(s) && except <= {s} && OnlyInterferes(st, s, i, aa)
    requires aa.writes(i) ==> writes
    ensures AttachInst(st, s, i, writes).Inv(aa, {}, {})
  {
    var st' := AttachInst(st, s, i, writes);
    AttachInstShape(st, s, i, writes);
    AttachInstCounted(st, s, i, writes);
    AttachInstContents(st, s, i, writes, aa);
    assert st'.Live({}) by {
      assert st.sets[s].refs == st.Count(s);
      assert st'.sets[s].refs == st'.Count(s);
    }
  }

  lemma {:induction false} DetachShape(st: State, p: Ptr)
    requires st.Shape() && p in st.recs && st.Active(st.recs[p])
    ensures Detach(st, p).Shape()
  {
    var st' := Detach(st, p);
    forall x | x in st'.sets
      ensures st'.ShapeAt(x)
    {
      ShapeOf(st, x);
    }
    hide State.ShapeAt, Without;
    ShapeFrom(st');
  }

  lemma {:induction false} DetachKeeps(st: State, p: Ptr, aa: Oracle)
    requires st.Inv(aa, {}, {}) && p in st.recs && st.Active(st.recs[p])
    ensures Detach(st, p).Inv(aa, {st.recs[p]}, {})
  {
    DetachShape(st, p);
    DetachCounted(st, p);
    assert st.Tracks(p) && st.HomeOf(p) == st.recs[p];
    DetachContents(st, p, aa);
  }
}
