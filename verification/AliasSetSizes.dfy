/** The counts that decide when an alias set tracker gives up: the size of each set, and the sum of the sizes of
    the sets that may alias, which is kept modulo 2^32. */
module AliasSetSizes {
  import opened AliasResults
  import opened Options
  import opened AliasSets
  import opened AliasSetEdits
  import opened AliasSetMerge

  /** Unsigned 32-bit arithmetic. */
  function Wrap(n: int): nat { n % 0x1_0000_0000 }

  /** The pointers of set s if it is an active "may" set. */
  function MayPtrsOf(sets: map<Id, AliasSet>, s: Id): nat {
    if s in sets && sets[s].forward.None? && sets[s].may then |sets[s].ptrs| else 0
  }

  /** How many pointers there are in active "may" sets in front of n on the list. */
  function MayPtrs(sets: map<Id, AliasSet>, n: Id): nat {
    if n == 0 then 0 else MayPtrs(sets, n - 1) + MayPtrsOf(sets, n - 1)
  }

  /** Every set has the size that is recorded, and the total counts the pointers of the sets that may alias. */
  ghost predicate Sized(st: State, total: nat) {
    && (forall s :: s in st.sets ==> s < st.next && st.sets[s].size == |st.sets[s].ptrs|)
    && total == Wrap(MayPtrs(st.sets, st.next))
  }

  lemma SizedTotal(st: State, total: nat)
    ensures Sized(st, total) ==> total == Wrap(MayPtrs(st.sets, st.next))
  {
  }

  lemma {:induction false} SameMayPtrs(sets: map<Id, AliasSet>, sets': map<Id, AliasSet>, n: Id)
    requires forall s: Id {:trigger MayPtrsOf(sets', s)} :: s < n ==> MayPtrsOf(sets', s) == MayPtrsOf(sets, s)
    ensures MayPtrs(sets', n) == MayPtrs(sets, n)
  {
    if n > 0 {
      SameMayPtrs(sets, sets', n - 1);
      assert MayPtrsOf(sets', n - 1) == MayPtrsOf(sets, n - 1);
    }
  }

  lemma {:induction false} OneMayPtrs(sets: map<Id, AliasSet>, sets': map<Id, AliasSet>, n: Id, s: Id)
    requires s < n
    requires forall x: Id {:trigger MayPtrsOf(sets', x)} :: x < n && x != s ==>
               MayPtrsOf(sets', x) == MayPtrsOf(sets, x)
    ensures MayPtrs(sets', n) == MayPtrs(sets, n) - MayPtrsOf(sets, s) + MayPtrsOf(sets', s)
  {
    if s == n - 1 {
      SameMayPtrs(sets, sets', n - 1);
    } else {
      OneMayPtrs(sets, sets', n - 1, s);
      assert MayPtrsOf(sets', n - 1) == MayPtrsOf(sets, n - 1);
    }
  }

  lemma WrapSum(n: int, k: int)
    ensures Wrap(Wrap(n) + k) == Wrap(n + k)
  {
  }

  /** Links, counts and access do not matter. */
  predicate SameSize(a: AliasSet, b: AliasSet) {
    b.ptrs == a.ptrs && b.size == a.size && b.may == a.may && b.forward.None? == a.forward.None?
  }

  lemma {:induction false} SizedAsWas(st: State, st': State, total: nat)
    requires st'.next == st.next && st'.sets.Keys == st.sets.Keys
    requires forall s :: s in st.sets ==> SameSize(st.sets[s], st'.sets[s])
    ensures Sized(st, total) ==> Sized(st', total)
  {
    SameMayPtrs(st.sets, st'.sets, st.next);
  }

  /** A set is taken off the list. */
  lemma {:induction false} SizedErase(st: State, s: Id, total: nat)
    requires s in st.sets
    ensures var a := st.sets[s];
            Sized(st, total) ==>
              Sized(Erase(st, s), if a.forward.None? && a.may then Wrap(total - a.size) else total)
  {
    if Sized(st, total) {
      OneMayPtrs(st.sets, Erase(st, s).sets, st.next, s);
      WrapSum(MayPtrs(st.sets, st.next), -|st.sets[s].ptrs|);
    }
  }

  /** The total after merging b into a. */
  function MergedTotal(total: nat, a: AliasSet, b: AliasSet, may: bool): nat {
    if may then Wrap(total + (if a.may then 0 else a.size) + (if b.may then 0 else b.size)) else total
  }

  lemma {:induction false} SizedMerge(st: State, s: Id, t: Id, may: bool, total: nat)
    requires st.Active(s) && st.Active(t) && s != t && (st.sets[s].may || st.sets[t].may ==> may)
    ensures Sized(st, total) ==>
              Sized(Merge(st, s, t, may), MergedTotal(total, st.sets[s], st.sets[t], may))
  {
    hide Wrap, MayPtrs;
    if Sized(st, total) {
      var a, b, st' := st.sets[s], st.sets[t], Merge(st, s, t, may);
      var sets1 := st.sets[s := st'.sets[s]];
      OneMayPtrs(st.sets, sets1, st.next, s);
      OneMayPtrs(sets1, st'.sets, st.next, t);
      WrapSum(MayPtrs(st.sets, st.next), (if a.may then 0 else a.size) + (if b.may then 0 else b.size));
    }
  }

  /** The total after adding a pointer to a. */
  function AddedTotal(total: nat, a: AliasSet, may: bool): nat {
    if !may then total else if a.may then Wrap(total + 1) else Wrap(Wrap(total + a.size) + 1)
  }

  lemma {:induction false} SizedAttach(st: State, s: Id, p: Ptr, may: bool, total: nat)
    requires st.Active(s) && (st.sets[s].may ==> may)
    ensures Sized(st, total) ==> Sized(Attach(st, s, p, may), AddedTotal(total, st.sets[s], may))
  {
    hide Wrap, MayPtrs;
    if Sized(st, total) {
      var a, n := st.sets[s], MayPtrs(st.sets, st.next);
      OneMayPtrs(st.sets, Attach(st, s, p, may).sets, st.next, s);
      WrapSum(n, 1);
      WrapSum(n, a.size);
      WrapSum(n + a.size, 1);
    }
  }

  lemma {:induction false} SizedNewSet(st: State, a: AliasSet, total: nat)
    requires st.next !in st.sets && a.ptrs == [] && a.size == 0
    ensures Sized(st, total) ==> Sized(NewSet(st, a), total)
  {
    var st' := NewSet(st, a);
    SameMayPtrs(st.sets, st'.sets, st.next);
    assert MayPtrsOf(st'.sets, st.next) == 0;
  }
}
