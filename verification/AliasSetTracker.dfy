/** The alias set tracker: adding pointers and instructions merges the sets they may alias; removing
    pointers reclaims sets; past a threshold everything is merged into one set for good. */
module AliasSetTracking {
  import opened AliasResults
  import opened Options
  import opened AliasSets
  import opened AliasSetEdits
  import opened AliasSetMerge
  import opened AliasSetSizes
  import opened AliasSetJoins

  /** Both bits of the two answers: what is left of "must" after a weaker answer is not "must". */
  function Both(a: AliasResult, b: AliasResult): AliasResult {
    if a == b || b == MustAlias then a
    else if a == MustAlias then b
    else NoAlias
  }

  /** From st to st', only empty sets in front of s on the list, or s itself, were reclaimed. */
  ghost predicate Reclaimed(st: State, st': State, s: Id) {
    && st'.recs == st.recs && SameContents(st, st')
    && (forall x :: x in st'.sets ==> st'.sets[x] == st.sets[x].(refs := st'.sets[x].refs))
    && (forall x :: x in st.sets && st.Rank(x) > st.Rank(s) ==> x in st'.sets)
  }

  lemma ReclaimedStep(st: State, st1: State, st': State, s: Id, f: Id)
    requires Reclaimed(st, st1, s) && Reclaimed(st1, st', f) && st.Rank(f) < st.Rank(s)
    ensures Reclaimed(st, st', s)
  {
    SameContentsTrans(st, st1, st');
    assert st1.any == st.any;
  }

  lemma ReclaimedDecrement(st: State, s: Id)
    requires s in st.sets && SameContents(st, Decrement(st, s))
    ensures Reclaimed(st, Decrement(st, s), s)
  {
  }

  lemma ReclaimedTrans(st: State, st1: State, st': State, s: Id)
    requires Reclaimed(st, st1, s) && Reclaimed(st1, st', s)
    ensures Reclaimed(st, st', s)
  {
    SameContentsTrans(st, st1, st');
    assert st1.any == st.any;
  }

  lemma PinnedDecrement(st: State, s: Id)
    requires s in st.sets && Pinned(st, s)
    ensures Pinned(Decrement(st, s), s)
  {
    var st' := Decrement(st, s);
    if st.any.Some? && st.any.value in st.sets && st.sets[st.any.value].unknown == [] {
      assert st'.Namers(st.any.value) == st.Namers(st.any.value);
      if st.Namers(st.any.value) == {} {
        var z :| z in st.Forwarders(st.any.value) && st.Rank(z) > st.Rank(s);
        assert z in st'.Forwarders(st.any.value);
      }
    }
  }

  lemma ReclaimedCollapsed(st: State, st': State, s: Id)
    requires st.Collapsed() && Reclaimed(st, st', s)
    ensures st'.Collapsed()
  {
  }

  /** A set that forwards in a saturated tracker forwards to the saturated set. */
  lemma SaturatedForward(st: State, s: Id)
    requires st.Shape() && st.Collapsed() && st.any.Some? && s in st.sets && st.sets[s].forward.Some?
    ensures st.sets[s].forward == st.any && st.home[s] == st.any.value == st.home[st.any.value]
  {
  }

  /** The saturated set, once a record names it, is pinned by that. */
  lemma RenamePinned(st: State, p: Ptr, d: Id, aa: Oracle)
    requires st.Valid(aa) && p in st.recs && st.recs[p] in st.sets && d == st.home[st.recs[p]] && d in st.sets
    ensures Pinned(Rename(st, p, d), st.recs[p])
  {
    if st.any.Some? {
      SaturatedHomes(st, aa);
      assert p in Rename(st, p, d).Namers(d);
    }
  }

  lemma RenameCollapsed(st: State, p: Ptr, d: Id, st': State, s: Id)
    requires st.Collapsed() && p in st.recs && d in st.sets && Reclaimed(Rename(st, p, d), st', s)
    ensures st'.Collapsed()
  {
    assert Rename(st, p, d).Collapsed();
  }

  /** Everything in a saturated tracker refers to the saturated set, if only by way of a set that does. */
  lemma {:induction false} AllReferring(st: State, s: Id)
    requires st.Shape() && st.Collapsed() && st.any == Some(s)
    ensures st.sets.Keys == {s} + st.Forwarders(s)
    ensures forall q :: q in st.recs ==> q in st.Namers(s) || st.recs[q] in st.Forwarders(s)
  {
    forall x
      ensures x in st.sets <==> x == s || x in st.Forwarders(s)
    {
    }
  }

  /** A set that forwards to the saturated set is named by a record. */
  lemma {:induction false} ForwardersNamed(st: State, s: Id, x: Id)
    requires st.Shape() && st.Collapsed() && st.any == Some(s) && st.Counted({s}) && st.Live({})
             && x in st.Forwarders(s)
    ensures st.Namers(x) != {}
  {
    assert st.sets[x].refs == st.Count(x) > 0;
    assert forall y :: y in st.sets ==> st.sets[y].forward != Some(x);
    assert st.Forwarders(x) == {};
  }

  /** The tracker is saturated, and holds p but no other pointer and no instruction. */
  ghost predicate HoldsOnly(st: State, p: Ptr) {
    st.any.Some? && st.recs.Keys == {p} && forall x, i :: !st.Holds(x, i)
  }

  lemma SameLoss(st: State, st': State, p: Ptr)
    requires SameContents(st, st')
    ensures HoldsOnly(st, p) <==> HoldsOnly(st', p)
  {
    forall x, i
      ensures st'.Holds(x, i) <==> st.Holds(x, i)
    {
    }
  }

  /** The record of p was the last reference to its set exactly if the tracker is saturated and holds
      nothing else. */
  lemma {:induction false} LastReference(st: State, p: Ptr, s: Id, aa: Oracle)
    requires st.Valid(aa) && p in st.recs && st.recs[p] == s && st.Active(s) && Detach(st, p).Inv(aa, {s}, {})
    ensures var st' := Detach(st, p);
            && st'.Collapsed() && st'.any == st.any
            && (st.any == Some(s) && st'.sets[s].refs == 1 <==> HoldsOnly(st, p))
            && st'.Active(s)
            && (if st.any == Some(s) && st'.sets[s].refs == 1
                then st'.home.Keys == {s} && st'.sets.Keys == {s} && st'.recs == map[] && st'.sets[s].ptrs == []
                  && st'.sets[s].unknown == []
                else Pinned(st', s))
  {
    var st' := Detach(st, p);
    assert st'.Collapsed();
    if st.any.Some? {
      SaturatedHomes(st, aa);
      LastSaturated(st, st', p, s);
    }
  }

  lemma {:induction false} LastSaturated(st: State, st': State, p: Ptr, s: Id)
    requires p in st.recs && st.recs[p] == s && s in st.sets && st' == Detach(st, p) && st'.Shape() && st'.Listed()
             && st'.Collapsed()
    requires st'.Counted({s}) && st'.Live({}) && st.any == Some(s) && forall x, i :: st.Holds(x, i) ==> x == s
    ensures st'.sets[s].refs == 1 <==> st.recs.Keys == {p} && forall x, i :: !st.Holds(x, i)
    ensures if st'.sets[s].refs == 1
            then st'.sets.Keys == {s} && st'.recs == map[] && st'.sets[s].ptrs == [] && st'.sets[s].unknown == []
            else Pinned(st', s)
  {
    assert st'.sets[s].refs == st'.Count(s) + 1;
    assert st'.sets[s].unknown == st.sets[s].unknown;
    AllReferring(st', s);
    if st'.Count(s) == 0 {
      assert st'.Namers(s) == {} && st'.Forwarders(s) == {};
      assert st'.recs.Keys == {};
      assert st.recs.Keys == st'.recs.Keys + {p};
      if st'.sets[s].ptrs != [] {
        assert st'.On(s, st'.sets[s].ptrs[0]);
      }
    } else {
      if st.recs.Keys == {p} {
        assert st'.recs.Keys == {};
        assert st'.Namers(s) == {};
        if x :| x in st'.Forwarders(s) {
          ForwardersNamed(st', s, x);
          assert false;
        }
        assert st.Holds(s, st.sets[s].unknown[0]);
      }
      if st'.Namers(s) == {} && st'.sets[s].unknown == [] {
        var z :| z in st'.Forwarders(s);
        assert st'.Rank(z) > st'.Rank(s);
      }
    }
  }

  lemma ReclaimedErase(st: State, s: Id)
    requires s in st.sets && SameContents(st, Erase(st, s))
    ensures Reclaimed(st, Erase(st, s), s)
  {
  }

  lemma PinnedErase(st: State, s: Id, f: Id)
    requires s in st.sets && Pinned(st, s) && st.Rank(f) < st.Rank(s) && st.any != Some(s)
    ensures Pinned(Erase(st, s), f)
  {
    var st' := Erase(st, s);
    if st.any.Some? && st.any.value in st.sets && st.sets[st.any.value].unknown == [] {
      assert st'.Namers(st.any.value) == st.Namers(st.any.value);
      if st.Namers(st.any.value) == {} {
        var z :| z in st.Forwarders(st.any.value) && st.Rank(z) > st.Rank(s);
        assert z in st'.Forwarders(st.any.value);
      }
    }
  }

  /** Something that is not between s and the front of the list keeps the saturated set alive. */
  ghost predicate Pinned(st: State, s: Id) {
    st.any.Some? && st.any.value in st.sets ==>
      || st.sets[st.any.value].unknown != []
      || st.Namers(st.any.value) != {}
      || exists z :: z in st.Forwarders(st.any.value) && st.Rank(z) > st.Rank(s)
  }

  lemma PinnedCounts(st: State, s: Id)
    requires st.Shape() && st.Counted({}) && Pinned(st, s) && st.any == Some(s)
    ensures st.sets[s].refs > 0
  {
    assert st.sets[s].refs == st.Count(s);
    if st.sets[s].unknown == [] && st.Namers(s) == {} {
      var z :| z in st.Forwarders(s);
      assert |st.Forwarders(s)| > 0;
    }
  }

  lemma ValidInv(st: State, aa: Oracle)
    requires st.Valid(aa)
    ensures st.Inv(aa, {}, {}) && st.Collapsed()
  {
  }

  /** From st to st', those of the sets in front of n that may interfere with i have become one; a
      saturated tracker has only one. */
  ghost predicate Sought(st: State, st': State, i: Inst, found: Option<Id>, n: Id, aa: Oracle) {
    && st'.Inv(aa, {}, {}) && st'.any == st.any && st'.next == st.next
    && (st'.any.Some? ==> st' == st && (found.Some? ==> found == st'.any))
    && UnitedBelow(st, st', found, InstHits(st, i, aa), n) && SettledInst(st', found, n, i, aa) && AccessKept(st, st')
    && (found.Some? ==> found.value < n && st'.Active(found.value))
  }

  lemma SoughtShape(st: State, st': State, i: Inst, found: Option<Id>, n: Id, aa: Oracle)
    requires Sought(st, st', i, found, n, aa)
    ensures st'.Shape()
  {
  }

  lemma SoughtHit(st: State, st': State, i: Inst, found: Option<Id>, n: Id, aa: Oracle)
    requires Sought(st, st', i, found, n, aa) && st.Valid(aa) && st'.Active(n) && MeetsInst(st', n, i, aa)
    ensures st'.Inv(aa, {}, {}) && (found.Some? ==> st'.any.None? && st.any.None?)
    ensures UnitedBelow(st, st', found, InstHits(st, i, aa), n) && n in InstHits(st, i, aa) && AccessKept(st, st')
    ensures found.Some? ==> found.value < n && st'.Active(found.value)
  {
    SameMeetsInst(st, st', n, i, aa);
    OnlyOneActive(st, aa, n);
  }

  lemma SoughtSkip(st: State, st': State, i: Inst, found: Option<Id>, n: Id, aa: Oracle)
    requires Sought(st, st', i, found, n, aa) && (st'.Active(n) ==> !MeetsInst(st', n, i, aa))
    ensures Sought(st, st', i, found, n + 1, aa)
  {
    hide State.Inv, State.Active, AccessKept, SettledInst, MeetsInst, UnitedBelow, InstHits;
    NotInstHit(st, st', i, found, n, aa);
    SettledInstSkip(st', found, n, i, aa);
    UnitedSkip(st, st', found, InstHits(st, i, aa), n);
  }

  lemma SettledInstSkip(st: State, found: Option<Id>, n: Id, i: Inst, aa: Oracle)
    requires SettledInst(st, found, n, i, aa) && (st.Active(n) ==> !MeetsInst(st, n, i, aa))
    ensures SettledInst(st, found, n + 1, i, aa)
  {
  }

  lemma NotInstHit(st: State, st': State, i: Inst, found: Option<Id>, n: Id, aa: Oracle)
    requires UnitedBelow(st, st', found, InstHits(st, i, aa), n) && (st'.Active(n) ==> !MeetsInst(st', n, i, aa))
    ensures n !in InstHits(st, i, aa)
  {
    if n in st.sets {
      SameMeetsInst(st, st', n, i, aa);
    }
  }

  lemma SoughtAbsorbed(st: State, st1: State, st': State, i: Inst, found: Option<Id>, n: Id, aa: Oracle)
    requires Sought(st, st1, i, found, n, aa) && st.Valid(aa) && st1.Active(n) && MeetsInst(st1, n, i, aa)
    requires var found' := if found.None? then Some(n) else found;
             && st'.Inv(aa, {}, {}) && UnitedBelow(st, st', found', InstHits(st, i, aa), n + 1) && AccessKept(st, st')
             && found'.value <= n && st'.Active(found'.value) && Absorbed(st1, st', found, n)
    ensures Sought(st, st', i, if found.None? then Some(n) else found, n + 1, aa)
  {
    OnlyOneActive(st, aa, n);
    hide State.Inv, AccessKept, State.Valid;
    AbsorbedSettledInst(st1, st', found, n, i, aa);
  }

  lemma UnsaturatedValid(st: State, aa: Oracle)
    requires st.Inv(aa, {}, {}) && st.any.None?
    ensures st.Valid(aa)
  {
  }

  lemma SameKeys(st: State, st': State, p: Ptr)
    requires SameContents(st, st') && Homes(st)
    ensures st'.recs.Keys == st.recs.Keys && st'.any == st.any
    ensures p in st.recs ==> st.Tracks(p) && st'.Tracks(p) && st'.HomeOf(p) == st.HomeOf(p)
  {
  }

  lemma KeptAsIs(st: State, aa: Oracle)
    requires st.Valid(aa)
    ensures AccessKept(st, st)
  {
    HomesListed(st);
    AccessKeptRefl(st);
  }

  lemma SearchStarts(st: State, p: Ptr, aa: Oracle, at: Oracle)
    requires st.Inv(aa, {}, {})
    ensures UnitedBelow(st, st, None, Hits(st, p, at), 0) && Settled(st, None, 0, p, at) && AccessKept(st, st)
  {
    HomesListed(st);
    UnitedStart(st, Hits(st, p, at));
    AccessKeptRefl(st);
  }

  lemma HitIfMeets(st: State, st': State, found: Option<Id>, n: Id, p: Ptr, aa: Oracle)
    requires UnitedBelow(st, st', found, Hits(st, p, aa), n)
    ensures n in Hits(st, p, aa) <==> st'.Active(n) && Meets(st', n, p, aa)
  {
    if n in st.sets {
      SameMeets(st, st', n, p, aa);
    }
  }

  lemma OnlyOneActive(st: State, aa: Oracle, s: Id)
    requires st.Valid(aa)
    ensures st.any.Some? && st.Active(s) ==> Some(s) == st.any
  {
  }

  // ----- locations -----

  /** An access of p at its location in at. If p is known, only a location that grows is another one. */
  ghost predicate Locates(aa: Oracle, at: Oracle, p: Ptr, known: bool, grows: bool) {
    (known && !grows) || (at.Coherent() && aa.Relocates(at, p) && (known ==> aa.SameMust(at)))
  }

  /** What alias analysis answers after it. */
  function Located(aa: Oracle, at: Oracle, known: bool, grows: bool): Oracle {
    if known && !grows then aa else at
  }

  lemma LocatedCoherent(aa: Oracle, at: Oracle, p: Ptr, known: bool, grows: bool)
    requires aa.Coherent() && Locates(aa, at, p, known, grows)
    ensures Located(aa, at, known, grows).Coherent()
  {
  }

  lemma SameMustSets(st: State, aa: Oracle, at: Oracle)
    requires st.MustSets(aa) && aa.SameMust(at)
    ensures st.MustSets(at)
  {
  }

  /** The location of a pointer that is not tracked does not matter. */
  lemma {:induction false} RelocatedNew(st: State, aa: Oracle, at: Oracle, p: Ptr)
    requires st.Inv(aa, {}, {}) && aa.Relocates(at, p) && p !in st.recs
    ensures st.Inv(at, {}, {})
  {
    hide State.Shape, State.Counted, State.Live;
    assert forall s, q :: st.On(s, q) ==> q != p;
    assert forall q :: st.Tracks(q) ==> q != p;
  }

  /** Nor does any location in a saturated tracker. */
  lemma {:induction false} RelocatedSaturated(st: State, aa: Oracle, at: Oracle)
    requires st.Valid(aa) && st.any.Some? && aa.SameInsts(at)
    ensures st.Valid(at)
  {
    SaturatedHomes(st, aa);
    forall s, p | st.On(s, p)
      ensures st.sets[s].may
    {
      assert s == st.any.value;
    }
  }

  /** Once only the set that p is in may alias p at its new location, locations do not matter either. */
  lemma {:induction false} RelocatedGrown(st: State, aa: Oracle, at: Oracle, p: Ptr, found: Option<Id>)
    requires st.Inv(aa, {}, {}) && p in st.recs && aa.Relocates(at, p) && aa.SameMust(at) && at.Coherent()
    requires Settled(st, found, st.next, p, at) && found.Some? && st.Tracks(p) && st.HomeOf(p) == found.value
    ensures st.Inv(at, {}, {})
  {
    SameMustSets(st, aa, at);
    forall q | st.Tracks(q) && at.alias(p, q) != NoAlias
      ensures st.HomeOf(q) == st.HomeOf(p)
    {
      HomeRank(st, st.recs[q]);
      assert st.On(st.HomeOf(q), q);
    }
    forall s: Id, i | st.Holds(s, i) && at.touches(i, p)
      ensures s == st.HomeOf(p)
    {
      assert st.Active(s);
    }
    RelocatedPartition(st, aa, at, p);
  }

  lemma {:induction false} RelocatedPartition(st: State, aa: Oracle, at: Oracle, p: Ptr)
    requires st.Partition(aa) && aa.Relocates(at, p) && at.Coherent() && st.Tracks(p)
    requires forall q :: st.Tracks(q) && at.alias(p, q) != NoAlias ==> st.HomeOf(q) == st.HomeOf(p)
    requires forall s: Id, i :: st.Holds(s, i) && at.touches(i, p) ==> s == st.HomeOf(p)
    ensures st.Partition(at)
  {
    forall q, r | st.Tracks(q) && st.Tracks(r) && at.alias(q, r) != NoAlias
      ensures st.HomeOf(q) == st.HomeOf(r)
    {
      assert at.alias(q, r) == at.alias(r, q);
    }
  }

  class AliasSetTracker {
    const threshold: nat

    var aa: Oracle
    var sets: map<Id, AliasSet>
    var recs: map<Ptr, Id>
    var anyAS: Option<Id>
    var nextId: Id
    var total: nat  // TotalMayAliasSetSize
    ghost var home: map<Id, Id>

    ghost function St(): State
      reads this
    {
      State(sets, recs, anyAS, nextId, home)
    }

    // ----- reference counting -----

    method DropRef(s: Id, ghost except: set<Id>)
      requires s in sets && St().Inv(aa, {s}, except) && Pinned(St(), s)
      modifies `sets, `total, `home
      ensures St().Inv(aa, {}, except) && Reclaimed(old(St()), St(), s)
      ensures Sized(old(St()), old(total)) ==> Sized(St(), total)
      decreases St().Rank(s), 1
    {
      hide Sized, State.Shape, State.Counted, State.Listed, State.MustSets, State.Partition;
      ghost var st := St();
      sets := sets[s := sets[s].(refs := sets[s].refs - 1)];
      assert St() == Decrement(st, s);
      DecrementKeeps(st, s, aa, except);
      ReclaimedDecrement(st, s);
      SizedAsWas(st, St(), total);
      if sets[s].refs == 0 {
        ghost var st1 := St();
        PinnedDecrement(st, s);
        if anyAS == Some(s) {
          PinnedCounts(st1, s);
        }
        RemoveAliasSet(s, except);
        ReclaimedTrans(st, st1, St(), s);
      }
    }

    method RemoveAliasSet(s: Id, ghost except: set<Id>)
      requires s in sets && sets[s].refs == 0 && anyAS != Some(s)
      requires St().Inv(aa, {}, except + {s}) && Pinned(St(), s)
      modifies `sets, `total, `home
      ensures St().Inv(aa, {}, except) && Reclaimed(old(St()), St(), s)
      ensures Sized(old(St()), old(total)) ==> Sized(St(), total)
      decreases St().Rank(s), 0
    {
      hide Sized, State.Shape, State.Counted, State.Listed, State.MustSets, State.Partition;
      ghost var st := St();
      ForwardStep(st, s);
      var a := sets[s];
      SizedErase(st, s, total);
      if a.forward.None? && a.may {
        total := Wrap(total - a.size);
      }
      sets, home := sets - {s}, home - {s};
      assert St() == Erase(st, s);
      EraseKeeps(st, s, aa, except);
      ReclaimedErase(st, s);
      if a.forward.Some? {
        ghost var st1 := St();
        PinnedErase(st, s, a.forward.value);
        DropRef(a.forward.value, except);
        ReclaimedStep(st, st1, St(), s, a.forward.value);
      }
    }

    // ----- following forwarding pointers -----

    /** Follows the forwarding pointers of s and makes every set on the way forward to the end. */
    method GetForwardedTarget(s: Id) returns (d: Id)
      requires St().Valid(aa) && s in sets
      modifies `sets, `total, `home
      ensures St().Valid(aa) && Compressed(old(St()), St(), s)
      ensures s in sets && d in sets && d == old(home[s])
      ensures sets[s].forward == if d == s then None else Some(d)
      ensures Sized(old(St()), old(total)) ==> Sized(St(), total)
      decreases St().Rank(s)
    {
      hide Sized, State.Shape, State.Counted, State.Listed, State.MustSets, State.Partition;
      ghost var st := St();
      ForwardStep(st, s);
      var forward := sets[s].forward;
      if forward.None? {
        CompressedNothing(st, s);
        return s;
      }
      if anyAS.Some? {
        SaturatedForward(st, s);
      }
      d := GetForwardedTarget(forward.value);
      ghost var st1 := St();
      CompressedHigher(st, st1, s, forward.value);
      HomeRank(st1, s);
      ForwardStep(st1, s);
      if d != forward.value {
        ForwardTo(s, d);
        CompressedTrans(st, st1, St(), s);
        ForwardStep(St(), s);
      }
    }

    /** Makes s forward to d instead of to a set that leads there. */
    method ForwardTo(s: Id, d: Id)
      requires St().Inv(aa, {}, {}) && anyAS.None? && s in sets && sets[s].forward.Some?
      requires d == home[s] && d != sets[s].forward.value
      modifies `sets, `total, `home
      ensures St().Inv(aa, {}, {}) && Compressed(old(St()), St(), s)
      ensures s in sets && sets[s].forward == Some(d)
      ensures Sized(old(St()), old(total)) ==> Sized(St(), total)
    {
      hide Sized, State.Shape, State.Counted, State.Listed, State.MustSets, State.Partition;
      ghost var st := St();
      var was := sets[s].forward.value;
      ForwardStep(st, s);
      RedirectKeeps(st, s, d, aa);
      var sets1 := sets[s := sets[s].(forward := Some(d))];
      sets := sets1[d := sets1[d].(refs := sets1[d].refs + 1)];
      ghost var st1 := St();
      SizedAsWas(st, st1, total);
      DropRef(was, {});
      CompressedRedirect(st, st1, St(), s, d, was);
    }

    /** The set that the record of p names, after making it name an active set. */
    method GetAliasSet(p: Ptr) returns (s: Id)
      requires St().Valid(aa) && p in recs
      modifies `sets, `total, `home, `recs
      ensures St().Valid(aa) && SameContents(old(St()), St())
      ensures p in recs && recs[p] == s && s == old(St().HomeOf(p)) && St().Active(s)
      ensures Sized(old(St()), old(total)) ==> Sized(St(), total)
    {
      hide Sized, State.Shape, State.Counted, State.Listed, State.MustSets, State.Partition;
      ghost var st := St();
      s := recs[p];
      NamedSet(st, p);
      ForwardStep(st, s);
      if sets[s].forward.Some? {
        s := GetForwardedTarget(s);
        ghost var st1 := St();
        NameActive(p, s);
        SameContentsTrans(st, st1, St());
      } else {
        SameContentsRefl(st);
      }
    }

    /** Makes the record of p name d instead of a set that leads there. */
    method NameActive(p: Ptr, d: Id)
      requires St().Valid(aa) && p in recs && d == home[recs[p]] && d != recs[p]
      modifies `sets, `total, `home, `recs
      ensures St().Valid(aa) && SameContents(old(St()), St()) && p in recs && recs[p] == d && St().Active(d)
      ensures Sized(old(St()), old(total)) ==> Sized(St(), total)
    {
      hide Sized, State.Shape, State.Counted, State.Listed, State.MustSets, State.Partition;
      ghost var st := St();
      var was := recs[p];
      NamedSet(st, p);
      RenameKeeps(st, p, d, aa);
      HomeRank(st, was);
      recs, sets := recs[p := d], sets[d := sets[d].(refs := sets[d].refs + 1)];
      ghost var st1 := St();
      SizedAsWas(st, st1, total);
      RenamePinned(st, p, d, aa);
      DropRef(was, {});
      SameContentsTrans(st, st1, St());
      RenameCollapsed(st, p, d, St(), was);
    }
  
    // ----- merging -----

    /** Merges t into s. */
    method MergeSetIn(s: Id, t: Id, ghost except: set<Id>)
      requires St().Inv(aa, {}, except) && Mergeable(St(), s, t) && aa.Coherent()
      requires except <= {s} && (s in except ==> sets[s].may)
      requires anyAS.Some? ==> anyAS == Some(s)
      modifies `sets, `total, `home
      ensures St().Inv(aa, {}, {}) && Merged(old(St()), St(), s, t)
      ensures sets[s].may <==> Weakened(aa, old(sets)[s], old(sets)[t])
      ensures Sized(old(St()), old(total)) ==> Sized(St(), total)
    {
      hide Sized, State.Inv, Mergeable, Merged, Weakened, Pinned, Reclaimed, Merge, MergedHome, Wrap, Oracle.Coherent;
      ghost var st := St();
      MergeableSets(st, s, t);
      var a, b := sets[s], sets[t];
      var may := WeakenedByMerge(s, t, except);
      SizedMerge(st, s, t, may, total);
      if may {
        total := Wrap(total + (if a.may then 0 else a.size) + (if b.may then 0 else b.size));
      }
      ghost var l := if a.ptrs == [] then 0 else a.ptrs[0];
      ghost var r := if b.ptrs == [] then 0 else b.ptrs[0];
      MergeKeeps(st, s, t, may, aa, except, l, r);
      assert except - {s} == {};
      MergeSets(s, t, may);
      ghost var st1 := St();
      MergedNow(st, s, t, may);
      if b.unknown != [] {
        MergedPinned(st, s, t, may);
        DropRef(t, {});
        MergedReclaimed(st, st1, St(), s, t);
      }
    }

    /** Whether merging t into s yields a set of pointers that need not all alias. */
    method WeakenedByMerge(s: Id, t: Id, ghost except: set<Id>) returns (may: bool)
      requires St().Inv(aa, {}, except) && Mergeable(St(), s, t)
      requires except <= {s} && (s in except ==> sets[s].may)
      ensures may <==> Weakened(aa, sets[s], sets[t])
      ensures !may ==> sets[s].ptrs != [] && sets[t].ptrs != []
      ensures sets[s].may || sets[t].may ==> may
      ensures !may ==> aa.alias(sets[s].ptrs[0], sets[t].ptrs[0]) == MustAlias
    {
      hide State.Shape, State.Counted, State.Listed, State.MustSets, State.Partition;
      may := sets[s].may || sets[t].may;
      if !may {
        assert except == {};
        // both sets still are "must" sets, so any pointer stands for its set
        MustSetsHavePointers(St(), s, aa);
        MustSetsHavePointers(St(), t, aa);
        may := aa.alias(sets[s].ptrs[0], sets[t].ptrs[0]) != MustAlias;
      }
    }

    /** Moves the contents of t to s and forwards t. */
    method MergeSets(s: Id, t: Id, may: bool)
      requires s in sets && t in sets && s != t
      modifies `sets, `home
      ensures St() == Merge(old(St()), s, t, may)
    {
      var a, b := sets[s], sets[t];
      var unknown, refs := a.unknown, a.refs;
      if b.unknown != [] {
        if a.unknown == [] {
          refs := refs + 1;
        }
        unknown := a.unknown + b.unknown;
      }
      assert unknown == a.unknown + b.unknown;
      refs := refs + 1;  // for t, which forwards to s now
      var ptrs, size, emptied := a.ptrs, a.size, b.size;
      if b.ptrs != [] {
        ptrs, size, emptied := a.ptrs + b.ptrs, a.size + b.size, 0;
      }
      assert ptrs == a.ptrs + b.ptrs;
      var a' := a.(ptrs := ptrs, unknown := unknown, refs := refs,
                   ref := a.ref || b.ref, mod := a.mod || b.mod, may := may, size := size);
      var b' := b.(ptrs := [], unknown := [], forward := Some(s), size := emptied);
      sets := sets[s := a'];
      sets := sets[t := b'];
      home := MergedHome(home, s, t);
    }

    // ----- what a set may alias -----

    /** Whether p, at its location in at, may alias something in s. */
    method AliasesPointer(s: Id, p: Ptr, at: Oracle) returns (ar: AliasResult)
      requires St().Inv(aa, {}, {}) && St().Active(s) && St().MustSets(at) && at.Coherent()
      ensures ar == NoAlias <==> !Meets(St(), s, p, at)
      ensures ar == MustAlias ==> AllMust(St(), s, p, at)
    {
      hide State.Shape, State.Counted, State.Listed, State.MustSets, State.Partition;
      var a := sets[s];
      if a.any {
        return MayAlias;
      }
      if !a.may {
        MustSetsHavePointers(St(), s, aa);
        ar := at.alias(a.ptrs[0], p);
        MustSetMeets(St(), s, p, at);
        return;
      }
      for k := 0 to |a.ptrs|
        invariant forall j :: 0 <= j < k ==> at.alias(p, a.ptrs[j]) == NoAlias
      {
        if at.alias(p, a.ptrs[k]) != NoAlias {
          assert St().On(s, a.ptrs[k]);
          return at.alias(p, a.ptrs[k]);
        }
      }
      for k := 0 to |a.unknown|
        invariant forall j :: 0 <= j < k ==> !at.touches(a.unknown[j], p)
      {
        if at.touches(a.unknown[k], p) {
          assert St().Holds(s, a.unknown[k]);
          return MayAlias;
        }
      }
      return NoAlias;
    }

    method AliasesUnknownInst(s: Id, i: Inst) returns (aliases: bool)
      requires St().Shape() && St().Active(s)
      ensures aliases <==> MeetsInst(St(), s, i, aa)
    {
      hide State.Shape, State.Counted, State.Listed, State.MustSets, State.Partition;
      var a := sets[s];
      if a.any {
        return true;
      }
      for k := 0 to |a.unknown|
        invariant forall j :: 0 <= j < k ==> !aa.Conflict(a.unknown[j], i)
      {
        if aa.Conflict(a.unknown[k], i) {
          assert St().Holds(s, a.unknown[k]);
          return true;
        }
      }
      for k := 0 to |a.ptrs|
        invariant forall j :: 0 <= j < k ==> !aa.touches(i, a.ptrs[j])
      {
        if aa.touches(i, a.ptrs[k]) {
          assert St().On(s, a.ptrs[k]);
          return true;
        }
      }
      return false;
    }
  
    /** Merges all sets that p, at its location in at, may alias; tells which set they became and whether p
        must alias everything in it. */
    method MergeAliasSetsForPointer(p: Ptr, at: Oracle) returns (found: Option<Id>, mustAliasAll: bool)
      requires St().Inv(aa, {}, {}) && anyAS.None? && aa.Coherent() && aa.SameMust(at) && at.Coherent()
      modifies `sets, `total, `home
      ensures St().Inv(aa, {}, {})
      ensures UnitedBelow(old(St()), St(), found, Hits(old(St()), p, at), nextId) && AccessKept(old(St()), St())
      ensures Settled(St(), found, nextId, p, at)
      ensures found.Some? ==> St().Active(found.value)
      ensures found.Some? && mustAliasAll ==> AllMust(St(), found.value, p, at)
      ensures MayGathered(old(St()), St(), found, Hits(old(St()), p, at), nextId, aa)
      ensures Sized(old(St()), old(total)) ==> Sized(St(), total)
    {
      hide MayGathered, Sized, State.Inv, UnitedBelow, Settled, AccessKept, AllMust, Hits, Meets, Homes;
      ghost var st := St();
      ghost var hits := Hits(st, p, at);
      found := None;
      var allAR := MustAlias;
      SearchStarts(st, p, aa, at);
      NothingGathered(st, hits, aa);
      for cur := 0 to nextId
        invariant St().Inv(aa, {}, {}) && anyAS.None? && nextId == st.next
        invariant UnitedBelow(st, St(), found, hits, cur) && Settled(St(), found, cur, p, at) && AccessKept(st, St())
        invariant found.Some? ==> found.value < cur && St().Active(found.value)
        invariant Sized(st, old(total)) ==> Sized(St(), total)
        invariant found.Some? && allAR == MustAlias ==> AllMust(St(), found.value, p, at)
        invariant MayGathered(st, St(), found, hits, cur, aa)
      {
        HitIfMeets(st, St(), found, cur, p, at);
        if cur in sets && sets[cur].forward.None? {
          found, allAR := VisitSet(cur, p, at, found, allAR, st, hits);
        } else {
          UnitedSkip(st, St(), found, hits, cur);
          MayGatheredSkip(st, St(), found, hits, cur, aa);
          SettledSkip(St(), found, cur, p, at);
        }
      }
      mustAliasAll := allAR == MustAlias;
    }

    method VisitSet(cur: Id, p: Ptr, at: Oracle, found: Option<Id>, allAR: AliasResult, ghost st: State,
                    ghost hits: set<Id>)
      returns (found': Option<Id>, allAR': AliasResult)
      requires aa.SameMust(at) && at.Coherent()
      requires St().Inv(aa, {}, {}) && anyAS.None? && aa.Coherent() && St().Active(cur)
      requires st.any.None? && UnitedBelow(st, St(), found, hits, cur) && Settled(St(), found, cur, p, at)
      requires AccessKept(st, St())
      requires cur in hits <==> Meets(St(), cur, p, at)
      requires found.Some? ==> found.value < cur && St().Active(found.value)
      requires found.Some? && allAR == MustAlias ==> AllMust(St(), found.value, p, at)
      requires MayGathered(st, St(), found, hits, cur, aa)
      modifies `sets, `total, `home
      ensures St().Inv(aa, {}, {}) && UnitedBelow(st, St(), found', hits, cur + 1)
              && Settled(St(), found', cur + 1, p, at)
      ensures AccessKept(st, St())
      ensures found'.Some? ==> found'.value < cur + 1 && St().Active(found'.value)
      ensures found'.Some? && allAR' == MustAlias ==> AllMust(St(), found'.value, p, at)
      ensures MayGathered(st, St(), found', hits, cur + 1, aa)
      ensures Sized(old(St()), old(total)) ==> Sized(St(), total)
    {
      hide MayGathered, Sized, State.Shape, State.Counted, State.Listed, State.MustSets, State.Partition;
      found', allAR' := found, allAR;
      SameMustSets(St(), aa, at);
      var ar := AliasesPointer(cur, p, at);
      if ar == NoAlias {
        UnitedSkip(st, St(), found, hits, cur);
        MayGatheredSkip(st, St(), found, hits, cur, aa);
        SettledSkip(St(), found, cur, p, at);
      } else {
        allAR' := Both(allAR, ar);
        ghost var st1 := St();
        found' := Absorb(cur, found, st, hits);
        AbsorbedSettled(st1, St(), found, cur, p, at, allAR' == MustAlias);
      }
    }

    /** Merges all sets that may interfere with i. */
    method FindAliasSetForUnknownInst(i: Inst) returns (found: Option<Id>)
      requires St().Valid(aa) && aa.Coherent()
      modifies `sets, `total, `home
      ensures St().Valid(aa)
      ensures UnitedBelow(old(St()), St(), found, InstHits(old(St()), i, aa), nextId) && AccessKept(old(St()), St())
      ensures SettledInst(St(), found, nextId, i, aa)
      ensures found.Some? ==> St().Active(found.value)
    {
      ghost var st := St();
      found := None;
      HomesListed(st);
      UnitedStart(st, InstHits(st, i, aa));
      AccessKeptRefl(st);
      hide State.Inv, State.Collapsed, UnitedBelow, SettledInst, AccessKept;
      for cur := 0 to nextId
        invariant Sought(st, St(), i, found, cur, aa) && nextId == st.next
      {
        found := VisitSetForInst(cur, i, found, st);
      }
    }

    method VisitSetForInst(cur: Id, i: Inst, found: Option<Id>, ghost st: State) returns (found': Option<Id>)
      requires Sought(st, St(), i, found, cur, aa) && st.Valid(aa) && aa.Coherent()
      modifies `sets, `total, `home
      ensures Sought(st, St(), i, found', cur + 1, aa)
    {
      hide Sought, State.Inv, State.Valid, State.Shape, UnitedBelow, AccessKept, Absorbed, InstHits, MeetsInst;
      ghost var st1 := St();
      SoughtShape(st, st1, i, found, cur, aa);
      found' := found;
      if cur in sets && sets[cur].forward.None? {
        var aliases := AliasesUnknownInst(cur, i);
        if aliases {
          SoughtHit(st, st1, i, found, cur, aa);
          found' := Absorb(cur, found, st, InstHits(st, i, aa));
          SoughtAbsorbed(st, st1, St(), i, found, cur, aa);
          return;
        }
      }
      SoughtSkip(st, st1, i, found, cur, aa);
    }

    /** Another set is hit: it is the first one, or it is merged into that. */
    method Absorb(cur: Id, found: Option<Id>, ghost st: State, ghost hits: set<Id>) returns (found': Option<Id>)
      requires St().Inv(aa, {}, {}) && (found.Some? ==> anyAS.None? && st.any.None?) && aa.Coherent()
      requires UnitedBelow(st, St(), found, hits, cur) && cur in hits && St().Active(cur) && AccessKept(st, St())
      requires found.Some? ==> found.value < cur && St().Active(found.value)
      modifies `sets, `total, `home
      ensures St().Inv(aa, {}, {}) && UnitedBelow(st, St(), found', hits, cur + 1) && AccessKept(st, St())
      ensures found'.Some? && found'.value <= cur && St().Active(found'.value)
      ensures found' == if found.None? then Some(cur) else found
      ensures Absorbed(old(St()), St(), found, cur)
      ensures MayGathered(st, old(St()), found, hits, cur, aa) ==> MayGathered(st, St(), found', hits, cur + 1, aa)
      ensures Sized(old(St()), old(total)) ==> Sized(St(), total)
    {
      hide MayGathered, Sized, State.Inv, State.Valid, State.Shape, State.Counted, State.Listed, State.MustSets,
           State.Partition;
      if found.None? {
        UnitedFirst(st, St(), hits, cur);
        MayGatheredFirst(st, St(), hits, cur, aa);
        return Some(cur);
      }
      ghost var st1 := St();
      InvHomes(st1, aa, {}, {});
      InvNonempty(st1, aa);
      MergeSetIn(found.value, cur, {});
      InvHomes(St(), aa, {}, {});
      UnitedMore(st, st1, St(), found.value, hits, cur);
      MayGatheredMore(st, st1, St(), found.value, hits, cur, aa);
      MergedAccess(st1, St(), found.value, cur);
      AccessKeptTrans(st, st1, St());
      return found;
    }
  
    // ----- new members -----

    /** Adds a new pointer to an active set. */
    method AddPointer(s: Id, p: Ptr, knownMustAlias: bool, ghost except: set<Id>)
      requires St().Inv(aa, {}, except) && St().Active(s) && p !in recs && aa.Coherent() && except <= {s}
      requires OnlyAliases(St(), s, p, aa)
      requires knownMustAlias ==> AllMust(St(), s, p, aa)
      requires !sets[s].may && sets[s].ptrs != [] ==> aa.alias(sets[s].ptrs[0], p) != NoAlias
      modifies `sets, `total, `recs
      ensures St().Inv(aa, {}, {}) && Attached(old(St()), St(), s, p)
      ensures sets[s].may <==> WeakenedBy(aa, old(sets)[s], p, knownMustAlias)
      ensures Sized(old(St()), old(total)) ==> Sized(St(), total)
    {
      hide Sized, Wrap, Attached, OnlyAliases, AllMust, State.Shape, State.Counted, State.Listed, State.MustSets,
           State.Partition;
      ghost var st := St();
      ghost var was := total;
      var may := MayAfterAdding(s, p, knownMustAlias);
      SizedAttach(st, s, p, may, was);
      AttachKeeps(st, s, p, may, aa, except);
      var a := sets[s];
      recs, sets :=
          recs[p := s], sets[s := a.(ptrs := a.ptrs + [p], refs := a.refs + 1, may := may, size := a.size + 1)];
      if may {
        total := Wrap(total + 1);
      }
      AttachedNow(st, s, p, may);
    }

    /** Whether s is a set of pointers that need not all alias once p is in it. */
    method MayAfterAdding(s: Id, p: Ptr, knownMustAlias: bool) returns (may: bool)
      requires s in sets && St().MustSets(aa) && aa.Coherent()
      requires knownMustAlias ==> AllMust(St(), s, p, aa)
      requires !sets[s].may && sets[s].ptrs != [] ==> aa.alias(sets[s].ptrs[0], p) != NoAlias
      modifies `total
      ensures may <==> WeakenedBy(aa, sets[s], p, knownMustAlias)
      ensures total == if may && !sets[s].may then Wrap(old(total) + sets[s].size) else old(total)
      ensures !may ==> forall q :: St().On(s, q) ==> aa.alias(q, p) == MustAlias
    {
      var a := sets[s];
      may := a.may;
      if !a.may && a.ptrs != [] && !knownMustAlias {
        var result := aa.alias(a.ptrs[0], p);
        if result != MustAlias {
          may := true;
          total := Wrap(total + a.size);
        }
        assert result != NoAlias;  // cannot be part of a "must" set
        RepresentativeMust(St(), s, p, aa);
      }
    }

    /** The set that holds p, at its location in at, after adding p to the tracker if it is new, or merging the
        sets that it may alias if it has grown. */
    method GetAliasSetFor(p: Ptr, at: Oracle, grows: bool) returns (s: Id)
      requires St().Valid(aa) && aa.Coherent() && Locates(aa, at, p, p in recs, grows)
      modifies `sets, `total, `home, `recs, `nextId, `anyAS, `aa
      ensures aa == Located(old(aa), at, p in old(recs), grows)
      ensures St().Valid(aa) && St().Active(s) && St().Tracks(p) && s == St().HomeOf(p)
      ensures anyAS == old(anyAS) && recs.Keys == old(recs).Keys + {p}
      ensures Grouped(old(St()), St(), p, aa, grows) && AccessKept(old(St()), St())
      ensures Joined(old(St()), St(), Takers(old(St()), p, aa, grows), s, {p}, {}, false, false)
      ensures Weak(old(St()), St(), Takers(old(St()), p, aa, grows), s, false, aa)
      ensures Sized(old(St()), old(total)) ==> Sized(St(), total)
    {
      hide Sized, State.Inv, State.Valid, State.Collapsed, AccessKept, Grouped, Joined, Weak, Takers,
           Oracle.Relocates, Oracle.SameMust;
      ValidInv(St(), aa);
      if anyAS.Some? {
        s := GetSaturatedSetFor(p, at, grows);
      } else if p in recs {
        s := GetKnownSet(p, at, grows);
      } else {
        RelocatedNew(St(), aa, at, p);
        aa := at;
        s := AddNewPointer(p, grows);
        UnsaturatedValid(St(), aa);
      }
    }

    /** The set of a pointer that is tracked; if it has grown, the sets that it may alias are merged first. */
    method GetKnownSet(p: Ptr, at: Oracle, grows: bool) returns (s: Id)
      requires St().Valid(aa) && p in recs && anyAS.None? && aa.Coherent() && Locates(aa, at, p, true, grows)
      modifies `sets, `total, `home, `recs, `aa
      ensures aa == Located(old(aa), at, true, grows)
      ensures St().Valid(aa) && St().Active(s) && St().Tracks(p) && s == St().HomeOf(p)
      ensures anyAS == old(anyAS) && recs.Keys == old(recs).Keys
      ensures Grouped(old(St()), St(), p, aa, grows) && AccessKept(old(St()), St())
      ensures Joined(old(St()), St(), Takers(old(St()), p, aa, grows), s, {p}, {}, false, false)
      ensures Weak(old(St()), St(), Takers(old(St()), p, aa, grows), s, false, aa)
      ensures Sized(old(St()), old(total)) ==> Sized(St(), total)
    {
      hide Sized, State.Inv, State.Valid, AccessKept, Grouped, SameContents, Homes, Joined, Weak, Takers, SameGroups,
           Oracle.Relocates, Oracle.SameMust;
      ghost var st := St();
      if grows {
        ghost var f := MergeGrown(p, at);
        ghost var st1 := St();
        s := GetTarget(p);
        ValidNonempty(st1, aa);
        SameContentsGroups(st1, St());
        JoinedOn(st, st1, St(), Takers(st, p, aa, true), f, {p}, {}, false, false);
        JoinedActive(st, st1, Takers(st, p, aa, true), f, {p}, {}, false, false);
        WeakOn(st, st1, St(), Takers(st, p, aa, true), f, false, aa);
        SameHome(st1, St(), p);
        GroupedOn(st, st1, St(), p, aa, true);
        SameContentsAccess(st1, St());
        AccessKeptTrans(st, st1, St());
      } else {
        s := GetTarget(p);
        ValidNonempty(st, aa);
        SameContentsGroups(st, St());
        KnownTaker(st, p, aa);
        JoinedOn(st, st, St(), Takers(st, p, aa, false), st.HomeOf(p), {p}, {}, false, false);
        WeakOn(st, st, St(), Takers(st, p, aa, false), st.HomeOf(p), false, aa);
        SameHome(st, St(), p);
        GroupedSame(st, St(), p, aa);
        SameContentsAccess(st, St());
      }
    }

    /** Merges the sets that p may alias now that it has grown. */
    method MergeGrown(p: Ptr, at: Oracle) returns (ghost f: Id)
      requires St().Valid(aa) && p in recs && anyAS.None? && aa.Coherent() && Locates(aa, at, p, true, true)
      modifies `sets, `total, `home, `aa
      ensures aa == at && St().Valid(aa) && AccessKept(old(St()), St())
      ensures Homes(St()) && Grouped(old(St()), St(), p, aa, true) && St().Tracks(p) && St().HomeOf(p) == f
      ensures Joined(old(St()), St(), Takers(old(St()), p, aa, true), f, {p}, {}, false, false)
      ensures Weak(old(St()), St(), Takers(old(St()), p, aa, true), f, false, aa)
      ensures Sized(old(St()), old(total)) ==> Sized(St(), total)
    {
      hide MayGathered, Sized, State.Inv, State.Valid, Homes, AccessKept, UnitedBelow, Joined, Weak, Takers, Settled,
           Hits, Grouped, AllMust, Oracle.Coherent, Oracle.Relocates, Oracle.SameMust;
      ghost var st := St();
      ValidInv(st, aa);
      InvHomes(st, aa, {}, {});
      var found, _ := MergeAliasSetsForPointer(p, at);
      ghost var st1 := St();
      InvHomes(st1, aa, {}, {});
      GroupedByGrowing(st, st1, found, p, at);
      GrownJoined(st, st1, found, p, at);
      GrownWeak(st, st1, found.value, p, aa, at);
      f := found.value;
      UnitedKeys(st, st1, found, Hits(st, p, at), nextId);
      RelocatedGrown(st1, aa, at, p, found);
      aa := at;
      UnsaturatedValid(st1, at);
    }

    /** The active set of a pointer that is tracked. */
    method GetTarget(p: Ptr) returns (s: Id)
      requires St().Valid(aa) && p in recs
      modifies `sets, `total, `home, `recs
      ensures St().Valid(aa) && St().Active(s) && St().Tracks(p) && s == St().HomeOf(p)
      ensures SameContents(old(St()), St()) && recs.Keys == old(recs).Keys && Homes(old(St())) && Homes(St())
      ensures Sized(old(St()), old(total)) ==> Sized(St(), total)
    {
      hide Sized, State.Inv, State.Shape, State.Listed, State.Collapsed, Homes, SameContents, Compressed;
      ghost var st := St();
      InvHomes(st, aa, {}, {});
      s := GetAliasSet(p);
      ghost var st1 := St();
      InvHomes(st1, aa, {}, {});
      ForwardStep(st1, s);
      s := GetForwardedTarget(s);
      CompressedSame(st1, St(), s);
      SameContentsTrans(st, st1, St());
      SameKeys(st, St(), p);
      InvHomes(St(), aa, {}, {});
      ForwardStep(St(), s);
    }

    /** The saturated set, after adding p to it if it is new. */
    method GetSaturatedSetFor(p: Ptr, at: Oracle, grows: bool) returns (s: Id)
      requires St().Valid(aa) && aa.Coherent() && anyAS.Some? && Locates(aa, at, p, p in recs, grows)
      modifies `sets, `total, `recs, `aa
      ensures aa == Located(old(aa), at, p in old(recs), grows)
      ensures St().Valid(aa) && St().Active(s) && St().Tracks(p) && s == St().HomeOf(p)
      ensures recs.Keys == old(recs).Keys + {p}
      ensures Grouped(old(St()), St(), p, aa, grows) && AccessKept(old(St()), St())
      ensures Joined(old(St()), St(), Takers(old(St()), p, aa, grows), s, {p}, {}, false, false)
      ensures Weak(old(St()), St(), Takers(old(St()), p, aa, grows), s, false, aa)
      ensures Sized(old(St()), old(total)) ==> Sized(St(), total)
    {
      hide Sized;
      ghost var st := St();
      s := anyAS.value;
      RelocatedSaturated(st, aa, Located(aa, at, p in recs, grows));
      if p !in recs || grows {
        aa := at;
      }
      ValidInv(st, aa);
      InvHomes(st, aa, {}, {});
      SaturatedSet(st);
      SaturatedHomes(st, aa);
      hide State.Inv, State.Shape, State.Listed, Homes, AccessKept, Grouped, Attached, OnlyAliases, AllMust, Joined,
           Weak, Takers, Oracle.Relocates, Oracle.SameMust;
      if p !in recs {
        AddPointer(s, p, false, {});
        SaturatedAdd(st, St(), p, aa, grows);
        SaturatedTakers(st, p, aa, grows);
        JoinedId(st, s);
        JoinedAttach(st, st, St(), {s}, s, p);
        WeakSaturated(st, St(), {s}, s, aa);
        AttachedAccess(st, St(), s, p);
      } else {
        NamedSet(st, p);
        SaturatedRepeat(st, p, aa, grows);
        SaturatedTakers(st, p, aa, grows);
        SaturatedOn(st, p, aa);
        JoinedSelf(st, s, p);
        WeakSaturated(st, St(), {s}, s, aa);
        AccessKeptRefl(st);
      }
    }

    /** Adds a new pointer to the sets it may alias, which become one, or to a set of its own. */
    method AddNewPointer(p: Ptr, ghost grows: bool) returns (s: Id)
      requires St().Inv(aa, {}, {}) && anyAS.None? && aa.Coherent() && p !in recs
      modifies `sets, `total, `home, `recs, `nextId, `anyAS
      ensures St().Inv(aa, {}, {}) && St().Active(s) && St().Tracks(p) && s == St().HomeOf(p)
      ensures anyAS.None? && recs.Keys == old(recs).Keys + {p}
      ensures Grouped(old(St()), St(), p, aa, grows) && AccessKept(old(St()), St())
      ensures Joined(old(St()), St(), Takers(old(St()), p, aa, grows), s, {p}, {}, false, false)
      ensures Weak(old(St()), St(), Takers(old(St()), p, aa, grows), s, false, aa)
      ensures Sized(old(St()), old(total)) ==> Sized(St(), total)
    {
      hide MayGathered, Sized, State.Inv, State.Shape, State.Listed, Homes, AccessKept, UnitedBelow, Settled,
           OnlyAliases, Hits, AllMust, Attached, Grouped, Joined, Weak, Takers;
      ghost var st := St();
      var found, mustAliasAll := MergeAliasSetsForPointer(p, aa);
      ghost var st1 := St();
      InvHomes(st, aa, {}, {});
      InvHomes(st1, aa, {}, {});
      SettledOnly(st1, found, p, aa);
      UnitedKeys(st, st1, found, Hits(st, p, aa), nextId);
      if found.Some? {
        s := found.value;
        AddPointer(s, p, mustAliasAll, {});
        AttachedAccess(st1, St(), s, p);
        AddedWeak(st, st1, St(), s, p, mustAliasAll, aa, grows);
      } else {
        s := AddAlone(p);
        AloneWeak(st, st1, St(), s, p, aa, grows);
      }
      GroupedByAdding(st, st1, St(), found, s, p, aa, grows);
      AddedJoined(st, st1, St(), found, s, p, aa, grows);
      AccessKeptTrans(st, st1, St());
    }

    /** Adds a pointer that may alias nothing to a set of its own. */
    method AddAlone(p: Ptr) returns (s: Id)
      requires St().Inv(aa, {}, {}) && anyAS.None? && aa.Coherent() && p !in recs
      requires forall x :: OnlyAliases(St(), x, p, aa)
      modifies `sets, `total, `home, `recs, `nextId, `anyAS
      ensures St().Inv(aa, {}, {}) && s == old(nextId) && anyAS.None? && St().Active(s)
      ensures recs.Keys == old(recs).Keys + {p}
      ensures Attached(NewSet(old(St()), EmptySet), St(), s, p) && AccessKept(old(St()), St()) && !sets[s].may
      ensures Sized(old(St()), old(total)) ==> Sized(St(), total)
    {
      hide Sized, State.Inv, State.Shape, State.Listed, Homes, AccessKept, OnlyAliases;
      ghost var st := St();
      InvHomes(st, aa, {}, {});
      s := CreateSet(EmptySet);
      NewSetOnly(st, EmptySet, p, aa);
      ghost var st1 := St();
      InvHomes(st1, aa, {}, {s});
      AddPointer(s, p, true, {s});
      NewSetAccess(st, EmptySet);
      AttachedAccess(st1, St(), s, p);
      AccessKeptTrans(st, st1, St());
    }

    method CreateSet(a: AliasSet) returns (s: Id)
      requires St().Inv(aa, {}, {}) && anyAS.None?
      requires a.ptrs == [] && a.unknown == [] && a.forward.None? && a.refs == 0 && (a.any ==> a.may) && a.size == 0
      modifies `sets, `home, `nextId, `anyAS
      ensures s == old(nextId) && St() == NewSet(old(St()), a) && St().Inv(aa, {}, {s})
      ensures Sized(old(St()), old(total)) ==> Sized(St(), total)
    {
      hide Sized, State.Shape, State.Counted, State.Listed, State.MustSets, State.Partition;
      ghost var st := St();
      NextIsNew(st);
      SizedNewSet(st, a, total);
      s := nextId;
      sets, home, nextId := sets[s := a], home[s := s], nextId + 1;
      if a.any {
        anyAS := Some(s);
      }
      NewSetKeeps(st, a, aa);
    }
  
    // ----- saturation -----

    /** Merges everything into one set that is taken to alias any pointer. */
    method MergeAllAliasSets() returns (s: Id)
      requires St().Valid(aa) && anyAS.None? && aa.Coherent() && recs != map[]
      modifies `sets, `total, `home, `nextId, `anyAS
      ensures St().Valid(aa) && recs == old(recs) && anyAS == Some(s) && St().Active(s)
      ensures forall x, i :: old(St()).Holds(x, i) ==> St().Holds(s, i)
      ensures sets[s].ref && sets[s].mod
      ensures forall x, i :: St().Holds(x, i) ==> HeldBefore(old(St()), i)
      ensures Sized(old(St()), old(total)) ==> Sized(St(), total)
    {
      hide Sized, State.Shape, State.Counted, State.Listed, State.MustSets, State.Partition;
      ghost var st := St();
      var end := nextId;
      s := CreateSet(EmptySet.(may := true, ref := true, mod := true, any := true));
      ghost var except := {s};
      CollapsingStart(st, St(), s);
      for cur := 0 to end
        invariant St().Inv(aa, {}, except) && anyAS == Some(s) && s == end
        invariant Collapsing(st, St(), s, cur, except)
        invariant Sized(st, old(total)) ==> Sized(St(), total)
      {
        if cur in sets {
          Collapse(cur, s, except, st);
          except := {};
        } else {
          CollapsingSkip(st, St(), s, cur, except);
        }
      }
      CollapsingEnd(st, St(), s, except);
      SaturatedHomes(St(), aa);
    }

    /** Merges one more set into the saturated set s, or forwards it to s if it forwards already. */
    method Collapse(cur: Id, s: Id, ghost except: set<Id>, ghost st: State)
      requires St().Inv(aa, {}, except) && anyAS == Some(s) && cur in sets && cur < s && aa.Coherent()
      requires st.Shape() && st.any.None? && Collapsing(st, St(), s, cur, except)
      modifies `sets, `total, `home
      ensures St().Inv(aa, {}, {}) && Collapsing(st, St(), s, cur + 1, {})
      ensures Sized(old(St()), old(total)) ==> Sized(St(), total)
    {
      hide Sized, State.Inv, State.Shape, State.Listed, Homes, Merged, Collapsing, Mergeable;
      ghost var st1 := St();
      InvHomes(st1, aa, {}, except);
      if sets[cur].forward.Some? {
        CollapsingForwarder(st, st1, s, cur, except);
        ForwardToSaturated(cur, s, st);
      } else {
        CollapsingActive(st, st1, s, cur, except);
        MergeSetIn(s, cur, except);
        CollapsingMerged(st, st1, St(), s, cur, except);
      }
    }

    /** Makes a set forward to the saturated set s instead of to one that forwards to s. */
    method ForwardToSaturated(cur: Id, s: Id, ghost st: State)
      requires St().Inv(aa, {}, {}) && anyAS == Some(s) && cur in sets && cur < s && sets[cur].forward.Some?
      requires st.Shape() && st.any.None? && Collapsing(st, St(), s, cur, {})
      requires var was := sets[cur].forward.value; was in sets && was < cur && was != s && cur in home && home[cur] == s
      requires forall i :: !St().Holds(cur, i)
      modifies `sets, `total, `home
      ensures St().Inv(aa, {}, {}) && Collapsing(st, St(), s, cur + 1, {})
      ensures Sized(old(St()), old(total)) ==> Sized(St(), total)
    {
      hide Sized, State.Inv, State.Shape, State.Listed, Homes, Collapsing, Reclaimed, SameContents, Pinned;
      ghost var st1 := St();
      var was := sets[cur].forward.value;
      RedirectKeeps(st1, cur, s, aa);
      var sets1 := sets[cur := sets[cur].(forward := Some(s))];
      sets := sets1[s := sets1[s].(refs := sets1[s].refs + 1)];
      ghost var st2 := St();
      SizedAsWas(st1, st2, total);
      RedirectPinned(st1, cur, s, was);
      DropRef(was, {});
      InvHomes(St(), aa, {}, {});
      SaturatedSet(St());
      CollapsingForwarded(st, st1, st2, St(), s, cur, was);
    }

    // ----- the operations of the tracker -----

    constructor (aa: Oracle, threshold: nat)
      ensures this.aa == aa && this.threshold == threshold
      ensures St().Valid(aa) && recs == map[] && sets == map[] && anyAS.None? && total == 0 && Sized(St(), total)
    {
      this.aa, this.threshold := aa, threshold;
      sets, recs, anyAS, nextId, total, home := map[], map[], None, 0, 0, map[];
    }

    /** Adds an access of a pointer at its location in at, which is larger than all earlier ones if it grows.
        The state in between, with the access recorded, decides whether the tracker becomes saturated. */
    method Add(p: Ptr, at: Oracle, grows: bool, ref: bool, mod: bool) returns (s: Id, ghost full: State)
      requires St().Valid(aa) && aa.Coherent() && Locates(aa, at, p, p in recs, grows)
      modifies `sets, `total, `home, `recs, `nextId, `anyAS, `aa
      ensures aa == Located(old(aa), at, p in old(recs), grows)
      ensures St().Valid(aa) && St().Active(s) && St().Tracks(p) && s == St().HomeOf(p)
      ensures recs.Keys == old(recs).Keys + {p}
      ensures (ref ==> sets[s].ref) && (mod ==> sets[s].mod) && AccessKept(old(St()), St())
      ensures anyAS == old(anyAS) || (old(anyAS).None? && anyAS == Some(s))
      ensures anyAS == old(anyAS) ==> Grouped(old(St()), St(), p, aa, grows)
      ensures anyAS.None? ==> total <= threshold
      ensures forall x, i :: old(St()).Holds(x, i) ==> exists y :: St().Holds(y, i)
      ensures full.Valid(aa) && full.Tracks(p) && full.any == old(anyAS)
      ensures Joined(old(St()), full, Takers(old(St()), p, aa, grows), full.HomeOf(p), {p}, {}, ref, mod)
      ensures Weak(old(St()), full, Takers(old(St()), p, aa, grows), full.HomeOf(p), false, aa)
      ensures if anyAS == old(anyAS) then St() == full else sets[s].ref && sets[s].mod
      ensures Sized(old(St()), old(total)) ==>
                (anyAS != old(anyAS) <==> old(anyAS).None? && Wrap(MayPtrs(full.sets, full.next)) > threshold)
      ensures forall x, i :: St().Holds(x, i) ==> HeldBefore(old(St()), i)
      ensures Sized(old(St()), old(total)) ==> Sized(St(), total)
    {
      hide Sized, State.Inv, State.Valid, State.Holds, State.Tracks, AccessKept, Grouped, Locates, Located,
           Oracle.Coherent, Homes, Joined, Weak, Takers, HeldBefore, Wrap, MayPtrs;
      ghost var st := St();
      LocatedCoherent(aa, at, p, p in recs, grows);
      s := AddAccessTo(p, at, grows, ref, mod);
      JoinedHeld(st, St(), Takers(st, p, aa, grows), s, p, ref, mod, aa);
      full := St();
      SizedTotal(full, total);
      ValidInv(full, aa);
      InvHomes(full, aa, {}, {});
      s := Saturate(s);
      AccessKeptTrans(st, full, St());
      HeldThrough(st, full, St());
      if anyAS.Some? {
        SaturatedHome(St(), p, aa);
      }
    }

    /** Records an access in the set of a pointer, which is added to the tracker if it is new. */
    method AddAccessTo(p: Ptr, at: Oracle, grows: bool, ref: bool, mod: bool) returns (s: Id)
      requires St().Valid(aa) && aa.Coherent() && Locates(aa, at, p, p in recs, grows)
      modifies `sets, `total, `home, `recs, `nextId, `anyAS, `aa
      ensures aa == Located(old(aa), at, p in old(recs), grows)
      ensures St().Valid(aa) && St().Active(s) && St().Tracks(p) && s == St().HomeOf(p)
      ensures anyAS == old(anyAS) && recs.Keys == old(recs).Keys + {p}
      ensures (ref ==> sets[s].ref) && (mod ==> sets[s].mod) && AccessKept(old(St()), St())
      ensures Grouped(old(St()), St(), p, aa, grows)
      ensures forall x, i :: old(St()).Holds(x, i) ==> exists y :: St().Holds(y, i)
      ensures Joined(old(St()), St(), Takers(old(St()), p, aa, grows), s, {p}, {}, ref, mod)
      ensures Weak(old(St()), St(), Takers(old(St()), p, aa, grows), s, false, aa)
      ensures Sized(old(St()), old(total)) ==> Sized(St(), total)
    {
      hide Sized, State.Inv, State.Valid, State.Collapsed, State.Holds, AccessKept, Grouped, Locates, Located, Joined,
           Weak, Takers, AddAccess, Homes, Oracle.Coherent;
      ghost var st := St();
      s := GetAliasSetFor(p, at, grows);
      ghost var st1 := St();
      RecordAccess(s, ref, mod);
      AddAccessKeeps(st1, s, ref, mod, aa);
      AddAccessSame(st1, s, ref, mod);
      GroupedAccess(st, st1, p, s, ref, mod, aa, grows);
      GroupedHolds(st, St(), p, aa, grows);
      AccessJoined(st, st1, Takers(st, p, aa, grows), s, p, ref, mod);
      AccessWeak(st, st1, Takers(st, p, aa, grows), s, ref, mod, aa);
      AccessKeptTrans(st, st1, St());
    }

    method RecordAccess(s: Id, ref: bool, mod: bool)
      requires s in sets
      modifies `sets
      ensures St() == AddAccess(old(St()), s, ref, mod)
      ensures Sized(old(St()), total) ==> Sized(St(), total)
    {
      hide Sized;
      ghost var st := St();
      sets := sets[s := sets[s].(ref := sets[s].ref || ref, mod := sets[s].mod || mod)];
      SizedAsWas(st, St(), total);
    }

    /** Merges everything if the sets that may alias hold too many pointers. */
    method Saturate(s: Id) returns (s': Id)
      requires St().Valid(aa) && aa.Coherent() && recs != map[] && St().Active(s)
      modifies `sets, `total, `home, `nextId, `anyAS
      ensures St().Valid(aa) && St().Active(s') && recs == old(recs) && AccessKept(old(St()), St())
      ensures if old(anyAS).None? && old(total) > threshold then anyAS == Some(s') && sets[s'].ref && sets[s'].mod
              else St() == old(St()) && total == old(total) && s' == s
      ensures forall x, i :: old(St()).Holds(x, i) ==> exists y :: St().Holds(y, i)
      ensures forall x, i :: St().Holds(x, i) ==> HeldBefore(old(St()), i)
      ensures Sized(old(St()), old(total)) ==> Sized(St(), total)
    {
      hide Sized, State.Shape, State.Counted, State.Listed, State.MustSets, State.Partition, AccessKept;
      ghost var st := St();
      HomesListed(st);
      if anyAS.None? && total > threshold {
        s' := MergeAllAliasSets();
        SaturatedAccess(st, St(), aa);
      } else {
        AccessKeptRefl(st);
        s' := s;
      }
    }

    /** Adds an instruction that may access memory, but no specific address; others are ignored. */
    method AddUnknown(i: Inst) returns (s: Option<Id>)
      requires St().Valid(aa) && aa.Coherent()
      modifies `sets, `total, `home, `nextId, `anyAS
      ensures St().Valid(aa) && recs == old(recs) && anyAS == old(anyAS) && AccessKept(old(St()), St())
      ensures s.None? <==> aa.Ignores(i)
      ensures s.None? ==> St() == old(St()) && total == old(total)
      ensures s.Some? ==>
                && St().Active(s.value) && St().Holds(s.value, i)
                && sets[s.value].ref && (aa.writes(i) ==> sets[s.value].mod)
                && GroupedInst(old(St()), St(), i, s.value, aa)
      ensures s.Some? ==> Joined(old(St()), St(), InstHits(old(St()), i, aa), s.value, {}, {i}, true, aa.writes(i))
      ensures s.Some? ==> sets[s.value].may
    {
      hide State.Inv, State.Collapsed, AccessKept, GroupedInst, Joined, InstHits;
      if aa.isMarker(i) {
        KeptAsIs(St(), aa);
        return None;
      }
      if !aa.accesses(i) {
        KeptAsIs(St(), aa);
        return None;
      }
      var held := AddAccessing(i);
      s := Some(held);
    }

    /** Adds an instruction to the sets that it may interfere with, which become one, or to a set of its
        own. */
    method AddAccessing(i: Inst) returns (s: Id)
      requires St().Valid(aa) && aa.Coherent()
      modifies `sets, `total, `home, `nextId, `anyAS
      ensures St().Valid(aa) && St().Active(s) && St().Holds(s, i)
      ensures recs == old(recs) && anyAS == old(anyAS)
      ensures sets[s].ref && (aa.writes(i) ==> sets[s].mod) && AccessKept(old(St()), St())
      ensures GroupedInst(old(St()), St(), i, s, aa)
      ensures Joined(old(St()), St(), InstHits(old(St()), i, aa), s, {}, {i}, true, aa.writes(i)) && sets[s].may
    {
      hide State.Shape, State.Counted, State.Listed, State.MustSets, State.Partition;
      ghost var st := St();
      var found := FindAliasSetForUnknownInst(i);
      ghost var st1 := St();
      HomesListed(st1);
      SettledInstOnly(st1, found, i, aa);
      if found.Some? {
        s := found.value;
        AddUnknownInst(s, i, {});
        InstAddedJoined(st, st1, st1, found, s, i, aa.writes(i), aa);
      } else {
        s := CreateSet(EmptySet);
        ghost var st2 := St();
        NewSetOnlyInst(st1, EmptySet, i, aa);
        AddUnknownInst(s, i, {s});
        InstAddedJoined(st, st1, st2, found, s, i, aa.writes(i), aa);
        NewSetAccess(st1, EmptySet);
        HomesListed(st2);
        AccessKeptTrans(st1, st2, St());
      }
      GroupedByInst(st, st1, St(), found, s, i, aa);
      AccessKeptTrans(st, st1, St());
    }

    method AddUnknownInst(s: Id, i: Inst, ghost except: set<Id>)
      requires St().Inv(aa, {}, except) && St().Active(s) && except <= {s} && OnlyInterferes(St(), s, i, aa)
      modifies `sets
      ensures St().Inv(aa, {}, {}) && St() == AttachInst(old(St()), s, i, aa.writes(i))
      ensures AccessKept(old(St()), St()) && St().Active(s) && sets[s].may
    {
      hide State.Shape, State.Counted, State.Listed, State.MustSets, State.Partition;
      ghost var st := St();
      AttachInstKeeps(st, s, i, aa.writes(i), aa, except);
      HomesListed(st);
      AttachInstAccess(st, s, i, aa.writes(i));
      var a := sets[s];
      var refs := if a.unknown == [] then a.refs + 1 else a.refs;
      var unknown := a.unknown + [i];
      if !aa.writes(i) {
        sets := sets[s := a.(unknown := unknown, refs := refs, may := true, ref := true)];
      } else {
        sets := sets[s := a.(unknown := unknown, refs := refs, may := true, ref := true, mod := true)];
      }
    }

    /** Takes the record of p off the list of its set s. */
    method Unlink(p: Ptr, s: Id)
      requires p in recs && recs[p] == s && s in sets
      modifies `sets, `total, `recs
      ensures St() == Detach(old(St()), p)
    {
      var a := sets[s];
      var size := a.size;
      if a.may {
        size := a.size - 1;
        total := Wrap(total - 1);
      }
      sets, recs := sets[s := a.(ptrs := Without(a.ptrs, p), size := size)], recs - {p};
    }

    /** Drops the last reference to the saturated set; it is reclaimed, but still taken for the saturated
        set. */
    method DropSaturated(s: Id)
      requires s in sets && sets[s].refs == 1 && sets[s].forward.None? && sets.Keys == {s} && home.Keys == {s}
      modifies `sets, `total, `home
      ensures sets == map[] && home == map[]
    {
      var a := sets[s].(refs := sets[s].refs - 1);
      if a.may {
        total := Wrap(total - a.size);
      }
      sets, home := sets - {s}, home - {s};
    }

    /** Forgets a pointer. Taking the last pointer from a saturated tracker that holds no instruction also
        reclaims the saturated set, which the tracker goes on to name. */
    method DeleteValue(p: Ptr) returns (lost: bool)
      requires St().Valid(aa) && aa.Coherent()
      modifies `sets, `total, `home, `recs
      ensures lost <==> HoldsOnly(old(St()), p)
      ensures lost ==> sets == map[] && recs == map[] && anyAS == old(anyAS) && anyAS.Some?
      ensures !lost ==> St().Valid(aa) && AccessKept(old(St()), St())
      ensures recs.Keys == old(recs).Keys - {p}
      ensures forall q :: q in recs ==> St().Tracks(q) && old(St()).Tracks(q) && St().HomeOf(q) == old(St()).HomeOf(q)
      ensures forall x, i :: St().Holds(x, i) <==> old(St()).Holds(x, i)
      ensures !lost ==> Removed(old(St()), St(), p)
    {
      hide State.Shape, State.Counted, State.Listed, State.MustSets, State.Partition, AccessKept, Detach;
      ghost var st := St();
      HomesListed(st);
      if p !in recs {
        AccessKeptRefl(st);
        NothingRemoved(st, p, aa);
        return false;
      }
      var s := GetAliasSet(p);
      ghost var st1 := St();
      HomesListed(st1);
      SameLoss(st, st1, p);
      DetachKeeps(st1, p, aa);
      Unlink(p, s);
      ghost var st2 := St();
      lost := DropUnlinked(p, s, st1);
      DetachedHomes(st, st1, st2, St(), p);
      if !lost {
        DetachedRemoved(st, st1, st2, St(), p, aa);
      }
    }

    /** Drops the reference to s that the record of p was. */
    method DropUnlinked(p: Ptr, s: Id, ghost st: State) returns (lost: bool)
      requires st.Valid(aa) && p in st.recs && st.recs[p] == s && st.Active(s)
      requires St() == Detach(st, p) && St().Inv(aa, {s}, {})
      modifies `sets, `total, `home
      ensures lost <==> HoldsOnly(st, p)
      ensures lost ==> sets == map[] && recs == map[]
      ensures !lost ==> St().Valid(aa)
      ensures SameContents(old(St()), St())
    {
      hide State.Shape, State.Counted, State.Listed, State.MustSets, State.Partition, Detach;
      ghost var st2 := St();
      HomesListed(st2);
      LastReference(st, p, s, aa);
      lost := anyAS == Some(s) && sets[s].refs == 1;
      if lost {
        DropSaturated(s);
      } else {
        DropRef(s, {});
        ReclaimedCollapsed(st2, St(), s);
      }
    }
  }

  // ----- the operations of the tracker -----

  function AddAccess(st: State, s: Id, ref: bool, mod: bool): State
    requires s in st.sets
  {
    st.Update(s, st.sets[s].(ref := st.sets[s].ref || ref, mod := st.sets[s].mod || mod))
  }

  lemma {:induction false} AddAccessCounted(st: State, s: Id, ref: bool, mod: bool)
    requires s in st.sets && st.Counted({})
    ensures AddAccess(st, s, ref, mod).Counted({})
  {
    var st' := AddAccess(st, s, ref, mod);
    forall x | x in st'.sets
      ensures st'.sets[x].refs == st'.Count(x)
    {
      assert st'.Namers(x) == st.Namers(x) && st'.Forwarders(x) == st.Forwarders(x);
      assert st.sets[x].refs == st.Count(x);
    }
  }

  lemma {:induction false} AddAccessContents(st: State, s: Id, ref: bool, mod: bool, aa: Oracle)
    requires s in st.sets && Contents(st, aa)
    ensures Contents(AddAccess(st, s, ref, mod), aa)
  {
    var st' := AddAccess(st, s, ref, mod);
    assert forall x, p {:trigger st'.On(x, p)} :: st'.On(x, p) <==> st.On(x, p);
    assert forall x, i {:trigger st'.Holds(x, i)} :: st'.Holds(x, i) <==> st.Holds(x, i);
    assert forall p {:trigger st'.Tracks(p)} :: st'.Tracks(p) <==> st.Tracks(p);
    forall p | p in st.recs
      ensures st'.Tracks(p) && st'.On(st'.HomeOf(p), p)
    {
      assert st.On(st.HomeOf(p), p);
    }
  }

  lemma AddAccessShape(st: State, s: Id, ref: bool, mod: bool)
    requires s in st.sets && st.Shape()
    ensures AddAccess(st, s, ref, mod).Shape() && (st.Collapsed() ==> AddAccess(st, s, ref, mod).Collapsed())
  {
    SameLinksShape(st, AddAccess(st, s, ref, mod));
  }

  lemma {:induction false} AddAccessKeeps(st: State, s: Id, ref: bool, mod: bool, aa: Oracle)
    requires st.Valid(aa) && st.Active(s)
    ensures AddAccess(st, s, ref, mod).Valid(aa) && AccessKept(st, AddAccess(st, s, ref, mod)) && Homes(st)
  {
    AddAccessShape(st, s, ref, mod);
    AddAccessCounted(st, s, ref, mod);
    AddAccessContents(st, s, ref, mod, aa);
    HomesListed(st);
  }

  lemma AddAccessSame(st: State, s: Id, ref: bool, mod: bool)
    requires st.Active(s)
    ensures var st' := AddAccess(st, s, ref, mod);
            && st'.Active(s) && st'.home == st.home && st'.recs == st.recs && st'.any == st.any
            && (ref ==> st'.sets[s].ref) && (mod ==> st'.sets[s].mod)
  {
  }

  lemma GroupedHolds(st: State, st': State, p: Ptr, aa: Oracle, grows: bool)
    requires Grouped(st, st', p, aa, grows)
    ensures forall x, i :: st.Holds(x, i) ==> exists y :: st'.Holds(y, i)
  {
  }

  lemma GroupedAccess(st: State, st1: State, p: Ptr, s: Id, ref: bool, mod: bool, aa: Oracle,
                      grows: bool)
    requires Grouped(st, st1, p, aa, grows) && s in st1.sets
    ensures Grouped(st, AddAccess(st1, s, ref, mod), p, aa, grows)
  {
    var st' := AddAccess(st1, s, ref, mod);
    assert forall q, r {:trigger Together(st', q, r)} :: Together(st', q, r) == Together(st1, q, r);
    assert forall t, i :: st1.Holds(t, i) ==> st'.Holds(t, i);
  }

  /** The saturated set records all access. */
  lemma SaturatedAccess(st: State, st': State, aa: Oracle)
    requires st.Valid(aa) && st'.Valid(aa) && st'.any.Some? && st'.sets[st'.any.value].ref
             && st'.sets[st'.any.value].mod
    ensures AccessKept(st, st')
  {
    SaturatedHomes(st', aa);
    HomesListed(st);
  }

  lemma AttachInstAccess(st: State, s: Id, i: Inst, writes: bool)
    requires Homes(st) && s in st.sets
    ensures AccessKept(st, AttachInst(st, s, i, writes))
  {
  }

  /** Set s will take in the instruction i. */
  ghost predicate TakesInInst(st: State, s: Id, i: Inst, aa: Oracle) {
    s in st.sets && MeetsInst(st, s, i, aa)
  }

  /** From st to st', the instruction i was added: the sets it may interfere with have become s. */
  ghost predicate GroupedInst(st: State, st': State, i: Inst, s: Id, aa: Oracle) {
    && (forall q, r :: q in st.recs && r in st.recs && st.Tracks(q) && st.Tracks(r) ==>
          (Together(st', q, r) <==>
            Together(st, q, r) || (TakesInInst(st, st.HomeOf(q), i, aa) && TakesInInst(st, st.HomeOf(r), i, aa))))
    && (forall q :: q in st.recs && st.Tracks(q) ==>
          st'.Tracks(q) && (st'.HomeOf(q) == s <==> TakesInInst(st, st.HomeOf(q), i, aa)))
    && (forall x, j :: st.Holds(x, j) ==> exists y :: st'.Holds(y, j))
  }

  lemma SettledInstOnly(st: State, found: Option<Id>, i: Inst, aa: Oracle)
    requires st.Valid(aa) && SettledInst(st, found, st.next, i, aa)
    requires found.Some? ==> st.Active(found.value)
    ensures found.Some? ==> OnlyInterferes(st, found.value, i, aa)
    ensures found.None? ==> st.any.None? && forall s :: OnlyInterferes(st, s, i, aa)
  {
    forall p | st.Tracks(p) && aa.touches(i, p)
      ensures Some(st.HomeOf(p)) == found
    {
      HomeRank(st, st.recs[p]);
      assert st.On(st.HomeOf(p), p);
    }
    forall s: Id, j | st.Holds(s, j) && aa.Conflict(i, j)
      ensures Some(s) == found
    {
      assert st.Active(s) && aa.Conflict(j, i);
    }
  }

  lemma NewSetOnlyInst(st: State, a: AliasSet, i: Inst, aa: Oracle)
    requires st.Shape() && (forall s :: OnlyInterferes(st, s, i, aa)) && a.ptrs == [] && a.unknown == []
             && a.forward.None?
    ensures OnlyInterferes(NewSet(st, a), st.next, i, aa) && NewSet(st, a).Active(st.next)
  {
    var st' := NewSet(st, a);
    assert OnlyInterferes(st, st.next, i, aa) && OnlyInterferes(st, st.next + 1, i, aa);
    assert forall q :: st'.Tracks(q) ==> st.Tracks(q);
    assert forall x, j :: st'.Holds(x, j) ==> st.Holds(x, j);
  }

  /** The sets that may interfere with i have become s, which also is where nothing was, if there are
      none. */
  lemma {:induction false} GroupedInstByHomes(st: State, st': State, found: Option<Id>, s: Id, i: Inst, aa: Oracle)
    requires Homes(st) && (forall q :: q in st.recs ==> st.Active(st.HomeOf(q)) && st.HomeOf(q) < st.next)
    requires forall q :: q in st.recs ==>
               st'.Tracks(q) && st'.HomeOf(q) == Moved(st.HomeOf(q), found, InstHits(st, i, aa), st.next)
    requires forall x :: x in InstHits(st, i, aa) && x < st.next ==> found.Some?
    requires if found.Some? then s == found.value && s in InstHits(st, i, aa)
             else forall q :: q in st.recs ==> st.HomeOf(q) != s
    requires forall x, j :: st.Holds(x, j) ==> exists y :: st'.Holds(y, j)
    ensures GroupedInst(st, st', i, s, aa)
  {
    var hits := InstHits(st, i, aa);
    forall q | q in st.recs
      ensures TakesInInst(st, st.HomeOf(q), i, aa) <==> st.HomeOf(q) in hits
      ensures st.HomeOf(q) in hits ==> st'.HomeOf(q) == s
      ensures st.HomeOf(q) !in hits ==> st'.HomeOf(q) == st.HomeOf(q) && st.HomeOf(q) != s
    {
    }
  }

  lemma InstAttached(st: State, s: Id, i: Inst, writes: bool)
    requires s in st.sets
    ensures var st' := AttachInst(st, s, i, writes);
            st'.recs == st.recs && st'.home == st.home && forall x, j :: st.Holds(x, j) ==> st'.Holds(x, j)
  {
  }

  lemma {:induction false} GroupedByInst(st: State, st1: State, st': State, found: Option<Id>, s: Id, i: Inst,
                                         aa: Oracle)
    requires st.Shape() && st.Listed() && st1.Shape() && st1.Listed()
    requires UnitedBelow(st, st1, found, InstHits(st, i, aa), st.next)
    requires if found.Some? then s == found.value && s in st1.sets && st' == AttachInst(st1, s, i, aa.writes(i))
             else s == st1.next && st' == AttachInst(NewSet(st1, EmptySet), s, i, aa.writes(i))
    ensures GroupedInst(st, st', i, s, aa)
  {
    hide State.Shape, State.Listed, MeetsInst;
    ActiveHomes(st);
    ActiveHomes(st1);
    if found.None? {
      NewSetHomes(st1, EmptySet);
    }
    ghost var st2 := if found.Some? then st1 else NewSet(st1, EmptySet);
    InstAttached(st2, s, i, aa.writes(i));
    forall x, j | st.Holds(x, j)
      ensures exists y :: st'.Holds(y, j)
    {
      assert st1.Holds(Moved(x, found, InstHits(st, i, aa), st.next), j);
    }
    GroupedInstByHomes(st, st', found, s, i, aa);
  }

  lemma {:induction false} DetachedHomes(st: State, st1: State, st2: State, st': State, p: Ptr)
    requires SameContents(st, st1) && Homes(st) && Homes(st1) && p in st1.recs && st1.recs[p] in st1.sets
    requires st2 == Detach(st1, p) && SameContents(st2, st')
    ensures forall q :: q in st'.recs ==>
              q in st.recs && q != p && st'.Tracks(q) && st.Tracks(q) && st'.HomeOf(q) == st.HomeOf(q)
    ensures st'.recs.Keys == st.recs.Keys - {p}
    ensures forall x, i :: st'.Holds(x, i) <==> st.Holds(x, i)
    ensures AccessKept(st, st')
  {
    DetachAccess(st1, p);
    SameMembersHeld(st, st1);
    SameMembersHeld(st2, st');
    SameContentsAccess(st, st1);
    SameContentsAccess(st2, st');
    hide SameContents, Detach, Homes, AccessKept, State.Holds, State.HomeOf;
    AccessKeptTrans(st1, st2, st');
    AccessKeptTrans(st, st1, st');
  }

  lemma SameMembersHeld(st: State, st': State)
    requires SameContents(st, st')
    ensures forall x, i :: st'.Holds(x, i) <==> st.Holds(x, i)
    ensures st'.recs.Keys == st.recs.Keys
    ensures forall q :: q in st.recs ==> st.Tracks(q) && st'.Tracks(q) && st'.HomeOf(q) == st.HomeOf(q)
  {
  }

  lemma DetachAccess(st: State, p: Ptr)
    requires Homes(st) && p in st.recs && st.recs[p] in st.sets
    ensures Homes(Detach(st, p)) && AccessKept(st, Detach(st, p))
    ensures Detach(st, p).recs.Keys == st.recs.Keys - {p}
    ensures forall q :: q in st.recs && q != p ==>
              st.Tracks(q) && Detach(st, p).Tracks(q) && Detach(st, p).HomeOf(q) == st.HomeOf(q)
    ensures forall x, i :: Detach(st, p).Holds(x, i) <==> st.Holds(x, i)
  {
  }

  // ----- collapsing -----

  /** While everything that was in st is merged into s: the sets in front of n forward to s, those
      from n on are as they were, and s has references unless there was nothing to merge. */
  ghost predicate Collapsing(st: State, st': State, s: Id, n: Id, except: set<Id>) {
    && st'.recs == st.recs && st'.next == s + 1 && s == st.next && st'.any == Some(s) && st'.Active(s)
    && st'.sets[s].ref && st'.sets[s].mod
    && (forall x :: x in st'.sets && x != s ==> x in st.sets)
    && (forall x :: x in st'.sets && x < n ==> st'.sets[x].forward == Some(s))
    && (forall x :: x in st.sets && x >= n ==> x in st'.sets && st'.sets[x] == st.sets[x].(refs := st'.sets[x].refs))
    && (except == {} || (except == {s} && forall x :: x in st'.sets && x != s ==> x >= n))
    && (forall x: Id, i :: st.Holds(x, i) ==> st'.Holds(if x < n then s else x, i))
    && (forall i {:trigger st'.Holds(s, i)} :: st'.Holds(s, i) ==> HeldBefore(st, i))
  }

  ghost predicate HeldBefore(st: State, i: Inst) { exists x :: st.Holds(x, i) }

  lemma HeldThrough(st: State, st1: State, st': State)
    requires forall x, i :: st.Holds(x, i) ==> exists y :: st1.Holds(y, i)
    requires forall x, i :: st1.Holds(x, i) ==> exists y :: st'.Holds(y, i)
    requires forall x, i :: st1.Holds(x, i) ==> HeldBefore(st, i)
    requires forall x, i :: st'.Holds(x, i) ==> HeldBefore(st1, i)
    ensures forall x, i :: st.Holds(x, i) ==> exists y :: st'.Holds(y, i)
    ensures forall x, i :: st'.Holds(x, i) ==> HeldBefore(st, i)
  {
    hide State.Holds;
  }

  lemma CollapsingStart(st: State, st': State, s: Id)
    requires st.Shape() && s == st.next
             && st' == NewSet(st, EmptySet.(may := true, ref := true, mod := true, any := true))
    ensures Collapsing(st, st', s, 0, {s})
  {
    hide State.Shape;
    assert s !in st.sets by {
      NextIsNew(st);
    }
  }

  lemma CollapsingSkip(st: State, st': State, s: Id, cur: Id, except: set<Id>)
    requires Collapsing(st, st', s, cur, except) && cur !in st'.sets
    ensures Collapsing(st, st', s, cur + 1, except)
  {
  }

  /** A set that forwards when its turn comes forwards to one that has had its turn. */
  lemma CollapsingForwarder(st: State, st': State, s: Id, cur: Id, except: set<Id>)
    requires Collapsing(st, st', s, cur, except) && st.Shape() && st.any.None? && st'.Shape()
    requires cur < s && cur in st'.sets && st'.sets[cur].forward.Some?
    ensures var f := st'.sets[cur].forward.value;
            f in st'.sets && f < cur && f != s && except == {} && cur in st'.home && st'.home[cur] == s
    ensures forall i :: !st'.Holds(cur, i)
  {
    assert cur in st.sets && st.sets[cur].forward == st'.sets[cur].forward;
    var f := st'.sets[cur].forward.value;
    assert f in st'.sets && f < cur;
    assert st'.sets[f].forward == Some(s);
  }

  lemma CollapsingActive(st: State, st': State, s: Id, cur: Id, except: set<Id>)
    requires Collapsing(st, st', s, cur, except) && st'.Shape() && cur < s && st'.Active(cur)
    ensures Mergeable(st', s, cur) && st'.sets[s].may && except <= {s}
  {
  }

  lemma RedirectPinned(st: State, cur: Id, s: Id, was: Id)
    requires st.any == Some(s) && cur in st.sets && s in st.sets && cur != s && was < cur && was != s
    ensures Pinned(Redirect(st, cur, s), was)
  {
    assert cur in Redirect(st, cur, s).Forwarders(s);
  }

  lemma {:induction false} CollapsingForwarded(st: State, st1: State, st2: State, st': State, s: Id, cur: Id, was: Id)
    requires Collapsing(st, st1, s, cur, {}) && cur in st1.sets && was < cur < s
    requires st2 == Redirect(st1, cur, s) && Reclaimed(st2, st', was) && st'.Active(s)
    requires st.Shape() && forall i :: !st1.Holds(cur, i)
    ensures Collapsing(st, st', s, cur + 1, {})
  {
    hide Redirect, Reclaimed, State.Holds, HeldBefore;
    CollapsingHolds(st, st1, st2, st', s, cur, was);
    CollapsingSets(st, st1, st2, st', s, cur, was);
    CollapsingHeld(st, st1, st2, st', s, cur, was);
  }

  lemma CollapsingHeld(st: State, st1: State, st2: State, st': State, s: Id, cur: Id, was: Id)
    requires Collapsing(st, st1, s, cur, {}) && cur in st1.sets && cur != s
    requires st2 == Redirect(st1, cur, s) && Reclaimed(st2, st', was)
    ensures forall i {:trigger st'.Holds(s, i)} :: st'.Holds(s, i) ==> HeldBefore(st, i)
  {
    hide HeldBefore;
    forall i | st'.Holds(s, i)
      ensures HeldBefore(st, i)
    {
      assert st2.Holds(s, i) && st1.Holds(s, i);
    }
  }

  lemma CollapsingHolds(st: State, st1: State, st2: State, st': State, s: Id, cur: Id, was: Id)
    requires Collapsing(st, st1, s, cur, {}) && cur in st1.sets && s in st1.sets && cur != s
    requires st2 == Redirect(st1, cur, s) && Reclaimed(st2, st', was) && forall i :: !st1.Holds(cur, i)
    ensures forall x: Id, i :: st.Holds(x, i) ==> st'.Holds(if x < cur + 1 then s else x, i)
  {
    forall x: Id, i
      ensures st1.Holds(x, i) ==> st2.Holds(x, i)
    {
    }
    ReclaimedHolds(st2, st', was);
    hide Redirect, Reclaimed;
    forall x: Id, i | st.Holds(x, i)
      ensures st'.Holds(if x < cur + 1 then s else x, i)
    {
      assert st1.Holds(if x < cur then s else x, i);
    }
  }

  lemma CollapsingSets(st: State, st1: State, st2: State, st': State, s: Id, cur: Id, was: Id)
    requires Collapsing(st, st1, s, cur, {}) && cur in st1.sets && was < cur < s
    requires st2 == Redirect(st1, cur, s) && Reclaimed(st2, st', was) && st'.Active(s)
    ensures st'.recs == st.recs && st'.next == s + 1 && st'.any == Some(s) && st'.sets[s].ref && st'.sets[s].mod
    ensures forall x :: x in st'.sets && x != s ==> x in st.sets
    ensures forall x :: x in st'.sets && x < cur + 1 ==> st'.sets[x].forward == Some(s)
    ensures forall x :: x in st.sets && x >= cur + 1 ==>
              x in st'.sets && st'.sets[x] == st.sets[x].(refs := st'.sets[x].refs)
  {
    RedirectFacts(st1, cur, s);
    assert st2.any == st1.any && st2.next == st1.next && st2.recs == st1.recs;
    hide Redirect;
  }

  lemma ReclaimedHolds(st: State, st': State, s: Id)
    requires Reclaimed(st, st', s)
    ensures forall x, i :: st.Holds(x, i) ==> st'.Holds(x, i)
    ensures st'.any == st.any && st'.next == st.next
  {
  }

  lemma {:induction false} CollapsingMerged(st: State, st1: State, st': State, s: Id, cur: Id, except: set<Id>)
    requires Collapsing(st, st1, s, cur, except) && cur < s && Merged(st1, st', s, cur) && st.Shape()
    ensures Collapsing(st, st', s, cur + 1, {})
  {
    hide State.Holds, HeldBefore, State.Shape, Merged;
    OnList(st);
    CollapsingMergedSets(st, st1, st', s, cur, except);
    CollapsingMergedHolds(st, st1, st', s, cur, except);
    CollapsingMergedHeld(st, st1, st', s, cur, except);
  }

  lemma OnList(st: State)
    requires st.Shape()
    ensures forall x :: x in st.sets ==> x < st.next
  {
  }

  lemma CollapsingMergedHolds(st: State, st1: State, st': State, s: Id, cur: Id, except: set<Id>)
    requires Collapsing(st, st1, s, cur, except) && cur < s && Merged(st1, st', s, cur)
    ensures forall x: Id, i :: st.Holds(x, i) ==> st'.Holds(if x < cur + 1 then s else x, i)
  {
    MergedMembers(st1, st', s, cur);
    forall x: Id, i | st.Holds(x, i)
      ensures st'.Holds(if x < cur + 1 then s else x, i)
    {
      assert st1.Holds(if x < cur then s else x, i);
    }
  }

  lemma {:induction false} CollapsingMergedSets(st: State, st1: State, st': State, s: Id, cur: Id, except: set<Id>)
    requires Collapsing(st, st1, s, cur, except) && cur < s && Merged(st1, st', s, cur)
    requires forall x :: x in st.sets ==> x < s
    ensures st'.recs == st.recs && st'.next == s + 1 && st'.any == Some(s) && st'.Active(s)
    ensures st'.sets[s].ref && st'.sets[s].mod
    ensures forall x :: x in st'.sets && x != s ==> x in st.sets
    ensures forall x :: x in st'.sets && x < cur + 1 ==> st'.sets[x].forward == Some(s)
    ensures forall x :: x in st.sets && x >= cur + 1 ==>
              x in st'.sets && st'.sets[x] == st.sets[x].(refs := st'.sets[x].refs)
  {
    hide State.Holds, HeldBefore;
    assert st1.any == Some(s);
    forall x | x in st'.sets && x < cur + 1
      ensures st'.sets[x].forward == Some(s)
    {
      assert x in st1.sets;
    }
    forall x | x in st.sets && x >= cur + 1
      ensures x in st'.sets && st'.sets[x] == st.sets[x].(refs := st'.sets[x].refs)
    {
      assert x in st1.sets && st1.sets[x] == st.sets[x].(refs := st1.sets[x].refs);
    }
  }

  lemma CollapsingMergedHeld(st: State, st1: State, st': State, s: Id, cur: Id, except: set<Id>)
    requires Collapsing(st, st1, s, cur, except) && cur < s && Merged(st1, st', s, cur)
    ensures forall i {:trigger st'.Holds(s, i)} :: st'.Holds(s, i) ==> HeldBefore(st, i)
  {
    MergedMembers(st1, st', s, cur);
    forall i | st'.Holds(s, i)
      ensures HeldBefore(st, i)
    {
      if st1.Holds(cur, i) {
        assert st.Holds(cur, i);
      }
    }
  }

  lemma {:induction false} CollapsingEnd(st: State, st': State, s: Id, except: set<Id>)
    requires Collapsing(st, st', s, s, except) && st.Shape() && st'.Shape() && st.recs != map[]
    ensures except == {} && st'.Collapsed()
    ensures forall x, i :: st.Holds(x, i) ==> st'.Holds(s, i)
    ensures forall i :: st'.Holds(s, i) ==> HeldBefore(st, i)
  {
    var p :| p in st.recs;
    assert st.recs[p] in st.sets && st'.recs[p] in st'.sets;
  }

  // ----- access -----

  /** Where st' tracks a pointer of st, it records all access of it that st does. */
  ghost predicate AccessKept(st: State, st': State) {
    forall q {:trigger st'.Tracks(q)} :: st.Tracks(q) && st'.Tracks(q) ==>
      && st.HomeOf(q) in st.sets && st'.HomeOf(q) in st'.sets
      && (st.sets[st.HomeOf(q)].ref ==> st'.sets[st'.HomeOf(q)].ref)
      && (st.sets[st.HomeOf(q)].mod ==> st'.sets[st'.HomeOf(q)].mod)
  }

  lemma AccessKeptRefl(st: State)
    requires Homes(st)
    ensures AccessKept(st, st)
  {
  }

  lemma AccessKeptTrans(st: State, st1: State, st': State)
    requires AccessKept(st, st1) && AccessKept(st1, st')
             && (st.recs.Keys <= st1.recs.Keys || st'.recs.Keys <= st1.recs.Keys) && Homes(st1)
    ensures AccessKept(st, st')
  {
    forall q | st.Tracks(q) && st'.Tracks(q)
      ensures st1.Tracks(q)
    {
    }
  }

  lemma SameContentsAccess(st: State, st': State)
    requires SameContents(st, st') && Homes(st)
    ensures AccessKept(st, st')
  {
    forall q | st.Tracks(q)
      ensures st'.Tracks(q) && st'.HomeOf(q) == st.HomeOf(q) && st.HomeOf(q) in st'.sets
    {
    }
  }

  lemma MergedAccess(st: State, st': State, s: Id, t: Id)
    requires Merged(st, st', s, t) && Homes(st) && Homes(st')
    ensures AccessKept(st, st')
  {
  }

  lemma AttachedAccess(st: State, st': State, s: Id, p: Ptr)
    requires Attached(st, st', s, p) && Homes(st)
    ensures AccessKept(st, st')
    ensures st'.recs.Keys == st.recs.Keys + {p} && st'.any == st.any && (st.Active(s) ==> st'.Active(s))
  {
  }

  lemma NewSetAccess(st: State, a: AliasSet)
    requires st.Shape() && Homes(st)
    ensures AccessKept(st, NewSet(st, a))
  {
  }

  // ----- groups of pointers -----

  ghost predicate Together(st: State, p: Ptr, q: Ptr) {
    st.Tracks(p) && st.Tracks(q) && st.HomeOf(p) == st.HomeOf(q)
  }

  /** Set s will take in p: it is saturated, holds p already, or may alias p where p is new or grows. */
  ghost predicate TakesIn(st: State, s: Id, p: Ptr, aa: Oracle, grows: bool) {
    s in st.sets && if p in st.recs && !grows then st.Tracks(p) && st.HomeOf(p) == s else Meets(st, s, p, aa)
  }

  /** The active sets that will take in p. */
  ghost function Takers(st: State, p: Ptr, aa: Oracle, grows: bool): set<Id> {
    set s | s in st.sets && st.Active(s) && TakesIn(st, s, p, aa, grows)
  }

  /** From st to st', p was added: the sets that take it in have become one, which holds p, and
      otherwise pointers are together exactly if they were. */
  ghost predicate Grouped(st: State, st': State, p: Ptr, aa: Oracle, grows: bool) {
    && (forall q, r :: q in st.recs && r in st.recs && st.Tracks(q) && st.Tracks(r) ==>
          (Together(st', q, r) <==>
            || Together(st, q, r)
            || (TakesIn(st, st.HomeOf(q), p, aa, grows) && TakesIn(st, st.HomeOf(r), p, aa, grows))))
    && (forall q :: q in st.recs && st.Tracks(q) ==>
          (Together(st', p, q) <==> TakesIn(st, st.HomeOf(q), p, aa, grows)))
    && (forall s, i :: st.Holds(s, i) ==> exists t :: st'.Holds(t, i))
  }

  /** From st to st', the new pointer p was added to s. */
  ghost predicate Attached(st: State, st': State, s: Id, p: Ptr) {
    && s in st.sets && p !in st.recs
    && st'.recs == st.recs[p := s] && st'.home == st.home && st'.any == st.any && st'.next == st.next
    && st'.sets.Keys == st.sets.Keys
    && (forall x :: x in st.sets && x != s ==> st'.sets[x] == st.sets[x])
    && st'.sets[s].unknown == st.sets[s].unknown && st'.sets[s].any == st.sets[s].any
    && st'.sets[s].forward == st.sets[s].forward && st'.sets[s].ptrs == st.sets[s].ptrs + [p]
    && st'.sets[s].ref == st.sets[s].ref && st'.sets[s].mod == st.sets[s].mod
  }

  /** Once p is in set a, its pointers need not all alias. */
  predicate WeakenedBy(aa: Oracle, a: AliasSet, p: Ptr, knownMustAlias: bool) {
    a.may || (a.ptrs != [] && !knownMustAlias && aa.alias(a.ptrs[0], p) != MustAlias)
  }

  lemma RepresentativeMust(st: State, s: Id, p: Ptr, aa: Oracle)
    requires s in st.sets && !st.sets[s].may && st.MustSets(aa) && aa.Coherent() && st.sets[s].ptrs != []
    ensures aa.alias(st.sets[s].ptrs[0], p) == MustAlias ==> AllMust(st, s, p, aa)
  {
    var l := st.sets[s].ptrs[0];
    assert st.On(s, l);
    forall q | st.On(s, q) && aa.alias(l, p) == MustAlias
      ensures aa.alias(q, p) == MustAlias
    {
      assert Triple(q, l, p);
    }
  }

  /** Once saturated, everything is in one set. */
  lemma SaturatedHomes(st: State, aa: Oracle)
    requires st.Valid(aa) && st.any.Some?
    ensures forall p :: p in st.recs ==> st.Tracks(p) && st.HomeOf(p) == st.any.value
    ensures forall s, i :: st.Holds(s, i) ==> s == st.any.value
    ensures forall p :: OnlyAliases(st, st.any.value, p, aa)
  {
    forall p | p in st.recs
      ensures st.Tracks(p) && st.HomeOf(p) == st.any.value
    {
      HomeRank(st, st.recs[p]);
    }
  }

  lemma SaturatedHome(st: State, p: Ptr, aa: Oracle)
    requires st.Valid(aa) && st.any.Some? && p in st.recs
    ensures st.Tracks(p) && st.HomeOf(p) == st.any.value
  {
    SaturatedHomes(st, aa);
  }

  lemma SaturatedSet(st: State)
    requires st.Shape() && st.any.Some?
    ensures st.Active(st.any.value) && st.sets[st.any.value].may && st.sets[st.any.value].any
    ensures st.home.Keys == st.sets.Keys && st.home[st.any.value] == st.any.value
  {
  }

  lemma SaturatedTakesIn(st: State, p: Ptr, aa: Oracle, grows: bool)
    requires st.Valid(aa) && st.any.Some?
    ensures forall q :: q in st.recs ==> st.Tracks(q) && TakesIn(st, st.HomeOf(q), p, aa, grows)
  {
    SaturatedSet(st);
    SaturatedHomes(st, aa);
  }

  lemma {:induction false} SaturatedAdd(st: State, st': State, p: Ptr, aa: Oracle, grows: bool)
    requires st.Valid(aa) && st.any.Some? && Attached(st, st', st.any.value, p)
    ensures Grouped(st, st', p, aa, grows) && st'.Collapsed() && st'.Tracks(p) && st'.HomeOf(p) == st.any.value
  {
    hide State.Shape, State.Counted, State.Live, State.Listed, State.MustSets, State.Partition, Meets, TakesIn;
    SaturatedSet(st);
    HomesListed(st);
    SaturatedHomes(st, aa);
    SaturatedTakesIn(st, p, aa, grows);
    AttachedHomes(st, st', st.any.value, p);
  }

  lemma {:induction false} SaturatedRepeat(st: State, p: Ptr, aa: Oracle, grows: bool)
    requires st.Valid(aa) && st.any.Some? && p in st.recs
    ensures Grouped(st, st, p, aa, grows)
  {
    SaturatedHomes(st, aa);
    SaturatedTakesIn(st, p, aa, grows);
  }

  lemma {:induction false} GroupedSame(st: State, st': State, p: Ptr, aa: Oracle)
    requires SameContents(st, st') && p in st.recs && Homes(st)
    ensures Grouped(st, st', p, aa, false)
  {
    forall s, i | st.Holds(s, i)
      ensures st'.Holds(s, i)
    {
    }
  }

  lemma {:induction false} GroupedOn(st: State, st1: State, st': State, p: Ptr, aa: Oracle, grows: bool)
    requires Grouped(st, st1, p, aa, grows) && SameContents(st1, st') && p in st1.recs && st1.recs.Keys == st.recs.Keys
    ensures Grouped(st, st', p, aa, grows)
  {
    hide TakesIn;
    forall q, r | q in st.recs && r in st.recs
      ensures Together(st', q, r) <==> Together(st1, q, r)
    {
    }
    forall s, i | st.Holds(s, i)
      ensures exists t :: st'.Holds(t, i)
    {
      var t :| st1.Holds(t, i);
      assert st'.Holds(t, i);
    }
  }

  lemma SettledOnly(st: State, found: Option<Id>, p: Ptr, aa: Oracle)
    requires st.Inv(aa, {}, {}) && Settled(st, found, st.next, p, aa) && aa.Coherent()
    requires found.Some? ==> st.Active(found.value)
    ensures found.Some? ==> OnlyAliases(st, found.value, p, aa)
    ensures found.None? ==> forall s :: OnlyAliases(st, s, p, aa)
    ensures found.Some? && !st.sets[found.value].may && st.sets[found.value].ptrs != [] && st.any.None? ==>
              aa.alias(st.sets[found.value].ptrs[0], p) != NoAlias
  {
    forall q | st.Tracks(q) && aa.alias(p, q) != NoAlias
      ensures Some(st.HomeOf(q)) == found
    {
      HomeRank(st, st.recs[q]);
      assert st.On(st.HomeOf(q), q);
    }
    forall s: Id, i | st.Holds(s, i) && aa.touches(i, p)
      ensures Some(s) == found
    {
      assert st.Active(s);
    }
    if found.Some? && !st.sets[found.value].may && st.sets[found.value].ptrs != [] && st.any.None? {
      MustSetMeets(st, found.value, p, aa);
    }
  }

  lemma NewSetOnly(st: State, a: AliasSet, p: Ptr, aa: Oracle)
    requires st.Shape() && (forall s :: OnlyAliases(st, s, p, aa)) && a.ptrs == [] && a.unknown == []
    ensures OnlyAliases(NewSet(st, a), st.next, p, aa)
  {
    var st' := NewSet(st, a);
    assert OnlyAliases(st, st.next, p, aa) && OnlyAliases(st, st.next + 1, p, aa);
    assert forall q :: st'.Tracks(q) ==> st.Tracks(q);
    assert forall x, i :: st'.Holds(x, i) ==> st.Holds(x, i);
  }

  lemma AttachedNow(st: State, s: Id, p: Ptr, may: bool)
    requires s in st.sets && p !in st.recs
    ensures Attached(st, Attach(st, s, p, may), s, p)
  {
  }

  /** Adding a pointer moves no other. */
  lemma AttachedHomes(st: State, st': State, s: Id, p: Ptr)
    requires Attached(st, st', s, p) && Homes(st) && st.home[s] == s
    ensures st'.Tracks(p) && st'.HomeOf(p) == s
    ensures forall q :: q in st.recs ==> st'.Tracks(q) && st'.HomeOf(q) == st.HomeOf(q)
    ensures forall x, i :: st.Holds(x, i) ==> st'.Holds(x, i)
  {
  }

  lemma NewSetHomes(st: State, a: AliasSet)
    requires st.Shape() && Homes(st) && a.ptrs == [] && a.unknown == []
    ensures Homes(NewSet(st, a))
    ensures forall q :: q in st.recs ==> NewSet(st, a).HomeOf(q) == st.HomeOf(q) && st.HomeOf(q) != st.next
    ensures forall x, i :: st.Holds(x, i) ==> NewSet(st, a).Holds(x, i)
  {
  }

  /** The sets that may alias p have become one, and p is in it, or alone if there are none. */
  lemma {:induction false} GroupedByHomes(st: State, st': State, found: Option<Id>, s: Id, p: Ptr, aa: Oracle,
                                          grows: bool)
    requires Homes(st) && (forall q :: q in st.recs ==> st.Active(st.HomeOf(q)) && st.HomeOf(q) < st.next)
    requires (p in st.recs ==> grows) && st'.Tracks(p) && st'.HomeOf(p) == s
    requires forall q :: q in st.recs ==>
               st'.Tracks(q) && st'.HomeOf(q) == Moved(st.HomeOf(q), found, Hits(st, p, aa), st.next)
    requires forall x :: x in Hits(st, p, aa) && x < st.next ==> found.Some?
    requires if found.Some? then s == found.value && s in Hits(st, p, aa)
             else forall q :: q in st.recs ==> st.HomeOf(q) != s
    requires forall x, i :: st.Holds(x, i) ==> exists t :: st'.Holds(t, i)
    ensures Grouped(st, st', p, aa, grows)
  {
    var hits := Hits(st, p, aa);
    forall q | q in st.recs
      ensures TakesIn(st, st.HomeOf(q), p, aa, grows) <==> st.HomeOf(q) in hits
      ensures st.HomeOf(q) in hits ==> st'.HomeOf(q) == s
      ensures st.HomeOf(q) !in hits ==> st'.HomeOf(q) == st.HomeOf(q) && st.HomeOf(q) != s
    {
    }
  }

  lemma ActiveHomes(st: State)
    requires st.Shape() && st.Listed()
    ensures Homes(st) && forall q :: q in st.recs ==> st.Active(st.HomeOf(q)) && st.HomeOf(q) < st.next
  {
    HomesListed(st);
    forall q | q in st.recs
      ensures st.Active(st.HomeOf(q))
    {
      HomeRank(st, st.recs[q]);
    }
  }

  lemma {:induction false} GroupedByAdding(st: State, st1: State, st': State, found: Option<Id>, s: Id, p: Ptr,
                                           aa: Oracle, grows: bool)
    requires st.Shape() && st.Listed() && st1.Shape() && st1.Listed() && p !in st.recs
    requires UnitedBelow(st, st1, found, Hits(st, p, aa), st.next)
    requires if found.Some? then s == found.value && st1.Active(s) && Attached(st1, st', s, p)
             else s == st1.next && Attached(NewSet(st1, EmptySet), st', s, p)
    ensures Grouped(st, st', p, aa, grows) && st'.Tracks(p) && st'.HomeOf(p) == s
  {
    hide State.Shape, State.Listed, Meets, Grouped;
    ActiveHomes(st);
    ActiveHomes(st1);
    if found.Some? {
      ForwardStep(st1, s);
      AttachedHomes(st1, st', s, p);
    } else {
      NewSetHomes(st1, EmptySet);
      AttachedHomes(NewSet(st1, EmptySet), st', s, p);
    }
    forall x, i | st.Holds(x, i)
      ensures exists t :: st'.Holds(t, i)
    {
      assert st1.Holds(Moved(x, found, Hits(st, p, aa), st.next), i);
    }
    GroupedByHomes(st, st', found, s, p, aa, grows);
  }

  lemma OwnHit(st: State, p: Ptr, aa: Oracle)
    requires st.Shape() && st.Listed() && p in st.recs && aa.Coherent()
    ensures st.Tracks(p) && st.HomeOf(p) in Hits(st, p, aa)
  {
    HomeRank(st, st.recs[p]);
    assert st.On(st.HomeOf(p), p) && aa.alias(p, p) == MustAlias;
  }

  /** The sets that may alias p, which has grown, have become one; its own set is among them. */
  lemma {:induction false} GroupedByGrowing(st: State, st': State, found: Option<Id>, p: Ptr, aa: Oracle)
    requires st.Shape() && st.Listed() && st'.Shape() && st'.Listed() && p in st.recs && aa.Coherent()
    requires UnitedBelow(st, st', found, Hits(st, p, aa), st.next)
    ensures Grouped(st, st', p, aa, true) && found.Some? && st'.Tracks(p) && st'.HomeOf(p) == found.value
  {
    hide State.Shape, State.Listed, Meets, Grouped, Oracle.Coherent;
    ActiveHomes(st);
    ActiveHomes(st');
    OwnHit(st, p, aa);
    forall x, i | st.Holds(x, i)
      ensures exists t :: st'.Holds(t, i)
    {
      assert st'.Holds(Moved(x, found, Hits(st, p, aa), st.next), i);
    }
    GroupedByHomes(st, st', found, found.value, p, aa, true);
  }

  // ----- which sets become one -----

  lemma ValidNonempty(st: State, aa: Oracle)
    requires st.Valid(aa)
    ensures Nonempty(st)
  {
    InvNonempty(st, aa);
  }

  lemma SameHome(st: State, st': State, p: Ptr)
    requires SameContents(st, st') && p in st.recs
    ensures st.Tracks(p) && st'.Tracks(p) && st'.HomeOf(p) == st.HomeOf(p)
  {
  }

  lemma {:induction false} JoinedAttach(st: State, st1: State, st': State, hits: set<Id>, s: Id, p: Ptr)
    requires Joined(st, st1, hits, s, {}, {}, false, false) && Attached(st1, st', s, p)
    ensures Joined(st, st', hits, s, {p}, {}, false, false)
  {
    JoinedMore(st, st1, st', hits, s, {}, {p}, {}, {}, false, false, false, false);
    var none: set<Inst> := {};
    assert {} + {p} == {p} && none + none == none;
  }

  lemma {:induction false} AccessJoined(st: State, st1: State, hits: set<Id>, s: Id, p: Ptr, ref: bool, mod: bool)
    requires Joined(st, st1, hits, s, {p}, {}, false, false)
    ensures Joined(st, AddAccess(st1, s, ref, mod), hits, s, {p}, {}, ref, mod)
  {
    JoinedMore(st, st1, AddAccess(st1, s, ref, mod), hits, s, {p}, {}, {}, {}, false, false, ref, mod);
    var none: set<Inst> := {};
    assert {p} + {} == {p} && none + none == none;
  }

  lemma {:induction false} InstJoined(st: State, st1: State, hits: set<Id>, s: Id, i: Inst, writes: bool)
    requires Joined(st, st1, hits, s, {}, {}, false, false)
    ensures Joined(st, AttachInst(st1, s, i, writes), hits, s, {}, {i}, true, writes)
  {
    JoinedMore(st, st1, AttachInst(st1, s, i, writes), hits, s, {}, {}, {}, {i}, false, false, true, writes);
    var none: set<Ptr> := {};
    assert none + none == none && {} + {i} == {i};
  }

  /** All sets that are hit are on the list. */
  lemma AllBelow(st: State, st': State, found: Option<Id>, hits: set<Id>)
    requires st.Shape() && Gathered(st, st', found, hits, st.next)
    ensures Below(hits, st.next) == hits
  {
    forall h | h in hits
      ensures h < st.next
    {
      assert st.Active(h);
    }
  }

  lemma {:induction false} AddedJoined(st: State, st1: State, st': State, found: Option<Id>, s: Id, p: Ptr, aa: Oracle,
                                       grows: bool)
    requires st.Shape() && st.Listed() && st1.Shape() && p !in st.recs
    requires UnitedBelow(st, st1, found, Hits(st, p, aa), st.next)
    requires if found.Some? then s == found.value && Attached(st1, st', s, p)
             else s == st1.next && Attached(NewSet(st1, EmptySet), st', s, p)
    ensures Joined(st, st', Takers(st, p, aa, grows), s, {p}, {}, false, false)
  {
    hide State.Shape, State.Listed, Meets, Attached, Joined, SameGroups;
    var hits := Hits(st, p, aa);
    assert Takers(st, p, aa, grows) == hits;
    UnitedGathered(st, st1, found, hits, st.next);
    AllBelow(st, st1, found, hits);
    if found.Some? {
      JoinedAttach(st, st1, st', hits, s, p);
    } else {
      UnitedKeys(st, st1, found, hits, st.next);
      NextIsNew(st);
      NextIsNew(st1);
      JoinedNew(st, st1, NewSet(st1, EmptySet), s);
      JoinedAttach(st, NewSet(st1, EmptySet), st', hits, s, p);
    }
  }

  lemma {:induction false} InstAddedJoined(st: State, st1: State, st2: State, found: Option<Id>, s: Id, i: Inst,
                                           writes: bool, aa: Oracle)
    requires st.Shape() && st1.Shape() && UnitedBelow(st, st1, found, InstHits(st, i, aa), st.next)
    requires if found.Some? then s == found.value && st2 == st1 else s == st1.next && st2 == NewSet(st1, EmptySet)
    requires s in st2.sets
    ensures Joined(st, AttachInst(st2, s, i, writes), InstHits(st, i, aa), s, {}, {i}, true, writes)
  {
    hide State.Shape, MeetsInst, Joined, SameGroups, AttachInst;
    var hits := InstHits(st, i, aa);
    UnitedGathered(st, st1, found, hits, st.next);
    AllBelow(st, st1, found, hits);
    if found.None? {
      UnitedKeys(st, st1, found, hits, st.next);
      NextIsNew(st);
      NextIsNew(st1);
      JoinedNew(st, st1, st2, s);
    }
    InstJoined(st, st2, hits, s, i, writes);
  }

  /** A known pointer that has not grown is taken in by its own set. */
  lemma {:induction false} KnownTaker(st: State, p: Ptr, aa: Oracle)
    requires st.Valid(aa) && p in st.recs
    ensures st.Tracks(p) && Takers(st, p, aa, false) == {st.HomeOf(p)}
    ensures Joined(st, st, Takers(st, p, aa, false), st.HomeOf(p), {p}, {}, false, false)
    ensures st.Active(st.HomeOf(p)) && Weak(st, st, Takers(st, p, aa, false), st.HomeOf(p), false, aa)
  {
    ActiveHomes(st);
    assert st.On(st.HomeOf(p), p);
    WeakSelf(st, st.HomeOf(p), aa);
    JoinedSelf(st, st.HomeOf(p), p);
    hide Joined;
    assert Takers(st, p, aa, false) == {st.HomeOf(p)};
  }

  lemma {:induction false} GrownJoined(st: State, st': State, found: Option<Id>, p: Ptr, aa: Oracle)
    requires st.Shape() && st.Listed() && p in st.recs && aa.Coherent() && found.Some?
    requires UnitedBelow(st, st', found, Hits(st, p, aa), st.next)
    ensures Joined(st, st', Takers(st, p, aa, true), found.value, {p}, {}, false, false)
  {
    hide State.Shape, State.Listed, Meets, Joined, Oracle.Coherent;
    var hits := Hits(st, p, aa);
    assert Takers(st, p, aa, true) == hits;
    UnitedGathered(st, st', found, hits, st.next);
    AllBelow(st, st', found, hits);
    OwnHit(st, p, aa);
    ListedAt(st, p);
    JoinedWith(st, st', hits, found.value, p, st.HomeOf(p));
  }

  lemma ListedAt(st: State, p: Ptr)
    requires st.Listed() && p in st.recs
    ensures st.Tracks(p) && st.On(st.HomeOf(p), p)
  {
  }

  lemma {:induction false} JoinedWith(st: State, st': State, hits: set<Id>, s: Id, p: Ptr, h: Id)
    requires Joined(st, st', hits, s, {}, {}, false, false) && h in hits && st.On(h, p)
    ensures Joined(st, st', hits, s, {p}, {}, false, false)
  {
    assert OnSome(st, hits, p);
  }

  lemma {:induction false} JoinedId(st: State, s: Id)
    requires st.Active(s)
    ensures Joined(st, st, {s}, s, {}, {}, false, false)
  {
    forall q
      ensures OnSome(st, {s}, q) == st.On(s, q)
    {
    }
    forall i
      ensures HeldBySome(st, {s}, i) == st.Holds(s, i)
    {
    }
    assert s in {s};
  }

  lemma {:induction false} SaturatedTakers(st: State, p: Ptr, aa: Oracle, grows: bool)
    requires st.Valid(aa) && st.any.Some?
    ensures Takers(st, p, aa, grows) == {st.any.value}
  {
    SaturatedSet(st);
    SaturatedHomes(st, aa);
    forall s
      ensures s in Takers(st, p, aa, grows) <==> s == st.any.value
    {
      OnlyOneActive(st, aa, s);
    }
  }

  lemma SaturatedOn(st: State, p: Ptr, aa: Oracle)
    requires st.Valid(aa) && st.any.Some? && p in st.recs
    ensures st.On(st.any.value, p)
  {
    SaturatedHomes(st, aa);
    ListedAt(st, p);
  }

  /** Adding a pointer adds no instruction. */
  lemma {:induction false} JoinedHeld(st: State, st': State, hits: set<Id>, s: Id, p: Ptr, ref: bool, mod: bool,
                                      aa: Oracle)
    requires Joined(st, st', hits, s, {p}, {}, ref, mod) && st'.Valid(aa)
    ensures forall x, i :: st'.Holds(x, i) ==> HeldBefore(st, i)
  {
    forall x, i | st'.Holds(x, i)
      ensures HeldBefore(st, i)
    {
      assert st'.Active(x);
      if x == s {
        assert HeldBySome(st, hits, i);
        var h :| h in hits && st.Holds(h, i);
      } else {
        assert st.Holds(x, i);
      }
    }
  }

  lemma {:induction false} NothingRemoved(st: State, p: Ptr, aa: Oracle)
    requires st.Valid(aa) && p !in st.recs
    ensures Removed(st, st, p)
  {
    InvNonempty(st, aa);
    forall x, q | st.On(x, q)
      ensures q != p
    {
    }
    forall x | st.Active(x)
      ensures (exists q :: q != p && st.On(x, q)) || exists i :: st.Holds(x, i)
    {
      if st.sets[x].ptrs != [] {
        assert st.On(x, st.sets[x].ptrs[0]);
      } else {
        assert st.Holds(x, st.sets[x].unknown[0]);
      }
    }
  }

  lemma {:induction false} DetachedRemoved(st: State, st1: State, st2: State, st': State, p: Ptr, aa: Oracle)
    requires st.Valid(aa) && SameContents(st, st1) && st1.Valid(aa) && p in st1.recs && st1.recs[p] in st1.sets
    requires st1.Active(st1.recs[p])
    requires st2 == Detach(st1, p) && SameContents(st2, st') && st'.Valid(aa)
    ensures Removed(st, st', p)
  {
    hide SameContents, Detach, State.Inv, State.Collapsed;
    ValidNonempty(st, aa);
    ValidNonempty(st', aa);
    SameContentsGroups(st, st1);
    DetachedSets(st1, st2, p, aa);
    LeftSets(st2, st');
    hide State.Valid, Nonempty;
    RemovedBy(st, st1, st2, st', p);
  }

  lemma {:induction false} DetachedSets(st: State, st': State, p: Ptr, aa: Oracle)
    requires st.Valid(aa) && p in st.recs && st.recs[p] in st.sets && st.Active(st.recs[p]) && st' == Detach(st, p)
    ensures forall x :: (st'.Active(x) <==> st.Active(x))
                        && (st.Active(x) ==> SameBits(st.sets[x], st'.sets[x]))
    ensures forall x, q :: st.Active(x) ==> (st'.On(x, q) <==> st.On(x, q) && q != p)
    ensures forall x, i :: st'.Holds(x, i) <==> st.Holds(x, i)
  {
    ListedOnce(st, p, aa);
    hide State.Valid;
    DetachedMembers(st, st', p);
  }

  lemma ListedOnce(st: State, p: Ptr, aa: Oracle)
    requires st.Valid(aa) && p in st.recs && st.Active(st.recs[p])
    ensures NoDuplicates(st.sets[st.recs[p]].ptrs) && forall x :: st.On(x, p) ==> x == st.recs[p]
  {
  }

  lemma {:induction false} DetachedMembers(st: State, st': State, p: Ptr)
    requires p in st.recs && st.recs[p] in st.sets && st' == Detach(st, p)
    requires NoDuplicates(st.sets[st.recs[p]].ptrs) && forall x :: st.On(x, p) ==> x == st.recs[p]
    ensures forall x :: (st'.Active(x) <==> st.Active(x))
                        && (st.Active(x) ==> SameBits(st.sets[x], st'.sets[x]))
    ensures forall x, q :: st'.On(x, q) <==> st.On(x, q) && q != p
    ensures forall x, i :: st'.Holds(x, i) <==> st.Holds(x, i)
  {
    WithoutElements(st.sets[st.recs[p]].ptrs, p);
  }

  /** Only sets in which nothing is left are gone. */
  lemma {:induction false} LeftSets(st: State, st': State)
    requires SameContents(st, st') && Nonempty(st')
    ensures forall x :: st'.Active(x) ==> st.Active(x) && SameGroup(st.sets[x], st'.sets[x])
    ensures forall x :: st.Active(x) ==>
              (st'.Active(x) <==> st.sets[x].ptrs != [] || st.sets[x].unknown != [])
  {
  }

  lemma {:induction false} RemovedBy(st: State, st1: State, st2: State, st': State, p: Ptr)
    requires SameGroups(st, st1)
    requires forall x :: (st2.Active(x) <==> st1.Active(x))
                         && (st1.Active(x) ==> SameBits(st1.sets[x], st2.sets[x]))
    requires forall x, q :: st1.Active(x) ==> (st2.On(x, q) <==> st1.On(x, q) && q != p)
    requires forall x, i :: st2.Holds(x, i) <==> st1.Holds(x, i)
    requires forall x :: st'.Active(x) ==> st2.Active(x) && SameGroup(st2.sets[x], st'.sets[x])
    requires forall x :: st2.Active(x) ==> (st'.Active(x) <==> st2.sets[x].ptrs != [] || st2.sets[x].unknown != [])
    ensures Removed(st, st', p)
  {
    forall x | st.Active(x)
      ensures st'.Active(x) <==> (exists q :: q != p && st.On(x, q)) || exists i :: st.Holds(x, i)
    {
      assert st1.Active(x) && st2.Active(x);
      assert forall q :: st2.On(x, q) <==> st.On(x, q) && q != p;
      assert forall i :: st2.Holds(x, i) <==> st.Holds(x, i);
      SomethingOn(st2, x);
    }
    forall x | st'.Active(x)
      ensures st.Active(x) && SameBits(st.sets[x], st'.sets[x])
      ensures forall q :: st'.On(x, q) <==> st.On(x, q) && q != p
      ensures forall i :: st'.Holds(x, i) <==> st.Holds(x, i)
    {
      assert st2.Active(x) && st1.Active(x);
      assert forall q :: st'.On(x, q) <==> st2.On(x, q);
      assert forall i :: st'.Holds(x, i) <==> st2.Holds(x, i);
    }
  }

  lemma SomethingOn(st: State, x: Id)
    requires x in st.sets
    ensures st.sets[x].ptrs != [] <==> exists q :: st.On(x, q)
    ensures st.sets[x].unknown != [] <==> exists i :: st.Holds(x, i)
  {
    if st.sets[x].ptrs != [] {
      assert st.On(x, st.sets[x].ptrs[0]);
    }
    if st.sets[x].unknown != [] {
      assert st.Holds(x, st.sets[x].unknown[0]);
    }
  }

  // ----- "may" sets -----

  lemma JoinedActive(st: State, st': State, hits: set<Id>, s: Id, ptrs: set<Ptr>, insts: set<Inst>, ref: bool,
                     mod: bool)
    requires Joined(st, st', hits, s, ptrs, insts, ref, mod)
    ensures st'.Active(s)
  {
  }

  lemma {:induction false} GrownWeak(st: State, st': State, f: Id, p: Ptr, aa: Oracle, at: Oracle)
    requires st.Shape() && p in st.recs && aa.SameMust(at)
    requires MayGathered(st, st', Some(f), Hits(st, p, at), st.next, aa)
    ensures Weak(st, st', Takers(st, p, at, true), f, false, at)
  {
    hide State.Shape, Meets;
    OnList(st);
    assert Takers(st, p, at, true) == Hits(st, p, at) == Below(Hits(st, p, at), st.next);
    assert MustAlike(st', f, at) == MustAlike(st', f, aa);
  }

  lemma WeakSaturated(st: State, st': State, hits: set<Id>, s: Id, aa: Oracle)
    requires st.any == Some(s) && st'.any == Some(s) && st.Shape() && st'.Shape() && s in hits
    ensures Weak(st, st', hits, s, false, aa)
  {
    assert s in st.sets && st.sets[s].may;
  }

  lemma {:induction false} AddedWeak(st: State, st1: State, st': State, s: Id, p: Ptr, known: bool, aa: Oracle,
                                     grows: bool)
    requires st.Shape() && p !in st.recs && MayGathered(st, st1, Some(s), Hits(st, p, aa), st.next, aa)
    requires Attached(st1, st', s, p) && st'.Inv(aa, {}, {})
    requires st'.sets[s].may == WeakenedBy(aa, st1.sets[s], p, known)
    ensures Weak(st, st', Takers(st, p, aa, grows), s, false, aa)
  {
    hide State.Shape, Meets, State.MustSets;
    OnList(st);
    assert Takers(st, p, aa, grows) == Hits(st, p, aa) == Below(Hits(st, p, aa), st.next);
    var a := st1.sets[s];
    if a.ptrs != [] {
      assert st'.On(s, a.ptrs[0]) && st'.On(s, p);
    }
    WeakMore(st, st1, st', Takers(st, p, aa, grows), s, aa);
  }

  lemma {:induction false} AloneWeak(st: State, st1: State, st': State, s: Id, p: Ptr, aa: Oracle, grows: bool)
    requires s in st'.sets && !st'.sets[s].may && st'.Inv(aa, {}, {}) && p !in st.recs && st.Shape()
    requires UnitedBelow(st, st1, None, Hits(st, p, aa), st.next)
    ensures Weak(st, st', Takers(st, p, aa, grows), s, false, aa)
  {
    hide State.Shape, Meets, State.MustSets, UnitedBelow;
    OnList(st);
    UnitedGathered(st, st1, None, Hits(st, p, aa), st.next);
    assert Takers(st, p, aa, grows) == Hits(st, p, aa) == Below(Hits(st, p, aa), st.next) == {};
    WeakIf(st, st', {}, s, false, aa);
  }

  lemma {:induction false} AccessWeak(st: State, st1: State, hits: set<Id>, s: Id, ref: bool, mod: bool, aa: Oracle)
    requires Weak(st, st1, hits, s, false, aa)
    ensures Weak(st, AddAccess(st1, s, ref, mod), hits, s, false, aa)
  {
    assert forall q :: AddAccess(st1, s, ref, mod).On(s, q) == st1.On(s, q);
  }

  /** The set that was found is a "may" set exactly if one that became it was, or its pointers need not all
      alias. */
  ghost predicate MayGathered(st: State, st': State, found: Option<Id>, hits: set<Id>, n: Id, aa: Oracle) {
    found.Some? ==> Weak(st, st', Below(hits, n), found.value, false, aa)
  }

  lemma NothingGathered(st: State, hits: set<Id>, aa: Oracle)
    ensures MayGathered(st, st, None, hits, 0, aa)
  {
  }

  lemma MayGatheredSkip(st: State, st': State, found: Option<Id>, hits: set<Id>, n: Id, aa: Oracle)
    requires MayGathered(st, st', found, hits, n, aa) && n !in hits
    ensures MayGathered(st, st', found, hits, n + 1, aa)
  {
    assert Below(hits, n + 1) == Below(hits, n);
  }

  /** A set that is hit next still is what it was. */
  lemma NextHit(st: State, st': State, found: Option<Id>, hits: set<Id>, n: Id)
    requires UnitedBelow(st, st', found, hits, n) && n in hits && (found.Some? ==> found.value < n)
    ensures n in st.sets && n in st'.sets && st'.sets[n].may == st.sets[n].may
    ensures Below(hits, n + 1) == Below(hits, n) + {n} && (found.None? ==> Below(hits, n) == {})
  {
    UnitedGathered(st, st', found, hits, n);
  }

  lemma {:induction false} MayGatheredFirst(st: State, st': State, hits: set<Id>, n: Id, aa: Oracle)
    requires UnitedBelow(st, st', None, hits, n) && n in hits && st'.Inv(aa, {}, {}) && st'.Active(n)
    ensures MayGathered(st, st', Some(n), hits, n + 1, aa)
  {
    hide State.Shape, State.Counted, State.Live, State.Listed, State.MustSets, State.Partition, UnitedBelow,
         MustAlike, State.On;
    NextHit(st, st', None, hits, n);
    assert SomeMay(st, Below(hits, n + 1)) <==> st.sets[n].may;
    MayMeans(st', n, aa);
    WeakIf(st, st', Below(hits, n + 1), n, false, aa);
  }

  lemma MayMeans(st: State, s: Id, aa: Oracle)
    requires st.MustSets(aa) && s in st.sets
    ensures !st.sets[s].may ==> MustAlike(st, s, aa)
  {
  }

  lemma {:induction false} MayGatheredMore(st: State, st1: State, st': State, f: Id, hits: set<Id>, n: Id, aa: Oracle)
    requires UnitedBelow(st, st1, Some(f), hits, n) && n in hits && f < n && Merged(st1, st', f, n)
    requires st'.Inv(aa, {}, {}) && st'.sets[f].may == Weakened(aa, st1.sets[f], st1.sets[n]) && st1.Active(n)
    ensures MayGathered(st, st1, Some(f), hits, n, aa) ==> MayGathered(st, st', Some(f), hits, n + 1, aa)
  {
    hide State.Shape, State.Counted, State.Live, State.Listed, State.MustSets, State.Partition, UnitedBelow, Merged,
         MustAlike;
    if MayGathered(st, st1, Some(f), hits, n, aa) {
      NextHit(st, st1, Some(f), hits, n);
      assert SomeMay(st, Below(hits, n + 1)) <==> SomeMay(st, Below(hits, n)) || st.sets[n].may;
      MergedAlike(st1, st', f, n, aa);
      WeakIf(st, st', Below(hits, n + 1), f, false, aa);
    }
  }

  /** If the pointers of the union must alias, so do those of both sets, and their first ones. */
  lemma {:induction false} MergedAlike(st: State, st': State, s: Id, t: Id, aa: Oracle)
    requires Merged(st, st', s, t)
    ensures s in st.sets && t in st.sets && s in st'.sets
    ensures MustAlike(st', s, aa) ==> MustAlike(st, s, aa)
    ensures MustAlike(st', s, aa) && st.sets[s].ptrs != [] && st.sets[t].ptrs != [] ==>
              aa.alias(st.sets[s].ptrs[0], st.sets[t].ptrs[0]) == MustAlias
  {
    MergedMembers(st, st', s, t);
    hide Merged;
    if st.sets[s].ptrs != [] && st.sets[t].ptrs != [] {
      assert st.On(s, st.sets[s].ptrs[0]) && st.On(t, st.sets[t].ptrs[0]);
      assert st'.On(s, st.sets[s].ptrs[0]) && st'.On(s, st.sets[t].ptrs[0]);
    }
  }

  // ----- searching for the sets that are hit -----

  ghost predicate Absorbed(st: State, st': State, found: Option<Id>, cur: Id) {
    if found.None? then st' == st else Merged(st, st', found.value, cur)
  }

  /** No active set in front of n is hit, but for the one that was found, which is. */
  ghost predicate Settled(st: State, found: Option<Id>, n: Id, p: Ptr, aa: Oracle) {
    && (forall s: Id :: st.Active(s) && s < n && Some(s) != found ==> !Meets(st, s, p, aa))
    && (found.Some? && st.Active(found.value) ==> Meets(st, found.value, p, aa))
  }

  ghost predicate SettledInst(st: State, found: Option<Id>, n: Id, i: Inst, aa: Oracle) {
    forall s: Id :: st.Active(s) && s < n && Some(s) != found ==> !MeetsInst(st, s, i, aa)
  }

  /** If s is a "must" set, p must alias everything in it. */
  ghost predicate AllMust(st: State, s: Id, p: Ptr, aa: Oracle) {
    s in st.sets && (!st.sets[s].may ==> forall q :: st.On(s, q) ==> aa.alias(q, p) == MustAlias)
  }

  lemma SettledSkip(st: State, found: Option<Id>, n: Id, p: Ptr, aa: Oracle)
    requires Settled(st, found, n, p, aa) && (st.Active(n) ==> !Meets(st, n, p, aa))
    ensures Settled(st, found, n + 1, p, aa)
  {
  }

  lemma AbsorbedSettled(st: State, st': State, found: Option<Id>, cur: Id, p: Ptr, aa: Oracle, must: bool)
    requires Absorbed(st, st', found, cur) && Settled(st, found, cur, p, aa) && st.Active(cur) && Meets(st, cur, p, aa)
    requires found.Some? ==> found.value < cur && st.Active(found.value)
    requires must ==> AllMust(st, cur, p, aa) && (found.Some? ==> AllMust(st, found.value, p, aa))
    ensures var f := if found.None? then Some(cur) else found;
            Settled(st', f, cur + 1, p, aa) && (must ==> AllMust(st', f.value, p, aa))
  {
    if found.Some? {
      MergedMeets(st, st', found.value, cur, p, aa);
    }
  }

  lemma AbsorbedSettledInst(st: State, st': State, found: Option<Id>, cur: Id, i: Inst, aa: Oracle)
    requires Absorbed(st, st', found, cur) && SettledInst(st, found, cur, i, aa) && st.Active(cur)
    requires found.Some? ==> found.value < cur && st.Active(found.value)
    ensures SettledInst(st', if found.None? then Some(cur) else found, cur + 1, i, aa)
  {
    if found.Some? {
      MergedMeetsInst(st, st', found.value, cur, i, aa);
    }
  }

  // ----- uniting sets -----

  ghost function Hits(st: State, p: Ptr, aa: Oracle): set<Id> {
    set s | s in st.sets && st.Active(s) && Meets(st, s, p, aa)
  }

  ghost function InstHits(st: State, i: Inst, aa: Oracle): set<Id> {
    set s | s in st.sets && st.Active(s) && MeetsInst(st, s, i, aa)
  }

  function Moved(s: Id, found: Option<Id>, hits: set<Id>, n: Id): Id {
    if s in hits && s < n && found.Some? then found.value else s
  }

  /** From st to st', those of the hit sets that are in front of n have become one, and the sets from n
      on are as they were. */
  ghost predicate UnitedBelow(st: State, st': State, found: Option<Id>, hits: set<Id>, n: Id) {
    && st'.recs == st.recs && st'.any == st.any && st'.next == st.next
    && (forall s :: s in hits && s < n ==> found.Some?)
    && (found.Some? ==> found.value in hits && found.value < n)
    && (forall s :: s in st'.sets ==> s in st.sets)
    && (forall s :: s in st.sets && s >= n ==> s in st'.sets && st'.sets[s] == st.sets[s].(refs := st'.sets[s].refs))
    && (forall p :: p in st.recs ==>
          st.Tracks(p) && st'.Tracks(p) && st'.HomeOf(p) == Moved(st.HomeOf(p), found, hits, n))
    && (forall s, i :: st.Holds(s, i) ==> st'.Holds(Moved(s, found, hits, n), i))
    && Gathered(st, st', found, hits, n)
  }

  function Below(hits: set<Id>, n: Id): set<Id> { set h | h in hits && h < n }

  /** Exactly the sets that are hit, in front of n, have become the one that was found. */
  ghost predicate Gathered(st: State, st': State, found: Option<Id>, hits: set<Id>, n: Id) {
    && (forall h :: h in hits ==> st.Active(h))
    && if found.None? then Below(hits, n) == {} && SameGroups(st, st')
       else Joined(st, st', Below(hits, n), found.value, {}, {}, false, false)
  }

  lemma GatheredSkip(st: State, st': State, found: Option<Id>, hits: set<Id>, n: Id)
    requires Gathered(st, st', found, hits, n) && n !in hits
    ensures Gathered(st, st', found, hits, n + 1)
  {
    hide Joined;
    assert Below(hits, n + 1) == Below(hits, n);
  }

  lemma GatheredFirst(st: State, st': State, hits: set<Id>, n: Id)
    requires Gathered(st, st', None, hits, n) && n in hits
    ensures Gathered(st, st', Some(n), hits, n + 1)
  {
    assert Below(hits, n + 1) == {n};
    assert st.Active(n) && st'.Active(n);
    forall p
      ensures OnSome(st, {n}, p) == st.On(n, p)
    {
    }
    forall i
      ensures HeldBySome(st, {n}, i) == st.Holds(n, i)
    {
    }
    assert n in {n};
  }

  lemma {:induction false} GatheredMore(st: State, st1: State, st': State, f: Id, hits: set<Id>, n: Id)
    requires Gathered(st, st1, Some(f), hits, n) && n in hits && f < n && Merged(st1, st', f, n) && Nonempty(st1)
    ensures Gathered(st, st', Some(f), hits, n + 1)
  {
    var below, more := Below(hits, n), Below(hits, n + 1);
    assert more == below + {n} && n !in below && f != n;
    GatheredSets(st, st1, st', f, below, n);
    GatheredContents(st, st1, st', f, below, n);
  }

  lemma {:induction false} GatheredSets(st: State, st1: State, st': State, f: Id, below: set<Id>, n: Id)
    requires Joined(st, st1, below, f, {}, {}, false, false) && n !in below && f != n && st.Active(n)
    requires Merged(st1, st', f, n) && Nonempty(st1)
    ensures st'.Active(f) && (st.Active(f) ==> f in below)
    ensures forall x :: x != f ==>
              && (st'.Active(x) <==> st.Active(x) && x !in below + {n})
              && (st'.Active(x) ==> SameGroup(st.sets[x], st'.sets[x]))
  {
    forall x | x != f
      ensures st'.Active(x) <==> st1.Active(x) && x != n
      ensures st'.Active(x) ==> SameGroup(st1.sets[x], st'.sets[x])
    {
      if st1.Active(x) && x != n {
        assert x in st'.sets;
      }
    }
  }

  lemma {:induction false} GatheredContents(st: State, st1: State, st': State, f: Id, below: set<Id>, n: Id)
    requires Joined(st, st1, below, f, {}, {}, false, false) && n !in below && f != n && st.Active(n)
    requires Merged(st1, st', f, n)
    ensures forall p {:trigger st'.On(f, p)} :: st'.On(f, p) <==> OnSome(st, below + {n}, p)
    ensures forall i {:trigger st'.Holds(f, i)} :: st'.Holds(f, i) <==> HeldBySome(st, below + {n}, i)
    ensures (st'.sets[f].ref <==> SomeRef(st, below + {n})) && (st'.sets[f].mod <==> SomeMod(st, below + {n}))
  {
    MergedMembers(st1, st', f, n);
    assert st1.Active(n) && SameGroup(st.sets[n], st1.sets[n]);
    hide Merged;
    forall p
      ensures OnSome(st, below + {n}, p) <==> OnSome(st, below, p) || st.On(n, p)
    {
    }
    forall i
      ensures HeldBySome(st, below + {n}, i) <==> HeldBySome(st, below, i) || st.Holds(n, i)
    {
    }
    MergedBits(st1, st', f, n);
    assert SomeRef(st, below + {n}) <==> SomeRef(st, below) || st.sets[n].ref;
    assert SomeMod(st, below + {n}) <==> SomeMod(st, below) || st.sets[n].mod;
  }

  lemma MergedBits(st: State, st': State, s: Id, t: Id)
    requires Merged(st, st', s, t)
    ensures s in st.sets && t in st.sets && s in st'.sets
    ensures (st'.sets[s].ref <==> st.sets[s].ref || st.sets[t].ref)
    ensures (st'.sets[s].mod <==> st.sets[s].mod || st.sets[t].mod)
  {
  }

  lemma UnitedStart(st: State, hits: set<Id>)
    requires Homes(st) && forall h :: h in hits ==> st.Active(h)
    ensures UnitedBelow(st, st, None, hits, 0)
  {
  }

  lemma UnitedGathered(st: State, st': State, found: Option<Id>, hits: set<Id>, n: Id)
    requires UnitedBelow(st, st', found, hits, n)
    ensures Gathered(st, st', found, hits, n)
  {
  }

  lemma UnitedKeys(st: State, st': State, found: Option<Id>, hits: set<Id>, n: Id)
    requires UnitedBelow(st, st', found, hits, n)
    ensures st'.recs == st.recs && st'.any == st.any && st'.next == st.next
  {
  }

  lemma UnitedSkip(st: State, st': State, found: Option<Id>, hits: set<Id>, n: Id)
    requires UnitedBelow(st, st', found, hits, n) && n !in hits
    ensures UnitedBelow(st, st', found, hits, n + 1)
  {
    hide Gathered;
    GatheredSkip(st, st', found, hits, n);
    forall s: Id
      ensures Moved(s, found, hits, n + 1) == Moved(s, found, hits, n)
    {
    }
  }

  lemma UnitedFirst(st: State, st': State, hits: set<Id>, n: Id)
    requires UnitedBelow(st, st', None, hits, n) && n in hits
    ensures UnitedBelow(st, st', Some(n), hits, n + 1)
  {
    hide Gathered;
    GatheredFirst(st, st', hits, n);
    forall s: Id
      ensures Moved(s, Some(n), hits, n + 1) == s || (s in hits && s < n)
    {
    }
  }

  lemma UnitedMore(st: State, st1: State, st': State, f: Id, hits: set<Id>, n: Id)
    requires UnitedBelow(st, st1, Some(f), hits, n) && n in hits && f < n && st.any.None?
    requires Merged(st1, st', f, n) && Homes(st1) && Homes(st') && Nonempty(st1)
    ensures UnitedBelow(st, st', Some(f), hits, n + 1)
  {
    hide Merged, Homes, State.Holds, Moved, State.Tracks, Gathered, Nonempty;
    GatheredMore(st, st1, st', f, hits, n);
    UnitedMoreHomes(st, st1, st', f, hits, n);
    UnitedMoreHolds(st, st1, st', f, hits, n);
    UnitedMoreSets(st, st1, st', f, hits, n);
  }

  lemma UnitedMoreHomes(st: State, st1: State, st': State, f: Id, hits: set<Id>, n: Id)
    requires UnitedBelow(st, st1, Some(f), hits, n) && n in hits && f < n
    requires Merged(st1, st', f, n) && Homes(st1) && Homes(st')
    ensures forall p :: p in st.recs ==>
              st.Tracks(p) && st'.Tracks(p) && st'.HomeOf(p) == Moved(st.HomeOf(p), Some(f), hits, n + 1)
  {
    hide Gathered;
    forall p | p in st.recs
      ensures st'.Tracks(p) && st'.HomeOf(p) == Moved(st.HomeOf(p), Some(f), hits, n + 1)
    {
      assert st1.Tracks(p) && st'.Tracks(p);
      assert st1.HomeOf(p) == Moved(st.HomeOf(p), Some(f), hits, n);
    }
  }

  lemma UnitedMoreHolds(st: State, st1: State, st': State, f: Id, hits: set<Id>, n: Id)
    requires UnitedBelow(st, st1, Some(f), hits, n) && n in hits && f < n && Merged(st1, st', f, n)
    ensures forall s, i :: st.Holds(s, i) ==> st'.Holds(Moved(s, Some(f), hits, n + 1), i)
  {
    hide Gathered;
    MergedMembers(st1, st', f, n);
    forall s, i | st.Holds(s, i)
      ensures st'.Holds(Moved(s, Some(f), hits, n + 1), i)
    {
      assert st1.Holds(Moved(s, Some(f), hits, n), i);
    }
  }

  lemma UnitedMoreSets(st: State, st1: State, st': State, f: Id, hits: set<Id>, n: Id)
    requires UnitedBelow(st, st1, Some(f), hits, n) && f < n && st.any.None? && Merged(st1, st', f, n)
    ensures st'.recs == st.recs && st'.any == st.any && st'.next == st.next
    ensures forall s :: s in st'.sets ==> s in st.sets
    ensures forall s :: s in st.sets && s >= n + 1 ==>
              s in st'.sets && st'.sets[s] == st.sets[s].(refs := st'.sets[s].refs)
  {
    hide Gathered;
  }

  lemma SameMeets(st: State, st': State, s: Id, p: Ptr, aa: Oracle)
    requires s in st.sets <==> s in st'.sets
    requires s in st.sets ==> st'.sets[s] == st.sets[s].(refs := st'.sets[s].refs)
    ensures s in st.sets ==> Meets(st', s, p, aa) == Meets(st, s, p, aa)
    ensures st'.Active(s) == st.Active(s)
  {
    assert forall q :: st'.On(s, q) == st.On(s, q);
    assert forall i :: st'.Holds(s, i) == st.Holds(s, i);
  }

  lemma SameMeetsInst(st: State, st': State, s: Id, i: Inst, aa: Oracle)
    requires s in st.sets <==> s in st'.sets
    requires s in st.sets ==> st'.sets[s] == st.sets[s].(refs := st'.sets[s].refs)
    ensures s in st.sets ==> MeetsInst(st', s, i, aa) == MeetsInst(st, s, i, aa)
    ensures st'.Active(s) == st.Active(s)
  {
    assert forall q :: st'.On(s, q) == st.On(s, q);
    assert forall j :: st'.Holds(s, j) == st.Holds(s, j);
  }

  lemma MergedMembers(st: State, st': State, s: Id, t: Id)
    requires Merged(st, st', s, t)
    ensures forall q :: st'.On(s, q) <==> st.On(s, q) || st.On(t, q)
    ensures forall i :: st'.Holds(s, i) <==> st.Holds(s, i) || st.Holds(t, i)
  {
  }

  lemma MergedMeets(st: State, st': State, s: Id, t: Id, p: Ptr, aa: Oracle)
    requires Merged(st, st', s, t)
    ensures Meets(st, s, p, aa) ==> Meets(st', s, p, aa)
    ensures forall x :: st'.Active(x) && x != s ==>
              st.Active(x) && x != t && Meets(st', x, p, aa) == Meets(st, x, p, aa)
    ensures forall q :: st'.On(s, q) <==> st.On(s, q) || st.On(t, q)
  {
    MergedMembers(st, st', s, t);
    forall x | st'.Active(x) && x != s
      ensures st.Active(x) && x != t && Meets(st', x, p, aa) == Meets(st, x, p, aa)
    {
      SameMeets(st, st', x, p, aa);
    }
  }

  lemma MergedMeetsInst(st: State, st': State, s: Id, t: Id, i: Inst, aa: Oracle)
    requires Merged(st, st', s, t)
    ensures forall x :: st'.Active(x) && x != s ==>
              st.Active(x) && x != t && MeetsInst(st', x, i, aa) == MeetsInst(st, x, i, aa)
  {
    forall x | st'.Active(x) && x != s
      ensures st.Active(x) && x != t && MeetsInst(st', x, i, aa) == MeetsInst(st, x, i, aa)
    {
      SameMeetsInst(st, st', x, i, aa);
    }
  }

  /** Set s may alias the pointer p. */
  ghost predicate Meets(st: State, s: Id, p: Ptr, aa: Oracle)
    requires s in st.sets
  {
    || st.sets[s].any
    || (exists q :: st.On(s, q) && aa.alias(p, q) != NoAlias)
    || (exists i :: st.Holds(s, i) && aa.touches(i, p))
  }

  /** Set s may interfere with the instruction i. */
  ghost predicate MeetsInst(st: State, s: Id, i: Inst, aa: Oracle)
    requires s in st.sets
  {
    || st.sets[s].any
    || (exists j :: st.Holds(s, j) && aa.Conflict(j, i))
    || (exists p :: st.On(s, p) && aa.touches(i, p))
  }

  /** Any one pointer of a "must" set answers for all of them. */
  lemma {:induction false} MustSetMeets(st: State, s: Id, p: Ptr, aa: Oracle)
    requires s in st.sets && !st.sets[s].may && !st.sets[s].any && st.MustSets(aa) && aa.Coherent()
             && st.sets[s].ptrs != []
    ensures var ar := aa.alias(st.sets[s].ptrs[0], p);
            && (ar == NoAlias <==> !Meets(st, s, p, aa))
            && (ar == MustAlias ==> forall q :: st.On(s, q) ==> aa.alias(q, p) == MustAlias)
  {
    var l := st.sets[s].ptrs[0];
    assert st.On(s, l);
    forall q | st.On(s, q)
      ensures aa.alias(q, p) == NoAlias <==> aa.alias(l, p) == NoAlias
      ensures aa.alias(l, p) == MustAlias ==> aa.alias(q, p) == MustAlias
      ensures aa.alias(q, p) == aa.alias(p, q)
    {
      assert aa.alias(l, q) == MustAlias && aa.alias(q, l) == MustAlias;
      assert Triple(l, q, p) && Triple(q, l, p);
    }
    assert st.sets[s].unknown == [];
  }

  /** The pointers of the union of two sets need not all alias: those of one need not, or the first
      pointer of one and that of the other need not. */
  predicate Weakened(aa: Oracle, a: AliasSet, b: AliasSet) {
    a.may || b.may || (a.ptrs != [] && b.ptrs != [] && aa.alias(a.ptrs[0], b.ptrs[0]) != MustAlias)
  }

  /** From st to st', t was merged into s, and perhaps reclaimed. */
  ghost predicate Merged(st: State, st': State, s: Id, t: Id) {
    && st'.recs == st.recs && st'.any == st.any && st'.next == st.next
    && s in st.sets && t in st.sets && st'.Active(s)
    && (t in st'.sets ==> st'.sets[t].forward == Some(s) && t != s)
    && (forall x :: x in st'.sets ==>
          x in st.sets && x in st.home && x in st'.home && st'.home[x] == if st.home[x] == t then s else st.home[x])
    && (forall x :: x in st'.sets && x != s && x != t ==> st'.sets[x] == st.sets[x].(refs := st'.sets[x].refs))
    && (forall x :: x in st.sets && st.Rank(x) > st.Rank(t) ==> x in st'.sets)
    && (forall x :: x in st.sets && x !in st'.sets && x != t ==> st.sets[x].ptrs == [] && st.sets[x].unknown == [])
    && st'.sets[s].ptrs == st.sets[s].ptrs + st.sets[t].ptrs
    && st'.sets[s].unknown == st.sets[s].unknown + st.sets[t].unknown
    && st'.sets[s].any == st.sets[s].any
    && (st'.sets[s].ref <==> st.sets[s].ref || st.sets[t].ref)
    && (st'.sets[s].mod <==> st.sets[s].mod || st.sets[t].mod)
    && (st.sets[s].may || st.sets[t].may ==> st'.sets[s].may)
  }

  lemma MergedNow(st: State, s: Id, t: Id, may: bool)
    requires Mergeable(st, s, t) && (st.sets[s].may || st.sets[t].may ==> may)
    ensures Merged(st, Merge(st, s, t, may), s, t)
    ensures s in Merge(st, s, t, may).sets && Merge(st, s, t, may).sets[s].may == may
  {
    hide State.Shape;
    SameSetsAndHomes(st);
  }

  lemma SameSetsAndHomes(st: State)
    requires st.Shape()
    ensures st.home.Keys == st.sets.Keys
  {
  }

  lemma MergeableSets(st: State, s: Id, t: Id)
    requires Mergeable(st, s, t)
    ensures s in st.sets && t in st.sets && s != t && st.Active(s) && st.Active(t)
  {
  }

  /** Instructions keep a merged set alive. */
  lemma MergedPinned(st: State, s: Id, t: Id, may: bool)
    requires s in st.sets && t in st.sets && s != t && st.sets[t].unknown != [] && (st.any.Some? ==> st.any == Some(s))
    ensures Pinned(Merge(st, s, t, may), t) && t in Merge(st, s, t, may).sets
    ensures s in Merge(st, s, t, may).sets && Merge(st, s, t, may).sets[s].unknown != []
    ensures st.sets[t].unknown != [] ==> OwedAfterMerge(st.sets[t], t) == {t}
  {
  }

  lemma MergedReclaimed(st: State, st1: State, st': State, s: Id, t: Id)
    requires Merged(st, st1, s, t) && Reclaimed(st1, st', t) && s in st1.sets && st1.sets[s].unknown != []
    ensures Merged(st, st', s, t) && s in st'.sets && st'.sets[s].may == st1.sets[s].may
  {
    assert st1.any == st.any;
    assert s in st'.sets;
  }

  /** From st to st', forwarding was shortened and empty sets were reclaimed, none of them behind s. */
  ghost predicate Compressed(st: State, st': State, s: Id) {
    && st'.recs == st.recs && SameContents(st, st')
    && (forall x :: x in st.sets && st.Rank(x) > st.Rank(s) ==>
          x in st'.sets && st'.sets[x].forward == st.sets[x].forward)
  }

  lemma SameContentsRefl(st: State)
    requires st.Shape() && st.Listed()
    ensures SameContents(st, st)
  {
    HomesListed(st);
  }

  lemma CompressedSame(st: State, st': State, s: Id)
    requires Compressed(st, st', s)
    ensures SameContents(st, st') && st'.recs == st.recs
  {
  }

  lemma CompressedNothing(st: State, s: Id)
    requires st.Shape() && st.Listed()
    ensures Compressed(st, st, s)
  {
    SameContentsRefl(st);
  }

  lemma CompressedHigher(st: State, st': State, s: Id, f: Id)
    requires Compressed(st, st', f) && st.Rank(f) < st.Rank(s) && s in st.sets
    ensures Compressed(st, st', s) && s in st'.sets && st'.sets[s].forward == st.sets[s].forward
            && st'.home[s] == st.home[s]
  {
  }

  lemma CompressedTrans(st: State, st1: State, st': State, s: Id)
    requires Compressed(st, st1, s) && Compressed(st1, st', s)
    ensures Compressed(st, st', s)
  {
    SameContentsTrans(st, st1, st');
    assert st1.any == st.any;
  }

  lemma CompressedRedirect(st: State, st1: State, st': State, s: Id, d: Id, f: Id)
    requires s in st.sets && d in st.sets && d != s && st1 == Redirect(st, s, d) && SameContents(st, st1)
    requires Reclaimed(st1, st', f) && st.Rank(f) < st.Rank(s)
    ensures Compressed(st, st', s) && s in st'.sets && st'.sets[s].forward == Some(d)
  {
    hide SameContents, Redirect;
    SameContentsTrans(st, st1, st');
    RedirectFacts(st, s, d);
  }
}
