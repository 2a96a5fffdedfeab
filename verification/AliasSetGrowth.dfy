/** Locations that grow: what alias analysis has to know of the pointers that must alias, and what an alias
    set tracker misses otherwise. */
module AliasSetGrowth {
  import opened AliasResults
  import opened Options
  import opened AliasSets
  import opened AliasSetMerge
  import opened AliasSetTracking

  /** What p may alias at its new location, the pointers that it must alias may alias, too; and it may alias
      both or none of two pointers that must alias. */
  ghost predicate GrowsTogether(aa: Oracle, at: Oracle, p: Ptr) {
    && (forall q, r :: aa.alias(p, q) == MustAlias ==> (at.alias(p, r) == NoAlias <==> at.alias(q, r) == NoAlias))
    && (forall q, r :: aa.alias(q, r) == MustAlias ==> (at.alias(p, q) == NoAlias <==> at.alias(p, r) == NoAlias))
  }

  /** Growing keeps alias analysis coherent exactly if pointers that must alias grow together. */
  lemma {:induction false} CoherentIffTogether(aa: Oracle, at: Oracle, p: Ptr)
    requires aa.Coherent() && aa.Relocates(at, p) && aa.SameMust(at)
    requires forall q :: at.alias(p, q) == at.alias(q, p)
    ensures at.Coherent() <==> GrowsTogether(aa, at, p)
  {
    forall q, r
      ensures at.alias(q, r) == at.alias(r, q)
    {
      assert q != p && r != p ==> at.alias(q, r) == aa.alias(q, r) == aa.alias(r, q);
    }
    forall q, r, x | at.Coherent() && aa.alias(q, r) == MustAlias
      ensures at.alias(q, x) == NoAlias <==> at.alias(r, x) == NoAlias
    {
      assert Triple(q, r, x) && Triple(r, q, x) && at.alias(r, q) == MustAlias;
    }
    forall q, r, x {:trigger Triple(q, r, x)} | Triple(q, r, x)
      ensures at.alias(q, r) == MustAlias && at.alias(r, x) == MustAlias ==> at.alias(q, x) == MustAlias
      ensures GrowsTogether(aa, at, p) && at.alias(q, r) == MustAlias && at.alias(q, x) == NoAlias ==>
                at.alias(r, x) == NoAlias
    {
      assert aa.alias(q, r) == aa.alias(r, q);
    }
  }

  /** Pointers 0 and 1 must alias; if 1 grows alone, it may alias 2 as well. */
  function Two(): Oracle {
    Oracle((q, r) => if q == r || (q <= 1 && r <= 1) then MustAlias else NoAlias,
           (i, q) => false, i => false, (i, j) => false, i => false, i => false, i => true)
  }

  function Grown(): Oracle {
    Two().(alias := (q, r) => if q == r || (q <= 1 && r <= 1) then MustAlias
                              else if 1 <= q <= 2 && 1 <= r <= 2 then MayAlias else NoAlias)
  }

  /** A tracker with both in a "must" set. */
  function Both01(): State {
    var both := AliasSet([0, 1], None, [], 2, false, false, false, false, 2);
    State(map[0 := both], map[0 := 0, 1 := 0], None, 1, map[0 := 0])
  }

  lemma TwoCoherent()
    ensures Two().Coherent()
  {
  }

  lemma GrownAlone()
    ensures Two().Relocates(Grown(), 1) && Two().SameMust(Grown()) && !GrowsTogether(Two(), Grown(), 1)
  {
    assert Two().alias(1, 0) == MustAlias && Grown().alias(1, 2) == MayAlias && Grown().alias(0, 2) == NoAlias;
  }

  lemma BothShape()
    ensures Both01().Shape() && Both01().Collapsed() && Both01().Live({})
  {
  }

  lemma BothCounted()
    ensures Both01().Counted({})
  {
    var st := Both01();
    assert st.Namers(0) == {0, 1} && st.Forwarders(0) == {};
  }

  lemma BothListed()
    ensures Both01().Listed()
  {
    var st := Both01();
    assert st.sets[0].ptrs[0] == 0 && st.sets[0].ptrs[1] == 1;
  }

  lemma BothMust(aa: Oracle)
    requires forall q, r :: q <= 1 && r <= 1 ==> aa.alias(q, r) == MustAlias
    ensures Both01().MustSets(aa) && Both01().Partition(aa)
  {
  }

  lemma BothValid(aa: Oracle)
    requires forall q, r :: q <= 1 && r <= 1 ==> aa.alias(q, r) == MustAlias
    ensures Both01().Valid(aa)
  {
    hide Both01, State.Shape, State.Collapsed, State.Live, State.Counted, State.Listed, State.MustSets, State.Partition;
    BothShape();
    BothCounted();
    BothListed();
    BothMust(aa);
  }

  /** If a pointer of a "must" set other than the first one grows alone, the set goes on to answer for its
      first pointer: it is passed over for a pointer that its other one may alias, and the two end up
      in different sets. */
  lemma GrownPointerIsMissed()
    ensures Two().Coherent() && Two().Relocates(Grown(), 1) && Two().SameMust(Grown())
    ensures !GrowsTogether(Two(), Grown(), 1) && Both01().Valid(Two()) && Both01().Valid(Grown())
    ensures Meets(Both01(), 0, 2, Grown()) && Grown().alias(Both01().sets[0].ptrs[0], 2) == NoAlias
    ensures !Attach(NewSet(Both01(), EmptySet), 1, 2, false).Partition(Grown())
  {
    hide Oracle.Coherent, Oracle.Relocates, Oracle.SameMust, GrowsTogether, State.Valid;
    TwoCoherent();
    GrownAlone();
    BothValid(Two());
    BothValid(Grown());
    var st := Both01();
    assert st.On(0, 1) && Grown().alias(2, 1) == MayAlias;
    var st' := Attach(NewSet(st, EmptySet), 1, 2, false);
    assert st'.Tracks(1) && st'.Tracks(2) && st'.HomeOf(1) == 0 && st'.HomeOf(2) == 1;
    assert Grown().alias(1, 2) == MayAlias;
  }
}
