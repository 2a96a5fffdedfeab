/** The elementary updates of an alias set tracker, and that they keep its state consistent. */
module AliasSetEdits {
  import opened AliasResults
  import opened Options
  import opened AliasSets

  // ----- changes of references that leave the contents alone -----

  predicate SameMembers(a: AliasSet, b: AliasSet) {
    && b.ptrs == a.ptrs && b.unknown == a.unknown
    && b.may == a.may && b.any == a.any && b.ref == a.ref && b.mod == a.mod
    && (b.forward.None? <==> a.forward.None?)
  }

  /** st' tracks the same pointers and instructions in the same sets; only empty sets are gone. */
  ghost predicate SameContents(st: State, st': State) {
    && st'.recs.Keys == st.recs.Keys && st'.any == st.any && st'.next == st.next
    && (forall s :: s in st'.sets ==> s in st.sets)
    && (forall s :: s in st.sets && s !in st'.sets ==> st.sets[s].ptrs == [] && st.sets[s].unknown == [])
    && (forall s :: s in st'.sets ==>
          && SameMembers(st.sets[s], st'.sets[s])
          && s in st.home && s in st'.home && st'.home[s] == st.home[s])
    && (forall p :: p in st.recs ==>
          st.Tracks(p) && st'.Tracks(p) && st'.HomeOf(p) == st.HomeOf(p)
            && (st.HomeOf(p) in st.sets ==> st.HomeOf(p) in st'.sets))
  }

  ghost predicate Contents(st: State, aa: Oracle) { st.Listed() && st.MustSets(aa) && st.Partition(aa) }

  lemma SameContentsTrans(st: State, st': State, st'': State)
    requires SameContents(st, st') && SameContents(st', st'')
    ensures SameContents(st, st'')
  {
  }

  lemma {:induction false} SameContentsKeeps(st: State, st': State, aa: Oracle)
    requires SameContents(st, st') && Contents(st, aa)
    ensures Contents(st', aa)
  {
    forall s, p | st'.On(s, p)
      ensures st.On(s, p) && p in st'.recs && st'.Tracks(p) && st'.HomeOf(p) == s
    {
      assert st.On(s, p);
    }
    forall s, i | st'.Holds(s, i)
      ensures st.Holds(s, i)
    {
    }
    forall p | p in st'.recs
      ensures st'.Tracks(p) && st'.On(st'.HomeOf(p), p)
    {
      assert st.On(st.HomeOf(p), p);
    }
    forall p, q | st'.Tracks(p) && st'.Tracks(q) && aa.alias(p, q) != NoAlias
      ensures st'.HomeOf(p) == st'.HomeOf(q)
    {
      assert st.Tracks(p) && st.Tracks(q);
    }
  }

  /** Forwarding leads towards smaller ranks. */
  lemma {:induction false} HomeRank(st: State, s: Id)
    requires st.Shape() && s in st.sets
    ensures st.home[s] in st.sets && st.Active(st.home[s]) && st.home[st.home[s]] == st.home[s]
    ensures st.sets[s].forward.Some? ==> st.Rank(st.home[s]) < st.Rank(s)
    decreases st.Rank(s)
  {
    if st.sets[s].forward.Some? {
      HomeRank(st, st.sets[s].forward.value);
    }
  }

  /** st' has the same sets, linked in the same way, with the same things in them. */
  ghost predicate SameLinks(st: State, st': State) {
    && st'.recs == st.recs && st'.any == st.any && st'.next == st.next && st'.home == st.home
    && st'.sets.Keys == st.sets.Keys
    && forall x :: x in st.sets ==>
         && st'.sets[x].forward == st.sets[x].forward && st'.sets[x].ptrs == st.sets[x].ptrs
         && st'.sets[x].unknown == st.sets[x].unknown
         && st'.sets[x].any == st.sets[x].any && st'.sets[x].may == st.sets[x].may
  }

  lemma SameLinksShape(st: State, st': State)
    requires SameLinks(st, st') && st.Shape()
    ensures st'.Shape()
  {
    forall x | x in st'.sets
      ensures st'.ShapeAt(x)
    {
      ShapeOf(st, x);
    }
    ShapeFrom(st');
  }

  /** s forwards to d directly; the set it forwarded to is owed a decrement. */
  function Redirect(st: State, s: Id, d: Id): State
    requires s in st.sets && d in st.sets
  {
    var st1 := st.Update(s, st.sets[s].(forward := Some(d)));
    st1.Update(d, st1.sets[d].(refs := st1.sets[d].refs + 1))
  }

  lemma RedirectFacts(st: State, s: Id, d: Id)
    requires s in st.sets && d in st.sets && s != d
    ensures var st' := Redirect(st, s, d);
            && st'.sets.Keys == st.sets.Keys && st'.sets[s] == st.sets[s].(forward := Some(d))
            && st'.recs == st.recs && st'.any == st.any && st'.home == st.home && st'.next == st.next
            && forall x :: x in st.sets && x != s ==> st'.sets[x] == st.sets[x].(refs := st'.sets[x].refs)
  {
  }

  lemma {:induction false} RedirectShape(st: State, s: Id, d: Id)
    requires st.Shape() && s in st.sets && st.sets[s].forward.Some?
    requires d == st.home[s] && d != st.sets[s].forward.value
    ensures d in st.sets && Redirect(st, s, d).Shape()
  {
    HomeRank(st, s);
    var st' := Redirect(st, s, d);
    RedirectFacts(st, s, d);
    assert st.any.Some? ==> st'.Active(st.any.value) && st'.sets[st.any.value].may;
    forall x | x in st'.sets
      ensures st'.ShapeAt(x)
    {
      ShapeOf(st, x);
    }
    hide State.Shape, State.ShapeAt, Redirect;
    ShapeFrom(st');
  }

  lemma {:induction false} RedirectForwarders(st: State, s: Id, d: Id, x: Id)
    requires s in st.sets && d in st.sets && x in st.sets && s != d && st.sets[s].forward.Some?
    ensures var f := st.sets[s].forward.value;
            Redirect(st, s, d).Forwarders(x)
            == if x == d then st.Forwarders(x) + {s} else if x == f then st.Forwarders(x) - {s} else st.Forwarders(x)
    ensures Redirect(st, s, d).Namers(x) == st.Namers(x)
  {
  }

  lemma {:induction false} RedirectCountedAt(st: State, s: Id, d: Id, x: Id)
    requires s in st.sets && d in st.sets && s != d && x in st.sets && st.sets[s].forward.Some?
    requires d != st.sets[s].forward.value
    ensures var st' := Redirect(st, s, d);
            st'.Count(x) - st'.sets[x].refs == st.Count(x) - st.sets[x].refs - if Some(x) == st.sets[s].forward then 1
              else 0
  {
    RedirectForwarders(st, s, d, x);
    assert s in st.Forwarders(x) <==> Some(x) == st.sets[s].forward;
  }

  lemma {:induction false} RedirectCounted(st: State, s: Id, d: Id, owed: set<Id>)
    requires s in st.sets && d in st.sets && s != d && st.sets[s].forward.Some?
    requires d != st.sets[s].forward.value && st.sets[s].forward.value !in owed && st.Counted(owed)
    ensures Redirect(st, s, d).Counted(owed + {st.sets[s].forward.value})
  {
    hide State.Count;
    var st' := Redirect(st, s, d);
    forall x | x in st'.sets
      ensures st'.sets[x].refs == st'.Count(x) + if x in owed + {st.sets[s].forward.value} then 1 else 0
    {
      RedirectCountedAt(st, s, d, x);
      assert st.sets[x].refs == st.Count(x) + if x in owed then 1 else 0;
    }
  }

  /** The record of p names d directly; the set it named is owed a decrement. */
  function Rename(st: State, p: Ptr, d: Id): State
    requires d in st.sets
  {
    st.Update(d, st.sets[d].(refs := st.sets[d].refs + 1)).(recs := st.recs[p := d])
  }

  lemma {:induction false} RenameShape(st: State, p: Ptr, d: Id)
    requires st.Shape() && p in st.recs && d == st.home[st.recs[p]]
    ensures d in st.sets && Rename(st, p, d).Shape()
  {
    HomeRank(st, st.recs[p]);
  }

  lemma {:induction false} RenameReferrers(st: State, p: Ptr, d: Id, x: Id)
    requires p in st.recs && d in st.sets && d != st.recs[p] && x in st.sets
    ensures Rename(st, p, d).Forwarders(x) == st.Forwarders(x)
    ensures Rename(st, p, d).Namers(x)
         == if x == d then st.Namers(x) + {p} else if x == st.recs[p] then st.Namers(x) - {p} else st.Namers(x)
    ensures p in st.Namers(x) <==> x == st.recs[p]
  {
  }

  lemma {:induction false} RenameCounted(st: State, p: Ptr, d: Id)
    requires p in st.recs && d in st.sets && d != st.recs[p] && st.Counted({})
    ensures Rename(st, p, d).Counted({st.recs[p]})
  {
    var st' := Rename(st, p, d);
    forall x | x in st'.sets
      ensures st'.sets[x].refs == st'.Count(x) + if x in {st.recs[p]} then 1 else 0
    {
      RenameReferrers(st, p, d, x);
      assert st.sets[x].refs == st.Count(x);
    }
  }

  /** One reference to s is dropped. */
  function Decrement(st: State, s: Id): State
    requires s in st.sets
  {
    st.Update(s, st.sets[s].(refs := st.sets[s].refs - 1))
  }

  lemma {:induction false} DecrementCounted(st: State, s: Id)
    requires s in st.sets && st.Counted({s})
    ensures Decrement(st, s).Counted({}) && Decrement(st, s).sets[s].refs >= 0
  {
    var st' := Decrement(st, s);
    forall x | x in st'.sets
      ensures st'.sets[x].refs == st'.Count(x)
    {
      assert st'.Forwarders(x) == st.Forwarders(x) && st'.Namers(x) == st.Namers(x);
      assert st.sets[x].refs == st.Count(x) + if x in {s} then 1 else 0;
    }
  }

  /** s leaves the list. */
  function Erase(st: State, s: Id): State {
    st.(sets := st.sets - {s}, home := st.home - {s})
  }

  function OwedBy(a: AliasSet): set<Id> {
    if a.forward.Some? then {a.forward.value} else {}
  }

  lemma {:induction false} EraseShape(st: State, s: Id)
    requires st.Shape() && s in st.sets && st.any != Some(s)
    requires forall x :: x in st.sets ==> st.sets[x].forward != Some(s)
    requires forall p :: p in st.recs ==> st.recs[p] != s
    ensures Erase(st, s).Shape()
  {
    var st' := Erase(st, s);
    assert st.any.Some? ==> st'.Active(st.any.value) && st'.sets[st.any.value].may;
    forall x | x in st'.sets
      ensures st'.ShapeAt(x)
    {
      ShapeOf(st, x);
    }
    hide State.Shape, State.ShapeAt;
    ShapeFrom(st');
  }

  lemma {:induction false} EraseReferrers(st: State, s: Id, x: Id)
    requires s in st.sets && x in st.sets && x != s
    requires forall p :: p in st.recs ==> st.recs[p] != s
    ensures Erase(st, s).Namers(x) == st.Namers(x) && Erase(st, s).Forwarders(x) == st.Forwarders(x) - {s}
    ensures s in st.Forwarders(x) <==> x in OwedBy(st.sets[s])
  {
  }

  lemma {:induction false} EraseCounted(st: State, s: Id)
    requires s in st.sets && st.Counted({}) && st.sets[s].forward != Some(s)
    requires forall p :: p in st.recs ==> st.recs[p] != s
    ensures Erase(st, s).Counted(OwedBy(st.sets[s]))
  {
    var st' := Erase(st, s);
    forall x | x in st'.sets
      ensures st'.sets[x].refs == st'.Count(x) + if x in OwedBy(st.sets[s]) then 1 else 0
    {
      EraseReferrers(st, s, x);
      assert st.sets[x].refs == st.Count(x);
    }
  }

  // ----- the edits leave the contents alone -----

  /** All that SameContents needs to know of the pointers. */
  ghost predicate Homes(st: State) {
    st.home.Keys == st.sets.Keys && forall p :: p in st.recs ==> st.Tracks(p) && st.HomeOf(p) in st.sets
  }

  lemma {:induction false} RedirectSame(st: State, s: Id, d: Id)
    requires Homes(st) && s in st.sets && d in st.sets && s != d && st.sets[s].forward.Some?
    ensures SameContents(st, Redirect(st, s, d))
  {
    RedirectFacts(st, s, d);
  }

  lemma {:induction false} RenameSame(st: State, p: Ptr, d: Id)
    requires Homes(st) && p in st.recs && d in st.sets && d == st.home[st.recs[p]] && st.home[d] == d
    ensures SameContents(st, Rename(st, p, d))
  {
    var st' := Rename(st, p, d);
    assert forall q :: q in st.recs ==> st'.Tracks(q) && st'.HomeOf(q) == st.HomeOf(q);
    assert st'.sets.Keys == st.sets.Keys && st'.home == st.home;
  }

  lemma {:induction false} DecrementSame(st: State, s: Id)
    requires Homes(st) && s in st.sets
    ensures SameContents(st, Decrement(st, s))
  {
  }

  lemma {:induction false} EraseSame(st: State, s: Id)
    requires Homes(st) && st.Listed() && s in st.sets && st.sets[s].ptrs == [] && st.sets[s].unknown == []
    requires forall p :: p in st.recs ==> st.recs[p] != s
    ensures SameContents(st, Erase(st, s))
  {
    assert forall p :: p in st.recs ==> st.On(st.HomeOf(p), p);
  }

  // ----- the edits and the whole invariant -----

  lemma HomesListed(st: State)
    requires st.Shape() && st.Listed()
    ensures Homes(st)
  {
    assert forall p :: p in st.recs ==> st.On(st.HomeOf(p), p);
  }

  lemma InvHomes(st: State, aa: Oracle, owed: set<Id>, except: set<Id>)
    requires st.Inv(aa, owed, except)
    ensures Homes(st) && st.Shape() && st.Listed()
  {
    HomesListed(st);
  }

  lemma InvOf(st: State, aa: Oracle, owed: set<Id>, except: set<Id>)
    requires st.Shape() && st.Counted(owed) && st.Live(except) && Contents(st, aa)
    ensures st.Inv(aa, owed, except)
  {
  }

  lemma OfInv(st: State, aa: Oracle, owed: set<Id>, except: set<Id>)
    requires st.Inv(aa, owed, except)
    ensures st.Shape() && st.Counted(owed) && st.Live(except) && Contents(st, aa) && Homes(st)
  {
    HomesListed(st);
  }

  lemma RedirectLive(st: State, s: Id, d: Id)
    requires st.Live({}) && s in st.sets && d in st.sets && s != d
    ensures Redirect(st, s, d).Live({})
  {
    RedirectFacts(st, s, d);
  }

  lemma {:induction false} RedirectKeeps(st: State, s: Id, d: Id, aa: Oracle)
    requires st.Inv(aa, {}, {}) && s in st.sets && st.sets[s].forward.Some?
    requires d == st.home[s] && d != st.sets[s].forward.value
    ensures d in st.sets && d != s
    ensures Redirect(st, s, d).Inv(aa, {st.sets[s].forward.value}, {}) && SameContents(st, Redirect(st, s, d))
  {
    OfInv(st, aa, {}, {});
    HomeRank(st, s);
    var st' := Redirect(st, s, d);
    hide State.Inv, State.Shape, State.Counted, State.Live, State.Rank, Contents, Homes, SameContents, Redirect;
    RedirectShape(st, s, d);
    RedirectCounted(st, s, d, {});
    assert {} + {st.sets[s].forward.value} == {st.sets[s].forward.value};
    RedirectLive(st, s, d);
    RedirectSame(st, s, d);
    SameContentsKeeps(st, st', aa);
    InvOf(st', aa, {st.sets[s].forward.value}, {});
  }

  lemma {:induction false} RenameKeeps(st: State, p: Ptr, d: Id, aa: Oracle)
    requires st.Inv(aa, {}, {}) && p in st.recs && d == st.home[st.recs[p]] && d != st.recs[p]
    ensures d in st.sets
    ensures Rename(st, p, d).Inv(aa, {st.recs[p]}, {}) && SameContents(st, Rename(st, p, d))
  {
    HomeRank(st, st.recs[p]);
    var st' := Rename(st, p, d);
    RenameShape(st, p, d);
    RenameCounted(st, p, d);
    HomesListed(st);
    RenameSame(st, p, d);
    SameContentsKeeps(st, st', aa);
  }

  lemma DecrementShape(st: State, s: Id)
    requires st.Shape() && s in st.sets
    ensures Decrement(st, s).Shape()
  {
    SameLinksShape(st, Decrement(st, s));
  }

  lemma DecrementLive(st: State, s: Id, except: set<Id>)
    requires st.Live(except) && s in st.sets
    ensures Decrement(st, s).Live(except + {s})
    ensures Decrement(st, s).sets[s].refs > 0 ==> Decrement(st, s).Live(except)
  {
  }

  lemma {:induction false} DecrementKeeps(st: State, s: Id, aa: Oracle, except: set<Id>)
    requires st.Inv(aa, {s}, except) && s in st.sets
    ensures var st' := Decrement(st, s);
            && st'.Inv(aa, {}, except + {s}) && SameContents(st, st') && st'.sets[s].refs >= 0
            && (st'.sets[s].refs > 0 ==> st'.Live(except))
  {
    var st' := Decrement(st, s);
    OfInv(st, aa, {s}, except);
    hide State.Inv, State.Shape, State.Counted, State.Live, Contents, Homes, SameContents;
    DecrementCounted(st, s);
    DecrementShape(st, s);
    DecrementLive(st, s, except);
    DecrementSame(st, s);
    SameContentsKeeps(st, st', aa);
    InvOf(st', aa, {}, except + {s});
  }

  lemma {:induction false} EraseKeeps(st: State, s: Id, aa: Oracle, except: set<Id>)
    requires st.Inv(aa, {}, except + {s}) && s in st.sets && st.sets[s].refs == 0 && st.any != Some(s)
    ensures Erase(st, s).Inv(aa, OwedBy(st.sets[s]), except) && SameContents(st, Erase(st, s))
  {
    var st' := Erase(st, s);
    assert st.Count(s) == 0;
    Unreferenced(st, s);
    EraseShape(st, s);
    EraseCounted(st, s);
    HomesListed(st);
    EraseSame(st, s);
    SameContentsKeeps(st, st', aa);
  }
}
