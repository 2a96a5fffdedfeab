/** What an alias set tracker computes, said without forwarding, names and counts: groups of pointers and
    instructions, with the access that is recorded for them, and whether they need not all alias. An operation
    is a function on such groups. */
module AliasSetGroups {
  import opened AliasResults
  import opened Options
  import opened AliasSets
  import opened AliasSetEdits
  import opened AliasSetMerge
  import opened AliasSetSizes
  import opened AliasSetJoins
  import opened AliasSetTracking

  datatype Op =
    | AddPtr(p: Ptr, at: Oracle, grows: bool, ref: bool, mod: bool)
    | AddInst(i: Inst)
    | Delete(p: Ptr)

  /** A group is a "may" group if its pointers need not all alias, as far as the tracker knows. */
  datatype Group = Group(ptrs: set<Ptr>, insts: set<Inst>, ref: bool, mod: bool, may: bool)
  {
    /** What takes in p: where it is, if it stays there, otherwise all that may alias it. */
    ghost predicate Takes(p: Ptr, aa: Oracle, stays: bool) {
      if stays then p in ptrs
      else (exists q :: q in ptrs && aa.alias(p, q) != NoAlias) || (exists i :: i in insts && aa.touches(i, p))
    }

    ghost predicate Interferes(i: Inst, aa: Oracle) {
      (exists j :: j in insts && aa.Conflict(j, i)) || (exists p :: p in ptrs && aa.touches(i, p))
    }

    /** Whether reads (or writes) are recorded. */
    predicate Records(write: bool) { if write then mod else ref }
  }

  ghost function PtrsIn(gs: set<Group>): set<Ptr> { set g, p | g in gs && p in g.ptrs :: p }

  ghost function InstsIn(gs: set<Group>): set<Inst> { set g, i | g in gs && i in g.insts :: i }

  ghost predicate Reads(gs: set<Group>) { exists g :: g in gs && g.ref }

  ghost predicate Writes(gs: set<Group>) { exists g :: g in gs && g.mod }

  ghost predicate Mays(gs: set<Group>) { exists g :: g in gs && g.may }

  /** All of these pointers must alias. */
  ghost predicate AllAlike(ptrs: set<Ptr>, aa: Oracle) {
    forall p, q :: p in ptrs && q in ptrs ==> aa.alias(p, q) == MustAlias
  }

  /** All that is in these groups and in g. */
  ghost function United(gs: set<Group>, g: Group, aa: Oracle): Group {
    var ptrs := g.ptrs + PtrsIn(gs);
    Group(ptrs, g.insts + InstsIn(gs), g.ref || Reads(gs), g.mod || Writes(gs),
          g.may || Mays(gs) || !AllAlike(ptrs, aa))
  }

  /** The groups that are hit become one with g. */
  ghost function Taken(gs: set<Group>, hit: set<Group>, g: Group, aa: Oracle): set<Group> {
    gs - hit + {United(hit, g, aa)}
  }

  /** Everything becomes one group, for which all access is recorded. */
  ghost function Saturated(gs: set<Group>): set<Group> {
    {Group(PtrsIn(gs), InstsIn(gs), true, true, true)}
  }

  ghost function TakersOf(gs: set<Group>, p: Ptr, aa: Oracle, stays: bool, all: bool): set<Group> {
    set g | g in gs && (all || g.Takes(p, aa, stays))
  }

  ghost function InterferersOf(gs: set<Group>, i: Inst, aa: Oracle, all: bool): set<Group> {
    set g | g in gs && (all || g.Interferes(i, aa))
  }

  /** The groups without p. */
  ghost function Left(gs: set<Group>, p: Ptr): set<Group> {
    set g | g in gs && (g.ptrs - {p} != {} || g.insts != {}) :: g.(ptrs := g.ptrs - {p})
  }

  /** What an operation makes of the groups, given what alias analysis answers after it, whether its pointer is
      known, and whether the tracker is saturated. */
  ghost function Next(gs: set<Group>, op: Op, aa: Oracle, known: bool, all: bool): set<Group> {
    match op
    case AddPtr(p, _, grows, ref, mod) =>
      Taken(gs, TakersOf(gs, p, aa, known && !grows, all), Group({p}, {}, ref, mod, false), aa)
    case AddInst(i) =>
      if aa.Ignores(i) then gs
        else Taken(gs, InterferersOf(gs, i, aa, all), Group({}, {i}, true, aa.writes(i), true), aa)
    case Delete(p) => Left(gs, p)
  }

  // ----- the groups of a tracker -----

  ghost function GroupOf(a: AliasSet): Group {
    Group((set p | p in a.ptrs), (set i | i in a.unknown), a.ref, a.mod, a.may)
  }

  ghost function Groups(st: State): set<Group> { set s | s in st.sets && st.Active(s) :: GroupOf(st.sets[s]) }

  lemma InGroups(st: State, s: Id)
    requires st.Active(s)
    ensures GroupOf(st.sets[s]) in Groups(st)
    ensures forall p :: p in GroupOf(st.sets[s]).ptrs <==> st.On(s, p)
    ensures forall i :: i in GroupOf(st.sets[s]).insts <==> st.Holds(s, i)
  {
  }

  lemma {:induction false} SameGroupOf(a: AliasSet, b: AliasSet)
    requires SameGroup(a, b)
    ensures GroupOf(a) == GroupOf(b)
  {
  }

  /** Sets that become one are groups that become one. */
  lemma {:induction false} JoinedGroups(st: State, st': State, hits: set<Id>, s: Id, hit: set<Group>, g: Group,
                                        aa: Oracle)
    requires Joined(st, st', hits, s, g.ptrs, g.insts, g.ref, g.mod) && Weak(st, st', hits, s, g.may, aa)
    requires hit <= Groups(st)
    requires forall x {:trigger st.Active(x)} :: st.Active(x) ==> (x in hits <==> GroupOf(st.sets[x]) in hit)
    ensures Groups(st') == Taken(Groups(st), hit, g, aa)
  {
    JoinedUnited(st, st', hits, s, hit, g, aa);
    forall h | h in Groups(st')
      ensures h in Taken(Groups(st), hit, g, aa)
    {
      var x :| x in st'.sets && st'.Active(x) && h == GroupOf(st'.sets[x]);
      if x != s {
        assert st.Active(x) && x !in hits && SameGroup(st.sets[x], st'.sets[x]);
        SameGroupOf(st.sets[x], st'.sets[x]);
      }
    }
    forall h | h in Taken(Groups(st), hit, g, aa)
      ensures h in Groups(st')
    {
      if h == United(hit, g, aa) {
        assert st'.Active(s);
      } else {
        var x :| x in st.sets && st.Active(x) && h == GroupOf(st.sets[x]);
        assert x != s && st'.Active(x) && SameGroup(st.sets[x], st'.sets[x]);
        SameGroupOf(st.sets[x], st'.sets[x]);
      }
    }
  }

  lemma {:induction false} JoinedUnited(st: State, st': State, hits: set<Id>, s: Id, hit: set<Group>, g: Group,
                                        aa: Oracle)
    requires Joined(st, st', hits, s, g.ptrs, g.insts, g.ref, g.mod) && Weak(st, st', hits, s, g.may, aa)
    requires hit <= Groups(st)
    requires forall x {:trigger st.Active(x)} :: st.Active(x) ==> (x in hits <==> GroupOf(st.sets[x]) in hit)
    ensures GroupOf(st'.sets[s]) == United(hit, g, aa)
  {
    HitContents(st, hits, hit);
    var made := GroupOf(st'.sets[s]);
    InGroups(st', s);
    assert made.ptrs == g.ptrs + PtrsIn(hit);
    assert made.insts == g.insts + InstsIn(hit);
    assert MustAlike(st', s, aa) <==> AllAlike(made.ptrs, aa);
  }

  /** What is in the sets that are hit is in the groups that are. */
  lemma {:induction false} HitContents(st: State, hits: set<Id>, hit: set<Group>)
    requires hit <= Groups(st) && forall h :: h in hits ==> st.Active(h)
    requires forall x {:trigger st.Active(x)} :: st.Active(x) ==> (x in hits <==> GroupOf(st.sets[x]) in hit)
    ensures forall p :: OnSome(st, hits, p) <==> p in PtrsIn(hit)
    ensures forall i :: HeldBySome(st, hits, i) <==> i in InstsIn(hit)
    ensures (SomeRef(st, hits) <==> Reads(hit)) && (SomeMod(st, hits) <==> Writes(hit))
    ensures SomeMay(st, hits) <==> Mays(hit)
  {
    forall h | h in hits
      ensures GroupOf(st.sets[h]) in hit
      ensures forall p :: p in GroupOf(st.sets[h]).ptrs <==> st.On(h, p)
      ensures forall i :: i in GroupOf(st.sets[h]).insts <==> st.Holds(h, i)
    {
      InGroups(st, h);
    }
    forall g | g in hit
      ensures exists h :: h in hits && g == GroupOf(st.sets[h])
    {
      var x :| x in st.sets && st.Active(x) && g == GroupOf(st.sets[x]);
      assert x in hits;
    }
  }

  lemma {:induction false} TakersMatch(st: State, p: Ptr, aa: Oracle, grows: bool, oo: Oracle)
    requires st.Valid(oo)
    ensures forall x {:trigger st.Active(x)} :: st.Active(x) ==>
              (x in Takers(st, p, aa, grows) <==>
                GroupOf(st.sets[x]) in TakersOf(Groups(st), p, aa, p in st.recs && !grows, st.any.Some?))
  {
    ActiveHomes(st);
    forall x | st.Active(x)
      ensures TakesIn(st, x, p, aa, grows) <==>
                st.any.Some? || GroupOf(st.sets[x]).Takes(p, aa, p in st.recs && !grows)
    {
      InGroups(st, x);
      OnlyOneActive(st, oo, x);
      if p in st.recs {
        ListedAt(st, p);
      }
      assert st.sets[x].any <==> st.any == Some(x);
    }
  }

  lemma {:induction false} InstHitsMatch(st: State, i: Inst, aa: Oracle)
    requires st.Valid(aa)
    ensures forall x {:trigger st.Active(x)} :: st.Active(x) ==>
              (x in InstHits(st, i, aa) <==> GroupOf(st.sets[x]) in InterferersOf(Groups(st), i, aa, st.any.Some?))
  {
    forall x | st.Active(x)
      ensures MeetsInst(st, x, i, aa) <==> st.any.Some? || GroupOf(st.sets[x]).Interferes(i, aa)
    {
      InGroups(st, x);
      OnlyOneActive(st, aa, x);
      assert st.sets[x].any <==> st.any == Some(x);
    }
  }

  lemma {:induction false} RemovedGroups(st: State, st': State, p: Ptr)
    requires Removed(st, st', p)
    ensures Groups(st') == Left(Groups(st), p)
  {
    forall x | st.Active(x)
      ensures st'.Active(x) <==> GroupOf(st.sets[x]).ptrs - {p} != {} || GroupOf(st.sets[x]).insts != {}
      ensures st'.Active(x) ==> GroupOf(st'.sets[x]) == GroupOf(st.sets[x]).(ptrs := GroupOf(st.sets[x]).ptrs - {p})
    {
      RemovedFrom(st, st', p, x);
    }
  }

  lemma {:induction false} RemovedFrom(st: State, st': State, p: Ptr, x: Id)
    requires Removed(st, st', p) && st.Active(x)
    ensures st'.Active(x) <==> GroupOf(st.sets[x]).ptrs - {p} != {} || GroupOf(st.sets[x]).insts != {}
    ensures st'.Active(x) ==> GroupOf(st'.sets[x]) == GroupOf(st.sets[x]).(ptrs := GroupOf(st.sets[x]).ptrs - {p})
  {
    var g := GroupOf(st.sets[x]);
    InGroups(st, x);
    if q :| q != p && st.On(x, q) {
      assert q in g.ptrs - {p};
    }
    if i :| st.Holds(x, i) {
      assert i in g.insts;
    }
    if st'.Active(x) {
      InGroups(st', x);
      assert GroupOf(st'.sets[x]).ptrs == g.ptrs - {p};
      assert GroupOf(st'.sets[x]).insts == g.insts;
    }
  }

  /** A tracker that has become saturated holds everything in one group. */
  lemma {:induction false} SaturatedGroups(st: State, aa: Oracle, gs: set<Group>)
    requires st.Valid(aa) && st.any.Some? && st.sets[st.any.value].ref && st.sets[st.any.value].mod
    requires st.recs.Keys == PtrsIn(gs) && forall i :: i in InstsIn(gs) <==> HeldBefore(st, i)
    ensures Groups(st) == Saturated(gs)
  {
    var s := st.any.value;
    SaturatedSet(st);
    SaturatedHomes(st, aa);
    InGroups(st, s);
    var g := GroupOf(st.sets[s]);
    forall p
      ensures p in g.ptrs <==> p in PtrsIn(gs)
    {
      if p in st.recs {
        ListedAt(st, p);
      }
    }
    forall i
      ensures i in g.insts <==> i in InstsIn(gs)
    {
    }
    assert g == Group(PtrsIn(gs), InstsIn(gs), true, true, true);
    forall x | st.Active(x)
      ensures x == s
    {
      OnlyOneActive(st, aa, x);
    }
  }

  /** The groups of a tracker hold the pointers and instructions that it does. */
  lemma {:induction false} GroupsHold(st: State, aa: Oracle)
    requires st.Valid(aa)
    ensures PtrsIn(Groups(st)) == st.recs.Keys && forall i :: i in InstsIn(Groups(st)) <==> HeldBefore(st, i)
  {
    ActiveHomes(st);
    forall p | p in st.recs
      ensures p in PtrsIn(Groups(st))
    {
      ListedAt(st, p);
      InGroups(st, st.HomeOf(p));
    }
    forall p | p in PtrsIn(Groups(st))
      ensures p in st.recs
    {
      var g :| g in Groups(st) && p in g.ptrs;
      var x :| x in st.sets && st.Active(x) && g == GroupOf(st.sets[x]);
      assert st.On(x, p);
    }
    forall i | HeldBefore(st, i)
      ensures i in InstsIn(Groups(st))
    {
      var x :| st.Holds(x, i);
      assert st.Active(x);
      InGroups(st, x);
    }
    forall i | i in InstsIn(Groups(st))
      ensures HeldBefore(st, i)
    {
      var g :| g in Groups(st) && i in g.insts;
      var x :| x in st.sets && st.Active(x) && g == GroupOf(st.sets[x]);
      assert st.Holds(x, i);
    }
  }

  lemma {:induction false} TakenHolds(gs: set<Group>, hit: set<Group>, g: Group, aa: Oracle)
    requires hit <= gs
    ensures PtrsIn(Taken(gs, hit, g, aa)) == PtrsIn(gs) + g.ptrs
            && InstsIn(Taken(gs, hit, g, aa)) == InstsIn(gs) + g.insts
  {
    var made := United(hit, g, aa);
    assert made in Taken(gs, hit, g, aa);
    forall p | p in PtrsIn(gs) + g.ptrs
      ensures p in PtrsIn(Taken(gs, hit, g, aa))
    {
      if p in PtrsIn(gs) {
        var h :| h in gs && p in h.ptrs;
        assert h in hit ==> p in made.ptrs;
      }
    }
    forall i | i in InstsIn(gs) + g.insts
      ensures i in InstsIn(Taken(gs, hit, g, aa))
    {
      if i in InstsIn(gs) {
        var h :| h in gs && i in h.insts;
        assert h in hit ==> i in made.insts;
      }
    }
  }

  // ----- how many pointers may alias -----

  /** The pointers in "may" groups. */
  ghost function MayPtrsIn(gs: set<Group>): set<Ptr> { set g, p | g in gs && g.may && p in g.ptrs :: p }

  /** The pointers in "may" sets in front of n. */
  ghost function MayBelow(st: State, n: Id): set<Ptr>
    requires Homes(st)
  {
    set p | p in st.recs && st.HomeOf(p) in st.sets && st.HomeOf(p) < n && st.sets[st.HomeOf(p)].may
  }

  ghost function SetOf(s: seq<Ptr>): set<Ptr> { set p | p in s }

  lemma {:induction false} SizeOfSet(s: seq<Ptr>)
    requires NoDuplicates(s)
    ensures |SetOf(s)| == |s|
  {
    if s != [] {
      var front, last := s[..|s| - 1], s[|s| - 1];
      SizeOfSet(front);
      assert last !in front;
      assert SetOf(s) == SetOf(front) + {last};
    }
  }

  lemma {:induction false} MayBelowCount(st: State, n: Id)
    requires Homes(st) && st.Listed() && st.Shape()
    ensures MayPtrs(st.sets, n) == |MayBelow(st, n)|
  {
    if n == 0 {
      assert MayBelow(st, n) == {};
    } else {
      MayBelowCount(st, n - 1);
      MayBelowNext(st, n - 1);
    }
  }

  lemma {:induction false} HomesAt(st: State, n: Id)
    requires st.Listed() && n in st.sets
    ensures NoDuplicates(st.sets[n].ptrs)
    ensures forall p :: p in SetOf(st.sets[n].ptrs) <==> p in st.recs && st.Tracks(p) && st.HomeOf(p) == n
  {
    forall p
      ensures p in st.sets[n].ptrs <==> p in st.recs && st.Tracks(p) && st.HomeOf(p) == n
    {
      assert st.On(n, p) <==> p in st.sets[n].ptrs;
    }
  }

  lemma {:induction false} MayBelowNext(st: State, n: Id)
    requires Homes(st) && st.Listed() && st.Shape()
    ensures |MayBelow(st, n + 1)| == |MayBelow(st, n)| + MayPtrsOf(st.sets, n)
  {
    hide State.Listed, State.Shape, Homes, SetOf, NoDuplicates;
    ActiveHomes(st);
    HomesTrack(st);
    if n in st.sets && st.sets[n].forward.None? && st.sets[n].may {
      var here := SetOf(st.sets[n].ptrs);
      HomesAt(st, n);
      SizeOfSet(st.sets[n].ptrs);
      assert MayBelow(st, n + 1) == MayBelow(st, n) + here && MayBelow(st, n) !! here;
      assert |MayBelow(st, n) + here| == |MayBelow(st, n)| + |here|;
    } else {
      assert MayBelow(st, n + 1) == MayBelow(st, n);
    }
  }

  lemma HomesTrack(st: State)
    requires Homes(st)
    ensures forall p :: p in st.recs ==> st.Tracks(p)
  {
  }

  /** What the total counts. */
  lemma {:induction false} MayPtrsAre(st: State, aa: Oracle)
    requires st.Valid(aa)
    ensures MayPtrs(st.sets, st.next) == |MayPtrsIn(Groups(st))|
  {
    ActiveHomes(st);
    MayBelowCount(st, st.next);
    forall p
      ensures p in MayBelow(st, st.next) <==> p in MayPtrsIn(Groups(st))
    {
      if p in MayBelow(st, st.next) {
        ListedAt(st, p);
        InGroups(st, st.HomeOf(p));
      }
      if p in MayPtrsIn(Groups(st)) {
        var g :| g in Groups(st) && g.may && p in g.ptrs;
        var x :| x in st.sets && st.Active(x) && g == GroupOf(st.sets[x]);
        assert st.On(x, p);
      }
    }
    assert MayBelow(st, st.next) == MayPtrsIn(Groups(st));
  }

  // ----- operations on groups -----

  /** The groups after an operation by which the tracker may become saturated. */
  ghost function Outcome(gs: set<Group>, op: Op, aa: Oracle, known: bool, all: bool, saturates: bool): set<Group> {
    if saturates then Saturated(Next(gs, op, aa, known, all)) else Next(gs, op, aa, known, all)
  }

  lemma {:induction false} AddedGroups(st: State, st': State, s: Id, op: Op, oo: Oracle, aa: Oracle)
    requires op.AddPtr? && st.Valid(oo)
    requires Joined(st, st', Takers(st, op.p, aa, op.grows), s, {op.p}, {}, op.ref, op.mod)
    requires Weak(st, st', Takers(st, op.p, aa, op.grows), s, false, aa)
    ensures Groups(st') == Next(Groups(st), op, aa, op.p in st.recs, st.any.Some?)
  {
    hide State.Valid, Joined, Weak, Takers, TakersOf, Taken, Groups;
    var known := op.p in st.recs;
    var hit := TakersOf(Groups(st), op.p, aa, known && !op.grows, st.any.Some?);
    TakersMatch(st, op.p, aa, op.grows, oo);
    TakersAreGroups(Groups(st), op.p, aa, known && !op.grows, st.any.Some?);
    JoinedGroups(st, st', Takers(st, op.p, aa, op.grows), s, hit, Group({op.p}, {}, op.ref, op.mod, false), aa);
  }

  lemma TakersAreGroups(gs: set<Group>, p: Ptr, aa: Oracle, stays: bool, all: bool)
    ensures TakersOf(gs, p, aa, stays, all) <= gs
  {
  }

  lemma {:induction false} InstAddedGroups(st: State, st': State, s: Id, i: Inst, aa: Oracle)
    requires st.Valid(aa) && !aa.Ignores(i) && Joined(st, st', InstHits(st, i, aa), s, {}, {i}, true, aa.writes(i))
    requires s in st'.sets && st'.sets[s].may
    ensures Groups(st') == Next(Groups(st), AddInst(i), aa, false, st.any.Some?)
  {
    hide State.Valid, Joined, InstHits, Taken, Groups;
    InstHitsMatch(st, i, aa);
    MayIsWeak(st, st', s, i, aa);
    JoinedGroups(st, st', InstHits(st, i, aa), s, InterferersOf(Groups(st), i, aa, st.any.Some?),
                 Group({}, {i}, true, aa.writes(i), true), aa);
  }

  lemma MayIsWeak(st: State, st': State, s: Id, i: Inst, aa: Oracle)
    requires s in st'.sets && st'.sets[s].may
    ensures Weak(st, st', InstHits(st, i, aa), s, true, aa)
  {
  }

  /** Adding a pointer to a tracker that then is full. */
  lemma {:induction false} SaturatingGroups(st: State, st': State, op: Op, oo: Oracle, aa: Oracle)
    requires op.AddPtr? && st.Valid(oo) && st'.Valid(aa) && st'.any.Some? && st'.recs.Keys == st.recs.Keys + {op.p}
    requires st'.sets[st'.any.value].ref && st'.sets[st'.any.value].mod
    requires forall i :: HeldBefore(st', i) <==> HeldBefore(st, i)
    ensures Groups(st') == Saturated(Next(Groups(st), op, aa, op.p in st.recs, st.any.Some?))
  {
    hide State.Valid, HeldBefore, TakersOf, Taken, Groups, Saturated, PtrsIn, InstsIn;
    var known := op.p in st.recs;
    GroupsHold(st, oo);
    TakersAreGroups(Groups(st), op.p, aa, known && !op.grows, st.any.Some?);
    TakenHolds(Groups(st), TakersOf(Groups(st), op.p, aa, known && !op.grows, st.any.Some?),
               Group({op.p}, {}, op.ref, op.mod, false), aa);
    SaturatedGroups(st', aa, Next(Groups(st), op, aa, known, st.any.Some?));
  }
}
