/** The state of an alias set tracker: alias sets that are merged by forwarding and reclaimed by
    reference counting. This module says what a consistent state is and shows that the elementary
    updates of the tracker keep it consistent. */
module AliasSets {
  import opened AliasResults
  import opened Options

  type Ptr = nat   // a pointer value
  type Inst = nat  // an instruction without a specific address
  type Id = nat    // an alias set, numbered in the order of creation, which is the order of the list

  predicate Triple(p: Ptr, q: Ptr, r: Ptr) { true }

  /** The answers of alias analysis about pointers at their current locations, that is, with the sizes that
      are recorded for them. */
  datatype Oracle = Oracle(
    alias: (Ptr, Ptr) -> AliasResult,
    touches: (Inst, Ptr) -> bool,     // getModRefInfo of an instruction and a location is Mod or Ref
    isCall: Inst -> bool,
    modRef: (Inst, Inst) -> bool,     // getModRefInfo of two calls is Mod or Ref
    writes: Inst -> bool,             // may write memory, and is no guard or unused invariant.start
    isMarker: Inst -> bool,           // is debug information or an intrinsic that only marks
    accesses: Inst -> bool)           // may read or write memory
  {
    /** Instructions that are not added to a tracker. */
    predicate Ignores(i: Inst) { isMarker(i) || !accesses(i) }

    /** Symmetric; "must alias" is an equivalence, and equivalent pointers do not alias the same
        pointers. (The laws about three pointers are only used where Triple mentions them.) */
    ghost predicate Coherent() {
      && (forall p, q :: alias(p, q) == alias(q, p))
      && (forall p :: alias(p, p) == MustAlias)
      && (forall p, q, r {:trigger Triple(p, q, r)} :: Triple(p, q, r) ==>
            && (alias(p, q) == MustAlias && alias(q, r) == MustAlias ==> alias(p, r) == MustAlias)
            && (alias(p, q) == MustAlias && alias(p, r) == NoAlias ==> alias(q, r) == NoAlias))
    }

    /** The same about instructions. */
    ghost predicate SameInsts(at: Oracle) {
      && at.isCall == isCall && at.modRef == modRef && at.writes == writes && at.isMarker == isMarker
      && at.accesses == accesses
    }

    /** What alias analysis answers once the location of p is another one. */
    ghost predicate Relocates(at: Oracle, p: Ptr) {
      && SameInsts(at)
      && (forall q, r :: q != p && r != p ==> at.alias(q, r) == alias(q, r))
      && (forall i, q :: q != p ==> at.touches(i, q) == touches(i, q))
    }

    /** The same pointers must alias: a location that has grown starts where it did. */
    ghost predicate SameMust(at: Oracle) {
      SameInsts(at) && forall q, r :: at.alias(q, r) == MustAlias <==> alias(q, r) == MustAlias
    }

    predicate Conflict(i: Inst, j: Inst) {
      !isCall(i) || !isCall(j) || modRef(i, j) || modRef(j, i)
    }
  }

  /** One alias set. Its pointers are listed in the order in which they were added or merged. */
  datatype AliasSet = AliasSet(
    ptrs: seq<Ptr>,
    forward: Option<Id>,
    unknown: seq<Inst>,
    refs: int,
    any: bool,    // AliasAny
    ref: bool,    // Access
    mod: bool,
    may: bool,    // Alias is SetMayAlias
    size: int)    // SetSize

  const EmptySet := AliasSet([], None, [], 0, false, false, false, false, 0)

  predicate NoDuplicates(ptrs: seq<Ptr>) {
    forall i, j :: 0 <= i < j < |ptrs| ==> ptrs[i] != ptrs[j]
  }

  /** The sets on the list, the set each pointer record names, the saturated set if there is one, and
      the number of the next set. For each set, home is where following forwarding pointers ends. */
  datatype State = State(
    sets: map<Id, AliasSet>,
    recs: map<Ptr, Id>,
    any: Option<Id>,
    next: Id,
    home: map<Id, Id>)
  {
    predicate Active(s: Id) { s in sets && sets[s].forward.None? }

    predicate Tracks(p: Ptr) { p in recs && recs[p] in home }

    /** The set that a pointer resolves to. */
    function HomeOf(p: Ptr): Id
      requires Tracks(p)
    {
      home[recs[p]]
    }

    function Rank(s: Id): nat { if any == Some(s) then 0 else s + 1 }

    function Update(s: Id, a: AliasSet): State
    {
      this.(sets := sets[s := a])
    }

    // ----- consistency -----

    /** Names and forwarding pointers lead to sets on the list; forwarding goes towards the front of
        the list, or to the saturated set, so that it is acyclic. A set that forwards is empty. */
    ghost predicate Shape() {
      && (forall p :: p in recs ==> recs[p] in sets)
      && (forall s :: s in sets ==> s < next)
      && home.Keys == sets.Keys
      && (forall s {:trigger sets[s].forward} :: s in sets && sets[s].forward.None? ==> home[s] == s)
      && (forall s {:trigger sets[s].forward} :: s in sets && sets[s].forward.Some? ==>
            var t := sets[s].forward.value;
            && t in sets && Rank(t) < Rank(s) && home[s] == home[t]
            && sets[s].ptrs == [] && sets[s].unknown == [])
      && (any.Some? ==> Active(any.value) && sets[any.value].may)
      && (forall s :: s in sets ==> (sets[s].any <==> any == Some(s)))
    }

    /** One set of a state that has this shape. */
    ghost predicate ShapeAt(s: Id) {
      && s in sets && s in home && s < next && (sets[s].any <==> any == Some(s))
      && (sets[s].forward.None? ==> home[s] == s)
      && (sets[s].forward.Some? ==>
            var t := sets[s].forward.value;
            && t in sets && t in home && Rank(t) < Rank(s) && home[s] == home[t]
            && sets[s].ptrs == [] && sets[s].unknown == [])
    }

    ghost function Namers(s: Id): set<Ptr> { set p | p in recs && recs[p] == s }

    ghost function Forwarders(s: Id): set<Id> { set t | t in sets && sets[t].forward == Some(s) }

    ghost function Count(s: Id): nat
      requires s in sets
    {
      |Namers(s)| + |Forwarders(s)| + if sets[s].unknown != [] then 1 else 0
    }

    /** The reference count of every set is the number of pointer records that name it and of sets
        that forward to it, plus one if it has unknown instructions; the sets owed a decrement still
        count one reference that is gone. */
    ghost predicate Counted(owed: set<Id>) {
      forall s {:trigger Count(s)} :: s in sets ==> sets[s].refs == Count(s) + if s in owed then 1 else 0
    }

    /** Sets without references are gone. */
    ghost predicate Live(except: set<Id>) {
      forall s :: s in sets && s !in except ==> sets[s].refs > 0
    }

    predicate On(s: Id, p: Ptr) { s in sets && p in sets[s].ptrs }

    predicate Holds(s: Id, i: Inst) { s in sets && i in sets[s].unknown }

    /** Every tracked pointer is on the list of the set it resolves to, once, and on no other. */
    ghost predicate Listed() {
      && (forall p :: p in recs ==> Tracks(p) && On(HomeOf(p), p))
      && (forall s, p {:trigger On(s, p)} :: On(s, p) ==> p in recs && Tracks(p) && HomeOf(p) == s)
      && (forall s :: s in sets ==> NoDuplicates(sets[s].ptrs))
    }

    /** The pointers of a "must" set must alias each other, and it has no unknown instructions; the
        access of a set covers its unknown instructions. */
    ghost predicate MustSets(aa: Oracle) {
      && (forall s :: s in sets && !sets[s].may ==> sets[s].unknown == [])
      && (forall s, i {:trigger Holds(s, i)} :: Holds(s, i) ==> sets[s].ref && (aa.writes(i) ==> sets[s].mod))
      && (forall s, p, q {:trigger On(s, p), On(s, q)} :: On(s, p) && On(s, q) && !sets[s].may ==>
          aa.alias(p, q) == MustAlias)
    }

    /** What may alias is in one set. */
    ghost predicate Partition(aa: Oracle) {
      && (forall p, q {:trigger aa.alias(p, q)} :: Tracks(p) && Tracks(q) && aa.alias(p, q) != NoAlias ==>
          HomeOf(p) == HomeOf(q))
      && (forall s, i, p {:trigger Holds(s, i), aa.touches(i, p)} :: Holds(s, i) && Tracks(p) && aa.touches(i, p) ==>
          HomeOf(p) == s)
      && (forall s, t, i, j {:trigger Holds(s, i), Holds(t, j)} :: Holds(s, i) && Holds(t, j) && aa.Conflict(i, j) ==>
          s == t)
    }

    ghost predicate Inv(aa: Oracle, owed: set<Id>, except: set<Id>) {
      Shape() && Counted(owed) && Live(except) && Listed() && MustSets(aa) && Partition(aa)
    }

    /** Once saturated, every other set forwards straight to the one active set. */
    ghost predicate Collapsed() {
      any.Some? ==> forall s :: s in sets && s != any.value ==> sets[s].forward == any
    }

    ghost predicate Valid(aa: Oracle) {
      Inv(aa, {}, {}) && Collapsed()
    }
  }

  // ----- what consistency implies -----

  /** Following forwarding pointers, step by step. */
  function Resolve(st: State, s: Id): (r: Id)
    requires st.Shape() && s in st.sets
    ensures r in st.sets && st.Active(r) && r == st.home[s]
    decreases st.Rank(s)
  {
    if st.sets[s].forward.None? then s else Resolve(st, st.sets[s].forward.value)
  }

  /** If some other set resolves to s, a set forwards to s. */
  lemma {:induction false} SomeForwarder(st: State, s: Id, x: Id)
    requires st.Shape() && x in st.sets && s in st.sets && x != s && st.home[x] == s
    ensures st.Forwarders(s) != {}
    decreases st.Rank(x)
  {
    var y := st.sets[x].forward.value;
    if y == s {
      assert x in st.Forwarders(s);
    } else {
      SomeForwarder(st, s, y);
    }
  }

  /** An unreferenced set is where nothing resolves to. */
  lemma {:induction false} NothingResolvesTo(st: State, s: Id)
    requires st.Shape() && s in st.sets && st.Forwarders(s) == {}
    ensures forall x :: x in st.sets && x != s ==> st.home[x] != s
    ensures forall x :: x in st.sets ==> st.sets[x].forward != Some(s)
  {
    assert forall x :: x in st.sets && st.sets[x].forward == Some(s) ==> x in st.Forwarders(s);
    forall x | x in st.sets && x != s
      ensures st.home[x] != s
    {
      if st.home[x] == s {
        SomeForwarder(st, s, x);
      }
    }
  }

  /** It is also empty. */
  lemma {:induction false} Unreferenced(st: State, s: Id)
    requires st.Shape() && st.Listed() && s in st.sets && st.Count(s) == 0
    ensures st.sets[s].unknown == [] && st.sets[s].ptrs == []
    ensures forall x :: x in st.sets && x != s ==> st.home[x] != s
    ensures forall x :: x in st.sets ==> st.sets[x].forward != Some(s)
    ensures forall p :: p in st.recs ==> st.recs[p] != s
  {
    NothingResolvesTo(st, s);
    assert forall p :: p in st.recs && st.recs[p] == s ==> p in st.Namers(s);
    if st.sets[s].ptrs != [] {
      OnlyNamersListed(st, s, st.sets[s].ptrs[0]);
      assert false;
    }
  }

  lemma {:induction false} OnlyNamersListed(st: State, s: Id, p: Ptr)
    requires st.Shape() && st.Listed() && s in st.sets && p in st.sets[s].ptrs
    ensures p in st.recs && st.recs[p] in st.sets && st.home[st.recs[p]] == s
  {
    assert st.On(s, p);
  }

  /** In a live state a set with no unknown instructions that something resolves to has a pointer:
      the set furthest down the forwarding tree is referenced, and only a record can do that. */
  lemma {:induction false} LiveSetsHavePointers(st: State, s: Id, x: Id)
    requires st.Shape() && st.Listed() && st.Counted({}) && st.Live({})
    requires st.Active(s) && st.sets[s].unknown == [] && x in st.sets && st.home[x] == s
    ensures st.sets[s].ptrs != []
    decreases st.next + 1 - st.Rank(x)
  {
    assert st.sets[x].unknown == [];
    if st.Namers(x) != {} {
      var p :| p in st.Namers(x);
      assert p in st.recs && st.HomeOf(p) == s;
      assert st.On(s, p);
    } else {
      assert st.Count(x) > 0;
      var y :| y in st.Forwarders(x);
      assert st.home[y] == s;
      assert st.Rank(x) < st.Rank(y);
      LiveSetsHavePointers(st, s, y);
    }
  }

  /** A "must" set that is active has a pointer. */
  lemma {:induction false} MustSetsHavePointers(st: State, s: Id, aa: Oracle)
    requires st.Inv(aa, {}, {}) && st.Active(s) && !st.sets[s].may
    ensures st.sets[s].ptrs != []
  {
    LiveSetsHavePointers(st, s, s);
  }

  lemma ShapeFrom(st: State)
    requires forall p :: p in st.recs ==> st.recs[p] in st.sets
    requires st.home.Keys == st.sets.Keys
    requires forall s :: s in st.sets ==> st.ShapeAt(s)
    requires st.any.Some? ==> st.Active(st.any.value) && st.sets[st.any.value].may
    ensures st.Shape()
  {
  }

  lemma ShapeOf(st: State, s: Id)
    requires st.Shape() && s in st.sets
    ensures st.ShapeAt(s)
  {
  }

  /** One step of forwarding. */
  lemma ForwardStep(st: State, s: Id)
    requires st.Shape() && s in st.sets
    ensures s in st.home && s < st.next
    ensures st.sets[s].forward.None? ==> st.home[s] == s
    ensures st.sets[s].forward.Some? ==>
              var t := st.sets[s].forward.value;
              t in st.sets && t in st.home && st.home[s] == st.home[t] && st.Rank(t) < st.Rank(s)
  {
  }

  lemma NamedSet(st: State, p: Ptr)
    requires st.Shape() && p in st.recs
    ensures st.recs[p] in st.sets && st.Tracks(p)
  {
  }
}
