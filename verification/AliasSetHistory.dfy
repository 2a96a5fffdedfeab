/** Runs of an alias set tracker: which pointers are tracked after one, what alias analysis answers about them,
    what groups there are, and where the access of a group comes from. */
module AliasSetHistory {
  import opened AliasResults
  import opened Options
  import opened AliasSets
  import opened AliasSetSizes
  import opened AliasSetTracking
  import opened AliasSetGroups

  /** The pointers that are tracked after one more operation. */
  function After(tracked: set<Ptr>, op: Op): set<Ptr> {
    match op
    case AddPtr(p, _, _, _, _) => tracked + {p}
    case AddInst(_) => tracked
    case Delete(p) => tracked - {p}
  }

  function Tracked(ops: seq<Op>): set<Ptr> {
    if ops == [] then {} else After(Tracked(ops[..|ops| - 1]), ops[|ops| - 1])
  }

  /** What alias analysis answers after one more operation on these pointers. */
  function AnswersAfter(aa: Oracle, tracked: set<Ptr>, op: Op): Oracle {
    match op
    case AddPtr(p, at, grows, _, _) => Located(aa, at, p in tracked, grows)
    case AddInst(_) => aa
    case Delete(_) => aa
  }

  /** What it answers about pointers at the locations that were recorded in a run. */
  function Answers(aa: Oracle, ops: seq<Op>): Oracle {
    if ops == [] then aa
    else
      var earlier := ops[..|ops| - 1];
      AnswersAfter(Answers(aa, earlier), Tracked(earlier), ops[|ops| - 1])
  }

  /** What it answers about an access only differs by the location of the pointer. */
  ghost predicate Possible(aa: Oracle, tracked: set<Ptr>, op: Op) {
    op.AddPtr? ==> Locates(aa, op.at, op.p, op.p in tracked, op.grows)
  }

  ghost predicate AllPossible(aa: Oracle, ops: seq<Op>) {
    forall k {:trigger ops[k]} :: 0 <= k < |ops| ==> Possible(Answers(aa, ops[..k]), Tracked(ops[..k]), ops[k])
  }

  /** Whether p was read (or written) since it was last deleted. */
  predicate Asked(ops: seq<Op>, p: Ptr, write: bool) {
    ops != [] &&
    var earlier := Asked(ops[..|ops| - 1], p, write);
    match ops[|ops| - 1]
    case AddPtr(q, _, _, ref, mod) => earlier || (p == q && if write then mod else ref)
    case AddInst(_) => earlier
    case Delete(q) => p != q && earlier
  }

  /** Whether an operation makes its pointer known that was known before. */
  predicate Knows(tracked: set<Ptr>, op: Op) { op.AddPtr? && op.p in tracked }

  /** The groups after a run that saturates the tracker with this operation, if at all. */
  ghost function Model(aa: Oracle, ops: seq<Op>, sat: Option<nat>): set<Group> {
    if ops == [] then {}
    else
      var k := |ops| - 1;
      Outcome(Model(aa, ops[..k], sat), ops[k], Answers(aa, ops), Knows(Tracked(ops[..k]), ops[k]),
              sat.Some? && sat.value < k, sat == Some(k))
  }

  lemma TrackedNext(ops: seq<Op>, op: Op)
    ensures Tracked(ops + [op]) == After(Tracked(ops), op)
  {
    assert (ops + [op])[..|ops|] == ops;
  }

  lemma AnswersNext(aa: Oracle, ops: seq<Op>, op: Op)
    ensures Answers(aa, ops + [op]) == AnswersAfter(Answers(aa, ops), Tracked(ops), op)
  {
    assert (ops + [op])[..|ops|] == ops;
  }

  lemma AnswersKeep(aa: Oracle, tracked: set<Ptr>, op: Op)
    requires aa.Coherent() && Possible(aa, tracked, op)
    ensures var at := AnswersAfter(aa, tracked, op);
            at.Coherent() && aa.SameInsts(at) && (!op.AddPtr? ==> at == aa)
  {
  }

  /** Only tracked pointers have been asked for. */
  lemma {:induction false} AskedTracked(ops: seq<Op>, p: Ptr, write: bool)
    requires Asked(ops, p, write)
    ensures p in Tracked(ops)
  {
    if Asked(ops[..|ops| - 1], p, write) {
      AskedTracked(ops[..|ops| - 1], p, write);
    }
  }

  lemma PossibleBefore(aa: Oracle, ops: seq<Op>)
    requires AllPossible(aa, ops) && ops != []
    ensures AllPossible(aa, ops[..|ops| - 1])
    ensures Possible(Answers(aa, ops[..|ops| - 1]), Tracked(ops[..|ops| - 1]), ops[|ops| - 1])
  {
    var earlier := ops[..|ops| - 1];
    forall k | 0 <= k < |earlier|
      ensures Possible(Answers(aa, earlier[..k]), Tracked(earlier[..k]), earlier[k])
    {
      assert earlier[..k] == ops[..k] && earlier[k] == ops[k];
    }
  }

  lemma {:induction false} AnswersCoherent(aa: Oracle, ops: seq<Op>)
    requires aa.Coherent() && AllPossible(aa, ops)
    ensures Answers(aa, ops).Coherent() && aa.SameInsts(Answers(aa, ops))
  {
    if ops != [] {
      PossibleBefore(aa, ops);
      AnswersCoherent(aa, ops[..|ops| - 1]);
      AnswersKeep(Answers(aa, ops[..|ops| - 1]), Tracked(ops[..|ops| - 1]), ops[|ops| - 1]);
    }
  }

  // ----- where access comes from -----

  /** Operation k asks for an access to something that is in g now, or to a pointer that was deleted since. */
  ghost predicate Reason(ops: seq<Op>, k: nat, g: Group, aa: Oracle, write: bool) {
    k < |ops| &&
    match ops[k]
    case AddPtr(p, _, _, ref, mod) => (if write then mod else ref) && (p in g.ptrs || DeletedAfter(ops, k, p))
    case AddInst(i) => i in g.insts && (write ==> aa.writes(i))
    case Delete(_) => false
  }

  ghost predicate DeletedAfter(ops: seq<Op>, k: nat, p: Ptr) {
    exists j :: k < j < |ops| && ops[j].Delete? && ops[j].p == p
  }

  ghost predicate HasReason(ops: seq<Op>, g: Group, aa: Oracle, write: bool) {
    exists k: nat :: Reason(ops, k, g, aa, write)
  }

  lemma ReasonStays(ops: seq<Op>, op: Op, h: Group, g: Group, aa: Oracle, write: bool)
    requires HasReason(ops, h, aa, write) && h.insts <= g.insts
    requires forall p :: p in h.ptrs ==> p in g.ptrs || (op.Delete? && op.p == p)
    ensures HasReason(ops + [op], g, aa, write)
  {
    var k: nat :| Reason(ops, k, h, aa, write);
    var more := ops + [op];
    assert more[k] == ops[k] && more[|ops|] == op;
    if ops[k].AddPtr? {
      if DeletedAfter(ops, k, ops[k].p) {
        var j :| k < j < |ops| && ops[j].Delete? && ops[j].p == ops[k].p;
        assert more[j] == ops[j];
      } else if ops[k].p !in g.ptrs {
        assert k < |ops| < |more| && more[|ops|].Delete? && more[|ops|].p == ops[k].p;
      }
    }
    assert Reason(more, k, g, aa, write);
  }

  /** Whatever access a group records was asked for, for something that is in it, or was before it was
      deleted. */
  lemma {:induction false} AccessHasReason(aa: Oracle, ops: seq<Op>, g: Group, write: bool)
    requires aa.Coherent() && AllPossible(aa, ops) && g in Model(aa, ops, None) && g.Records(write)
    ensures HasReason(ops, g, aa, write)
  {
    var earlier, op := ops[..|ops| - 1], ops[|ops| - 1];
    assert ops == earlier + [op];
    PossibleBefore(aa, ops);
    AnswersCoherent(aa, ops);
    var gs := Model(aa, earlier, None);
    forall h | h in gs && h.Records(write)
      ensures HasReason(earlier, h, aa, write)
    {
      AccessHasReason(aa, earlier, h, write);
    }
    hide Model, AllPossible, HasReason, Oracle.Coherent, Answers, Tracked;
    NextHasReason(gs, earlier, op, aa, Answers(aa, ops), Knows(Tracked(earlier), op), g, write);
  }

  lemma {:induction false} NextHasReason(gs: set<Group>, ops: seq<Op>, op: Op, aa: Oracle, at: Oracle, known: bool,
                                         g: Group, write: bool)
    requires g in Next(gs, op, at, known, false) && g.Records(write) && aa.SameInsts(at)
    requires forall h :: h in gs && h.Records(write) ==> HasReason(ops, h, aa, write)
    ensures HasReason(ops + [op], g, aa, write)
  {
    hide HasReason, Group.Takes, Group.Interferes;
    match op
    case AddPtr(p, _, grows, ref, mod) =>
      TakenHasReason(gs, TakersOf(gs, p, at, known && !grows, false), Group({p}, {}, ref, mod, false), ops, op, aa, at,
                     g, write);
    case AddInst(i) =>
      if at.Ignores(i) {
        ReasonStays(ops, op, g, g, aa, write);
      } else {
        TakenHasReason(gs, InterferersOf(gs, i, at, false), Group({}, {i}, true, at.writes(i), true), ops, op, aa, at,
                       g, write);
      }
    case Delete(p) =>
      var h :| h in gs && g == h.(ptrs := h.ptrs - {p});
      ReasonStays(ops, op, h, g, aa, write);
  }

  lemma {:induction false} TakenHasReason(gs: set<Group>, hit: set<Group>, c: Group, ops: seq<Op>, op: Op, aa: Oracle,
                                          at: Oracle, g: Group, write: bool)
    requires hit <= gs && g in Taken(gs, hit, c, at) && g.Records(write)
    requires forall h :: h in gs && h.Records(write) ==> HasReason(ops, h, aa, write)
    requires c.Records(write) ==> op.AddPtr? || op.AddInst?
    requires op.AddPtr? ==> op.p in c.ptrs && c.Records(write) == (if write then op.mod else op.ref)
    requires op.AddInst? ==> op.i in c.insts && (c.Records(write) ==> write ==> aa.writes(op.i))
    ensures HasReason(ops + [op], g, aa, write)
  {
    hide HasReason;
    if g in gs {
      ReasonStays(ops, op, g, g, aa, write);
    } else if c.Records(write) {
      ReasonNow(ops, op, c, g, aa, write);
    } else {
      var h :| h in hit && h.Records(write);
      ReasonStays(ops, op, h, g, aa, write);
    }
  }

  lemma ReasonNow(ops: seq<Op>, op: Op, c: Group, g: Group, aa: Oracle, write: bool)
    requires c.ptrs <= g.ptrs && c.insts <= g.insts && c.Records(write) && (op.AddPtr? || op.AddInst?)
    requires op.AddPtr? ==> op.p in c.ptrs && c.Records(write) == (if write then op.mod else op.ref)
    requires op.AddInst? ==> op.i in c.insts && (c.Records(write) ==> write ==> aa.writes(op.i))
    ensures HasReason(ops + [op], g, aa, write)
  {
    assert Reason(ops + [op], |ops|, g, aa, write);
  }

  // ----- what is recorded -----

  /** Exactly the tracked pointers are in groups. */
  lemma {:induction false} ModelHolds(aa: Oracle, ops: seq<Op>, sat: Option<nat>)
    ensures PtrsIn(Model(aa, ops, sat)) == Tracked(ops)
  {
    if ops != [] {
      var k := |ops| - 1;
      ModelHolds(aa, ops[..k], sat);
      NextHolds(Model(aa, ops[..k], sat), ops[k], Answers(aa, ops), Knows(Tracked(ops[..k]), ops[k]),
                sat.Some? && sat.value < k);
    }
  }

  lemma {:induction false} NextHolds(gs: set<Group>, op: Op, at: Oracle, known: bool, all: bool)
    ensures PtrsIn(Next(gs, op, at, known, all)) == After(PtrsIn(gs), op)
    ensures PtrsIn(Saturated(Next(gs, op, at, known, all))) == After(PtrsIn(gs), op)
  {
    hide Group.Takes, Group.Interferes;
    match op
    case AddPtr(p, _, grows, ref, mod) =>
      TakenHolds(gs, TakersOf(gs, p, at, known && !grows, all), Group({p}, {}, ref, mod, false), at);
    case AddInst(i) =>
      if !at.Ignores(i) {
        TakenHolds(gs, InterferersOf(gs, i, at, all), Group({}, {i}, true, at.writes(i), true), at);
      }
    case Delete(p) =>
      forall q | q in PtrsIn(gs) && q != p
        ensures q in PtrsIn(Left(gs, p))
      {
        var g :| g in gs && q in g.ptrs;
        assert q in g.ptrs - {p};
        assert g.(ptrs := g.ptrs - {p}) in Left(gs, p);
      }
  }

  /** A group records what was asked for about its pointers since they were last deleted, and the access of its
      instructions. */
  ghost predicate Recorded(g: Group, ops: seq<Op>, aa: Oracle) {
    && (forall p, write {:trigger Asked(ops, p, write)} :: p in g.ptrs && Asked(ops, p, write) ==> g.Records(write))
    && (forall i :: i in g.insts ==> g.ref && (aa.writes(i) ==> g.mod))
  }

  lemma {:induction false} AccessIsRecorded(aa: Oracle, ops: seq<Op>, sat: Option<nat>)
    requires aa.Coherent() && AllPossible(aa, ops)
    ensures forall g :: g in Model(aa, ops, sat) ==> Recorded(g, ops, aa)
  {
    hide Recorded, Tracked, Answers, AllPossible, Oracle.Coherent, Oracle.SameInsts, Next, Saturated, Knows, PtrsIn;
    if ops != [] {
      var k := |ops| - 1;
      PossibleBefore(aa, ops);
      AnswersCoherent(aa, ops);
      AccessIsRecorded(aa, ops[..k], sat);
      ModelHolds(aa, ops[..k], sat);
      assert ops == ops[..k] + [ops[k]];
      NextRecorded(Model(aa, ops[..k], sat), ops[..k], ops[k], aa, Answers(aa, ops), Knows(Tracked(ops[..k]), ops[k]),
                   sat.Some? && sat.value < k);
    }
  }

  lemma {:induction false} NextRecorded(gs: set<Group>, ops: seq<Op>, op: Op, aa: Oracle, at: Oracle, known: bool,
                                        all: bool)
    requires aa.SameInsts(at) && at.Coherent() && PtrsIn(gs) == Tracked(ops)
    requires forall g :: g in gs ==> Recorded(g, ops, aa)
    ensures forall g :: g in Next(gs, op, at, known, all) ==> Recorded(g, ops + [op], aa)
    ensures forall g :: g in Saturated(Next(gs, op, at, known, all)) ==> Recorded(g, ops + [op], aa)
  {
    forall g | g in Next(gs, op, at, known, all)
      ensures Recorded(g, ops + [op], aa)
    {
      match op
      case AddPtr(p, _, grows, ref, mod) =>
        AddRecorded(gs, ops, op, aa, at, known, all, g);
      case AddInst(i) =>
        InstRecorded(gs, ops, op, aa, at, all, g);
      case Delete(p) =>
        var h :| h in gs && g == h.(ptrs := h.ptrs - {p});
        StillRecorded(h, g, ops, op, aa);
    }
  }

  lemma AskedNext(ops: seq<Op>, op: Op, p: Ptr, write: bool)
    ensures Asked(ops + [op], p, write) <==>
            match op
            case AddPtr(q, _, _, ref, mod) => Asked(ops, p, write) || (p == q && if write then mod else ref)
            case AddInst(_) => Asked(ops, p, write)
            case Delete(q) => p != q && Asked(ops, p, write)
  {
    assert (ops + [op])[..|ops|] == ops;
  }

  lemma {:induction false} StillRecorded(h: Group, g: Group, ops: seq<Op>, op: Op, aa: Oracle)
    requires Recorded(h, ops, aa) && g.ptrs <= h.ptrs && g.insts == h.insts && g.ref == h.ref && g.mod == h.mod
    requires op.AddPtr? ==> op.p !in g.ptrs
    ensures Recorded(g, ops + [op], aa)
  {
    hide Asked;
    forall p, write | p in g.ptrs && Asked(ops + [op], p, write)
      ensures g.Records(write)
    {
      AskedNext(ops, op, p, write);
    }
  }

  lemma {:induction false} AddRecorded(gs: set<Group>, ops: seq<Op>, op: Op, aa: Oracle, at: Oracle, known: bool,
                                       all: bool,
                                       g: Group)
    requires at.Coherent() && PtrsIn(gs) == Tracked(ops) && op.AddPtr? && g in Next(gs, op, at, known, all)
    requires forall h :: h in gs ==> Recorded(h, ops, aa)
    ensures Recorded(g, ops + [op], aa)
  {
    var hit := TakersOf(gs, op.p, at, known && !op.grows, all);
    forall h | h in gs && op.p in h.ptrs
      ensures h in hit
    {
      assert at.alias(op.p, op.p) == MustAlias;
    }
    hide TakersOf, Tracked, Asked, Oracle.Coherent;
    if g == United(hit, Group({op.p}, {}, op.ref, op.mod, false), at) {
      UnitedRecorded(gs, hit, Group({op.p}, {}, op.ref, op.mod, false), ops, op, aa, at);
    } else {
      StillRecorded(g, g, ops, op, aa);
    }
  }

  lemma {:induction false} InstRecorded(gs: set<Group>, ops: seq<Op>, op: Op, aa: Oracle, at: Oracle, all: bool,
                                        g: Group)
    requires aa.SameInsts(at) && PtrsIn(gs) == Tracked(ops) && op.AddInst? && g in Next(gs, op, at, false, all)
    requires forall h :: h in gs ==> Recorded(h, ops, aa)
    ensures Recorded(g, ops + [op], aa)
  {
    hide InterferersOf, Tracked, Asked;
    if g in gs {
      StillRecorded(g, g, ops, op, aa);
    } else {
      InterferersAreGroups(gs, op.i, at, all);
      UnitedRecorded(gs, InterferersOf(gs, op.i, at, all), Group({}, {op.i}, true, at.writes(op.i), true), ops, op, aa,
                     at);
    }
  }

  lemma InterferersAreGroups(gs: set<Group>, i: Inst, aa: Oracle, all: bool)
    ensures InterferersOf(gs, i, aa, all) <= gs
  {
  }

  lemma {:induction false} UnitedRecorded(gs: set<Group>, hit: set<Group>, c: Group, ops: seq<Op>, op: Op, aa: Oracle,
                                          at: Oracle)
    requires hit <= gs && PtrsIn(gs) == Tracked(ops) && !op.Delete?
    requires forall h :: h in gs ==> Recorded(h, ops, aa)
    requires forall p :: p in c.ptrs ==> op.AddPtr? && p == op.p
    requires op.AddPtr? ==> c.ref == op.ref && c.mod == op.mod && forall h :: h in gs && op.p in h.ptrs ==> h in hit
    requires forall i :: i in c.insts ==> c.ref && (aa.writes(i) ==> c.mod)
    ensures Recorded(United(hit, c, at), ops + [op], aa)
  {
    hide Asked, Tracked;
    var g := United(hit, c, at);
    forall p, write | p in g.ptrs && Asked(ops + [op], p, write)
      ensures g.Records(write)
    {
      AskedNext(ops, op, p, write);
      if Asked(ops, p, write) {
        AskedTracked(ops, p, write);
        var h :| h in gs && p in h.ptrs && (p in c.ptrs || h in hit);
        assert Recorded(h, ops, aa);
      }
    }
    forall i | i in g.insts
      ensures g.ref && (aa.writes(i) ==> g.mod)
    {
      if i !in c.insts {
        var h :| h in hit && i in h.insts;
        assert Recorded(h, ops, aa);
      }
    }
  }

  // ----- runs without deletions -----

  ghost predicate NoDeletions(ops: seq<Op>) { forall k :: 0 <= k < |ops| ==> !ops[k].Delete? }

  /** Something in g was asked for with this access. */
  ghost predicate AskedIn(g: Group, ops: seq<Op>, aa: Oracle, write: bool) {
    (exists p :: p in g.ptrs && Asked(ops, p, write)) || exists i :: i in g.insts && (write ==> aa.writes(i))
  }

  lemma {:induction false} AskedStays(ops: seq<Op>, k: nat, write: bool)
    requires k < |ops| && ops[k].AddPtr? && (if write then ops[k].mod else ops[k].ref)
    requires NoDeletions(ops)
    ensures Asked(ops, ops[k].p, write)
  {
    var n := |ops| - 1;
    if k < n {
      AskedStays(ops[..n], k, write);
    }
  }

  /** Without deletions, a group records an access exactly if something in it was asked for with it. */
  lemma {:induction false} AccessIffAsked(aa: Oracle, ops: seq<Op>, g: Group, write: bool)
    requires aa.Coherent() && AllPossible(aa, ops) && NoDeletions(ops) && g in Model(aa, ops, None)
    ensures g.Records(write) <==> AskedIn(g, ops, aa, write)
  {
    AccessIsRecorded(aa, ops, None);
    hide Model, AllPossible;
    assert Recorded(g, ops, aa);
    if g.Records(write) {
      AccessHasReason(aa, ops, g, write);
      var k: nat :| Reason(ops, k, g, aa, write);
      if ops[k].AddPtr? {
        AskedStays(ops, k, write);
      }
    }
  }

  /** A group is a "must" group exactly if it has no instructions and all of its pointers must alias. */
  ghost predicate MustExact(g: Group, aa: Oracle) { g.may <==> g.insts != {} || !AllAlike(g.ptrs, aa) }

  /** Without deletions every group is. */
  lemma {:induction false} MustIffAlike(aa: Oracle, ops: seq<Op>)
    requires aa.Coherent() && AllPossible(aa, ops) && NoDeletions(ops)
    ensures forall g :: g in Model(aa, ops, None) ==> MustExact(g, Answers(aa, ops))
  {
    if ops != [] {
      var n := |ops| - 1;
      PossibleBefore(aa, ops);
      MustIffAlike(aa, ops[..n]);
      ModelHolds(aa, ops[..n], None);
      hide MustExact, Next, AllPossible;
      NextMustExact(Model(aa, ops[..n], None), ops[n], Answers(aa, ops[..n]), Tracked(ops[..n]));
    }
  }

  /** An operation that is possible changes no answer to or from must alias about pointers that are tracked. */
  lemma {:induction false} TrackedAlike(ptrs: set<Ptr>, op: Op, aa: Oracle, tracked: set<Ptr>)
    requires Possible(aa, tracked, op) && ptrs <= tracked
    ensures AllAlike(ptrs, AnswersAfter(aa, tracked, op)) <==> AllAlike(ptrs, aa)
  {
    var at := AnswersAfter(aa, tracked, op);
    forall q, r | q in tracked && r in tracked
      ensures at.alias(q, r) == MustAlias <==> aa.alias(q, r) == MustAlias
    {
    }
  }

  lemma {:induction false} NextMustExact(gs: set<Group>, op: Op, aa: Oracle, tracked: set<Ptr>)
    requires Possible(aa, tracked, op) && PtrsIn(gs) == tracked && !op.Delete?
    requires forall g :: g in gs ==> MustExact(g, aa)
    ensures var at := AnswersAfter(aa, tracked, op);
            forall g :: g in Next(gs, op, at, Knows(tracked, op), false) ==> MustExact(g, at)
  {
    var at := AnswersAfter(aa, tracked, op);
    forall g | g in gs
      ensures MustExact(g, at)
    {
      TrackedAlike(g.ptrs, op, aa, tracked);
    }
    hide TakersOf, InterferersOf, AnswersAfter, Possible, MustExact;
    match op
    case AddPtr(p, _, grows, ref, mod) =>
      TakersAreGroups(gs, p, at, Knows(tracked, op) && !grows, false);
      UnitedMustExact(gs, TakersOf(gs, p, at, Knows(tracked, op) && !grows, false), Group({p}, {}, ref, mod, false),
                      at);
    case AddInst(i) =>
      InterferersAreGroups(gs, i, at, false);
      UnitedMustExact(gs, InterferersOf(gs, i, at, false), Group({}, {i}, true, at.writes(i), true), at);
  }

  lemma {:induction false} UnitedMustExact(gs: set<Group>, hit: set<Group>, c: Group, at: Oracle)
    requires hit <= gs && (forall g :: g in gs ==> MustExact(g, at)) && (c.may <==> c.insts != {})
    ensures MustExact(United(hit, c, at), at)
  {
    var g := United(hit, c, at);
    if h :| h in hit && h.may {
      assert MustExact(h, at) && h.insts <= g.insts && h.ptrs <= g.ptrs;
    }
    if i :| i in InstsIn(hit) {
      var h :| h in hit && i in h.insts;
      assert MustExact(h, at);
    }
  }

  // ----- when the tracker becomes saturated -----

  /** There are more pointers in "may" groups than the threshold, modulo 2^32. */
  ghost predicate Overflows(aa: Oracle, ops: seq<Op>, threshold: nat) {
    Wrap(|MayPtrsIn(Model(aa, ops, None))|) > threshold
  }

  /** Two pointers that may alias. */
  const Two := Oracle((p, q) => if p == q then MustAlias else MayAlias, (i, p) => false, i => false, (i, j) => false,
                      i => false, i => false, i => false)

  const Write0 := AddPtr(0, Two, false, false, true)
  const Read1 := AddPtr(1, Two, false, true, false)

  lemma {:induction false} ModelNext(aa: Oracle, ops: seq<Op>, op: Op)
    ensures Model(aa, ops + [op], None) ==
            Next(Model(aa, ops, None), op, Answers(aa, ops + [op]), Knows(Tracked(ops), op), false)
  {
    assert (ops + [op])[..|ops|] == ops;
  }

  lemma {:induction false} WrittenGroup(gs: set<Group>)
    requires gs == {}
    ensures Next(gs, Write0, Two, false, false) == {Group({0}, {}, false, true, false)}
  {
    var g := Group({0}, {}, false, true, false);
    assert PtrsIn(gs) == {} && InstsIn(gs) == {} && TakersOf(gs, 0, Two, false, false) == gs;
    assert g.ptrs + {} == g.ptrs && g.insts + {} == g.insts && United(gs, g, Two) == g;
  }

  lemma {:induction false} ReadGroup(g: Group)
    requires g == Group({0}, {}, false, true, false)
    ensures Next({g}, Read1, Two, false, false) == {Group({0, 1}, {}, true, true, true)}
  {
    assert Two.alias(1, 0) == MayAlias && g.Takes(1, Two, false);
    assert TakersOf({g}, 1, Two, false, false) == {g};
    var c := Group({1}, {}, true, false, false);
    assert g in {g} && PtrsIn({g}) == {0} && InstsIn({g}) == {} && !Reads({g}) && Writes({g}) && !Mays({g});
    assert c.ptrs + {0} == {0, 1} && c.insts + {} == {} && !AllAlike({0, 1}, Two);
    assert United({g}, c, Two) == Group({0, 1}, {}, true, true, true);
  }

  lemma {:induction false} LeftGroup(g: Group)
    requires g == Group({0, 1}, {}, true, true, true)
    ensures Left({g}, 0) == {Group({1}, {}, true, true, true)}
  {
    assert g.ptrs - {0} == {1} && g in {g};
  }

  /** With deletions that is not so: where one pointer is written, another that it may alias is read, and the
      first is deleted, the write stays recorded, and the set stays a "may" set. */
  lemma {:induction false} DeletedAccessStays()
    ensures Two.Coherent() && AllPossible(Two, [Write0, Read1, Delete(0)])
    ensures Model(Two, [Write0, Read1, Delete(0)], None) == {Group({1}, {}, true, true, true)}
    ensures !AskedIn(Group({1}, {}, true, true, true), [Write0, Read1, Delete(0)], Two, true)
  {
    TwoAnswers([Write0, Read1, Delete(0)]);
    hide Model, Next, Two, Answers, AllPossible, Left;
    assert [] + [Write0] == [Write0] && [Write0] + [Read1] == [Write0, Read1];
    assert [Write0, Read1] + [Delete(0)] == [Write0, Read1, Delete(0)];
    TrackedNext([], Write0);
    TrackedNext([Write0], Read1);
    ModelNext(Two, [], Write0);
    WrittenGroup(Model(Two, [], None));
    ModelNext(Two, [Write0], Read1);
    ReadGroup(Group({0}, {}, false, true, false));
    ModelNext(Two, [Write0, Read1], Delete(0));
    LeftGroup(Group({0, 1}, {}, true, true, true));
    AskedNext([], Write0, 1, true);
    AskedNext([Write0], Read1, 1, true);
    AskedNext([Write0, Read1], Delete(0), 1, true);
  }

  lemma {:induction false} TwoAnswers(ops: seq<Op>)
    requires forall k :: 0 <= k < |ops| ==> ops[k].AddPtr? ==> ops[k].at == Two
    ensures Two.Coherent() && Answers(Two, ops) == Two && AllPossible(Two, ops)
  {
    forall k | 0 <= k < |ops|
      ensures Answers(Two, ops[..k]) == Two
    {
      TwoAnswers(ops[..k]);
    }
  }
}
