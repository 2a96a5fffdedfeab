/** What a client of the alias set tracker may rely on after any run of operations. */
module AliasSetRuns {
  import opened AliasResults
  import opened Options
  import opened AliasSets
  import opened AliasSetEdits
  import opened AliasSetMerge
  import opened AliasSetSizes
  import opened AliasSetJoins
  import opened AliasSetTracking
  import opened AliasSetGroups
  import opened AliasSetHistory

  /** The access of a pointer's set covers what was asked for. */
  ghost predicate Covered(st: State, ops: seq<Op>) {
    forall p {:trigger st.Tracks(p)} :: st.Tracks(p) ==>
      && st.HomeOf(p) in st.sets
      && (Asked(ops, p, false) ==> st.sets[st.HomeOf(p)].ref)
      && (Asked(ops, p, true) ==> st.sets[st.HomeOf(p)].mod)
  }

  /** An instruction is added that the tracker does not ignore. */
  predicate Adds(op: Op, aa: Oracle) { op.AddInst? && !aa.Ignores(op.i) }

  ghost predicate HoldsAll(st: State, ops: seq<Op>, aa: Oracle) {
    forall k {:trigger ops[k]} :: 0 <= k < |ops| && Adds(ops[k], aa) ==> exists s :: st.Holds(s, ops[k].i)
  }

  /** Pointers that may alias resolve to one active set, in which those of "must" sets must alias; an
      instruction and the pointers and instructions it may interfere with do, too; all reference counts are
      exact, and nothing unreferenced is kept. */
  ghost predicate Sound(st: State, aa: Oracle)
    requires st.Shape()
  {
    && (forall p, q {:trigger aa.alias(p, q)} :: p in st.recs && q in st.recs && aa.alias(p, q) != NoAlias ==>
          Resolve(st, st.recs[p]) == Resolve(st, st.recs[q]))
    && (forall p, q {:trigger aa.alias(p, q)} :: p in st.recs && q in st.recs ==>
          var s := Resolve(st, st.recs[p]);
          s == Resolve(st, st.recs[q]) && !st.sets[s].may ==> aa.alias(p, q) == MustAlias)
    && (forall s, i, p {:trigger st.Holds(s, i), aa.touches(i, p)} ::
        st.Holds(s, i) && p in st.recs && aa.touches(i, p) ==>
          Resolve(st, st.recs[p]) == s)
    && (forall s, t, i, j {:trigger st.Holds(s, i), st.Holds(t, j)} ::
        st.Holds(s, i) && st.Holds(t, j) && aa.Conflict(i, j) ==> s == t)
    && (forall s {:trigger st.Count(s)} :: s in st.sets ==> st.sets[s].refs == st.Count(s) > 0)
    && (forall s {:trigger st.Active(s)} :: st.Active(s) ==> st.sets[s].ptrs != [] || st.sets[s].unknown != [])
    && (st.any.Some? ==> forall s {:trigger Resolve(st, s)} :: s in st.sets ==> Resolve(st, s) == st.any.value)
  }

  lemma {:induction false} SaturatedResolve(st: State, s: Id)
    requires st.Shape() && st.Collapsed() && st.any.Some? && s in st.sets
    ensures Resolve(st, s) == st.any.value
  {
    if s != st.any.value {
      assert st.sets[s].forward == st.any;
      assert st.home[s] == st.home[st.any.value];
    }
  }

  lemma {:induction false} ValidIsSound(st: State, aa: Oracle)
    requires st.Valid(aa)
    ensures Sound(st, aa)
  {
    forall p | p in st.recs
      ensures st.Tracks(p) && Resolve(st, st.recs[p]) == st.HomeOf(p) && st.On(st.HomeOf(p), p)
    {
    }
    forall s | s in st.sets
      ensures st.sets[s].refs == st.Count(s) > 0
    {
    }
    forall s | st.Active(s) && st.sets[s].unknown == []
      ensures st.sets[s].ptrs != []
    {
      LiveSetsHavePointers(st, s, s);
    }
    if st.any.Some? {
      forall s | s in st.sets
        ensures Resolve(st, s) == st.any.value
      {
        SaturatedResolve(st, s);
      }
    }
  }

  lemma ValidShape(st: State, aa: Oracle)
    requires st.Valid(aa)
    ensures st.Shape() && Homes(st)
  {
    HomesListed(st);
  }

  lemma CoveredNext(st: State, st': State, ops: seq<Op>, op: Op, aa: Oracle)
    requires Covered(st, ops) && Performed(st, st', op, aa) && st.recs.Keys == Tracked(ops)
    ensures Covered(st', ops + [op])
  {
    hide Tracked;
    assert (ops + [op])[..|ops|] == ops;
    forall p, write | st'.Tracks(p) && Asked(ops + [op], p, write)
      ensures if write then st'.sets[st'.HomeOf(p)].mod else st'.sets[st'.HomeOf(p)].ref
    {
      if p in st.recs {
        assert st.Tracks(p);
      } else if Asked(ops, p, write) {
        AskedTracked(ops, p, write);
        assert false;
      }
    }
  }

  lemma HoldsAllNext(st: State, st': State, ops: seq<Op>, op: Op, aa: Oracle, at: Oracle)
    requires HoldsAll(st, ops, aa) && Performed(st, st', op, at) && aa.SameInsts(at)
    ensures HoldsAll(st', ops + [op], at)
  {
    forall k | 0 <= k < |ops + [op]| && Adds((ops + [op])[k], at)
      ensures exists s :: st'.Holds(s, (ops + [op])[k].i)
    {
      if k < |ops| {
        assert Adds(ops[k], aa);
        var s :| st.Holds(s, ops[k].i);
      }
    }
  }

  /** Deleting p loses the saturated set: no other pointer and no instruction is in it. */
  ghost predicate Loses(st: State, op: Op) { op.Delete? && HoldsOnly(st, op.p) }

  /** The last pointer is deleted, and every instruction before was ignored. */
  ghost predicate LastOne(ops: seq<Op>, op: Op, aa: Oracle) {
    op.Delete? && Tracked(ops) == {op.p} && forall k {:trigger ops[k]} :: 0 <= k < |ops| ==> !Adds(ops[k], aa)
  }

  lemma LossMeans(st: State, ops: seq<Op>, op: Op, aa: Oracle)
    requires Loses(st, op) && HoldsAll(st, ops, aa) && st.recs.Keys == Tracked(ops)
    ensures LastOne(ops, op, aa)
  {
    assert forall k :: 0 <= k < |ops| && Adds(ops[k], aa) ==> exists s :: st.Holds(s, ops[k].i);
  }

  /** What an operation does that does not lose the saturated set. */
  ghost predicate Performed(st: State, st': State, op: Op, aa: Oracle) {
    && AccessKept(st, st') && Homes(st) && Homes(st')
    && (forall s, i :: st.Holds(s, i) ==> exists t :: st'.Holds(t, i))
    && match op
       case AddPtr(p, _, _, ref, mod) =>
         && st'.recs.Keys == st.recs.Keys + {p} && st'.Tracks(p)
         && (ref ==> st'.sets[st'.HomeOf(p)].ref) && (mod ==> st'.sets[st'.HomeOf(p)].mod)
       case AddInst(i) => st'.recs.Keys == st.recs.Keys && (Adds(op, aa) ==> exists t :: st'.Holds(t, i))
       case Delete(p) => st'.recs.Keys == st.recs.Keys - {p}
  }

  /** From st to st', the groups are what the operation makes of them; the tracker may become saturated. */
  ghost predicate Follows(st: State, st': State, op: Op, aa: Oracle) {
    Groups(st') == Outcome(Groups(st), op, aa, Knows(st.recs.Keys, op), st.any.Some?, st'.any != st.any)
  }

  /** Whether the tracker becomes saturated is decided by this state, in which the pointer has been added: by how
      many pointers there are in sets that may alias. */
  ghost predicate Decides(st: State, st': State, full: State, op: Op, aa: Oracle, threshold: nat) {
    && full.Valid(aa) && Groups(full) == Next(Groups(st), op, aa, Knows(st.recs.Keys, op), st.any.Some?)
    && (st'.any != st.any <==> st.any.None? && Wrap(MayPtrs(full.sets, full.next)) > threshold)
    && (st'.any == st.any ==> st' == full)
  }

  /** Performs one operation; it may lose the saturated set. */
  method Apply(t: AliasSetTracker, op: Op) returns (lost: bool, ghost full: State)
    requires t.St().Valid(t.aa) && t.aa.Coherent() && Possible(t.aa, t.recs.Keys, op)
    modifies t
    ensures t.aa == AnswersAfter(old(t.aa), old(t.recs).Keys, op)
    ensures lost <==> Loses(old(t.St()), op)
    ensures !lost ==> t.St().Valid(t.aa) && Performed(old(t.St()), t.St(), op, t.aa)
    ensures !lost ==> Follows(old(t.St()), t.St(), op, t.aa)
    ensures t.anyAS != old(t.anyAS) ==> op.AddPtr? && old(t.anyAS).None? && t.anyAS.Some?
    ensures op.AddPtr? && Sized(old(t.St()), old(t.total)) ==>
              && Sized(t.St(), t.total) && (t.anyAS.None? ==> t.total <= t.threshold)
              && Decides(old(t.St()), t.St(), full, op, t.aa, t.threshold)
    ensures lost ==> t.sets == map[] && t.recs == map[] && t.anyAS.Some?
    ensures lost ==> t.recs.Keys == old(t.recs).Keys - {op.p}
  {
    hide State.Valid, State.Shape, Grouped, GroupedInst, AccessKept, Homes, Locates, Joined, Weak, Removed, Sized,
         Takers, InstHits, State.Inv, Follows, Decides, Groups, Next, Wrap, MayPtrs, Performed, HoldsOnly,
         Oracle.Coherent;
    ghost var st, was := t.St(), t.aa;
    ValidShape(st, t.aa);
    lost := false;
    full := st;
    match op {
      case AddPtr(p, at, grows, ref, mod) =>
        var s;
        s, full := t.Add(p, at, grows, ref, mod);
        AddFollows(st, t.St(), full, op, was, t.aa);
        AddDecides(st, t.St(), full, op, t.aa, t.threshold);
        ValidShape(t.St(), t.aa);
        AddPerformed(st, t.St(), op, t.aa);
      case AddInst(i) =>
        var s := t.AddUnknown(i);
        HeldAfter(st, t.St(), i, s, t.aa);
        InstFollows(st, t.St(), s, i, t.aa);
        ValidShape(t.St(), t.aa);
        InstPerformed(st, t.St(), s, i, t.aa);
      case Delete(p) =>
        lost := t.DeleteValue(p);
        if !lost {
          DeleteFollows(st, t.St(), p, t.aa);
          ValidShape(t.St(), t.aa);
          DeletePerformed(st, t.St(), p, t.aa);
        }
    }
  }

  lemma AddPerformed(st: State, st': State, op: Op, aa: Oracle)
    requires AccessKept(st, st') && Homes(st) && Homes(st') && op.AddPtr?
    requires forall s, i :: st.Holds(s, i) ==> exists t :: st'.Holds(t, i)
    requires st'.recs.Keys == st.recs.Keys + {op.p} && st'.Tracks(op.p) && st'.HomeOf(op.p) in st'.sets
    requires (op.ref ==> st'.sets[st'.HomeOf(op.p)].ref) && (op.mod ==> st'.sets[st'.HomeOf(op.p)].mod)
    ensures Performed(st, st', op, aa)
  {
  }

  lemma InstPerformed(st: State, st': State, s: Option<Id>, i: Inst, aa: Oracle)
    requires AccessKept(st, st') && Homes(st) && Homes(st') && st'.recs == st.recs && (s.None? <==> aa.Ignores(i))
    requires forall x, j :: st.Holds(x, j) ==> exists y :: st'.Holds(y, j)
    requires s.Some? ==> exists y :: st'.Holds(y, i)
    ensures Performed(st, st', AddInst(i), aa)
  {
  }

  lemma DeletePerformed(st: State, st': State, p: Ptr, aa: Oracle)
    requires AccessKept(st, st') && Homes(st) && Homes(st') && st'.recs.Keys == st.recs.Keys - {p}
    requires forall x, i :: st'.Holds(x, i) <==> st.Holds(x, i)
    ensures Performed(st, st', Delete(p), aa)
  {
  }

  lemma {:induction false} AddFollows(st: State, st': State, full: State, op: Op, was: Oracle, aa: Oracle)
    requires op.AddPtr? && st.Valid(was) && st'.Valid(aa) && st'.recs.Keys == st.recs.Keys + {op.p} && full.Tracks(op.p)
    requires Joined(st, full, Takers(st, op.p, aa, op.grows), full.HomeOf(op.p), {op.p}, {}, op.ref, op.mod)
    requires Weak(st, full, Takers(st, op.p, aa, op.grows), full.HomeOf(op.p), false, aa)
    requires st'.any == st.any ==> st' == full
    requires st'.any != st.any ==> st'.any.Some? && st'.Active(st'.any.value)
    requires st'.any != st.any ==> st'.sets[st'.any.value].ref && st'.sets[st'.any.value].mod
    requires forall x, i :: st.Holds(x, i) ==> exists y :: st'.Holds(y, i)
    requires forall x, i :: st'.Holds(x, i) ==> HeldBefore(st, i)
    ensures Groups(full) == Next(Groups(st), op, aa, Knows(st.recs.Keys, op), st.any.Some?)
    ensures Follows(st, st', op, aa)
  {
    hide State.Valid, Joined, Weak, Groups, Next, Saturated, Takers;
    AddedGroups(st, full, full.HomeOf(op.p), op, was, aa);
    if st'.any != st.any {
      forall i
        ensures HeldBefore(st', i) <==> HeldBefore(st, i)
      {
      }
      SaturatingGroups(st, st', op, was, aa);
    }
  }

  lemma AddDecides(st: State, st': State, full: State, op: Op, aa: Oracle, threshold: nat)
    requires full.Valid(aa) && Groups(full) == Next(Groups(st), op, aa, Knows(st.recs.Keys, op), st.any.Some?)
    requires st'.any == st.any ==> st' == full
    ensures (st'.any != st.any <==> st.any.None? && Wrap(MayPtrs(full.sets, full.next)) > threshold) ==>
              Decides(st, st', full, op, aa, threshold)
  {
  }

  lemma InstFollows(st: State, st': State, s: Option<Id>, i: Inst, aa: Oracle)
    requires st.Valid(aa) && st'.any == st.any && (s.None? <==> aa.Ignores(i))
    requires if s.None? then st' == st else Joined(st, st', InstHits(st, i, aa), s.value, {}, {i}, true, aa.writes(i))
    requires s.Some? ==> s.value in st'.sets && st'.sets[s.value].may
    ensures Follows(st, st', AddInst(i), aa)
  {
    hide State.Valid, Joined, InstHits, Taken, Groups, InterferersOf;
    if s.Some? {
      InstAddedGroups(st, st', s.value, i, aa);
    }
  }

  lemma DeleteFollows(st: State, st': State, p: Ptr, aa: Oracle)
    requires st'.any == st.any && Removed(st, st', p)
    ensures Follows(st, st', Delete(p), aa)
  {
    hide Removed, Groups, Left;
    RemovedGroups(st, st', p);
  }

  lemma HeldAfter(st: State, st': State, i: Inst, s: Option<Id>, aa: Oracle)
    requires if s.None? then st' == st else GroupedInst(st, st', i, s.value, aa) && st'.Holds(s.value, i)
    ensures forall x, j :: st.Holds(x, j) ==> exists y :: st'.Holds(y, j)
    ensures s.Some? ==> exists y :: st'.Holds(y, i)
  {
  }

  /** Where the tracker is in a run: it holds the groups that the model does, and is saturated if the model is. */
  ghost predicate Modelled(st: State, aa: Oracle, ops: seq<Op>, sat: Option<nat>) {
    && Groups(st) == Model(aa, ops, sat) && (st.any.Some? <==> sat.Some?)
    && (sat.Some? ==> sat.value < |ops| && ops[sat.value].AddPtr?)
  }

  /** Saturation that is still to come does not matter. */
  lemma {:induction false} NotYet(aa: Oracle, ops: seq<Op>, k: nat)
    requires k >= |ops|
    ensures Model(aa, ops, Some(k)) == Model(aa, ops, None)
  {
    if ops != [] {
      NotYet(aa, ops[..|ops| - 1], k);
    }
  }

  /** The operation that saturates the tracker, if one does. */
  function SaturatesAt(st: State, st': State, n: nat, sat: Option<nat>): Option<nat> {
    if st'.any != st.any then Some(n) else sat
  }

  lemma {:induction false} ModelledNext(st: State, st': State, aa: Oracle, ops: seq<Op>, op: Op, sat: Option<nat>)
    requires Modelled(st, aa, ops, sat) && st.recs.Keys == Tracked(ops)
    requires Follows(st, st', op, Answers(aa, ops + [op]))
    requires st'.any != st.any ==> op.AddPtr? && st.any.None? && st'.any.Some?
    ensures Modelled(st', aa, ops + [op], SaturatesAt(st, st', |ops|, sat))
  {
    hide Next, Saturated, Groups, Answers, Tracked;
    var more := ops + [op];
    assert more[..|more| - 1] == ops && more[|more| - 1] == op;
    if st'.any != st.any {
      NotYet(aa, ops, |ops|);
    }
  }

  /** Performs another operation of a run. */
  method Perform(t: AliasSetTracker, op: Op, ghost oo: Oracle, ghost ops: seq<Op>, ghost sat: Option<nat>)
    returns (lost: bool, ghost full: State)
    requires t.St().Valid(t.aa) && t.aa.Coherent() && Possible(t.aa, Tracked(ops), op) && t.aa == Answers(oo, ops)
    requires Covered(t.St(), ops) && HoldsAll(t.St(), ops, t.aa) && t.recs.Keys == Tracked(ops)
    requires Modelled(t.St(), oo, ops, sat)
    modifies t
    ensures t.aa == Answers(oo, ops + [op]) && t.aa.Coherent()
    ensures lost <==> Loses(old(t.St()), op)
    ensures !lost ==> t.St().Valid(t.aa) && Covered(t.St(), ops + [op]) && HoldsAll(t.St(), ops + [op], t.aa)
    ensures !lost ==> Modelled(t.St(), oo, ops + [op], SaturatesAt(old(t.St()), t.St(), |ops|, sat))
    ensures op.AddPtr? && Sized(old(t.St()), old(t.total)) ==>
              && Sized(t.St(), t.total) && (t.anyAS.None? ==> t.total <= t.threshold)
              && Decides(old(t.St()), t.St(), full, op, t.aa, t.threshold)
    ensures t.recs.Keys == Tracked(ops + [op])
    ensures lost ==> t.sets == map[] && t.recs == map[] && t.anyAS.Some? && LastOne(ops, op, t.aa)
  {
    hide State.Valid, Performed, Loses, Covered, HoldsAll, LastOne, Tracked, Possible, AnswersAfter, Oracle.Coherent,
         Oracle.SameInsts, Modelled, Follows, Decides, Sized, Answers;
    ghost var st, was := t.St(), t.aa;
    TrackedNext(ops, op);
    AnswersKeep(was, Tracked(ops), op);
    AnswersNext(oo, ops, op);
    lost, full := Apply(t, op);
    if lost {
      LossKeys(st, op);
      LossMeans(st, ops, op, t.aa);
    } else {
      PerformedKeys(st, t.St(), op, t.aa);
      CoveredNext(st, t.St(), ops, op, t.aa);
      HoldsAllNext(st, t.St(), ops, op, was, t.aa);
      ModelledNext(st, t.St(), oo, ops, op, sat);
    }
  }

  lemma LossKeys(st: State, op: Op)
    requires Loses(st, op)
    ensures op.Delete? && After(st.recs.Keys, op) == st.recs.Keys - {op.p}
  {
  }

  lemma PerformedKeys(st: State, st': State, op: Op, aa: Oracle)
    requires Performed(st, st', op, aa)
    ensures st'.recs.Keys == After(st.recs.Keys, op)
  {
  }

  lemma StartCovered(st: State, aa: Oracle)
    requires st.recs == map[]
    ensures Tracked([]) == {} && Covered(st, []) && HoldsAll(st, [], aa) && Answers(aa, []) == aa
  {
  }

  predicate OnlyAdds(ops: seq<Op>) { forall k :: 0 <= k < |ops| ==> ops[k].AddPtr? }

  /** In a run that only adds accesses, the total is what it stands for, and the tracker becomes saturated by the
      first operation after which there are too many pointers in "may" groups. */
  ghost predicate Tallied(st: State, total: nat, aa: Oracle, ops: seq<Op>, threshold: nat, sat: Option<nat>) {
    OnlyAdds(ops) ==>
      && Sized(st, total)
      && (sat.Some? ==> sat.value < |ops| && Overflows(aa, ops[..sat.value + 1], threshold))
      && forall k {:trigger ops[..k]} :: 0 <= k <= (if sat.Some? then sat.value else |ops|) ==>
           !Overflows(aa, ops[..k], threshold)
  }

  lemma {:induction false} TalliedNext(st: State, total: nat, st': State, total': nat, aa: Oracle, ops: seq<Op>, op: Op,
                                       threshold: nat, sat: Option<nat>, full: State)
    requires Tallied(st, total, aa, ops, threshold, sat) && Modelled(st, aa, ops, sat) && st.recs.Keys == Tracked(ops)
    requires op.AddPtr? && Sized(st, total) ==>
               Sized(st', total') && Decides(st, st', full, op, Answers(aa, ops + [op]), threshold)
    ensures Tallied(st', total', aa, ops + [op], threshold, SaturatesAt(st, st', |ops|, sat))
  {
    hide Sized, Modelled, Answers, Tracked, Decides, Overflows;
    var more := ops + [op];
    if OnlyAdds(more) {
      assert more[|ops|] == op && forall k :: 0 <= k < |ops| ==> more[k] == ops[k];
      ModelledMeans(st, aa, ops, sat);
      assert more[..|ops| + 1] == more;
      forall k | 0 <= k <= |ops|
        ensures more[..k] == ops[..k]
      {
      }
      if sat.None? {
        DecidedByCount(st, st', full, aa, ops, op, threshold);
      } else {
        DecidesMeans(st, st', full, op, Answers(aa, more), threshold);
      }
    }
  }

  /** What decides is the number of pointers in "may" groups. */
  lemma {:induction false} DecidedByCount(st: State, st': State, full: State, aa: Oracle, ops: seq<Op>, op: Op,
                                          threshold: nat)
    requires Modelled(st, aa, ops, None) && st.recs.Keys == Tracked(ops)
    requires Decides(st, st', full, op, Answers(aa, ops + [op]), threshold)
    ensures st'.any != st.any <==> Overflows(aa, ops + [op], threshold)
  {
    hide Next, Groups, Answers, Tracked, State.Valid, Wrap, MayPtrs;
    ModelNext(aa, ops, op);
    MayPtrsAre(full, Answers(aa, ops + [op]));
  }

  /** Every access that an active set records has a reason; without deletions it is recorded exactly if
      something in the set was asked for with it, and the set is a "must" set exactly if it has no instructions and
      all of its pointers must alias. */
  ghost predicate Founded(st: State, aa: Oracle, ops: seq<Op>) {
    forall s {:trigger st.Active(s)} :: st.Active(s) ==> FoundedGroup(GroupOf(st.sets[s]), aa, ops)
  }

  ghost predicate FoundedGroup(g: Group, aa: Oracle, ops: seq<Op>) {
    && (forall write {:trigger g.Records(write)} :: g.Records(write) ==> HasReason(ops, g, aa, write))
    && (NoDeletions(ops) ==>
          && (forall write {:trigger g.Records(write)} :: g.Records(write) <==> AskedIn(g, ops, aa, write))
          && MustExact(g, Answers(aa, ops)))
  }

  lemma {:induction false} ModelledFounded(st: State, aa: Oracle, ops: seq<Op>)
    requires aa.Coherent() && AllPossible(aa, ops) && Modelled(st, aa, ops, None)
    ensures Founded(st, aa, ops)
  {
    hide FoundedGroup, AllPossible, Model, Oracle.Coherent, GroupOf;
    forall s | st.Active(s)
      ensures FoundedGroup(GroupOf(st.sets[s]), aa, ops)
    {
      InGroups(st, s);
      ModelFounded(aa, ops, GroupOf(st.sets[s]));
    }
  }

  lemma {:induction false} ModelFounded(aa: Oracle, ops: seq<Op>, g: Group)
    requires aa.Coherent() && AllPossible(aa, ops) && g in Model(aa, ops, None)
    ensures FoundedGroup(g, aa, ops)
  {
    hide AllPossible, HasReason, AskedIn, Model, Oracle.Coherent, NoDeletions, MustExact, Answers, Group.Records;
    forall write | g.Records(write)
      ensures HasReason(ops, g, aa, write)
    {
      AccessHasReason(aa, ops, g, write);
    }
    if NoDeletions(ops) {
      MustIffAlike(aa, ops);
      forall write
        ensures g.Records(write) <==> AskedIn(g, ops, aa, write)
      {
        AccessIffAsked(aa, ops, g, write);
      }
    }
  }

  /** Performs operations until they end, or one loses the saturated set: that is, until the last pointer
      is deleted from a saturated tracker that holds no instruction. From then on the tracker names a
      saturated set that is gone. Locations may grow in between. */
  method Run(aa: Oracle, threshold: nat, ops: seq<Op>)
    returns (t: AliasSetTracker, done: nat, lost: bool, ghost sat: Option<nat>)
    requires aa.Coherent() && AllPossible(aa, ops)
    ensures done <= |ops| && t.aa == Answers(aa, ops[..done]) && t.recs.Keys == Tracked(ops[..done])
    ensures !lost ==> done == |ops| && t.St().Valid(t.aa) && Sound(t.St(), t.aa)
    ensures !lost ==> Covered(t.St(), ops) && HoldsAll(t.St(), ops, t.aa)
    ensures !lost ==> Modelled(t.St(), aa, ops, sat) && (sat.None? ==> Founded(t.St(), aa, ops))
    ensures OnlyAdds(ops) ==> !lost
    ensures !lost ==> t.threshold == threshold && Tallied(t.St(), t.total, aa, ops, threshold, sat)
    ensures lost ==> done > 0 && LastOne(ops[..done - 1], ops[done - 1], t.aa)
    ensures lost ==> t.sets == map[] && t.recs == map[] && t.anyAS.Some?
  {
    hide AllPossible, OnlyAdds, SaturatesAt, State.Shape, State.Counted, State.Listed, State.MustSets,
         State.Partition, Covered, HoldsAll, Tracked, Modelled, State.Valid, Sound, LastOne, Possible, Answers,
         AnswersAfter, Sized, Tallied, Decides, Founded, Oracle.Coherent, Loses, State.Inv, Homes;
    t := new AliasSetTracker(aa, threshold);
    StartCovered(t.St(), aa);
    StartModelled(t.St(), aa);
    done, lost, sat := 0, false, None;
    assert ops[..0] == [];
    StartTallied(t.St(), aa, threshold);
    while done < |ops| && !lost
      invariant fresh(t) && done <= |ops| && t.recs.Keys == Tracked(ops[..done]) && t.threshold == threshold
      invariant t.aa == Answers(aa, ops[..done]) && t.aa.Coherent()
      invariant !lost ==> t.St().Valid(t.aa) && Covered(t.St(), ops[..done]) && HoldsAll(t.St(), ops[..done], t.aa)
      invariant !lost ==> Modelled(t.St(), aa, ops[..done], sat)
      invariant !lost ==> Tallied(t.St(), t.total, aa, ops[..done], threshold, sat)
      invariant lost ==> done > 0 && LastOne(ops[..done - 1], ops[done - 1], t.aa)
      invariant lost ==> t.sets == map[] && t.recs == map[] && t.anyAS.Some?
    {
      ghost var st, total, earlier := t.St(), t.total, ops[..done];
      assert ops[..done + 1] == earlier + [ops[done]];
      PossibleAt(aa, ops, done);
      ghost var full;
      lost, full := Perform(t, ops[done], aa, earlier, sat);
      TalliedNext(st, total, t.St(), t.total, aa, earlier, ops[done], threshold, sat, full);
      sat := SaturatesAt(st, t.St(), done, sat);
      done := done + 1;
    }
    if lost {
      LastOneDeletes(ops, done - 1, t.aa);
    } else {
      assert ops[..|ops|] == ops;
      ValidIsSound(t.St(), t.aa);
      if sat.None? {
        ModelledFounded(t.St(), aa, ops);
      }
    }
  }

  lemma LastOneDeletes(ops: seq<Op>, k: nat, aa: Oracle)
    requires k < |ops| && LastOne(ops[..k], ops[k], aa)
    ensures !OnlyAdds(ops)
  {
  }

  lemma StartTallied(st: State, aa: Oracle, threshold: nat)
    requires Sized(st, 0)
    ensures Tallied(st, 0, aa, [], threshold, None)
  {
    var none: set<Group> := {};
    assert MayPtrsIn(none) == {} && Model(aa, [], None) == none;
  }

  lemma PossibleAt(aa: Oracle, ops: seq<Op>, k: nat)
    requires AllPossible(aa, ops) && k < |ops|
    ensures Possible(Answers(aa, ops[..k]), Tracked(ops[..k]), ops[k])
  {
  }

  lemma StartModelled(st: State, aa: Oracle)
    requires st.sets == map[] && st.any.None?
    ensures Modelled(st, aa, [], None)
  {
  }

  lemma ModelledMeans(st: State, aa: Oracle, ops: seq<Op>, sat: Option<nat>)
    requires Modelled(st, aa, ops, sat)
    ensures (st.any.Some? <==> sat.Some?) && (sat.Some? ==> sat.value < |ops|)
  {
  }

  lemma DecidesMeans(st: State, st': State, full: State, op: Op, aa: Oracle, threshold: nat)
    requires Decides(st, st', full, op, aa, threshold)
    ensures st'.any != st.any ==> st.any.None?
  {
  }
}
