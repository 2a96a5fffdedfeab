/** A barrier made of a mutex and a condition variable: some threads call block, one calls
    releaseThreads with their number. Threads interleave where they do not hold the mutex. */
module Barrier {
  import opened Options

  /** Where a thread is: before its call; in the call with the mutex; waiting for the condition; woken,
      but without the mutex; about to unlock it; back from the call. */
  datatype Place = Before | Entered | Waiting | Woken | Leaving | Returned

  /** Threads 0 up to N call block; the last one, N, calls releaseThreads(N). */
  datatype State = State(places: seq<Place>, n: nat, waitFor: nat, holder: Option<nat>)
  {
    function Blockers(): int { |places| - 1 }
  }

  function Init(blockers: nat): State {
    State(seq(blockers + 1, _ => Before), 0, 0, None)
  }

  // ----- steps -----

  datatype Act = Lock(t: nat) | Body(t: nat) | Relock(t: nat) | Unlock(t: nat)

  predicate Enabled(s: State, a: Act) {
    a.t < |s.places| &&
    match a
    case Lock(t) => s.places[t] == Before && s.holder == None
    case Body(t) => s.places[t] == Entered && s.holder == Some(t)
    case Relock(t) => s.places[t] == Woken && s.holder == None
    case Unlock(t) => s.places[t] == Leaving && s.holder == Some(t)
  }

  function WakeAll(places: seq<Place>): (r: seq<Place>)
    ensures |r| == |places|
    ensures forall t :: 0 <= t < |places| ==> r[t] == if places[t] == Waiting then Woken else places[t]
  {
    seq(|places|, t requires 0 <= t < |places| => if places[t] == Waiting then Woken else places[t])
  }

  /** Thread t resets the counters and wakes all that wait; it keeps the mutex. */
  function UnblockThreads(s: State, t: nat): State
    requires t < |s.places|
  {
    State(WakeAll(s.places)[t := Leaving], 0, 0, s.holder)
  }

  /** Thread t gives up the mutex and waits. */
  function Wait(s: State, t: nat): State
    requires t < |s.places|
  {
    s.(places := s.places[t := Waiting], holder := None)
  }

  function Block(s: State, t: nat): State
    requires t < |s.places|
  {
    var n := s.n + 1;
    if s.waitFor > 0 && n == s.waitFor then UnblockThreads(s.(n := n), t) else Wait(s.(n := n), t)
  }

  function ReleaseThreads(s: State, t: nat, num: nat): State
    requires t < |s.places|
  {
    if s.n >= num then UnblockThreads(s, t) else Wait(s.(waitFor := num), t)
  }

  function Next(s: State, a: Act): (s': State)
    requires Enabled(s, a)
    ensures |s'.places| == |s.places|
  {
    match a
    case Lock(t) => s.(places := s.places[t := Entered], holder := Some(t))
    case Body(t) => if t < s.Blockers() then Block(s, t) else ReleaseThreads(s, t, s.Blockers())
    case Relock(t) => s.(places := s.places[t := Leaving], holder := Some(t))
    case Unlock(t) => s.(places := s.places[t := Returned], holder := None)
  }

  /** A run takes enabled steps only. */
  predicate Run(s: State, acts: seq<Act>)
    decreases |acts|
  {
    acts == [] || (Enabled(s, acts[0]) && Run(Next(s, acts[0]), acts[1..]))
  }

  function After(s: State, acts: seq<Act>): (s': State)
    requires Run(s, acts)
    ensures |s'.places| == |s.places|
    decreases |acts|
  {
    if acts == [] then s else After(Next(s, acts[0]), acts[1..])
  }

  // ----- what every step keeps -----

  predicate Holding(p: Place) { p == Entered || p == Leaving }

  predicate Through(p: Place) { p == Woken || p == Leaving || p == Returned }

  function Count(places: seq<Place>): nat {
    if places == [] then 0 else Count(places[..|places| - 1]) + if places[|places| - 1] == Waiting then 1 else 0
  }

  /** The mutex is held by the one thread that is inside. */
  ghost predicate Exclusive(s: State) {
    && (s.holder.Some? ==> s.holder.value < |s.places|)
    && forall t: nat :: t < |s.places| ==> (Holding(s.places[t]) <==> s.holder == Some(t))
  }

  /** Nobody is through: the threads that wait are counted, and not all of them do. */
  ghost predicate Gathering(s: State) {
    && s.Blockers() >= 0
    && (forall t :: 0 <= t < |s.places| ==> !Through(s.places[t]))
    && s.n == Count(s.places[..s.Blockers()])
    && s.waitFor == (if s.places[s.Blockers()] == Waiting then s.Blockers() else 0)
    && (s.waitFor > 0 ==> s.n < s.waitFor)
  }

  /** Everybody is through. */
  ghost predicate Released(s: State) {
    && s.n == 0 && s.waitFor == 0
    && forall t :: 0 <= t < |s.places| ==> Through(s.places[t])
  }

  ghost predicate Inv(s: State) {
    |s.places| >= 2 && Exclusive(s) && (Gathering(s) || Released(s))
  }

  lemma {:induction false} CountBounds(places: seq<Place>)
    ensures Count(places) <= |places|
    ensures Count(places) == |places| <==> forall t :: 0 <= t < |places| ==> places[t] == Waiting
  {
    if places != [] {
      CountBounds(places[..|places| - 1]);
    }
  }

  lemma {:induction false} CountUpdate(places: seq<Place>, t: nat, p: Place)
    requires t < |places|
    ensures Count(places[t := p])
         == Count(places) + (if p == Waiting then 1 else 0) - if places[t] == Waiting then 1 else 0
  {
    var n := |places| - 1;
    if t < n {
      assert places[t := p][..n] == places[..n][t := p];
      CountUpdate(places[..n], t, p);
    } else {
      assert places[t := p][..n] == places[..n];
    }
  }

  lemma {:induction false} CountNone(places: seq<Place>)
    requires forall t :: 0 <= t < |places| ==> places[t] != Waiting
    ensures Count(places) == 0
  {
    if places != [] {
      CountNone(places[..|places| - 1]);
    }
  }

  lemma {:induction false} InitInv(blockers: nat)
    requires blockers > 0
    ensures Inv(Init(blockers))
  {
    CountNone(Init(blockers).places[..blockers]);
  }

  /** When the last thread arrives, all others are waiting. */
  lemma {:induction false} AllOthersWait(s: State, t: nat)
    requires Inv(s) && Enabled(s, Body(t)) && Gathering(s)
    requires if t < s.Blockers() then s.waitFor > 0 && s.n + 1 == s.waitFor else s.n >= s.Blockers()
    ensures forall x :: 0 <= x < |s.places| && x != t ==> s.places[x] == Waiting
  {
    var blockers := s.places[..s.Blockers()];
    CountBounds(blockers);
    if t < s.Blockers() {
      CountUpdate(blockers, t, Waiting);
      CountBounds(blockers[t := Waiting]);
      assert forall x :: 0 <= x < |blockers| && x != t ==> s.places[x] == blockers[t := Waiting][x];
    } else {
      assert forall x :: 0 <= x < |blockers| ==> s.places[x] == blockers[x];
    }
  }

  lemma {:induction false} CountStep(s: State, t: nat, p: Place)
    requires t < |s.places| && |s.places| >= 1
    ensures var N := s.Blockers();
            Count(s.places[t := p][..N])
            == if t == N then Count(s.places[..N])
               else Count(s.places[..N]) + (if p == Waiting then 1 else 0) - if s.places[t] == Waiting then 1 else 0
  {
    var N := s.Blockers();
    if t < N {
      assert s.places[t := p][..N] == s.places[..N][t := p];
      CountUpdate(s.places[..N], t, p);
    } else {
      assert s.places[t := p][..N] == s.places[..N];
    }
  }

  /** Every step keeps the invariant, and the assertion in block holds. */
  lemma {:induction false} StepInv(s: State, a: Act)
    requires Inv(s) && Enabled(s, a)
    ensures Inv(Next(s, a))
    ensures a.Body? && a.t < s.Blockers() ==> s.waitFor == 0 || s.n + 1 <= s.waitFor
  {
    StepExclusive(s, a);
    if Gathering(s) {
      StepGathering(s, a);
    } else {
      StepReleased(s, a);
    }
  }

  lemma {:induction false} StepExclusive(s: State, a: Act)
    requires Exclusive(s) && Enabled(s, a)
    ensures Exclusive(Next(s, a))
  {
  }

  lemma {:induction false} StepReleased(s: State, a: Act)
    requires Inv(s) && Enabled(s, a) && Released(s)
    ensures Released(Next(s, a)) && !a.Body?
  {
    assert Through(s.places[a.t]);
  }

  lemma {:induction false} StepGathering(s: State, a: Act)
    requires Inv(s) && Enabled(s, a) && Gathering(s)
    ensures Gathering(Next(s, a)) || Released(Next(s, a))
    ensures a.Body? && a.t < s.Blockers() ==> s.waitFor == 0 || s.n + 1 <= s.waitFor
  {
    hide Exclusive;
    var s' := Next(s, a);
    CountStep(s, a.t, s'.places[a.t]);
    if a.Body? && Through(s'.places[a.t]) {
      AllOthersWait(s, a.t);
    } else if a.Body? {
      CountBounds(s.places[..s.Blockers()]);
      assert s'.places == s.places[a.t := Waiting];
      BodyWaits(s, a.t);
    } else {
      assert !Through(s.places[a.t]);
    }
  }

  /** A thread that has to wait does not make everybody wait. */
  lemma {:induction false} BodyWaits(s: State, t: nat)
    requires Inv(s) && Enabled(s, Body(t)) && Gathering(s) && Next(s, Body(t)).places[t] == Waiting
    ensures Gathering(Next(s, Body(t)))
  {
    CountStep(s, t, Waiting);
  }

  lemma {:induction false} RunInv(s: State, acts: seq<Act>)
    requires Inv(s) && Run(s, acts)
    ensures Inv(After(s, acts))
    decreases |acts|
  {
    if acts != [] {
      StepInv(s, acts[0]);
      RunInv(Next(s, acts[0]), acts[1..]);
    }
  }

  // ----- the barrier -----

  /** In every run, nobody is back before all callers of block have arrived and the releaser has
      entered. */
  lemma {:induction false} NobodyEarly(blockers: nat, acts: seq<Act>)
    requires blockers > 0 && Run(Init(blockers), acts)
    ensures var s := After(Init(blockers), acts);
            (exists t :: 0 <= t < |s.places| && s.places[t] == Returned) ==>
              forall t :: 0 <= t < |s.places| ==>
                  s.places[t] != Before && s.places[t] != Entered && s.places[t] != Waiting
  {
    InitInv(blockers);
    RunInv(Init(blockers), acts);
  }

  function Weight(p: Place): nat {
    match p case Before => 5 case Entered => 4 case Waiting => 3 case Woken => 2 case Leaving => 1 case Returned => 0
  }

  function Rank(places: seq<Place>): nat {
    if places == [] then 0 else Rank(places[..|places| - 1]) + Weight(places[|places| - 1])
  }

  lemma {:induction false} RankBelow(a: seq<Place>, b: seq<Place>)
    requires |a| == |b| && forall t :: 0 <= t < |a| ==> Weight(a[t]) <= Weight(b[t])
    ensures Rank(a) <= Rank(b)
    ensures (exists t :: 0 <= t < |a| && Weight(a[t]) < Weight(b[t])) ==> Rank(a) < Rank(b)
  {
    if a != [] {
      RankBelow(a[..|a| - 1], b[..|b| - 1]);
      if t :| 0 <= t < |a| - 1 && Weight(a[t]) < Weight(b[t]) {
        assert Weight(a[..|a| - 1][t]) < Weight(b[..|b| - 1][t]);
      }
    }
  }

  /** Every step makes progress. */
  lemma {:induction false} StepProgress(s: State, a: Act)
    requires Enabled(s, a)
    ensures Rank(Next(s, a).places) < Rank(s.places)
  {
    assert Weight(Next(s, a).places[a.t]) < Weight(s.places[a.t]);
    RankBelow(Next(s, a).places, s.places);
  }

  /** As long as somebody is not back, some thread can take a step. */
  lemma {:induction false} NeverStuck(s: State)
    requires Inv(s) && exists t :: 0 <= t < |s.places| && s.places[t] != Returned
    ensures exists a :: Enabled(s, a)
  {
    if s.holder.Some? {
      var t := s.holder.value;
      assert Holding(s.places[t]);
      assert Enabled(s, if s.places[t] == Entered then Body(t) else Unlock(t));
    } else {
      var t: nat :| t < |s.places| && s.places[t] != Returned;
      assert !Holding(s.places[t]);
      if Released(s) {
        assert Enabled(s, Relock(t));
      } else {
        var u := SomebodyOutside(s);
        assert Enabled(s, Lock(u));
      }
    }
  }

  lemma {:induction false} SomebodyOutside(s: State) returns (u: nat)
    requires Inv(s) && Gathering(s) && s.holder == None
    ensures u < |s.places| && s.places[u] == Before
  {
    var N := s.Blockers();
    u := N;
    assert !Holding(s.places[N]);
    if s.places[N] == Waiting {
      CountBounds(s.places[..N]);
      u :| 0 <= u < N && s.places[..N][u] != Waiting;
      assert !Holding(s.places[u]);
    }
  }

  /** However the threads interleave, all of them are back after a bounded number of steps: every run can
      only be extended until then. */
  lemma {:induction false} AllReturn(blockers: nat, acts: seq<Act>)
    requires blockers > 0 && Run(Init(blockers), acts)
    ensures |acts| <= 5 * (blockers + 1)
    ensures (forall a :: !Enabled(After(Init(blockers), acts), a))
       <==> forall t :: 0 <= t <= blockers ==> After(Init(blockers), acts).places[t] == Returned
  {
    var s := After(Init(blockers), acts);
    InitInv(blockers);
    RunInv(Init(blockers), acts);
    RunRank(Init(blockers), acts);
    InitRank(Init(blockers).places);
    if forall a :: !Enabled(s, a) {
      forall t | 0 <= t <= blockers
        ensures s.places[t] == Returned
      {
        if s.places[t] != Returned {
          NeverStuck(s);
          assert false;
        }
      }
    }
  }

  lemma {:induction false} RunRank(s: State, acts: seq<Act>)
    requires Run(s, acts)
    ensures |acts| + Rank(After(s, acts).places) <= Rank(s.places)
    decreases |acts|
  {
    if acts != [] {
      StepProgress(s, acts[0]);
      RunRank(Next(s, acts[0]), acts[1..]);
    }
  }

  lemma {:induction false} InitRank(places: seq<Place>)
    requires forall t :: 0 <= t < |places| ==> places[t] == Before
    ensures Rank(places) == 5 * |places|
  {
    if places != [] {
      InitRank(places[..|places| - 1]);
    }
  }
}
