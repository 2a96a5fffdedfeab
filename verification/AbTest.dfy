/** Searching for the choices that make a test fail: one after the other, or by bisection. */
module AbTest {

  type Name = nat

  /** The outcome of a test in which these names are picked from B and all others from A. */
  type Oracle = set<Name> -> bool

  /** What passes also passes with less picked from B. */
  ghost predicate SubsetClosed(passes: Oracle) { forall s, t :: passes(s) && t <= s ==> passes(t) }

  /** The names that pass on their own. */
  function GoodAlone(names: seq<Name>, passes: Oracle): set<Name> { set x | x in names && passes({x}) }

  function SetOf(names: seq<Name>): set<Name> { set x | x in names }

  method CheckSequentially(names: seq<Name>, passes: Oracle) returns (knownGood: set<Name>)
    ensures knownGood == GoodAlone(names, passes)
  {
    knownGood := {};
    for i := 0 to |names|
      invariant knownGood == GoodAlone(names[..i], passes)
    {
      assert names[..i + 1] == names[..i] + [names[i]];
      if passes({names[i]}) {
        knownGood := knownGood + {names[i]};
      }
    }
    assert names[..|names|] == names;
  }

  // ----- what bisection finds -----

  /** What is taken for good by testing a partition, and splitting it as long as it fails. */
  function Found(p: seq<Name>, passes: Oracle): set<Name>
    decreases |p|
  {
    if p == [] then {}
    else if passes(SetOf(p)) then SetOf(p)
    else if |p| == 1 then {}
    else Found(p[..|p| / 2], passes) + Found(p[|p| / 2..], passes)
  }

  /** What is taken for good by splitting a partition: all names together are split without a test. */
  function FoundInHalves(p: seq<Name>, passes: Oracle): set<Name> {
    Found(p[..|p| / 2], passes) + Found(p[|p| / 2..], passes)
  }

  /** No partition misleads: one that is tested and passes only has names that pass alone. */
  ghost predicate Honest(p: seq<Name>, passes: Oracle)
    decreases |p|
  {
    if p == [] then true
    else if passes(SetOf(p)) then forall x :: x in p ==> passes({x})
    else |p| == 1 || (Honest(p[..|p| / 2], passes) && Honest(p[|p| / 2..], passes))
  }

  ghost predicate HonestHalves(p: seq<Name>, passes: Oracle) {
    Honest(p[..|p| / 2], passes) && Honest(p[|p| / 2..], passes)
  }

  lemma GoodInHalves(p: seq<Name>, k: nat, passes: Oracle)
    requires k <= |p|
    ensures SetOf(p) == SetOf(p[..k]) + SetOf(p[k..])
    ensures GoodAlone(p, passes) == GoodAlone(p[..k], passes) + GoodAlone(p[k..], passes)
  {
    assert p == p[..k] + p[k..];
  }

  /** Bisection finds all names that pass alone, and no others exactly if no partition misleads. */
  lemma {:induction false} FoundIsGood(p: seq<Name>, passes: Oracle)
    ensures GoodAlone(p, passes) <= Found(p, passes) <= SetOf(p)
    ensures Found(p, passes) == GoodAlone(p, passes) <==> Honest(p, passes)
    decreases |p|
  {
    if p == [] {
    } else if passes(SetOf(p)) {
      assert forall x :: x in p <==> x in SetOf(p);
    } else if |p| == 1 {
      assert SetOf(p) == {p[0]};
    } else {
      HalvesAreGood(p, passes);
    }
  }

  lemma {:induction false} HalvesAreGood(p: seq<Name>, passes: Oracle)
    requires |p| > 1
    ensures GoodAlone(p, passes) <= FoundInHalves(p, passes) <= SetOf(p)
    ensures FoundInHalves(p, passes) == GoodAlone(p, passes) <==> HonestHalves(p, passes)
    decreases |p|, 0
  {
    var left, right := p[..|p| / 2], p[|p| / 2..];
    GoodInHalves(p, |p| / 2, passes);
    FoundIsGood(left, passes);
    FoundIsGood(right, passes);
    var all, found := GoodAlone(p, passes), FoundInHalves(p, passes);
    assert GoodAlone(left, passes) == all * SetOf(left) && GoodAlone(right, passes) == all * SetOf(right);
    if found == all {
      assert Found(left, passes) <= all * SetOf(left) && Found(right, passes) <= all * SetOf(right);
    }
  }

  /** What bisection takes for good, compared with checking names one by one. */
  lemma {:induction false} BisectionIsSequential(names: seq<Name>, passes: Oracle)
    ensures GoodAlone(names, passes) <= FoundInHalves(names, passes) <= SetOf(names)
    ensures FoundInHalves(names, passes) == GoodAlone(names, passes) <==> HonestHalves(names, passes)
    ensures SubsetClosed(passes) ==> HonestHalves(names, passes)
  {
    if |names| > 1 {
      HalvesAreGood(names, passes);
    } else {
      assert names[0..] == names && names[..0] == [];
      FoundIsGood(names, passes);
    }
    if SubsetClosed(passes) {
      ClosedIsHonest(names[..|names| / 2], passes);
      ClosedIsHonest(names[|names| / 2..], passes);
    }
  }

  lemma {:induction false} ClosedIsHonest(p: seq<Name>, passes: Oracle)
    requires SubsetClosed(passes)
    ensures Honest(p, passes)
    decreases |p|
  {
    if passes(SetOf(p)) {
      forall x | x in p
        ensures passes({x})
      {
        assert {x} <= SetOf(p);
      }
    } else if |p| > 1 {
      ClosedIsHonest(p[..|p| / 2], passes);
      ClosedIsHonest(p[|p| / 2..], passes);
    }
  }

  /** Of four names, two that pass only together are found by bisection and by nothing else; picking
      all from A passes, and all from B fails. */
  lemma BisectionTakesMore(passes: Oracle)
    requires forall s :: passes(s) <==> s == {} || s == {0, 1}
    ensures passes({}) && !passes(SetOf([0, 1, 2, 3]))
    ensures FoundInHalves([0, 1, 2, 3], passes) == {0, 1} && GoodAlone([0, 1, 2, 3], passes) == {}
  {
    var names := [0, 1, 2, 3];
    assert 3 in SetOf(names) && 3 !in {0, 1};
    forall x: Name
      ensures !passes({x})
    {
      assert 0 !in {x} || 1 !in {x};
    }
    FoundInPair(0, 1, passes);
    FoundInPair(2, 3, passes);
    assert 2 in {2, 3} && 2 !in {0, 1} && !passes({2, 3});
    hide Found;
    assert names[..2] == [0, 1] && names[2..] == [2, 3];
  }

  lemma FoundInPair(x: Name, y: Name, passes: Oracle)
    requires !passes({x}) && !passes({y})
    ensures Found([x, y], passes) == if passes({x, y}) then {x, y} else {}
  {
    assert [x, y][..1] == [x] && [x, y][1..] == [y];
    assert SetOf([x, y]) == {x, y} && SetOf([x]) == {x} && SetOf([y]) == {y};
  }

  // ----- the bound -----

  /** How many more tests splitting the partitions can take. */
  function Pending(partitions: seq<seq<Name>>): int {
    if partitions == [] then 0 else 2 * (|partitions[0]| - 1) + Pending(partitions[1..])
  }

  lemma {:induction false} PendingLast(partitions: seq<seq<Name>>, p: seq<Name>)
    ensures Pending(partitions + [p]) == Pending(partitions) + 2 * (|p| - 1)
  {
    if partitions == [] {
      assert [p][1..] == [];
    } else {
      assert (partitions + [p])[1..] == partitions[1..] + [p];
      PendingLast(partitions[1..], p);
    }
  }

  lemma PendingFirst(partitions: seq<seq<Name>>, p: seq<Name>)
    ensures Pending([p] + partitions) == 2 * (|p| - 1) + Pending(partitions)
  {
    assert ([p] + partitions)[1..] == partitions;
  }

  lemma {:induction false} PendingNonNegative(partitions: seq<seq<Name>>)
    requires forall k :: 0 <= k < |partitions| ==> partitions[k] != []
    ensures Pending(partitions) >= 0
  {
    if partitions != [] {
      PendingNonNegative(partitions[1..]);
    }
  }

  /** Each number that was announced covers the tests since then and so many more. */
  ghost predicate Covered(announced: seq<int>, more: int) {
    forall i :: 0 <= i < |announced| ==> announced[i] >= |announced| - i + more
  }

  /** After the announced tests, at most so many more follow, and as many if no test passes. */
  ghost predicate Bounded(announced: seq<int>, more: int, n: nat, passes: Oracle) {
    && Covered(announced, more)
    && (if announced == [] then more else announced[0]) == MostTests(n)
    && ((forall s :: !passes(s)) ==> |announced| + more == MostTests(n))
  }

  /** How the tests so far bound those to come: the first partition is split without a test. */
  ghost predicate Counted(announced: seq<int>, partitions: seq<seq<Name>>, n: nat, passes: Oracle) {
    if announced == [] then |partitions| == 1 && |partitions[0]| == n && Bounded([], MostTests(n), n, passes)
    else
      && (forall k :: 0 <= k < |partitions| ==> |partitions[k]| > 1)
      && Bounded(announced, Pending(partitions), n, passes)
  }

  lemma ToSplit(announced: seq<int>, partitions: seq<seq<Name>>, p: seq<Name>, n: nat, passes: Oracle)
    requires Counted(announced, partitions + [p], n, passes) && n > 0
    ensures p != [] && (|p| / 2 == 0 ==> |p| == 1)
    ensures forall k :: 0 <= k < |partitions| ==> |partitions[k]| > 1
    ensures Bounded(announced, Pending(partitions) + (if |p| == 1 then 1 else 2 * (|p| - 1)), n, passes)
    ensures Pending(partitions + [p]) == Pending(partitions) + 2 * (|p| - 1)
  {
    PendingLast(partitions, p);
    assert forall k :: 0 <= k < |partitions| ==> partitions[k] == (partitions + [p])[k];
    assert (partitions + [p])[|partitions|] == p;
  }

  lemma OneMoreTest(announced: seq<int>, before: int, after: int, n: nat, passes: Oracle)
    requires Bounded(announced, before, n, passes) && after < before
    requires (forall s :: !passes(s)) ==> after == before - 1
    ensures Bounded(announced + [before], after, n, passes)
  {
  }

  method PendingOf(partitions: seq<seq<Name>>) returns (pending: int)
    ensures pending == Pending(partitions)
  {
    pending := 0;
    for k := 0 to |partitions|
      invariant pending == Pending(partitions[..k])
    {
      assert partitions[..k + 1] == partitions[..k] + [partitions[k]];
      PendingLast(partitions[..k], partitions[k]);
      pending := pending + (|partitions[k]| - 1) * 2;
    }
    assert partitions[..|partitions|] == partitions;
  }

  class Bisection {
    const passes: Oracle
    var knownGood: set<Name>
    var partitionsToSplit: seq<seq<Name>>
    var announced: seq<int>  // with each test, how many may remain, with this one

    constructor (passes: Oracle)
      ensures this.passes == passes && knownGood == {} && partitionsToSplit == [] && announced == []
    {
      this.passes, knownGood, partitionsToSplit, announced := passes, {}, [], [];
    }

    /** What has been found, and what splitting the partitions will find. */
    function Total(): set<Name>
      reads this
    {
      knownGood + ToBeFound(partitionsToSplit, passes)
    }

    /** How many tests the half that is still to be tested can take. */
    static function Later(upcoming: seq<Name>): int { if upcoming == [] then 0 else 2 * |upcoming| - 1 }

    /** Tests a partition: its names are good, or it is to be split. */
    method TestPartition(partition: seq<Name>, upcoming: seq<Name>, ghost n: nat)
      requires partition != []
      requires Bounded(announced, 2 * |partition| - 1 + Later(upcoming) + Pending(partitionsToSplit), n, passes)
      requires forall k :: 0 <= k < |partitionsToSplit| ==> |partitionsToSplit[k]| > 1
      modifies this
      ensures announced == old(announced)
              + [2 * |partition| - 1 + Later(upcoming) + Pending(old(partitionsToSplit))]
      ensures Bounded(announced, Later(upcoming) + Pending(partitionsToSplit), n, passes)
      ensures knownGood == old(knownGood) + if passes(SetOf(partition)) then SetOf(partition) else {}
      ensures partitionsToSplit ==
              (if !passes(SetOf(partition)) && |partition| > 1 then [partition] else []) + old(partitionsToSplit)
      ensures forall k :: 0 <= k < |partitionsToSplit| ==> |partitionsToSplit[k]| > 1
      ensures Pending(partitionsToSplit) == Pending(old(partitionsToSplit)) + if passes(SetOf(partition)) then 0
              else 2 * |partition| - 2
      ensures Total() == old(Total()) + Found(partition, passes)
    {
      hide Bounded, Pending, ToBeFound;
      PendingNonNegative(partitionsToSplit);
      PendingFirst(partitionsToSplit, partition);
      ToBeFoundFirst(partitionsToSplit, partition, passes);
      var maxRemainingSteps := |partition| * 2 - 1;
      if upcoming != [] {
        maxRemainingSteps := maxRemainingSteps + |upcoming| * 2 - 1;
      }
      var pending := PendingOf(partitionsToSplit);
      maxRemainingSteps := maxRemainingSteps + pending;
      ghost var was := announced;
      announced := announced + [maxRemainingSteps];
      var res := passes(SetOf(partition));
      if res {
        knownGood := knownGood + SetOf(partition);
      } else if |partition| > 1 {
        partitionsToSplit := [partition] + partitionsToSplit;
      }
      OneMoreTest(was, maxRemainingSteps, Later(upcoming) + Pending(partitionsToSplit), n, passes);
    }

    /** Splits what fails until only single names are left. */
    method CheckBisect(names: seq<Name>)
      requires knownGood == {} && partitionsToSplit == [] && announced == []
      modifies this
      ensures knownGood == FoundInHalves(names, passes)
      ensures GoodAlone(names, passes) <= knownGood <= SetOf(names)
      ensures knownGood == GoodAlone(names, passes) <==> HonestHalves(names, passes)
      ensures SubsetClosed(passes) ==> knownGood == GoodAlone(names, passes)
      ensures Covered(announced, 0)
      ensures |announced| <= MostTests(|names|)
      ensures (forall s :: !passes(s)) ==> |announced| == MostTests(|names|)
    {
      BisectionIsSequential(names, passes);
      if names == [] {
        return;
      }
      partitionsToSplit := [names];
      ToBeFoundFirst([], names, passes);
      assert [names] + [] == [names];
      while partitionsToSplit != []
        invariant Counted(announced, partitionsToSplit, |names|, passes) && Total() == FoundInHalves(names, passes)
        decreases Pending(partitionsToSplit) + |partitionsToSplit|
      {
        Split(|names|);
      }
    }

    /** Takes the partition that has waited longest, and tests its halves. */
    method Split(ghost n: nat)
      requires partitionsToSplit != [] && n > 0 && Counted(announced, partitionsToSplit, n, passes)
      modifies this
      ensures Counted(announced, partitionsToSplit, n, passes)
      ensures Total() == old(Total())
      ensures 0 <= Pending(partitionsToSplit) + |partitionsToSplit|
              < old(Pending(partitionsToSplit) + |partitionsToSplit|)
    {
      hide Found, ToBeFound, FoundInHalves, Bounded, Pending, Counted;
      var last := |partitionsToSplit| - 1;
      var partition := partitionsToSplit[last];
      assert partitionsToSplit == partitionsToSplit[..last] + [partition];
      ToSplit(announced, partitionsToSplit[..last], partition, n, passes);
      TotalWithout(knownGood, partitionsToSplit[..last], partition, passes);
      partitionsToSplit := partitionsToSplit[..last];
      var middle := |partition| / 2;
      var left, right := partition[..middle], partition[middle..];
      TestHalves(left, right, n);
    }

    /** Tests the halves of a partition, the first of which is empty only if there is just one name. */
    method TestHalves(left: seq<Name>, right: seq<Name>, ghost n: nat)
      requires right != [] && forall k :: 0 <= k < |partitionsToSplit| ==> |partitionsToSplit[k]| > 1
      requires left == [] ==> |right| == 1
      requires Bounded(announced, Pending(partitionsToSplit)
                       + (if left == [] then 1 else 2 * (|left| + |right| - 1)), n, passes)
      modifies this
      ensures Counted(announced, partitionsToSplit, n, passes)
      ensures Total() == old(Total()) + Found(left, passes) + Found(right, passes)
      ensures 0 <= Pending(partitionsToSplit) + |partitionsToSplit|
                <= old(Pending(partitionsToSplit) + |partitionsToSplit|) + 2 * (|left| + |right| - 1)
    {
      assert Found([], passes) == {} && Total() + {} == Total();
      hide Pending, SetOf, Found, ToBeFound, Total, Bounded, MostTests;
      if left != [] {
        TestPartition(left, right, n);
      }
      TestPartition(right, [], n);
      PendingNonNegative(partitionsToSplit);
    }
  }

  function MostTests(n: nat): nat { if n == 0 then 0 else if n == 1 then 1 else 2 * n - 2 }

  // ----- what is still to be found -----

  /** What splitting the partitions will find. */
  function ToBeFound(partitions: seq<seq<Name>>, passes: Oracle): set<Name> {
    if partitions == [] then {}
    else FoundInHalves(partitions[0], passes) + ToBeFound(partitions[1..], passes)
  }

  lemma ToBeFoundFirst(partitions: seq<seq<Name>>, p: seq<Name>, passes: Oracle)
    ensures ToBeFound([p] + partitions, passes) == FoundInHalves(p, passes) + ToBeFound(partitions, passes)
  {
    assert ([p] + partitions)[1..] == partitions;
  }

  lemma {:induction false} ToBeFoundLast(partitions: seq<seq<Name>>, p: seq<Name>, passes: Oracle)
    ensures ToBeFound(partitions + [p], passes) == ToBeFound(partitions, passes) + FoundInHalves(p, passes)
  {
    if partitions == [] {
      assert [p][1..] == [];
    } else {
      assert (partitions + [p])[1..] == partitions[1..] + [p];
      ToBeFoundLast(partitions[1..], p, passes);
    }
  }

  /** Taking the last partition off leaves its halves to be tested. */
  lemma TotalWithout(good: set<Name>, partitions: seq<seq<Name>>, p: seq<Name>, passes: Oracle)
    ensures good + ToBeFound(partitions + [p], passes)
            == good + ToBeFound(partitions, passes) + Found(p[..|p| / 2], passes) + Found(p[|p| / 2..], passes)
  {
    hide Found;
    ToBeFoundLast(partitions, p, passes);
  }
}
