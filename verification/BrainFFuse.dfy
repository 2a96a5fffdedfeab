/** Fusing runs of moves and runs of changes into one command each, what fusing preserves, and
    what it costs: only the net of a fused run of moves can be compared with the tape. */
module BrainFFuse {
  import opened BrainFSource

  /** Every maximal run of Move commands, and of Change commands, becomes one command. */
  function Fuse(p: Prog): Prog {
    match p
    case Empty => Empty
    case Then(c, rest) => Join(FuseCmd(c), Fuse(rest))
  }

  function FuseCmd(c: Cmd): Cmd {
    match c
    case Loop(b) => Loop(Fuse(b))
    case _ => c
  }

  /** Puts c in front of an already fused program. */
  function Join(c: Cmd, p: Prog): Prog {
    if c.Move? && p.Then? && p.first.Move? then Then(Move(c.count + p.first.count), p.rest)
    else if c.Change? && p.Then? && p.first.Change? then Then(Change(c.count + p.first.count), p.rest)
    else Then(c, p)
  }

  /** No two neighbours could still be fused. */
  predicate Maximal(p: Prog) {
    match p
    case Empty => true
    case Then(c, rest) =>
      && (c.Move? ==> !StartsWithMove(rest))
      && (c.Change? ==> !(rest.Then? && rest.first.Change?))
      && (c.Loop? ==> Maximal(c.body))
      && Maximal(rest)
  }

  lemma {:induction false} FuseIsMaximal(p: Prog)
    ensures Maximal(Fuse(p))
  {
    match p
    case Empty =>
    case Then(c, rest) =>
      FuseIsMaximal(rest);
      if c.Loop? {
        FuseIsMaximal(c.body);
      }
  }

  lemma {:induction false} FuseKeepsRunCmd(c: Cmd, check: bool, s: State, fuel: nat, policy: Policy)
    requires policy != AtEveryMove
    ensures RunCmd(FuseCmd(c), check, s, fuel, policy) == RunCmd(c, check, s, fuel, policy)
    decreases fuel, c
  {
    match c
    case Loop(b) =>
      if s.OnTape() && s.Cell() != 0 {
        FuseKeepsRun(b, s, fuel, policy);
        var o := Run(b, s, fuel, policy);
        if o.Done? && fuel > 0 {
          FuseKeepsRunCmd(c, check, o.s, fuel - 1, policy);
        }
      }
    case _ =>
  }

  lemma {:induction false} JoinRuns(c: Cmd, p: Prog, s: State, fuel: nat, policy: Policy)
    requires policy != AtEveryMove
    ensures Run(Join(c, p), s, fuel, policy) == Run(Then(c, p), s, fuel, policy)
  {
    if p.Then? && ((c.Move? && p.first.Move?) || (c.Change? && p.first.Change?)) {
      var joined := Join(c, p);
      var check := Checks(policy, p.rest);
      JoinTwo(c, p.first, check, s, fuel, policy);
      var o := RunCmd(c, false, s, fuel, policy);
      assert Run(Then(c, p), s, fuel, policy) == if o.Done? then Run(p, o.s, fuel, policy) else o;
      if o.Done? {
        assert Run(p, o.s, fuel, policy)
            == var o' := RunCmd(p.first, check, o.s, fuel, policy);
               if o'.Done? then Run(p.rest, o'.s, fuel, policy) else o';
      }
      assert joined == Then(joined.first, p.rest);
      assert Run(joined, s, fuel, policy)
          == var o' := RunCmd(joined.first, check, s, fuel, policy);
             if o'.Done? then Run(p.rest, o'.s, fuel, policy) else o';
    }
  }

  /** Two commands of one run, the first of them unchecked, are one command. */
  lemma JoinTwo(c: Cmd, d: Cmd, check: bool, s: State, fuel: nat, policy: Policy)
    requires (c.Move? && d.Move?) || (c.Change? && d.Change?)
    ensures var o := RunCmd(c, false, s, fuel, policy);
            RunCmd(Join(c, Then(d, Empty)).first, check, s, fuel, policy)
            == if o.Done? then RunCmd(d, check, o.s, fuel, policy) else o
  {
    if c.Change? && s.OnTape() {
      AddTwice(s.Cell(), c.count, d.count);
      var s' := s.DoChange(c.count);
      assert s'.DoChange(d.count).tape == s.DoChange(c.count + d.count).tape;
    }
  }

  lemma AddTwice(a: int, m: int, n: int)
    ensures ((a + m) % 256 + n) % 256 == (a + (m + n)) % 256
  {
  }

  /** Fusing changes no run, loop repetition by loop repetition, as long as positions inside a run
      of moves are not looked at. */
  lemma {:induction false} FuseKeepsRun(p: Prog, s: State, fuel: nat, policy: Policy)
    requires policy != AtEveryMove
    ensures Run(Fuse(p), s, fuel, policy) == Run(p, s, fuel, policy)
    decreases fuel, p
  {
    match p
    case Empty =>
    case Then(c, rest) =>
      JoinRuns(FuseCmd(c), Fuse(rest), s, fuel, policy);
      FuseKeepsRunCmd(c, Checks(policy, rest), s, fuel, policy);
      assert StartsWithMove(rest) == StartsWithMove(Fuse(rest));
      var o := RunCmd(c, Checks(policy, rest), s, fuel, policy);
      if o.Done? {
        FuseKeepsRun(rest, o.s, fuel, policy);
      }
  }

  // ----- comparing the policies -----

  /** Looking at fewer positions changes nothing for a run that never leaves the tape. */
  lemma {:induction false} FewerChecks(p: Prog, s: State, fuel: nat, policy: Policy)
    ensures var o := Run(p, s, fuel, AtEveryMove);
            !o.LeftTape? ==> Run(p, s, fuel, policy) == o
    decreases fuel, p
  {
    match p
    case Empty =>
    case Then(c, rest) =>
      FewerChecksCmd(c, Checks(policy, rest), s, fuel, policy);
      var o := RunCmd(c, true, s, fuel, AtEveryMove);
      if o.Done? {
        FewerChecks(rest, o.s, fuel, policy);
      }
  }

  lemma {:induction false} FewerChecksCmd(c: Cmd, check: bool, s: State, fuel: nat, policy: Policy)
    ensures var o := RunCmd(c, true, s, fuel, AtEveryMove);
            !o.LeftTape? ==> RunCmd(c, check, s, fuel, policy) == o
    decreases fuel, c
  {
    match c
    case Loop(b) =>
      if s.OnTape() && s.Cell() != 0 {
        FewerChecks(b, s, fuel, policy);
        var o := Run(b, s, fuel, AtEveryMove);
        if o.Done? && fuel > 0 {
          FewerChecksCmd(c, check, o.s, fuel - 1, policy);
        }
      }
    case _ =>
  }

  /** With a check after every run of moves, no access is ever off the tape. */
  lemma {:induction false} CheckedAccesses(p: Prog, s: State, fuel: nat)
    requires s.OnTape() || StartsWithMove(p)
    ensures var o := Run(p, s, fuel, AtRunEnd);
            !o.OffTape? && (o.Done? ==> o.s.OnTape())
    decreases fuel, p
  {
    match p
    case Empty =>
    case Then(c, rest) =>
      var check := Checks(AtRunEnd, rest);
      if s.OnTape() {
        CheckedAccessesCmd(c, check, s, fuel);
      }
      var o := RunCmd(c, check, s, fuel, AtRunEnd);
      if o.Done? {
        CheckedAccesses(rest, o.s, fuel);
      }
  }

  lemma {:induction false} CheckedAccessesCmd(c: Cmd, check: bool, s: State, fuel: nat)
    requires s.OnTape()
    ensures var o := RunCmd(c, check, s, fuel, AtRunEnd);
            !o.OffTape? && (o.Done? && (c.Move? ==> check) ==> o.s.OnTape())
    decreases fuel, c
  {
    match c
    case Loop(b) =>
      if s.Cell() != 0 {
        CheckedAccesses(b, s, fuel);
        var o := Run(b, s, fuel, AtRunEnd);
        if o.Done? && fuel > 0 {
          CheckedAccessesCmd(c, check, o.s, fuel - 1);
        }
      }
    case _ =>
  }

  // ----- when checking the net of a run is as good as checking every move -----

  /** No run of moves turns around. */
  predicate OneWay(p: Prog) {
    match p
    case Empty => true
    case Then(c, rest) =>
      && (c.Move? && StartsWithMove(rest) ==> (c.count > 0) == (rest.first.count > 0))
      && (c.Loop? ==> OneWay(c.body))
      && OneWay(rest)
  }

  /** The head is off the tape on the side towards which n moves. */
  predicate Beyond(s: State, n: int) {
    if n > 0 then s.head >= |s.tape| else s.head < 0
  }

  lemma {:induction false} BeyondStaysBeyond(p: Prog, s: State, fuel: nat)
    requires OneWay(p) && Unit(p) && StartsWithMove(p) && Beyond(s, p.first.count)
    ensures Run(p, s, fuel, AtRunEnd).LeftTape?
    decreases p
  {
    var s' := s.(head := s.head + p.first.count);
    if StartsWithMove(p.rest) {
      assert RunCmd(p.first, false, s, fuel, AtRunEnd) == Done(s');
      BeyondStaysBeyond(p.rest, s', fuel);
    }
  }

  lemma {:induction false} OneWayChecks(p: Prog, s: State, fuel: nat)
    requires OneWay(p) && Unit(p) && s.OnTape()
    ensures Run(p, s, fuel, AtEveryMove).LeftTape? <==> Run(p, s, fuel, AtRunEnd).LeftTape?
    decreases fuel, p
  {
    FewerChecks(p, s, fuel, AtRunEnd);
    match p
    case Empty =>
    case Then(c, rest) =>
      var check := Checks(AtRunEnd, rest);
      if !c.Move? || check {
        OneWayChecksCmd(c, s, fuel, check);
      }
      var o := RunCmd(c, true, s, fuel, AtEveryMove);
      if o.LeftTape? && c.Move? && !check {
        BeyondStaysBeyond(rest, o.s, fuel);
      } else if o.Done? {
        FewerChecksCmd(c, check, s, fuel, AtRunEnd);
        CheckedAccessesCmd(c, true, s, fuel);
        FewerChecksCmd(c, true, s, fuel, AtRunEnd);
        OneWayChecks(rest, o.s, fuel);
      }
  }

  lemma {:induction false} OneWayChecksCmd(c: Cmd, s: State, fuel: nat, check: bool)
    requires OneWay(Then(c, Empty)) && Unit(Then(c, Empty)) && s.OnTape()
    requires c.Move? ==> check
    ensures RunCmd(c, true, s, fuel, AtEveryMove).LeftTape? <==> RunCmd(c, check, s, fuel, AtRunEnd).LeftTape?
    decreases fuel, c
  {
    match c
    case Loop(b) =>
      if s.Cell() != 0 {
        OneWayChecks(b, s, fuel);
        FewerChecks(b, s, fuel, AtRunEnd);
        CheckedAccesses(b, s, fuel);
        var o := Run(b, s, fuel, AtEveryMove);
        if o.Done? && fuel > 0 {
          OneWayChecksCmd(c, o.s, fuel - 1, check);
        }
      }
    case _ =>
  }
}
