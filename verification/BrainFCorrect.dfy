/** What the compiled function does, for every program, input, tape size and content of the memory
    that malloc returns. */
module BrainFCorrect {
  import opened BrainFSource
  import opened BrainFFuse
  import opened BrainFIR
  import opened BrainFGen
  import opened BrainFCompiler
  import opened BrainFSim
  import opened BrainFSsa
  import opened BrainFSsaGen

  /** The machine at the entry of the function; malloc will return the given bytes. */
  function Entry(junk: seq<Byte>, input: seq<Byte>): Machine {
    Running(Core(ENTRY, 0, map[], junk, input, [], false))
  }

  /** A fresh tape with the head in its middle. */
  function Fresh(mem: nat, input: seq<Byte>): State { State(Zeros(mem), mem / 2, input, []) }

  /** The program ends with the given outcome. */
  ghost predicate Ends(p: Prog, s: State, policy: Policy, o: Outcome) {
    !o.Timeout? && exists fuel: nat :: Run(p, s, fuel, policy) == o
  }

  /** At some point of its run, the program has written this. */
  ghost predicate Writes(p: Prog, s: State, policy: Policy, out: seq<Byte>) {
    exists fuel: nat :: out <= Run(p, s, fuel, policy).s.output
  }

  ghost predicate Stops(blocks: seq<Block>, m: Machine, r: Machine) {
    !r.Running? && exists n: nat :: Steps(blocks, m, n) == r
  }

  /** At some point of its run, the function has written this. */
  ghost predicate Prints(blocks: seq<Block>, m: Machine, out: seq<Byte>) {
    exists n: nat :: var m' := Steps(blocks, m, n); !m'.Stuck? && out <= Output(m')
  }

  /** At some point of its run, the function has this tape, the rest of this input, and this output. */
  ghost predicate Reaches(blocks: seq<Block>, m: Machine, s: State) {
    exists n: nat :: var m' := Steps(blocks, m, n); m'.Running? && Holds(m'.c, s)
  }

  /** What the function must do for a program with the given outcome. */
  function Image(o: Outcome): Machine
    requires !o.Timeout?
  {
    match o
    case Done(s) => Returned(s.tape, s.output, false)
    case LeftTape(s) => Returned(s.tape, s.output, true)
    case OffTape(s) => Fault(s.tape, s.output)
  }

  // ----- from entry to return -----

  lemma {:induction false} RunHeader(final: seq<Block>, mem: nat, abc: bool, junk: seq<Byte>, input: seq<Byte>)
      returns (n: nat)
    requires |junk| == mem && Within(Header(mem, abc).blocks, final)
    ensures At(Steps(final, Entry(junk, input), n), SpotOf(Header(mem, abc)), Fresh(mem, input), abc)
  {
    var h := Header(mem, abc).blocks;
    var m := Entry(junk, input);
    StepAt(h, final, m, ENTRY, 0);
    var m1 := Step(final, m);
    StepAt(h, final, m1, ENTRY, 1);
    var m2 := Step(final, m1);
    assert junk[..0] + Zeros(mem) + junk[0 + mem..] == Zeros(mem);
    StepAt(h, final, m2, ENTRY, 2);
    var m3 := Step(final, m2);
    Steps3(final, m);
    n := 3;
    if abc {
      StepAt(h, final, m3, ENTRY, 3);
      Steps3(final, m3);
      StepsAdd(final, m, 3, 1);
      n := 4;
    }
  }

  /** What is at the ends of the finished function. */
  lemma {:induction false} FunctionParts(p: Prog, mem: nat, abc: bool)
    ensures var final := Function(p, mem, abc);
            var g := Gen(p, Header(mem, abc), abc);
            && Within(Header(mem, abc).blocks, final) && Within(g.blocks, final) && HasErrorBlock(final, abc)
            && final[END] == Block([], [Free(ARR), RetVoid])
            && Has(final, g.cur, |g.blocks[g.cur].code|, Br(END))
  {
    var h := Header(mem, abc);
    var g := Gen(p, h, abc);
    var final := Function(p, mem, abc);
    GenFrame(p, h, abc);
    assert forall i :: 0 <= i < |g.blocks| ==> BlockGrows(g.blocks[i], final[i]);
    FrameWithin(h, g, final);
    assert g.blocks[END] == h.blocks[END];
    assert abc ==> g.blocks[ABERROR] == h.blocks[ABERROR];
  }

  /** From the end of the program, or from the error block, the function returns. */
  lemma {:induction false} RunFooter(final: seq<Block>, c: Core)
    requires END < |final| && final[END] == Block([], [Free(ARR), RetVoid])
    requires ARR in c.regs && c.regs[ARR] == Ptr(0)
    requires Step(final, Running(c)) == Jump(final, c, END)
    ensures Steps(final, Running(c), 3) == Returned(c.tape, c.output, c.complained)
  {
    Steps3(final, Running(c));
    assert Jump(final, c, END) == Running(c.(block := END, pc := 0));
  }

  lemma {:induction false} RunErrorBlock(final: seq<Block>, m: Machine, s: State)
    requires HasErrorBlock(final, true) && END < |final| && final[END] == Block([], [Free(ARR), RetVoid])
    requires Caught(m, s)
    ensures Steps(final, m, 4) == Returned(s.tape, s.output, true)
  {
    var m1 := Step(final, m);
    assert m1 == Running(m.c.(pc := 1, complained := true));
    RunFooter(final, m1.c);
  }

  /** With any fuel, the function follows the program up to its end. */
  lemma {:induction false} FollowsProgram(p: Prog, mem: nat, abc: bool, junk: seq<Byte>, input: seq<Byte>, fuel: nat)
      returns (n: nat)
    requires Maximal(p) && |junk| == mem
    ensures Follows(Run(p, Fresh(mem, input), fuel, PolicyOf(abc)), fuel,
                    Steps(Function(p, mem, abc), Entry(junk, input), n), n, SpotOf(Gen(p, Header(mem, abc), abc)), abc)
  {
    hide At, Within, HasErrorBlock, Has, Steps;
    var final := Function(p, mem, abc);
    FunctionParts(p, mem, abc);
    var m := Entry(junk, input);
    var n1 := RunHeader(final, mem, abc, junk, input);
    var n2 := SimProg(p, Header(mem, abc), final, Fresh(mem, input), fuel, abc, Steps(final, m, n1));
    FollowsLater(Run(p, Fresh(mem, input), fuel, PolicyOf(abc)), fuel, fuel, final, m, n1, n2,
                 SpotOf(Gen(p, Header(mem, abc), abc)), abc);
    n := n1 + n2;
  }

  /** The function returns from where the program ends. */
  lemma {:induction false} Returns(p: Prog, mem: nat, abc: bool, m: Machine, o: Outcome, fuel: nat, n: nat)
      returns (n': nat)
    requires Follows(o, fuel, m, n, SpotOf(Gen(p, Header(mem, abc), abc)), abc)
    requires !o.Timeout? && (o.LeftTape? ==> abc)
    ensures Steps(Function(p, mem, abc), m, n') == Image(o)
  {
    var final := Function(p, mem, abc);
    FunctionParts(p, mem, abc);
    match o
    case Done(s) =>
      RunFooter(final, m.c);
      n' := 3;
    case LeftTape(s) =>
      RunErrorBlock(final, m, s);
      n' := 4;
    case OffTape(s) =>
      n' := 0;
  }

  /** With any fuel, the function follows the program all the way. */
  lemma {:induction false} Simulates(text: string, mem: nat, abc: bool, junk: seq<Byte>, input: seq<Byte>, fuel: nat)
      returns (n: nat)
    requires IsProgram(text) && |junk| == mem
    ensures var o := Run(ProgramOf(text), Fresh(mem, input), fuel, PolicyOf(abc));
            var m := Steps(Compiled(text, mem, abc), Entry(junk, input), n);
            if o.Timeout? then n >= fuel && m.Running? && Holds(m.c, o.s) else m == Image(o)
  {
    var p := Fuse(ProgramOf(text));
    var o := Run(p, Fresh(mem, input), fuel, PolicyOf(abc));
    FuseIsMaximal(ProgramOf(text));
    FuseKeepsRun(ProgramOf(text), Fresh(mem, input), fuel, PolicyOf(abc));
    n := FollowsProgram(p, mem, abc, junk, input, fuel);
    if !o.Timeout? {
      LeftOnlyIfChecked(p, Fresh(mem, input), fuel, PolicyOf(abc));
      var n' := Returns(p, mem, abc, Steps(Function(p, mem, abc), Entry(junk, input), n), o, fuel, n);
      StepsAdd(Function(p, mem, abc), Entry(junk, input), n, n');
      n := n + n';
    }
  }

  /** Without position checks no run fails one. */
  lemma {:induction false} LeftOnlyIfChecked(p: Prog, s: State, fuel: nat, policy: Policy)
    ensures policy == AtAccess ==> !Run(p, s, fuel, policy).LeftTape?
    decreases fuel, p
  {
    match p
    case Empty =>
    case Then(c, rest) =>
      LeftOnlyIfCheckedCmd(c, Checks(policy, rest), s, fuel, policy);
      var o := RunCmd(c, Checks(policy, rest), s, fuel, policy);
      if o.Done? {
        LeftOnlyIfChecked(rest, o.s, fuel, policy);
      }
  }

  lemma {:induction false} LeftOnlyIfCheckedCmd(c: Cmd, check: bool, s: State, fuel: nat, policy: Policy)
    ensures policy == AtAccess && !check ==> !RunCmd(c, check, s, fuel, policy).LeftTape?
    decreases fuel, c
  {
    match c
    case Loop(b) =>
      if s.OnTape() && s.Cell() != 0 {
        LeftOnlyIfChecked(b, s, fuel, policy);
        var o := Run(b, s, fuel, policy);
        if o.Done? && fuel > 0 {
          LeftOnlyIfCheckedCmd(c, check, o.s, fuel - 1, policy);
        }
      }
    case _ =>
  }

  // ----- the main theorem -----

  /** A program ends in one way only. */
  lemma EndsOnce(p: Prog, s: State, policy: Policy, o: Outcome, o': Outcome)
    requires Ends(p, s, policy, o) && Ends(p, s, policy, o')
    ensures o == o'
  {
    var fuel: nat :| Run(p, s, fuel, policy) == o;
    var fuel': nat :| Run(p, s, fuel', policy) == o';
    if fuel <= fuel' {
      FuelMonotone(p, s, fuel, fuel', policy);
    } else {
      FuelMonotone(p, s, fuel', fuel, policy);
    }
  }

  /** After n steps, the function has written no more than the program has with fuel n; and it never
      reaches code without a meaning. */
  lemma {:induction false} OutputKeepsUp(text: string, mem: nat, abc: bool, junk: seq<Byte>, input: seq<Byte>, n: nat)
    requires IsProgram(text) && |junk| == mem
    ensures var m' := Steps(Compiled(text, mem, abc), Entry(junk, input), n);
            && !m'.Stuck?
            && Output(m') <= Run(ProgramOf(text), Fresh(mem, input), n, PolicyOf(abc)).s.output
  {
    var blocks := Compiled(text, mem, abc);
    var m := Entry(junk, input);
    var n' := Simulates(text, mem, abc, junk, input, n);
    if n <= n' {
      StepsAdd(blocks, m, n, n' - n);
      if Steps(blocks, m, n).Stuck? {
        StoppedStays(blocks, Steps(blocks, m, n), n' - n);
      }
      StepsOutput(blocks, Steps(blocks, m, n), n' - n);
    } else {
      StoppedOnce(blocks, m, n', n);
    }
  }

  /** The compiled function stops exactly when the program does, and with its one outcome: the same
      output and tape when the program ends; the error message when, in a function with bounds
      checks, the head is off the tape after a run of moves; a fault when an access would be off
      the tape. It never reaches code without a meaning. Whether or not the program ends, the
      function passes through every state in which the program can be interrupted between two
      rounds of a loop, and writes exactly what the program writes. */
  lemma {:induction false} CompilerCorrect(text: string, mem: nat, abc: bool, junk: seq<Byte>, input: seq<Byte>)
    requires IsProgram(text) && |junk| == mem
    ensures var p := ProgramOf(text);
            var s := Fresh(mem, input);
            var blocks := Compiled(text, mem, abc);
            && (forall o :: Ends(p, s, PolicyOf(abc), o) ==> Stops(blocks, Entry(junk, input), Image(o)))
            && (forall r :: Stops(blocks, Entry(junk, input), r) ==>
                  exists o :: Ends(p, s, PolicyOf(abc), o) && r == Image(o))
            && (forall o, o' :: Ends(p, s, PolicyOf(abc), o) && Ends(p, s, PolicyOf(abc), o') ==> o == o')
            && (forall fuel: nat :: var o := Run(p, s, fuel, PolicyOf(abc));
                  o.Timeout? ==> Reaches(blocks, Entry(junk, input), o.s))
            && (forall out :: Writes(p, s, PolicyOf(abc), out) <==> Prints(blocks, Entry(junk, input), out))
  {
    StopsAsProgram(text, mem, abc, junk, input);
    var p := ProgramOf(text);
    var s := Fresh(mem, input);
    forall o, o' | Ends(p, s, PolicyOf(abc), o) && Ends(p, s, PolicyOf(abc), o')
      ensures o == o'
    {
      EndsOnce(p, s, PolicyOf(abc), o, o');
    }
    forall fuel: nat | Run(p, s, fuel, PolicyOf(abc)).Timeout?
      ensures Reaches(Compiled(text, mem, abc), Entry(junk, input), Run(p, s, fuel, PolicyOf(abc)).s)
    {
      var n := Simulates(text, mem, abc, junk, input, fuel);
    }
    forall out
      ensures Writes(p, s, PolicyOf(abc), out) <==> Prints(Compiled(text, mem, abc), Entry(junk, input), out)
    {
      WritesAsProgram(text, mem, abc, junk, input, out);
    }
  }

  lemma {:induction false} StopsAsProgram(text: string, mem: nat, abc: bool, junk: seq<Byte>, input: seq<Byte>)
    requires IsProgram(text) && |junk| == mem
    ensures var p := ProgramOf(text);
            var s := Fresh(mem, input);
            var blocks := Compiled(text, mem, abc);
            && (forall o :: Ends(p, s, PolicyOf(abc), o) ==> Stops(blocks, Entry(junk, input), Image(o)))
            && (forall r :: Stops(blocks, Entry(junk, input), r) ==>
                  exists o :: Ends(p, s, PolicyOf(abc), o) && r == Image(o))
  {
    var p := ProgramOf(text);
    var s := Fresh(mem, input);
    var blocks := Compiled(text, mem, abc);
    var m := Entry(junk, input);
    forall o | Ends(p, s, PolicyOf(abc), o)
      ensures Stops(blocks, m, Image(o))
    {
      var fuel: nat :| Run(p, s, fuel, PolicyOf(abc)) == o;
      var n := Simulates(text, mem, abc, junk, input, fuel);
    }
    forall r | Stops(blocks, m, r)
      ensures exists o :: Ends(p, s, PolicyOf(abc), o) && r == Image(o)
    {
      var n: nat :| Steps(blocks, m, n) == r;
      var n' := Simulates(text, mem, abc, junk, input, n);
      if n' >= n {
        StoppedOnce(blocks, m, n, n');
      } else {
        StoppedOnce(blocks, m, n', n);
      }
      assert Ends(p, s, PolicyOf(abc), Run(p, s, n, PolicyOf(abc)));
    }
  }

  lemma {:induction false} WritesAsProgram(text: string, mem: nat, abc: bool, junk: seq<Byte>, input: seq<Byte>,
                                           out: seq<Byte>)
    requires IsProgram(text) && |junk| == mem
    ensures Writes(ProgramOf(text), Fresh(mem, input), PolicyOf(abc), out)
            <==> Prints(Compiled(text, mem, abc), Entry(junk, input), out)
  {
    var p := ProgramOf(text);
    var s := Fresh(mem, input);
    var blocks := Compiled(text, mem, abc);
    var m := Entry(junk, input);
    if Writes(p, s, PolicyOf(abc), out) {
      var fuel: nat :| out <= Run(p, s, fuel, PolicyOf(abc)).s.output;
      var n := Simulates(text, mem, abc, junk, input, fuel);
      assert Output(Steps(blocks, m, n)) == Run(p, s, fuel, PolicyOf(abc)).s.output;
    }
    if Prints(blocks, m, out) {
      var n: nat :| var m' := Steps(blocks, m, n); !m'.Stuck? && out <= Output(m');
      OutputKeepsUp(text, mem, abc, junk, input, n);
      assert out <= Run(p, s, n, PolicyOf(abc)).s.output;
    }
  }

  // ----- consequences -----

  /** The run that looks at the head after every single move never sees it off the tape. */
  ghost predicate StaysOnTape(p: Prog, s: State) {
    forall fuel: nat :: var o := Run(p, s, fuel, AtEveryMove); o.Done? || o.Timeout?
  }

  lemma {:induction false} SameWithFewerChecks(p: Prog, s: State, policy: Policy)
    requires StaysOnTape(p, s)
    ensures forall o :: Ends(p, s, AtEveryMove, o) <==> Ends(p, s, policy, o)
    ensures forall out :: Writes(p, s, AtEveryMove, out) <==> Writes(p, s, policy, out)
  {
    forall fuel: nat
      ensures Run(p, s, fuel, policy) == Run(p, s, fuel, AtEveryMove)
    {
      FewerChecks(p, s, fuel, policy);
    }
    forall out
      ensures Writes(p, s, AtEveryMove, out) <==> Writes(p, s, policy, out)
    {
      if fuel: nat :| out <= Run(p, s, fuel, AtEveryMove).s.output {
        assert out <= Run(p, s, fuel, policy).s.output;
      }
      if fuel: nat :| out <= Run(p, s, fuel, policy).s.output {
        assert out <= Run(p, s, fuel, AtEveryMove).s.output;
      }
    }
  }

  /** For a program that, one symbol at a time, keeps its head on the tape, the compiled function,
      with bounds checks or without, returns exactly when the program ends, with its tape and output;
      it never faults, and never complains. Whether or not the program ends, the function writes
      exactly what the program writes. */
  lemma {:induction false} WellBehavedPrograms(text: string, mem: nat, abc: bool, junk: seq<Byte>, input: seq<Byte>)
    requires IsProgram(text) && |junk| == mem
    requires StaysOnTape(ProgramOf(text), Fresh(mem, input))
    ensures forall r :: Stops(Compiled(text, mem, abc), Entry(junk, input), r) <==>
              exists s :: Ends(ProgramOf(text), Fresh(mem, input), AtEveryMove, Done(s))
                && r == Returned(s.tape, s.output, false)
    ensures forall out :: Writes(ProgramOf(text), Fresh(mem, input), AtEveryMove, out) <==>
              Prints(Compiled(text, mem, abc), Entry(junk, input), out)
  {
    var p := ProgramOf(text);
    var s0 := Fresh(mem, input);
    CompilerCorrect(text, mem, abc, junk, input);
    SameWithFewerChecks(p, s0, PolicyOf(abc));
    forall r | Stops(Compiled(text, mem, abc), Entry(junk, input), r)
      ensures exists s :: Ends(p, s0, AtEveryMove, Done(s)) && r == Returned(s.tape, s.output, false)
    {
      var o :| Ends(p, s0, PolicyOf(abc), o) && r == Image(o);
      assert Ends(p, s0, AtEveryMove, o);
      assert o.Done?;
    }
    forall s | Ends(p, s0, AtEveryMove, Done(s))
      ensures Stops(Compiled(text, mem, abc), Entry(junk, input), Returned(s.tape, s.output, false))
    {
      assert Ends(p, s0, PolicyOf(abc), Done(s));
      assert Image(Done(s)) == Returned(s.tape, s.output, false);
    }
  }

  /** No access outside the tape, and no code without a meaning, in any number of steps. */
  ghost predicate NeverFaults(blocks: seq<Block>, m: Machine) {
    forall n: nat :: var m' := Steps(blocks, m, n); m'.Running? || m'.Returned?
  }

  /** With bounds checks, every access of every compiled program is inside a tape of at least one
      cell. */
  lemma {:induction false} BoundsChecked(text: string, mem: nat, junk: seq<Byte>, input: seq<Byte>)
    requires IsProgram(text) && |junk| == mem && mem > 0
    ensures NeverFaults(Compiled(text, mem, true), Entry(junk, input))
  {
    var p := ProgramOf(text);
    var s := Fresh(mem, input);
    var blocks := Compiled(text, mem, true);
    var m := Entry(junk, input);
    CompilerCorrect(text, mem, true, junk, input);
    forall n: nat
      ensures Steps(blocks, m, n).Running? || Steps(blocks, m, n).Returned?
    {
      var m' := Steps(blocks, m, n);
      if !m'.Running? {
        assert Stops(blocks, m, m');
        var o :| Ends(p, s, AtRunEnd, o) && m' == Image(o);
        var fuel: nat :| Run(p, s, fuel, AtRunEnd) == o;
        CheckedAccesses(p, s, fuel);
      }
    }
  }

  /** On a tape without cells they are not: the head starts off the tape, and only moves are checked. */
  lemma {:induction false} EmptyTapeFaults()
    ensures IsProgram("+") && !NeverFaults(Compiled("+", 0, true), Entry([], []))
  {
    var text := "+";
    assert Parse(text, 1) == Parsed(Empty, 1, false);
    assert Parse(text, 0) == Parsed(Then(Change(1), Empty), 1, false);
    var s := Fresh(0, []);
    var p := ProgramOf(text);
    assert RunCmd(Change(1), true, s, 0, AtRunEnd) == OffTape(s);
    assert Run(p, s, 0, AtRunEnd) == OffTape(s);
    var n := Simulates(text, 0, true, [], [], 0);
    assert Steps(Compiled(text, 0, true), Entry([], []), n) == Fault(s.tape, s.output);
  }

  /** So bounds checks make every program safe exactly on tapes with a cell. */
  lemma {:induction false} SafeIffTape(mem: nat)
    ensures (forall text, junk: seq<Byte>, input: seq<Byte> :: IsProgram(text) && |junk| == mem ==>
              NeverFaults(Compiled(text, mem, true), Entry(junk, input)))
            <==> mem > 0
  {
    if mem > 0 {
      forall text, junk: seq<Byte>, input: seq<Byte> | IsProgram(text) && |junk| == mem
        ensures NeverFaults(Compiled(text, mem, true), Entry(junk, input))
      {
        BoundsChecked(text, mem, junk, input);
      }
    } else {
      EmptyTapeFaults();
    }
  }

  ghost predicate Complains(blocks: seq<Block>, m: Machine) {
    exists n: nat :: var r := Steps(blocks, m, n); r.Returned? && r.complained
  }

  /** The program, one symbol at a time, moves its head off the tape. */
  ghost predicate LeavesTape(p: Prog, s: State, policy: Policy) {
    exists fuel: nat :: Run(p, s, fuel, policy).LeftTape?
  }

  /** The error message appears exactly when some run of moves ends off the tape. */
  lemma {:induction false} ComplainsIffRunEndsOffTape(text: string, mem: nat, junk: seq<Byte>, input: seq<Byte>)
    requires IsProgram(text) && |junk| == mem
    ensures Complains(Compiled(text, mem, true), Entry(junk, input))
            <==> LeavesTape(ProgramOf(text), Fresh(mem, input), AtRunEnd)
  {
    var p := ProgramOf(text);
    var s := Fresh(mem, input);
    var blocks := Compiled(text, mem, true);
    var m := Entry(junk, input);
    CompilerCorrect(text, mem, true, junk, input);
    if Complains(blocks, m) {
      var n: nat :| var r := Steps(blocks, m, n); r.Returned? && r.complained;
      assert Stops(blocks, m, Steps(blocks, m, n));
      var o :| Ends(p, s, AtRunEnd, o) && Steps(blocks, m, n) == Image(o);
      var fuel: nat :| Run(p, s, fuel, AtRunEnd) == o;
      assert o.LeftTape?;
    }
    if LeavesTape(p, s, AtRunEnd) {
      var fuel: nat :| Run(p, s, fuel, AtRunEnd).LeftTape?;
      assert Ends(p, s, AtRunEnd, Run(p, s, fuel, AtRunEnd));
      assert Stops(blocks, m, Image(Run(p, s, fuel, AtRunEnd)));
    }
  }

  /** A complaint is never unfounded: the unfused program left the tape. When no run of moves turns
      around, every departure is also reported. */
  lemma {:induction false} ComplaintsAreFounded(text: string, mem: nat, junk: seq<Byte>, input: seq<Byte>)
    requires IsProgram(text) && |junk| == mem
    ensures Complains(Compiled(text, mem, true), Entry(junk, input)) ==>
              LeavesTape(ProgramOf(text), Fresh(mem, input), AtEveryMove)
    ensures OneWay(ProgramOf(text)) && mem > 0 && LeavesTape(ProgramOf(text), Fresh(mem, input), AtEveryMove) ==>
              Complains(Compiled(text, mem, true), Entry(junk, input))
  {
    var p := ProgramOf(text);
    var s := Fresh(mem, input);
    ComplainsIffRunEndsOffTape(text, mem, junk, input);
    if LeavesTape(p, s, AtRunEnd) {
      var fuel: nat :| Run(p, s, fuel, AtRunEnd).LeftTape?;
      FewerChecks(p, s, fuel, AtRunEnd);
      assert Run(p, s, fuel, AtEveryMove).LeftTape?;
    }
    if OneWay(p) && mem > 0 && LeavesTape(p, s, AtEveryMove) {
      var fuel: nat :| Run(p, s, fuel, AtEveryMove).LeftTape?;
      ParseKeepsSymbols(text);
      OneWayChecks(p, s, fuel);
      assert Run(p, s, fuel, AtRunEnd).LeftTape?;
    }
  }

  /** A run that leaves the tape and comes back is not reported. */
  lemma {:induction false} ReturningMovesGoUnreported()
    ensures IsProgram("<>") && LeavesTape(ProgramOf("<>"), Fresh(1, []), AtEveryMove)
    ensures !Complains(Compiled("<>", 1, true), Entry([0], []))
  {
    var text := "<>";
    assert Parse(text, 2) == Parsed(Empty, 2, false);
    assert Parse(text, 1) == Parsed(Then(Move(1), Empty), 2, false);
    assert Parse(text, 0) == Parsed(Then(Move(-1), Then(Move(1), Empty)), 2, false);
    var p := ProgramOf(text);
    var s := Fresh(1, []);
    assert RunCmd(Move(-1), true, s, 0, AtEveryMove).LeftTape?;
    assert Run(p, s, 0, AtEveryMove).LeftTape?;
    forall fuel: nat
      ensures !Run(p, s, fuel, AtRunEnd).LeftTape?
    {
      var s1 := s.(head := -1);
      assert RunCmd(Move(-1), false, s, fuel, AtRunEnd) == Done(s1);
      assert RunCmd(Move(1), true, s1, fuel, AtRunEnd) == Done(s);
      assert Run(Then(Move(1), Empty), s1, fuel, AtRunEnd) == Done(s);
    }
    ComplainsIffRunEndsOffTape(text, 1, [0], []);
  }

  /** The compiled function is well formed: every block ends in its one terminator, every register has
      one definition that dominates its uses, and the edges of every phi are the predecessors of its
      block. */
  lemma {:induction false} CompiledIsWellFormed(text: string, mem: nat, abc: bool)
    requires IsProgram(text)
    ensures var blocks := Compiled(text, mem, abc);
            && (forall i :: 0 <= i < |blocks| ==> Closed(blocks[i]))
            && UniqueDefinitions(blocks) && PhisMatch(blocks) && Dominated(blocks)
  {
    BlocksClosed(Fuse(ProgramOf(text)), mem, abc);
    FunctionIsSsa(Fuse(ProgramOf(text)), mem, abc);
  }
}
