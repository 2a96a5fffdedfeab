/** The emitted code runs like the program it was emitted for. */
module BrainFSim {
  import opened BrainFSource
  import opened BrainFFuse
  import opened BrainFIR
  import opened BrainFGen

  /** b' is b, or b with more code at its end and more edges into its phis. */
  predicate BlockGrows(b: Block, b': Block) {
    && b.code <= b'.code
    && |b.phis| == |b'.phis|
    && forall k :: 0 <= k < |b.phis| ==>
         b.phis[k].dst == b'.phis[k].dst && b.phis[k].incoming <= b'.phis[k].incoming
  }

  predicate Within(blocks: seq<Block>, final: seq<Block>) {
    |blocks| <= |final| && forall i :: 0 <= i < |blocks| ==> BlockGrows(blocks[i], final[i])
  }

  lemma FrameWithin(g: Builder, g': Builder, final: seq<Block>)
    requires Frame(g, g') && Within(g'.blocks, final)
    ensures Within(g.blocks, final)
  {
    forall i | 0 <= i < |g.blocks|
      ensures BlockGrows(g.blocks[i], final[i])
    {
      assert BlockGrows(g'.blocks[i], final[i]);
    }
  }

  /** A place in the code, and the register that holds the head there. */
  datatype Spot = Spot(block: BlockId, pc: nat, head: Reg)

  /** Where the builder emits next. */
  function SpotOf(g: Builder): Spot
    requires g.Ok()
  {
    Spot(g.cur, |g.blocks[g.cur].code|, g.head)
  }

  /** The machine is about to execute the instruction at the given place, in the state s. */
  predicate At(m: Machine, p: Spot, s: State, abc: bool) {
    && m.Running? && m.c.block == p.block && m.c.pc == p.pc && !m.c.complained
    && p.head in m.c.regs && m.c.regs[p.head] == Ptr(s.head)
    && ARR in m.c.regs && m.c.regs[ARR] == Ptr(0)
    && (abc ==> ARRMAX in m.c.regs && m.c.regs[ARRMAX] == Ptr(|s.tape|))
    && m.c.tape == s.tape && m.c.input == s.input && m.c.output == s.output
  }

  predicate Holds(c: Core, s: State) { c.tape == s.tape && c.input == s.input && c.output == s.output }

  /** The machine has just entered the error block. */
  predicate Caught(m: Machine, s: State) {
    && m.Running? && m.c.block == ABERROR && m.c.pc == 0 && !m.c.complained
    && ARR in m.c.regs && m.c.regs[ARR] == Ptr(0)
    && m.c.tape == s.tape && m.c.output == s.output
  }

  /** The machine did what the program did, and is now at p if the program is done; where the program
      runs out of fuel, the machine is on its way with the same tape, input and output. */
  predicate Follows(o: Outcome, fuel: nat, m: Machine, n: nat, p: Spot, abc: bool) {
    match o
    case Done(s) => At(m, p, s, abc)
    case OffTape(s) => m == Fault(s.tape, s.output)
    case LeftTape(s) => Caught(m, s)
    case Timeout(s) => n >= fuel && m.Running? && Holds(m.c, s)
  }

  /** Following after n1 steps, of which one counts against the fuel. */
  lemma FollowsLater(o: Outcome, fuel: nat, fuel': nat, final: seq<Block>, m: Machine, n1: nat, n2: nat, p: Spot,
                     abc: bool)
    requires Follows(o, fuel, Steps(final, Steps(final, m, n1), n2), n2, p, abc)
    requires fuel' <= fuel + n1
    ensures Follows(o, fuel', Steps(final, m, n1 + n2), n1 + n2, p, abc)
  {
    StepsAdd(final, m, n1, n2);
  }

  function PolicyOf(abc: bool): Policy { if abc then AtRunEnd else AtAccess }

  predicate HasErrorBlock(final: seq<Block>, abc: bool) {
    abc ==> ABERROR < |final| && final[ABERROR] == Block([], [Puts, Br(END)])
  }

  /** One step at a place inside code that was emitted. */
  lemma StepAt(blocks: seq<Block>, final: seq<Block>, m: Machine, b: BlockId, pc: nat)
    requires Within(blocks, final) && b < |blocks| && pc < |blocks[b].code|
    requires m.Running? && m.c.block == b && m.c.pc == pc
    ensures Step(final, m) == Exec(final, blocks[b].code[pc], m.c)
  {
    assert BlockGrows(blocks[b], final[b]);
  }

  lemma AtHolds(m: Machine, p: Spot, s: State, abc: bool)
    requires At(m, p, s, abc)
    ensures m.Running? && Holds(m.c, s)
  {
  }

  lemma Steps3(final: seq<Block>, m: Machine)
    ensures Steps(final, m, 3) == Step(final, Step(final, Step(final, m)))
    ensures Steps(final, m, 2) == Step(final, Step(final, m))
    ensures Steps(final, m, 1) == Step(final, m)
  {
    var m1 := Step(final, m);
    var m2 := Step(final, m1);
    assert Steps(final, m, 3) == Steps(final, m1, 2) == Steps(final, m2, 1) == Steps(final, Step(final, m2), 0);
    assert Steps(final, m, 2) == Steps(final, m1, 1) == Steps(final, m2, 0);
    assert Steps(final, m, 1) == Steps(final, m1, 0);
  }

  /** Emitted instructions stay where they were emitted. */
  lemma EmittedThree(g: Builder, i1: Instr, i2: Instr, i3: Instr, regs: nat, final: seq<Block>)
    requires g.Ok() && Within(g.Emit([i1, i2, i3], regs).blocks, final)
    ensures var pc := |g.blocks[g.cur].code|;
            Has(final, g.cur, pc, i1) && Has(final, g.cur, pc + 1, i2) && Has(final, g.cur, pc + 2, i3)
    ensures SpotOf(g.Emit([i1, i2, i3], regs)) == Spot(g.cur, |g.blocks[g.cur].code| + 3, g.head)
  {
    var g' := g.Emit([i1, i2, i3], regs);
    assert BlockGrows(g'.blocks[g.cur], final[g.cur]);
    var pc := |g.blocks[g.cur].code|;
    assert final[g.cur].code[pc] == g'.blocks[g.cur].code[pc] == [i1, i2, i3][0];
    assert final[g.cur].code[pc + 1] == g'.blocks[g.cur].code[pc + 1] == [i1, i2, i3][1];
    assert final[g.cur].code[pc + 2] == g'.blocks[g.cur].code[pc + 2] == [i1, i2, i3][2];
  }

  // ----- single instructions -----

  lemma StepHas(final: seq<Block>, c: Core, i: Instr)
    requires Has(final, c.block, c.pc, i)
    ensures Step(final, Running(c)) == Exec(final, i, c)
  {
  }

  lemma OnGetChar(final: seq<Block>, c: Core, r: Reg)
    requires Has(final, c.block, c.pc, GetChar(r))
    ensures Step(final, Running(c)) == Running(
              if c.input == [] then c.(pc := c.pc + 1, regs := c.regs[r := I32(-1)])
              else c.(pc := c.pc + 1, input := c.input[1..], regs := c.regs[r := I32(c.input[0])]))
  {
    StepHas(final, c, GetChar(r));
  }

  lemma OnGep(final: seq<Block>, c: Core, r: Reg, ptr: Reg, k: int)
    requires Has(final, c.block, c.pc, Gep(r, ptr, k)) && c.HasPtr(ptr)
    ensures Step(final, Running(c)) == Running(c.(pc := c.pc + 1, regs := c.regs[r := Ptr(c.regs[ptr].off + k)]))
  {
    StepHas(final, c, Gep(r, ptr, k));
  }

  lemma OnICmpEq0(final: seq<Block>, c: Core, r: Reg, from: Reg)
    requires Has(final, c.block, c.pc, ICmpEq0(r, from)) && c.HasI8(from)
    ensures Step(final, Running(c)) == Running(c.(pc := c.pc + 1, regs := c.regs[r := I1(c.regs[from].b == 0)]))
  {
    StepHas(final, c, ICmpEq0(r, from));
  }

  lemma OnTrunc8(final: seq<Block>, c: Core, r: Reg, from: Reg)
    requires Has(final, c.block, c.pc, Trunc8(r, from)) && c.HasI32(from)
    ensures Step(final, Running(c)) == Running(c.(pc := c.pc + 1, regs := c.regs[r := I8(c.regs[from].w % 256)]))
  {
    StepHas(final, c, Trunc8(r, from));
  }

  lemma OnStore(final: seq<Block>, c: Core, from: Reg, ptr: Reg)
    requires Has(final, c.block, c.pc, Store(from, ptr)) && c.HasI8(from) && c.HasPtr(ptr)
    ensures Step(final, Running(c)) ==
            if 0 <= c.regs[ptr].off < |c.tape|
            then Running(c.(pc := c.pc + 1, tape := c.tape[c.regs[ptr].off := c.regs[from].b]))
            else Fault(c.tape, c.output)
  {
    StepHas(final, c, Store(from, ptr));
  }

  lemma OnLoad(final: seq<Block>, c: Core, r: Reg, ptr: Reg)
    requires Has(final, c.block, c.pc, Load(r, ptr)) && c.HasPtr(ptr)
    ensures Step(final, Running(c)) ==
            if 0 <= c.regs[ptr].off < |c.tape|
            then Running(c.(pc := c.pc + 1, regs := c.regs[r := I8(c.tape[c.regs[ptr].off])]))
            else Fault(c.tape, c.output)
  {
    StepHas(final, c, Load(r, ptr));
  }

  lemma OnSExt32(final: seq<Block>, c: Core, r: Reg, from: Reg)
    requires Has(final, c.block, c.pc, SExt32(r, from)) && c.HasI8(from)
    ensures Step(final, Running(c)) == Running(c.(pc := c.pc + 1,
              regs := c.regs[r := I32(if c.regs[from].b < 128 then c.regs[from].b else c.regs[from].b - 256)]))
  {
    StepHas(final, c, SExt32(r, from));
  }

  lemma OnPutChar(final: seq<Block>, c: Core, from: Reg)
    requires Has(final, c.block, c.pc, PutChar(from)) && c.HasI32(from)
    ensures Step(final, Running(c)) == Running(c.(pc := c.pc + 1, output := c.output + [c.regs[from].w % 256]))
  {
    StepHas(final, c, PutChar(from));
  }

  lemma OnAdd8(final: seq<Block>, c: Core, r: Reg, from: Reg, k: Byte)
    requires Has(final, c.block, c.pc, Add8(r, from, k)) && c.HasI8(from)
    ensures Step(final, Running(c)) == Running(c.(pc := c.pc + 1, regs := c.regs[r := I8((c.regs[from].b + k) % 256)]))
  {
    StepHas(final, c, Add8(r, from, k));
  }

  lemma OnCompare(final: seq<Block>, c: Core, r: Reg, x: Reg, y: Reg, uge: bool)
    requires Has(final, c.block, c.pc, if uge then ICmpUge(r, x, y) else ICmpUlt(r, x, y)) && c.HasPtr(x) && c.HasPtr(y)
    ensures Step(final, Running(c)) ==
            Running(c.(pc := c.pc + 1, regs := c.regs[r := I1((c.regs[x].off >= c.regs[y].off) == uge)]))
  {
    StepHas(final, c, if uge then ICmpUge(r, x, y) else ICmpUlt(r, x, y));
  }

  lemma OnOr1(final: seq<Block>, c: Core, r: Reg, x: Reg, y: Reg)
    requires Has(final, c.block, c.pc, Or1(r, x, y)) && c.HasI1(x) && c.HasI1(y)
    ensures Step(final, Running(c)) == Running(c.(pc := c.pc + 1, regs := c.regs[r := I1(c.regs[x].t || c.regs[y].t)]))
  {
    StepHas(final, c, Or1(r, x, y));
  }

  /** A branch between two blocks without phis. */
  lemma OnCondBr(final: seq<Block>, c: Core, r: Reg, b1: BlockId, b2: BlockId)
    requires Has(final, c.block, c.pc, CondBr(r, b1, b2)) && c.HasI1(r)
    requires b1 < |final| && final[b1].phis == [] && b2 < |final| && final[b2].phis == []
    ensures Step(final, Running(c)) == Running(c.(block := if c.regs[r].t then b1 else b2, pc := 0))
  {
    StepHas(final, c, CondBr(r, b1, b2));
  }

  // ----- the code of each command -----

  lemma {:induction false} ExecRead(final: seq<Block>, p: Spot, r: Reg, s: State, abc: bool, m: Machine)
      returns (n: nat)
    requires Has(final, p.block, p.pc, GetChar(r)) && Has(final, p.block, p.pc + 1, Trunc8(r + 1, r))
    requires Has(final, p.block, p.pc + 2, Store(r + 1, p.head))
    requires At(m, p, s, abc) && p.head < r && 1 < r
    ensures var m' := Steps(final, m, n);
            if s.OnTape() then At(m', p.(pc := p.pc + 3), s.DoRead(), abc) else m' == Fault(s.tape, s.output)
  {
    hide Step, Steps, Has;
    Steps3(final, m);
    n := 3;
    OnGetChar(final, m.c, r);
    var m1 := Step(final, m);
    OnTrunc8(final, m1.c, r + 1, r);
    var m2 := Step(final, m1);
    OnStore(final, m2.c, r + 1, p.head);
  }

  lemma {:induction false} ExecWrite(final: seq<Block>, p: Spot, r: Reg, s: State, abc: bool, m: Machine)
      returns (n: nat)
    requires Has(final, p.block, p.pc, Load(r, p.head)) && Has(final, p.block, p.pc + 1, SExt32(r + 1, r))
    requires Has(final, p.block, p.pc + 2, PutChar(r + 1))
    requires At(m, p, s, abc) && p.head < r && 1 < r
    ensures var m' := Steps(final, m, n);
            if s.OnTape() then At(m', p.(pc := p.pc + 3), s.DoWrite(), abc) else m' == Fault(s.tape, s.output)
  {
    hide Step, Steps, Has;
    Steps3(final, m);
    OnLoad(final, m.c, r, p.head);
    if s.OnTape() {
      var m1 := Step(final, m);
      OnSExt32(final, m1.c, r + 1, r);
      var m2 := Step(final, m1);
      OnPutChar(final, m2.c, r + 1);
      n := 3;
    } else {
      n := 1;
    }
  }

  lemma {:induction false} ExecChange(final: seq<Block>, p: Spot, r: Reg, k: Byte, s: State, abc: bool, m: Machine)
      returns (n: nat)
    requires Has(final, p.block, p.pc, Load(r, p.head)) && Has(final, p.block, p.pc + 1, Add8(r + 1, r, k))
    requires Has(final, p.block, p.pc + 2, Store(r + 1, p.head))
    requires At(m, p, s, abc) && p.head < r && 1 < r
    ensures var m' := Steps(final, m, n);
            if s.OnTape() then At(m', p.(pc := p.pc + 3), s.Put((s.Cell() + k) % 256), abc)
              else m' == Fault(s.tape, s.output)
  {
    hide Step, Steps, Has;
    Steps3(final, m);
    OnLoad(final, m.c, r, p.head);
    if s.OnTape() {
      var m1 := Step(final, m);
      OnAdd8(final, m1.c, r + 1, r, k);
      var m2 := Step(final, m1);
      OnStore(final, m2.c, r + 1, p.head);
      n := 3;
    } else {
      n := 1;
    }
  }

  lemma ReducedConstant(a: int, k: int)
    ensures (a + k % 256) % 256 == (a + k) % 256
  {
  }

  lemma {:induction false} SimRead(g: Builder, final: seq<Block>, s: State, check: bool, fuel: nat, abc: bool,
                                   m: Machine) returns (n: nat)
    requires Ready(g) && Within(GenCmd(Read, g, abc).blocks, final) && At(m, SpotOf(g), s, abc)
    ensures Follows(RunCmd(Read, check, s, fuel, PolicyOf(abc)), fuel, Steps(final, m, n), n,
                    SpotOf(GenCmd(Read, g, abc)), abc)
  {
    hide At, Has, Within, Steps;
    EmittedThree(g, GetChar(g.next), Trunc8(g.next + 1, g.next), Store(g.next + 1, g.head), 2, final);
    n := ExecRead(final, SpotOf(g), g.next, s, abc, m);
  }

  lemma {:induction false} SimWrite(g: Builder, final: seq<Block>, s: State, check: bool, fuel: nat, abc: bool,
                                    m: Machine) returns (n: nat)
    requires Ready(g) && Within(GenCmd(Write, g, abc).blocks, final) && At(m, SpotOf(g), s, abc)
    ensures Follows(RunCmd(Write, check, s, fuel, PolicyOf(abc)), fuel, Steps(final, m, n), n,
                    SpotOf(GenCmd(Write, g, abc)), abc)
  {
    hide At, Has, Within, Steps;
    EmittedThree(g, Load(g.next, g.head), SExt32(g.next + 1, g.next), PutChar(g.next + 1), 2, final);
    n := ExecWrite(final, SpotOf(g), g.next, s, abc, m);
  }

  lemma {:induction false} SimChange(k: int, g: Builder, final: seq<Block>, s: State, check: bool, fuel: nat, abc: bool,
                                     m: Machine) returns (n: nat)
    requires Ready(g) && Within(GenCmd(Change(k), g, abc).blocks, final) && At(m, SpotOf(g), s, abc)
    ensures Follows(RunCmd(Change(k), check, s, fuel, PolicyOf(abc)), fuel, Steps(final, m, n), n,
                    SpotOf(GenCmd(Change(k), g, abc)), abc)
  {
    hide At, Has, Within, Steps;
    EmittedThree(g, Load(g.next, g.head), Add8(g.next + 1, g.next, k % 256), Store(g.next + 1, g.head), 2, final);
    n := ExecChange(final, SpotOf(g), g.next, k % 256, s, abc, m);
    if s.OnTape() {
      ReducedConstant(s.Cell(), k);
    }
  }

  /** Moving the head: without bounds checks one instruction, with them five, the last of which
      branches to the error block exactly when the head is off the tape. */
  lemma {:induction false} SimMove(k: int, g: Builder, final: seq<Block>, s: State, fuel: nat, abc: bool, m: Machine)
      returns (n: nat)
    requires Ready(g) && Within(GenCmd(Move(k), g, abc).blocks, final) && At(m, SpotOf(g), s, abc)
    requires HasErrorBlock(final, abc)
    ensures Follows(RunCmd(Move(k), abc, s, fuel, PolicyOf(abc)), fuel, Steps(final, m, n), n,
                    SpotOf(GenCmd(Move(k), g, abc)), abc)
  {
    hide At, Has, Within, Step, Steps;
    n := 1;
    MoveEmitted(k, g, final, abc);
    ExecMove(final, SpotOf(g), g.next, k, s, abc, m);
    if abc {
      var g1 := g.Emit([Gep(g.next, g.head, k)], 1).(head := g.next);
      var n' := SimCheck(g1, final, s.(head := s.head + k), Steps(final, m, 1));
      StepsAdd(final, m, 1, n');
      n := 1 + n';
    }
  }

  lemma {:induction false} MoveEmitted(k: int, g: Builder, final: seq<Block>, abc: bool)
    requires Ready(g) && Within(GenCmd(Move(k), g, abc).blocks, final)
    ensures var g1 := g.Emit([Gep(g.next, g.head, k)], 1).(head := g.next);
            && Ready(g1) && Has(final, g.cur, |g.blocks[g.cur].code|, Gep(g.next, g.head, k))
            && SpotOf(g1) == Spot(g.cur, |g.blocks[g.cur].code| + 1, g.next)
  {
    var g' := GenCmd(Move(k), g, abc);
    var pc := |g.blocks[g.cur].code|;
    assert g'.blocks[g.cur].code[pc] == Gep(g.next, g.head, k);
    assert BlockGrows(g'.blocks[g.cur], final[g.cur]);
  }

  lemma {:induction false} ExecMove(final: seq<Block>, p: Spot, r: Reg, k: int, s: State, abc: bool, m: Machine)
    requires Has(final, p.block, p.pc, Gep(r, p.head, k)) && At(m, p, s, abc) && p.head < r && 1 < r
    ensures At(Steps(final, m, 1), Spot(p.block, p.pc + 1, r), s.(head := s.head + k), abc)
  {
    hide Step, Steps, Has;
    Steps3(final, m);
    OnGep(final, m.c, r, p.head, k);
  }

  lemma {:induction false} ExecCheck(final: seq<Block>, p: Spot, r: Reg, next: BlockId, s: State, m: Machine)
    requires Has(final, p.block, p.pc, ICmpUge(r, p.head, ARRMAX))
             && Has(final, p.block, p.pc + 1, ICmpUlt(r + 1, p.head, ARR))
    requires Has(final, p.block, p.pc + 2, Or1(r + 2, r, r + 1))
             && Has(final, p.block, p.pc + 3, CondBr(r + 2, ABERROR, next))
    requires next < |final| && final[next].phis == [] && HasErrorBlock(final, true)
    requires At(m, p, s, true) && p.head < r && 1 < r
    ensures var m' := Steps(final, m, 4);
            if s.OnTape() then At(m', Spot(next, 0, p.head), s, true) else Caught(m', s)
  {
    hide Step, Steps, Has;
    Steps3(final, m);
    StepsAdd(final, m, 3, 1);
    var m3 := Steps(final, m, 3);
    Steps3(final, m3);
    OnCompare(final, m.c, r, p.head, ARRMAX, true);
    var m1 := Step(final, m);
    OnCompare(final, m1.c, r + 1, p.head, ARR, false);
    var m2 := Step(final, m1);
    OnOr1(final, m2.c, r + 2, r, r + 1);
    OnCondBr(final, m3.c, r + 2, ABERROR, next);
  }

  lemma {:induction false} SimCheck(g: Builder, final: seq<Block>, s: State, m: Machine) returns (n: nat)
    requires Ready(g) && Within(GenCheck(g).blocks, final) && At(m, SpotOf(g), s, true)
    requires HasErrorBlock(final, true)
    ensures if s.OnTape() then At(Steps(final, m, n), SpotOf(GenCheck(g)), s, true)
            else Caught(Steps(final, m, n), s)
  {
    CheckEmitted(g, final);
    ExecCheck(final, SpotOf(g), g.next, |g.blocks|, s, m);
    n := 4;
  }

  lemma {:induction false} CheckEmitted(g: Builder, final: seq<Block>)
    requires g.Ok() && Within(GenCheck(g).blocks, final)
    ensures var r := g.next;
            var pc := |g.blocks[g.cur].code|;
            && Has(final, g.cur, pc, ICmpUge(r, g.head, ARRMAX))
            && Has(final, g.cur, pc + 1, ICmpUlt(r + 1, g.head, ARR))
            && Has(final, g.cur, pc + 2, Or1(r + 2, r, r + 1))
            && Has(final, g.cur, pc + 3, CondBr(r + 2, ABERROR, |g.blocks|))
            && |g.blocks| < |final| && final[|g.blocks|].phis == []
            && SpotOf(GenCheck(g)) == Spot(|g.blocks|, 0, g.head)
  {
    var g' := GenCheck(g);
    var pc := |g.blocks[g.cur].code|;
    var code := g'.blocks[g.cur].code;
    assert code[pc] == ICmpUge(g.next, g.head, ARRMAX) && code[pc + 1] == ICmpUlt(g.next + 1, g.head, ARR)
        && code[pc + 2] == Or1(g.next + 2, g.next, g.next + 1)
        && code[pc + 3] == CondBr(g.next + 2, ABERROR, |g.blocks|);
    assert BlockGrows(g'.blocks[g.cur], final[g.cur]);
    assert BlockGrows(g'.blocks[|g.blocks|], final[|g.blocks|]);
  }

  // ----- loops -----

  /** A loop in the finished function: where control comes from, where its body starts and ends,
      and where it goes on. */
  datatype LoopCode = LoopCode(
    entry: BlockId, entryPc: nat, entryHead: Reg,  // the branch into the loop
    test: BlockId, phi: Reg,                       // the test block; the body is the next one
    last: BlockId, lastPc: nat, lastHead: Reg,     // the branch at the end of the body
    exit: BlockId, tmp: Reg)
  {
    function From(): Spot { Spot(entry, entryPc, entryHead) }

    function Test(): Spot { Spot(test, 0, phi) }

    function Body(): Spot { Spot(test + 1, 0, phi) }

    function End(): Spot { Spot(last, lastPc, lastHead) }

    function Exit(): Spot { Spot(exit, 0, tmp + 2) }

    predicate In(final: seq<Block>) {
      && Has(final, entry, entryPc, Br(test))
      && Has(final, last, lastPc, Br(test))
      && Has(final, test, 0, Load(tmp, phi))
      && Has(final, test, 1, ICmpEq0(tmp + 1, tmp))
      && Has(final, test, 2, CondBr(tmp + 1, exit, test + 1))
      && HasPhi(final, test, phi) && entry != last
      && [Edge(entry, entryHead), Edge(last, lastHead)] <= final[test].phis[0].incoming
      && test + 1 < |final| && final[test + 1].phis == []
      && HasPhi(final, exit, tmp + 2)
      && [Edge(test, phi)] <= final[exit].phis[0].incoming
      && 1 < phi < tmp
    }
  }

  predicate Has(final: seq<Block>, b: BlockId, pc: nat, i: Instr) {
    b < |final| && pc < |final[b].code| && final[b].code[pc] == i
  }

  predicate HasPhi(final: seq<Block>, b: BlockId, r: Reg) {
    b < |final| && |final[b].phis| == 1 && final[b].phis[0].dst == r
  }

  /** The loop that is opened at g and whose body ends at g2. */
  function CodeOf(g: Builder, g2: Builder): LoopCode
    requires g.Ok() && g2.Ok()
  {
    LoopCode(g.cur, |g.blocks[g.cur].code|, g.head, |g.blocks|, g.next,
             g2.cur, |g2.blocks[g2.cur].code|, g2.head, |g2.blocks|, g2.next)
  }

  /** What the code between opening and closing a loop leaves of its opening. */
  lemma {:induction false} LoopOpened(g: Builder, g2: Builder)
    requires Ready(g) && Frame(OpenLoop(g), g2)
    ensures var test := |g.blocks|;
            && test + 1 < |g2.blocks| && g.cur != g2.cur && test != g2.cur && g.next < g2.next
            && g2.blocks[test] == Block([Phi(g.next, [Edge(g.cur, g.head)])], [])
            && g2.blocks[g.cur].code == g.blocks[g.cur].code + [Br(test)]
            && g2.blocks[test + 1].phis == []
  {
  }

  lemma {:induction false} LoopEmitted(g: Builder, g2: Builder, final: seq<Block>)
    requires Ready(g) && Ready(g2) && Frame(OpenLoop(g), g2)
    requires Within(CloseLoop(g2, g.next, |g.blocks|, |g.blocks| + 1).blocks, final)
    ensures CodeOf(g, g2).In(final) && Within(g2.blocks, final)
  {
    var test := |g.blocks|;
    LoopOpened(g, g2);
    LoopClosed(g2, g.next, test, final);
    assert Has(final, g.cur, |g.blocks[g.cur].code|, Br(test)) by {
      assert BlockGrows(g2.blocks[g.cur], final[g.cur]);
    }
    assert final[test + 1].phis == [] by {
      assert BlockGrows(g2.blocks[test + 1], final[test + 1]);
    }
  }

  /** Everything about a loop in the finished function, in terms of places. */
  lemma {:induction false} LoopPlaces(b: Prog, g: Builder, final: seq<Block>, abc: bool)
    requires Ready(g) && Within(GenCmd(Loop(b), g, abc).blocks, final)
    ensures var g1 := OpenLoop(g);
            var g2 := Gen(b, g1, abc);
            var l := CodeOf(g, g2);
            && Ready(g1) && Within(g2.blocks, final) && l.In(final)
            && SpotOf(g) == l.From() && SpotOf(g1) == l.Body() && SpotOf(g2) == l.End()
            && SpotOf(GenCmd(Loop(b), g, abc)) == l.Exit()
  {
    GenFrame(b, OpenLoop(g), abc);
    LoopEmitted(g, Gen(b, OpenLoop(g), abc), final);
  }

  /** What closing a loop adds, in its own blocks. */
  lemma {:induction false} LoopAdds(g2: Builder, phi: Reg, test: BlockId)
    requires g2.Ok() && test < |g2.blocks| && test != g2.cur
    requires |g2.blocks[test].phis| == 1 && |g2.blocks[test].phis[0].incoming| == 1 && g2.blocks[test].code == []
    ensures var blocks := CloseLoop(g2, phi, test, test + 1).blocks;
            var exit := |g2.blocks|;
            && (forall i :: 0 <= i < |g2.blocks| ==> BlockGrows(g2.blocks[i], blocks[i]))
            && blocks[g2.cur].code == g2.blocks[g2.cur].code + [Br(test)]
            && blocks[test].code
               == [Load(g2.next, phi), ICmpEq0(g2.next + 1, g2.next), CondBr(g2.next + 1, exit, test + 1)]
            && blocks[test].phis == [Phi(g2.blocks[test].phis[0].dst,
                                         g2.blocks[test].phis[0].incoming + [Edge(g2.cur, g2.head)])]
            && blocks[exit].phis == [Phi(g2.next + 2, [Edge(test, phi)])]
  {
  }

  lemma {:induction false} LoopClosed(g2: Builder, phi: Reg, test: BlockId, final: seq<Block>)
    requires g2.Ok() && test < |g2.blocks| && test != g2.cur
    requires |g2.blocks[test].phis| == 1 && |g2.blocks[test].phis[0].incoming| == 1 && g2.blocks[test].code == []
    requires Within(CloseLoop(g2, phi, test, test + 1).blocks, final)
    ensures Within(g2.blocks, final)
    ensures Has(final, g2.cur, |g2.blocks[g2.cur].code|, Br(test))
    ensures Has(final, test, 0, Load(g2.next, phi)) && Has(final, test, 1, ICmpEq0(g2.next + 1, g2.next))
    ensures Has(final, test, 2, CondBr(g2.next + 1, |g2.blocks|, test + 1))
    ensures HasPhi(final, test, g2.blocks[test].phis[0].dst)
    ensures g2.blocks[test].phis[0].incoming + [Edge(g2.cur, g2.head)] <= final[test].phis[0].incoming
    ensures HasPhi(final, |g2.blocks|, g2.next + 2)
    ensures [Edge(test, phi)] <= final[|g2.blocks|].phis[0].incoming
  {
    var blocks := CloseLoop(g2, phi, test, test + 1).blocks;
    LoopAdds(g2, phi, test);
    WithinFinal(g2.blocks, blocks, final, g2.cur, test, |g2.blocks|);
  }

  lemma WithinFinal(blocks: seq<Block>, blocks': seq<Block>, final: seq<Block>, b1: BlockId, b2: BlockId, b3: BlockId)
    requires |blocks| <= |blocks'| && (forall i :: 0 <= i < |blocks| ==> BlockGrows(blocks[i], blocks'[i]))
    requires Within(blocks', final) && b1 < |blocks'| && b2 < |blocks'| && b3 < |blocks'|
    ensures Within(blocks, final)
    ensures BlockGrows(blocks'[b1], final[b1]) && BlockGrows(blocks'[b2], final[b2])
            && BlockGrows(blocks'[b3], final[b3])
  {
    forall i | 0 <= i < |blocks|
      ensures BlockGrows(blocks[i], final[i])
    {
      assert BlockGrows(blocks'[i], final[i]);
    }
  }

  /** Branching to a block with one phi, along one of its first two edges. */
  lemma JumpToPhi(final: seq<Block>, c: Core, target: BlockId, phi: Reg, e: Edge)
    requires HasPhi(final, target, phi) && e.from == c.block && e.value in c.regs
    requires var edges := final[target].phis[0].incoming;
             |edges| >= 1 && (edges[0] == e || (|edges| >= 2 && edges[0].from != c.block && edges[1] == e))
    ensures Jump(final, c, target) == Running(c.(block := target, pc := 0, regs := c.regs[phi := c.regs[e.value]]))
  {
    var edges := final[target].phis[0].incoming;
    if edges[0] != e {
      assert edges[1..][0] == e;
      assert Incoming(edges[1..], c.block, c.regs) == [c.regs[e.value]];
    }
    var v := Incoming(edges, c.block, c.regs);
    assert v == [c.regs[e.value]];
    var phis := final[target].phis;
    assert phis[1..] == [];
    var c' := c.(block := target, pc := 0);
    assert EnterPhis(phis, c, c') == EnterPhis([], c, c'.(regs := c'.regs[phi := v[0]]));
  }

  /** Entering the test block, from before the loop or from the end of its body. */
  lemma {:induction false} EnterJump(final: seq<Block>, l: LoopCode, s: State, abc: bool, m: Machine)
    requires l.In(final) && (At(m, l.From(), s, abc) || At(m, l.End(), s, abc))
    ensures Step(final, m) == Jump(final, m.c, l.test)
  {
    hide Jump;
  }

  lemma {:induction false} SimEnter(final: seq<Block>, l: LoopCode, s: State, abc: bool, m: Machine)
    requires l.In(final) && (At(m, l.From(), s, abc) || At(m, l.End(), s, abc))
    ensures At(Steps(final, m, 1), l.Test(), s, abc)
  {
    hide Steps, Step, Jump;
    Steps3(final, m);
    EnterJump(final, l, s, abc, m);
    var e := if m.c.block == l.entry then Edge(l.entry, l.entryHead) else Edge(l.last, l.lastHead);
    assert [Edge(l.entry, l.entryHead), Edge(l.last, l.lastHead)][0] == final[l.test].phis[0].incoming[0];
    assert [Edge(l.entry, l.entryHead), Edge(l.last, l.lastHead)][1] == final[l.test].phis[0].incoming[1];
    JumpToPhi(final, m.c, l.test, l.phi, e);
  }

  /** The test: out of the loop on zero, into the body otherwise. */
  lemma {:induction false} SimTest(final: seq<Block>, l: LoopCode, s: State, abc: bool, m: Machine) returns (n: nat)
    requires l.In(final) && At(m, l.Test(), s, abc)
    ensures n > 0
    ensures var m' := Steps(final, m, n);
            if !s.OnTape() then m' == Fault(s.tape, s.output)
            else if s.Cell() == 0 then At(m', l.Exit(), s, abc)
            else At(m', l.Body(), s, abc)
  {
    hide Step, Steps, Has;
    Steps3(final, m);
    OnLoad(final, m.c, l.tmp, l.phi);
    if s.OnTape() {
      var m1 := Step(final, m);
      OnICmpEq0(final, m1.c, l.tmp + 1, l.tmp);
      var m2 := Step(final, m1);
      assert m2.c == m.c.(pc := 2, regs := m.c.regs[l.tmp := I8(s.Cell())][l.tmp + 1 := I1(s.Cell() == 0)]);
      StepHas(final, m2.c, CondBr(l.tmp + 1, l.exit, l.test + 1));
      if s.Cell() == 0 {
        TakeExit(final, l, m2.c);
      } else {
        assert Step(final, m2) == Jump(final, m2.c, l.test + 1) == Running(m2.c.(block := l.test + 1, pc := 0));
      }
      n := 3;
    } else {
      n := 1;
    }
  }

  lemma TakeExit(final: seq<Block>, l: LoopCode, c: Core)
    requires l.In(final) && c.block == l.test && l.phi in c.regs
    ensures Jump(final, c, l.exit) == Running(c.(block := l.exit, pc := 0, regs := c.regs[l.tmp + 2 := c.regs[l.phi]]))
  {
    assert [Edge(l.test, l.phi)][0] == final[l.exit].phis[0].incoming[0];
    JumpToPhi(final, c, l.exit, l.tmp + 2, Edge(l.test, l.phi));
  }

  lemma {:induction false} SimProg(p: Prog, g: Builder, final: seq<Block>, s: State, fuel: nat, abc: bool, m: Machine)
      returns (n: nat)
    requires Ready(g) && Within(Gen(p, g, abc).blocks, final) && At(m, SpotOf(g), s, abc)
    requires HasErrorBlock(final, abc) && Maximal(p)
    ensures Follows(Run(p, s, fuel, PolicyOf(abc)), fuel, Steps(final, m, n), n, SpotOf(Gen(p, g, abc)), abc)
    decreases fuel, p, 0
  {
    match p
    case Empty =>
      n := 0;
    case Then(c, rest) =>
      var policy := PolicyOf(abc);
      var g1 := GenCmd(c, g, abc);
      GenCmdFrame(c, g, abc);
      GenFrame(rest, g1, abc);
      FrameWithin(g1, Gen(rest, g1, abc), final);
      n := SimCmd(c, Checks(policy, rest), g, final, s, fuel, abc, m);
      var o := RunCmd(c, Checks(policy, rest), s, fuel, policy);
      if o.Done? {
        var n' := SimProg(rest, g1, final, o.s, fuel, abc, Steps(final, m, n));
        StepsAdd(final, m, n, n');
        n := n + n';
      }
  }

  lemma {:induction false} SimCmd(c: Cmd, check: bool, g: Builder, final: seq<Block>, s: State, fuel: nat, abc: bool,
                                  m: Machine) returns (n: nat)
    requires Ready(g) && Within(GenCmd(c, g, abc).blocks, final) && At(m, SpotOf(g), s, abc)
    requires HasErrorBlock(final, abc) && (c.Move? ==> check == abc) && (c.Loop? ==> Maximal(c.body))
    ensures Follows(RunCmd(c, check, s, fuel, PolicyOf(abc)), fuel, Steps(final, m, n), n, SpotOf(GenCmd(c, g, abc)),
                    abc)
    decreases fuel, c, 1
  {
    match c
    case Read => n := SimRead(g, final, s, check, fuel, abc, m);
    case Write => n := SimWrite(g, final, s, check, fuel, abc, m);
    case Change(k) => n := SimChange(k, g, final, s, check, fuel, abc, m);
    case Move(k) => n := SimMove(k, g, final, s, fuel, abc, m);
    case Loop(b) => n := SimLoopCmd(b, check, g, final, s, fuel, abc, m);
  }

  lemma {:induction false} SimLoopCmd(b: Prog, check: bool, g: Builder, final: seq<Block>, s: State, fuel: nat,
                                      abc: bool, m: Machine) returns (n: nat)
    requires Ready(g) && Within(GenCmd(Loop(b), g, abc).blocks, final) && At(m, SpotOf(g), s, abc)
    requires HasErrorBlock(final, abc) && Maximal(b)
    ensures Follows(RunCmd(Loop(b), check, s, fuel, PolicyOf(abc)), fuel, Steps(final, m, n), n,
                    SpotOf(GenCmd(Loop(b), g, abc)), abc)
    decreases fuel, Loop(b), 0
  {
    hide At, Within, LoopCode.In, Holds, Caught, HasErrorBlock, Steps;
    LoopPlaces(b, g, final, abc);
    var l := CodeOf(g, Gen(b, OpenLoop(g), abc));
    SimEnter(final, l, s, abc, m);
    n := SimLoop(b, check, OpenLoop(g), l, final, s, fuel, abc, Steps(final, m, 1));
    StepsAdd(final, m, 1, n);
    n := 1 + n;
  }

  /** Once through the body and back to the test. */
  lemma {:induction false} SimRound(b: Prog, g1: Builder, l: LoopCode, final: seq<Block>, s: State, fuel: nat,
                                    abc: bool, m: Machine) returns (n: nat)
    requires Ready(g1) && Within(Gen(b, g1, abc).blocks, final) && l.In(final)
    requires SpotOf(g1) == l.Body() && SpotOf(Gen(b, g1, abc)) == l.End()
    requires At(m, l.Test(), s, abc) && s.OnTape() && s.Cell() != 0
    requires HasErrorBlock(final, abc) && Maximal(b)
    ensures n > 0 && Follows(Run(b, s, fuel, PolicyOf(abc)), fuel, Steps(final, m, n), n, l.Test(), abc)
    decreases fuel, b, 1
  {
    hide At, Within, LoopCode.In, Holds, Caught, Ready, HasErrorBlock, Steps;
    var o := Run(b, s, fuel, PolicyOf(abc));
    n := SimTest(final, l, s, abc, m);
    var n1 := SimProg(b, g1, final, s, fuel, abc, Steps(final, m, n));
    if o.Done? {
      SimEnter(final, l, o.s, abc, Steps(final, Steps(final, m, n), n1));
      StepsAdd(final, Steps(final, m, n), n1, 1);
      n1 := n1 + 1;
    }
    FollowsLater(o, fuel, fuel, final, m, n, n1, l.Test(), abc);
    n := n + n1;
  }

  /** From the test block on. */
  lemma {:induction false} SimLoop(b: Prog, check: bool, g1: Builder, l: LoopCode, final: seq<Block>, s: State,
                                   fuel: nat, abc: bool, m: Machine) returns (n: nat)
    requires Ready(g1) && Within(Gen(b, g1, abc).blocks, final) && l.In(final)
    requires SpotOf(g1) == l.Body() && SpotOf(Gen(b, g1, abc)) == l.End()
    requires At(m, l.Test(), s, abc)
    requires HasErrorBlock(final, abc) && Maximal(b)
    ensures Follows(RunCmd(Loop(b), check, s, fuel, PolicyOf(abc)), fuel, Steps(final, m, n), n, l.Exit(), abc)
    decreases fuel, b, 2
  {
    hide At, Within, LoopCode.In, Holds, Caught, Ready, HasErrorBlock, Steps;
    if s.OnTape() && s.Cell() != 0 {
      n := SimRound(b, g1, l, final, s, fuel, abc, m);
      var o := Run(b, s, fuel, PolicyOf(abc));
      if o.Done? && fuel > 0 {
        var n2 := SimLoop(b, check, g1, l, final, o.s, fuel - 1, abc, Steps(final, m, n));
        var o2 := RunCmd(Loop(b), check, o.s, fuel - 1, PolicyOf(abc));
        FollowsLater(o2, fuel - 1, fuel, final, m, n, n2, l.Exit(), abc);
        n := n + n2;
      } else if o.Done? {
        AtHolds(Steps(final, m, n), l.Test(), o.s, abc);
      }
    } else {
      n := SimTest(final, l, s, abc, m);
    }
  }
}
