/** The part of the LLVM instruction set that the BrainF compiler emits, and what it does. */
module BrainFIR {
  import opened BrainFSource

  type Reg = nat
  type BlockId = nat

  datatype Instr =
    | Malloc(dst: Reg, size: nat)
    | Memset(ptr: Reg, size: nat)
    | GetChar(dst: Reg)
    | PutChar(src: Reg)
    | Puts
    | Free(ptr: Reg)
    | Trunc8(dst: Reg, src: Reg)
    | SExt32(dst: Reg, src: Reg)
    | Load(dst: Reg, ptr: Reg)
    | Store(src: Reg, ptr: Reg)
    | Add8(dst: Reg, src: Reg, k: Byte)
    | Gep(dst: Reg, ptr: Reg, step: int)
    | ICmpUge(dst: Reg, left: Reg, right: Reg)
    | ICmpUlt(dst: Reg, left: Reg, right: Reg)
    | ICmpEq0(dst: Reg, src: Reg)
    | Or1(dst: Reg, left: Reg, right: Reg)
    | Br(target: BlockId)
    | CondBr(cond: Reg, ifTrue: BlockId, ifFalse: BlockId)
    | RetVoid

  datatype Edge = Edge(from: BlockId, value: Reg)
  datatype Phi = Phi(dst: Reg, incoming: seq<Edge>)
  datatype Block = Block(phis: seq<Phi>, code: seq<Instr>)

  predicate IsTerminator(i: Instr) { i.Br? || i.CondBr? || i.RetVoid? }

  predicate Targets(i: Instr, b: BlockId) {
    (i.Br? && i.target == b) || (i.CondBr? && (i.ifTrue == b || i.ifFalse == b))
  }

  /** The register an instruction sets, if any. */
  function Result(i: Instr): seq<Reg> {
    match i
    case Malloc(d, _) => [d]
    case GetChar(d) => [d]
    case Trunc8(d, _) => [d]
    case SExt32(d, _) => [d]
    case Load(d, _) => [d]
    case Add8(d, _, _) => [d]
    case Gep(d, _, _) => [d]
    case ICmpUge(d, _, _) => [d]
    case ICmpUlt(d, _, _) => [d]
    case ICmpEq0(d, _) => [d]
    case Or1(d, _, _) => [d]
    case _ => []
  }

  predicate Uses(i: Instr, r: Reg) {
    match i
    case Memset(p, _) => p == r
    case PutChar(s) => s == r
    case Free(p) => p == r
    case Trunc8(_, s) => s == r
    case SExt32(_, s) => s == r
    case Load(_, p) => p == r
    case Store(s, p) => s == r || p == r
    case Add8(_, s, _) => s == r
    case Gep(_, p, _) => p == r
    case ICmpUge(_, x, y) => x == r || y == r
    case ICmpUlt(_, x, y) => x == r || y == r
    case ICmpEq0(_, s) => s == r
    case Or1(_, x, y) => x == r || y == r
    case CondBr(c, _, _) => c == r
    case _ => false
  }

  /** Pointers are offsets from the start of the one object on the heap, the tape. */
  datatype Val = Ptr(off: int) | I32(w: int) | I8(b: Byte) | I1(t: bool)

  /** The state of the compiled function while it runs. */
  datatype Core = Core(block: BlockId, pc: nat, regs: map<Reg, Val>, tape: seq<Byte>,
                       input: seq<Byte>, output: seq<Byte>, complained: bool)
  {
    predicate HasPtr(r: Reg) { r in regs && regs[r].Ptr? }

    predicate HasI32(r: Reg) { r in regs && regs[r].I32? }

    predicate HasI8(r: Reg) { r in regs && regs[r].I8? }

    predicate HasI1(r: Reg) { r in regs && regs[r].I1? }

    /** Goes on to the next instruction. */
    function Next(): Machine { Running(this.(pc := pc + 1)) }

    function Set(r: Reg, v: Val): Machine { this.(regs := regs[r := v]).Next() }

    function Faulting(): Machine { Fault(tape, output) }
  }

  /** A machine inside the compiled function; one that has returned; one that accessed memory
      outside the tape; one that met code without a meaning. */
  datatype Machine =
    | Running(c: Core)
    | Returned(tape: seq<Byte>, output: seq<Byte>, complained: bool)
    | Fault(tape: seq<Byte>, output: seq<Byte>)
    | Stuck

  /** The value a phi takes when control comes from the given block, if it has one. */
  function Incoming(edges: seq<Edge>, from: BlockId, regs: map<Reg, Val>): seq<Val> {
    if edges == [] then []
    else if edges[0].from == from then (if edges[0].value in regs then [regs[edges[0].value]] else [])
    else Incoming(edges[1..], from, regs)
  }

  /** Evaluates the phis of a block, all of them on the registers at the branch. */
  function EnterPhis(phis: seq<Phi>, branch: Core, c: Core): Machine {
    if phis == [] then Running(c)
    else
      var v := Incoming(phis[0].incoming, branch.block, branch.regs);
      if v == [] then Stuck
      else EnterPhis(phis[1..], branch, c.(regs := c.regs[phis[0].dst := v[0]]))
  }

  function Jump(blocks: seq<Block>, c: Core, target: BlockId): Machine {
    if target >= |blocks| then Stuck
    else EnterPhis(blocks[target].phis, c, c.(block := target, pc := 0))
  }

  function Zeros(n: nat): seq<Byte> { seq(n, _ => 0) }

  function Exec(blocks: seq<Block>, i: Instr, c: Core): Machine {
    match i
    case Malloc(d, size) => if |c.tape| == size then c.Set(d, Ptr(0)) else Stuck
    case Memset(p, size) =>
      if !c.HasPtr(p) then Stuck
      else
        var off := c.regs[p].off;
        if 0 <= off && off + size <= |c.tape|
        then c.(tape := c.tape[..off] + Zeros(size) + c.tape[off + size..]).Next()
        else c.Faulting()
    case GetChar(d) =>
      // getchar answers -1 at the end of the input
      if c.input == [] then c.Set(d, I32(-1))
      else c.(input := c.input[1..]).Set(d, I32(c.input[0]))
    case PutChar(s) =>
      // putchar converts its argument to an unsigned char
      if c.HasI32(s) then c.(output := c.output + [c.regs[s].w % 256]).Next() else Stuck
    case Puts => c.(complained := true).Next()
    case Free(p) => if c.HasPtr(p) && c.regs[p].off == 0 then c.Next() else Stuck
    case Trunc8(d, s) => if c.HasI32(s) then c.Set(d, I8(c.regs[s].w % 256)) else Stuck
    case SExt32(d, s) =>
      if c.HasI8(s) then c.Set(d, I32(if c.regs[s].b < 128 then c.regs[s].b else c.regs[s].b - 256))
      else Stuck
    case Load(d, p) =>
      if !c.HasPtr(p) then Stuck
      else
        var off := c.regs[p].off;
        if 0 <= off < |c.tape| then c.Set(d, I8(c.tape[off])) else c.Faulting()
    case Store(s, p) =>
      if !c.HasPtr(p) || !c.HasI8(s) then Stuck
      else
        var off := c.regs[p].off;
        if 0 <= off < |c.tape| then c.(tape := c.tape[off := c.regs[s].b]).Next() else c.Faulting()
    case Add8(d, s, k) => if c.HasI8(s) then c.Set(d, I8((c.regs[s].b + k) % 256)) else Stuck
    case Gep(d, p, k) => if c.HasPtr(p) then c.Set(d, Ptr(c.regs[p].off + k)) else Stuck
    case ICmpUge(d, x, y) =>
      if c.HasPtr(x) && c.HasPtr(y) then c.Set(d, I1(c.regs[x].off >= c.regs[y].off)) else Stuck
    case ICmpUlt(d, x, y) =>
      if c.HasPtr(x) && c.HasPtr(y) then c.Set(d, I1(c.regs[x].off < c.regs[y].off)) else Stuck
    case ICmpEq0(d, s) => if c.HasI8(s) then c.Set(d, I1(c.regs[s].b == 0)) else Stuck
    case Or1(d, x, y) =>
      if c.HasI1(x) && c.HasI1(y) then c.Set(d, I1(c.regs[x].t || c.regs[y].t)) else Stuck
    case Br(t) => Jump(blocks, c, t)
    case CondBr(b, t, f) =>
      if c.HasI1(b) then Jump(blocks, c, if c.regs[b].t then t else f) else Stuck
    case RetVoid => Returned(c.tape, c.output, c.complained)
  }

  function Step(blocks: seq<Block>, m: Machine): Machine {
    if !m.Running? then m
    else if m.c.block < |blocks| && m.c.pc < |blocks[m.c.block].code|
    then Exec(blocks, blocks[m.c.block].code[m.c.pc], m.c)
    else Stuck
  }

  function Steps(blocks: seq<Block>, m: Machine, n: nat): Machine
    decreases n
  {
    if n == 0 then m else Steps(blocks, Step(blocks, m), n - 1)
  }

  lemma {:induction false} StepsAdd(blocks: seq<Block>, m: Machine, i: nat, j: nat)
    ensures Steps(blocks, m, i + j) == Steps(blocks, Steps(blocks, m, i), j)
    decreases i
  {
    if i > 0 {
      StepsAdd(blocks, Step(blocks, m), i - 1, j);
    }
  }

  /** A machine that has stopped stays as it is. */
  lemma {:induction false} StoppedStays(blocks: seq<Block>, m: Machine, n: nat)
    requires !m.Running?
    ensures Steps(blocks, m, n) == m
  {
    if n > 0 {
      StoppedStays(blocks, m, n - 1);
    }
  }

  /** Where a machine stops does not depend on how long one watches it. */
  lemma {:induction false} StoppedOnce(blocks: seq<Block>, m: Machine, i: nat, j: nat)
    requires !Steps(blocks, m, i).Running?
    requires i <= j || !Steps(blocks, m, j).Running?
    ensures Steps(blocks, m, j) == Steps(blocks, m, i)
  {
    if i <= j {
      StepsAdd(blocks, m, i, j - i);
      StoppedStays(blocks, Steps(blocks, m, i), j - i);
    } else {
      StepsAdd(blocks, m, j, i - j);
      StoppedStays(blocks, Steps(blocks, m, j), i - j);
    }
  }

  // ----- what a run has written so far -----

  function Output(m: Machine): seq<Byte> {
    match m
    case Running(c) => c.output
    case Returned(_, output, _) => output
    case Fault(_, output) => output
    case Stuck => []
  }

  lemma {:induction false} PhisKeepOutput(phis: seq<Phi>, branch: Core, c: Core)
    ensures var m := EnterPhis(phis, branch, c); !m.Stuck? ==> Output(m) == c.output
  {
    if phis != [] {
      var v := Incoming(phis[0].incoming, branch.block, branch.regs);
      if v != [] {
        PhisKeepOutput(phis[1..], branch, c.(regs := c.regs[phis[0].dst := v[0]]));
      }
    }
  }

  lemma JumpKeepsOutput(blocks: seq<Block>, c: Core, target: BlockId)
    ensures var m := Jump(blocks, c, target); !m.Stuck? ==> Output(m) == c.output
  {
    if target < |blocks| {
      PhisKeepOutput(blocks[target].phis, c, c.(block := target, pc := 0));
    }
  }

  lemma StepOutput(blocks: seq<Block>, m: Machine)
    ensures !Step(blocks, m).Stuck? ==> Output(m) <= Output(Step(blocks, m))
  {
    if m.Running? && m.c.block < |blocks| && m.c.pc < |blocks[m.c.block].code| {
      var i := blocks[m.c.block].code[m.c.pc];
      if i.Br? {
        JumpKeepsOutput(blocks, m.c, i.target);
      } else if i.CondBr? {
        JumpKeepsOutput(blocks, m.c, i.ifTrue);
        JumpKeepsOutput(blocks, m.c, i.ifFalse);
      }
    }
  }

  /** What has been written stays written. */
  lemma {:induction false} StepsOutput(blocks: seq<Block>, m: Machine, n: nat)
    requires !Steps(blocks, m, n).Stuck?
    ensures Output(m) <= Output(Steps(blocks, m, n))
    decreases n
  {
    if n > 0 {
      var m1 := Step(blocks, m);
      if m1.Stuck? {
        StoppedStays(blocks, m1, n - 1);
      }
      StepOutput(blocks, m);
      StepsOutput(blocks, m1, n - 1);
    }
  }
}
