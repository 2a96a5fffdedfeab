/** The code the BrainF compiler emits for a fused program, as a function of the state of its
    builder. The imperative compiler is proved to compute this function. */
module BrainFGen {
  import opened BrainFSource
  import opened BrainFIR

  // Registers and blocks of the function header.
  const ARR: Reg := 0
  const ARRMAX: Reg := 1
  const ENTRY: BlockId := 0
  const END: BlockId := 1
  const ABERROR: BlockId := 2

  /** The function so far, the block the builder appends to, the register holding the head, and the
      next unused register. */
  datatype Builder = Builder(blocks: seq<Block>, cur: BlockId, head: Reg, next: Reg) {
    predicate Ok() { cur < |blocks| }

    /** Appends to the current block, using the given number of new registers. */
    function Emit(code: seq<Instr>, regs: nat): (g: Builder)
      requires Ok()
      ensures g.Ok()
    {
      this.(blocks := Append(blocks, cur, code), next := next + regs)
    }
  }

  function Append(blocks: seq<Block>, b: BlockId, code: seq<Instr>): seq<Block>
    requires b < |blocks|
  {
    blocks[b := blocks[b].(code := blocks[b].code + code)]
  }

  lemma EmitJoins(g: Builder, code: seq<Instr>, m: nat, code': seq<Instr>, n: nat)
    requires g.Ok()
    ensures g.Emit(code, m).Emit(code', n) == g.Emit(code + code', m + n)
  {
    var g' := g.Emit(code, m).Emit(code', n);
    assert g.blocks[g.cur].code + code + code' == g.blocks[g.cur].code + (code + code');
    assert g'.blocks == g.Emit(code + code', m + n).blocks;
  }

  function Header(mem: nat, abc: bool): (g: Builder)
    ensures g.Ok()
  {
    var entry := [Malloc(ARR, mem), Memset(ARR, mem)]
                 + (if abc then [Gep(ARRMAX, ARR, mem)] else [])
                 + [Gep(2, ARR, mem / 2)];
    Builder([Block([], entry), Block([], [Free(ARR), RetVoid])]
            + (if abc then [Block([], [Puts, Br(END)])] else []),
            ENTRY, 2, 3)
  }

  function Gen(p: Prog, g: Builder, abc: bool): (g': Builder)
    requires g.Ok()
    ensures g'.Ok() && |g.blocks| <= |g'.blocks|
    ensures g'.cur == g.cur || |g.blocks| <= g'.cur
  {
    match p
    case Empty => g
    case Then(c, rest) => Gen(rest, GenCmd(c, g, abc), abc)
  }

  function GenCmd(c: Cmd, g: Builder, abc: bool): (g': Builder)
    requires g.Ok()
    ensures g'.Ok() && |g.blocks| <= |g'.blocks|
    ensures g'.cur == g.cur || |g.blocks| <= g'.cur
  {
    var r := g.next;
    match c
    case Read => g.Emit([GetChar(r), Trunc8(r + 1, r), Store(r + 1, g.head)], 2)
    case Write => g.Emit([Load(r, g.head), SExt32(r + 1, r), PutChar(r + 1)], 2)
    case Change(n) => g.Emit([Load(r, g.head), Add8(r + 1, r, n % 256), Store(r + 1, g.head)], 2)
    case Move(n) =>
      if abc then GenCheck(g.Emit([Gep(r, g.head, n)], 1).(head := r))
      else g.Emit([Gep(r, g.head, n)], 1).(head := r)
    case Loop(b) => CloseLoop(Gen(b, OpenLoop(g), abc), r, |g.blocks|, |g.blocks| + 1)
  }

  /** The bounds check on the head, continuing in a new block. */
  function GenCheck(g: Builder): (g': Builder)
    requires g.Ok()
    ensures g'.Ok() && |g'.blocks| == |g.blocks| + 1 && g'.cur == |g.blocks|
  {
    var r := g.next;
    var nextbb := |g.blocks|;
    var g1 := g.Emit([ICmpUge(r, g.head, ARRMAX), ICmpUlt(r + 1, g.head, ARR), Or1(r + 2, r, r + 1),
                      CondBr(r + 2, ABERROR, nextbb)], 3);
    g1.(blocks := g1.blocks + [Block([], [])], cur := nextbb)
  }

  /** Leaves the current block for a new test block, whose phi is the new head, and continues in a
      new body block. */
  function OpenLoop(g: Builder): (g': Builder)
    requires g.Ok()
    ensures g'.Ok() && |g'.blocks| == |g.blocks| + 2 && g'.cur == |g.blocks| + 1
    ensures |g'.blocks[|g.blocks|].phis| == 1
  {
    var testbb := |g.blocks|;
    var phi := Phi(g.next, [Edge(g.cur, g.head)]);
    Builder(Append(g.blocks, g.cur, [Br(testbb)]) + [Block([phi], []), Block([], [])],
            testbb + 1, g.next, g.next + 1)
  }

  function AddIncoming(b: Block, e: Edge): Block {
    if b.phis == [] then b
    else b.(phis := [b.phis[0].(incoming := b.phis[0].incoming + [e])] + b.phis[1..])
  }

  /** Branches back to the test block, completes it, and continues in a new exit block. */
  function CloseLoop(g: Builder, phi: Reg, testbb: BlockId, body: BlockId): (g': Builder)
    requires g.Ok() && testbb < |g.blocks|
    ensures g'.Ok() && |g'.blocks| == |g.blocks| + 1 && g'.cur == |g.blocks|
  {
    var r := g.next;
    var exit := |g.blocks|;
    var blocks1 := Append(g.blocks, g.cur, [Br(testbb)]);
    var blocks2 := blocks1[testbb := AddIncoming(blocks1[testbb], Edge(g.cur, g.head))];
    var blocks3 := Append(blocks2, testbb, [Load(r, phi), ICmpEq0(r + 1, r), CondBr(r + 1, exit, body)]);
    Builder(blocks3 + [Block([Phi(r + 2, [Edge(testbb, phi)])], [])], exit, r + 2, r + 3)
  }

  /** The whole function. */
  function Function(p: Prog, mem: nat, abc: bool): seq<Block> {
    var g := Gen(p, Header(mem, abc), abc);
    Append(g.blocks, g.cur, [Br(END)])
  }

  // ----- what emitting leaves alone -----

  predicate Open(b: Block) {
    forall k :: 0 <= k < |b.code| ==> !IsTerminator(b.code[k])
  }

  /** Exactly one terminator, at the end. */
  predicate Closed(b: Block) {
    |b.code| > 0 && IsTerminator(b.code[|b.code| - 1])
    && forall k :: 0 <= k < |b.code| - 1 ==> !IsTerminator(b.code[k])
  }

  /** From g to g' only the current block was extended and new blocks were added, all of them
      finished but the one that is now current. */
  predicate Frame(g: Builder, g': Builder) {
    && g.Ok() && g'.Ok() && |g.blocks| <= |g'.blocks| && g.next <= g'.next
    && g'.head < g'.next
    && (forall i :: 0 <= i < |g.blocks| && i != g.cur ==> g'.blocks[i] == g.blocks[i])
    && g'.blocks[g.cur].phis == g.blocks[g.cur].phis
    && g.blocks[g.cur].code <= g'.blocks[g.cur].code
    && (g'.cur == g.cur || (|g.blocks| <= g'.cur && Closed(g'.blocks[g.cur])))
    && Open(g'.blocks[g'.cur])
    && (forall i :: |g.blocks| <= i < |g'.blocks| && i != g'.cur ==> Closed(g'.blocks[i]))
  }

  predicate Ready(g: Builder) {
    g.Ok() && g.head < g.next && 2 < g.next && Open(g.blocks[g.cur])
  }

  lemma FrameTrans(g: Builder, g': Builder, g'': Builder)
    requires Frame(g, g') && Frame(g', g'')
    ensures Frame(g, g'')
  {
    assert forall i :: |g.blocks| <= i < |g''.blocks| && i != g''.cur && i != g'.cur && i < |g'.blocks|
                ==> g''.blocks[i] == g'.blocks[i];
  }

  lemma EmitFrame(g: Builder, code: seq<Instr>, regs: nat, head: Reg)
    requires Ready(g) && head < g.next + regs
    requires forall k :: 0 <= k < |code| ==> !IsTerminator(code[k])
    ensures Frame(g, g.Emit(code, regs).(head := head)) && Ready(g.Emit(code, regs).(head := head))
  {
  }

  lemma {:induction false} CheckFrame(g: Builder)
    requires Ready(g)
    ensures Frame(g, GenCheck(g)) && Ready(GenCheck(g))
  {
    var g' := GenCheck(g);
    var n := |g.blocks[g.cur].code|;
    assert g'.blocks[g.cur].code[n + 3].CondBr?;
  }

  lemma OpenReady(g: Builder)
    requires Ready(g)
    ensures Ready(OpenLoop(g))
  {
  }

  lemma {:induction false} GenFrame(p: Prog, g: Builder, abc: bool)
    requires Ready(g)
    ensures Frame(g, Gen(p, g, abc)) && Ready(Gen(p, g, abc))
    decreases p
  {
    match p
    case Empty =>
    case Then(c, rest) =>
      GenCmdFrame(c, g, abc);
      var g1 := GenCmd(c, g, abc);
      GenFrame(rest, g1, abc);
      FrameTrans(g, g1, Gen(rest, g1, abc));
  }

  lemma {:induction false} GenCmdFrame(c: Cmd, g: Builder, abc: bool)
    requires Ready(g)
    ensures Frame(g, GenCmd(c, g, abc)) && Ready(GenCmd(c, g, abc))
    decreases c
  {
    hide Frame, Open, Closed;
    var r := g.next;
    match c
    case Read => EmitFrame(g, [GetChar(r), Trunc8(r + 1, r), Store(r + 1, g.head)], 2, g.head);
    case Write => EmitFrame(g, [Load(r, g.head), SExt32(r + 1, r), PutChar(r + 1)], 2, g.head);
    case Change(n) => EmitFrame(g, [Load(r, g.head), Add8(r + 1, r, n % 256), Store(r + 1, g.head)], 2, g.head);
    case Move(n) =>
      EmitFrame(g, [Gep(r, g.head, n)], 1, r);
      if abc {
        var g1 := g.Emit([Gep(r, g.head, n)], 1).(head := r);
        CheckFrame(g1);
        FrameTrans(g, g1, GenCheck(g1));
      }
    case Loop(b) =>
      var g1 := OpenLoop(g);
      OpenReady(g);
      GenFrame(b, g1, abc);
      LoopFrame(g, Gen(b, g1, abc));
  }

  lemma {:induction false} LoopFrame(g: Builder, g2: Builder)
    requires Ready(g) && Ready(g2) && Frame(OpenLoop(g), g2)
    ensures var g' := CloseLoop(g2, g.next, |g.blocks|, |g.blocks| + 1); Frame(g, g') && Ready(g')
  {
    var g' := CloseLoop(g2, g.next, |g.blocks|, |g.blocks| + 1);
    var g1 := OpenLoop(g);
    var test := |g.blocks|;
    var n := |g.blocks[g.cur].code|;
    assert g1.blocks[g.cur].code[n] == Br(test);
    assert g'.blocks[g.cur] == g2.blocks[g.cur] == g1.blocks[g.cur];
    assert Closed(g'.blocks[g.cur]);
    assert g2.blocks[test] == g1.blocks[test] && g1.blocks[test].code == [];
    assert g'.blocks[test].code == [Load(g2.next, g.next), ICmpEq0(g2.next + 1, g2.next),
                                    CondBr(g2.next + 1, |g2.blocks|, test + 1)];
    assert Closed(g'.blocks[test]);
    assert g'.blocks[g2.cur].code == g2.blocks[g2.cur].code + [Br(test)];
    assert Closed(g'.blocks[g2.cur]);
    forall i | |g.blocks| <= i < |g'.blocks| && i != g'.cur && i != test && i != g2.cur
      ensures Closed(g'.blocks[i])
    {
      assert g'.blocks[i] == g2.blocks[i];
      assert i != g1.cur || g2.cur != g1.cur;
    }
  }

  /** Every block of the finished function has exactly one terminator, at its end. */
  lemma {:induction false} BlocksClosed(p: Prog, mem: nat, abc: bool)
    ensures forall i :: 0 <= i < |Function(p, mem, abc)| ==> Closed(Function(p, mem, abc)[i])
  {
    var h := Header(mem, abc);
    GenFrame(p, h, abc);
    var g := Gen(p, h, abc);
    var blocks := Function(p, mem, abc);
    assert blocks[g.cur].code == g.blocks[g.cur].code + [Br(END)];
    assert h.blocks[END].code == [Free(ARR), RetVoid];
    assert abc ==> h.blocks[ABERROR].code == [Puts, Br(END)];
  }
}
