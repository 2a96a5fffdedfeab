/** The compiler itself: one pass over the text with one symbol of lookahead, updating the function
    under construction in place. */
module BrainFCompiler {
  import opened Options
  import opened BrainFSource
  import opened BrainFFuse
  import opened BrainFIR
  import opened BrainFGen

  datatype Symbol = SymNone | SymRead | SymWrite | SymMove | SymChange | SymLoop | SymEndLoop | SymEof

  // ----- what is left to compile -----

  function FuseResult(r: ParseResult): ParseResult {
    match r
    case Missing => Missing
    case Parsed(p, next, closed) => Parsed(Fuse(p), next, closed)
  }

  /** The rest of a level when the given symbol has been read and the text continues at pos. */
  function After(sym: Symbol, value: int, text: string, pos: nat): (r: ParseResult)
    requires pos <= |text|
    ensures r.Parsed? ==> pos <= r.next <= |text|
  {
    match sym
    case SymNone => Parse(text, pos)
    case SymRead => Prepend(Read, Parse(text, pos))
    case SymWrite => Prepend(Write, Parse(text, pos))
    case SymMove => Prepend(Move(value), Parse(text, pos))
    case SymChange => Prepend(Change(value), Parse(text, pos))
    case SymLoop =>
      var body := Parse(text, pos);
      if body.Missing? || !body.closed then Missing else Prepend(Loop(body.prog), Parse(text, body.next))
    case SymEndLoop => Parsed(Empty, pos, true)
    case SymEof => Parsed(Empty, pos, false)
  }

  function CommandOf(sym: Symbol, value: int): Cmd {
    if sym == SymRead then Read
    else if sym == SymWrite then Write
    else if sym == SymMove then Move(value)
    else Change(value)
  }

  /** The rest of a level with a current symbol and, behind a run, the symbol that ended it. */
  function Pending(cursym: Symbol, curvalue: int, nextsym: Symbol, nextvalue: int, text: string,
                   pos: nat): (r: ParseResult)
    requires pos <= |text|
    ensures r.Parsed? ==> pos <= r.next <= |text|
  {
    if nextsym == SymNone then After(cursym, curvalue, text, pos)
    else Prepend(CommandOf(cursym, curvalue), After(nextsym, nextvalue, text, pos))
  }

  /** A run has a successor and is followed by something else; nothing else looks ahead. */
  predicate Lookahead(cursym: Symbol, nextsym: Symbol) {
    if cursym == SymMove || cursym == SymChange then nextsym != SymNone && nextsym != cursym
    else nextsym == SymNone
  }

  function SymbolOf(c: char): Symbol {
    match c
    case '-' => SymChange
    case '+' => SymChange
    case '<' => SymMove
    case '>' => SymMove
    case ',' => SymRead
    case '.' => SymWrite
    case '[' => SymLoop
    case ']' => SymEndLoop
    case _ => SymNone
  }

  function DirectionOf(c: char): int { if c == '-' || c == '<' then -1 else 1 }

  /** How the next character changes the pair of current and next symbol: a comment not at all; a
      first symbol becomes current; a symbol of the same run joins it; any other ends the run. */
  lemma {:induction false} NextCharacter(cursym: Symbol, curvalue: int, text: string, pos: nat)
    requires pos < |text| && (cursym == SymNone || cursym == SymMove || cursym == SymChange)
    ensures var sym := SymbolOf(text[pos]);
            var n := DirectionOf(text[pos]);
            var r := FuseResult(Pending(cursym, curvalue, SymNone, 0, text, pos));
            if sym == SymNone then r == FuseResult(Pending(cursym, curvalue, SymNone, 0, text, pos + 1))
            else if cursym == SymNone then r == FuseResult(Pending(sym, n, SymNone, 0, text, pos + 1))
            else if cursym == sym then r == FuseResult(Pending(cursym, curvalue + n, SymNone, 0, text, pos + 1))
            else r == FuseResult(Pending(cursym, curvalue, sym, n, text, pos + 1))
  {
    var sym := SymbolOf(text[pos]);
    var n := DirectionOf(text[pos]);
    assert Parse(text, pos) == After(sym, n, text, pos + 1);
    if sym == cursym == SymMove {
      ExtendRun(Move(curvalue), Move(n), Parse(text, pos + 1));
    } else if sym == cursym == SymChange {
      ExtendRun(Change(curvalue), Change(n), Parse(text, pos + 1));
    }
  }

  /** The end of the text is a symbol of its own. */
  lemma EndOfText(cursym: Symbol, curvalue: int, text: string)
    requires cursym == SymNone || cursym == SymMove || cursym == SymChange
    ensures Pending(cursym, curvalue, SymNone, 0, text, |text|)
         == if cursym == SymNone then Pending(SymEof, curvalue, SymNone, 0, text, |text|)
            else Pending(cursym, curvalue, SymEof, 0, text, |text|)
  {
  }

  /** One more symbol of a run. */
  lemma ExtendRun(cmd: Cmd, one: Cmd, r: ParseResult)
    requires (cmd.Move? && one.Move?) || (cmd.Change? && one.Change?)
    ensures FuseResult(Prepend(cmd, Prepend(one, r)))
         == FuseResult(Prepend(if cmd.Move? then Move(cmd.count + one.count) else Change(cmd.count + one.count), r))
  {
    if r.Parsed? {
      var tail := Then(one, r.prog);
      assert Fuse(tail) == Join(one, Fuse(r.prog));
      assert Fuse(Then(cmd, tail)) == Join(cmd, Fuse(tail));
      var joined := if cmd.Move? then Move(cmd.count + one.count) else Change(cmd.count + one.count);
      assert Fuse(Then(joined, r.prog)) == Join(joined, Fuse(r.prog));
    }
  }

  lemma {:induction false} FuseKeepsStart(p: Prog)
    ensures StartsWithMove(Fuse(p)) == StartsWithMove(p)
    ensures (Fuse(p).Then? && Fuse(p).first.Change?) == (p.Then? && p.first.Change?)
  {
    if p.Then? {
      assert Fuse(p) == Join(FuseCmd(p.first), Fuse(p.rest));
    }
  }

  /** Compiling r from g gives what compiling r0 from g0 gives. */
  ghost predicate Agrees(r: ParseResult, g: Builder, r0: ParseResult, g0: Builder, abc: bool)
    requires g.Ok() && g0.Ok()
  {
    && r.Missing? == r0.Missing?
    && (r.Parsed? ==>
          && r.next == r0.next && r.closed == r0.closed
          && Gen(Fuse(r.prog), g, abc) == Gen(Fuse(r0.prog), g0, abc))
  }

  /** Emitting the current symbol is the first step of compiling what is pending. */
  lemma {:induction false} EmitFirst(cursym: Symbol, curvalue: int, nextsym: Symbol, nextvalue: int, text: string,
                                     pos: nat, g: Builder, abc: bool)
    requires pos <= |text| && Lookahead(cursym, nextsym) && g.Ok()
    requires cursym == SymMove || cursym == SymChange || cursym == SymRead || cursym == SymWrite
    ensures Agrees(After(nextsym, nextvalue, text, pos), GenCmd(CommandOf(cursym, curvalue), g, abc),
                   Pending(cursym, curvalue, nextsym, nextvalue, text, pos), g, abc)
  {
    var rest := After(nextsym, nextvalue, text, pos);
    var c := CommandOf(cursym, curvalue);
    assert Pending(cursym, curvalue, nextsym, nextvalue, text, pos) == Prepend(c, rest);
    if rest.Parsed? {
      FuseKeepsStart(rest.prog);
      assert Fuse(Then(c, rest.prog)) == Then(c, Fuse(rest.prog));
    }
  }

  /** So is emitting a loop. */
  lemma {:induction false} EmitLoopFirst(text: string, pos: nat, value: int, g: Builder, abc: bool)
    requires pos <= |text| && g.Ok()
    requires var body := Parse(text, pos); body.Parsed? && body.closed
    ensures var body := Parse(text, pos);
            Agrees(Parse(text, body.next), GenCmd(Loop(Fuse(body.prog)), g, abc), After(SymLoop, value, text, pos), g,
                   abc)
  {
    var body := Parse(text, pos);
    var rest := Parse(text, body.next);
    if rest.Parsed? {
      assert Fuse(Then(Loop(body.prog), rest.prog)) == Then(Loop(Fuse(body.prog)), Fuse(rest.prog));
    }
  }

  /** The function that the compiler builds for a text. */
  function Compiled(text: string, mem: nat, abc: bool): seq<Block>
    requires IsProgram(text)
  {
    Function(Fuse(ProgramOf(text)), mem, abc)
  }

  class BrainF {
    const text: string
    const memtotal: nat
    const abc: bool
    var pos: nat  // of the input stream, in text

    // The function under construction, and where its builder inserts.
    var blocks: seq<Block>
    var insertBlock: BlockId
    var curhead: Reg
    var nextReg: Reg

    ghost function State(): Builder
      reads this
    {
      Builder(blocks, insertBlock, curhead, nextReg)
    }

    ghost predicate Valid()
      reads this
    {
      pos <= |text| && State().Ok()
    }

    constructor (text: string, mem: nat, abc: bool)
      ensures this.text == text && memtotal == mem && this.abc == abc && pos == 0
    {
      this.text, memtotal, this.abc, pos := text, mem, abc, 0;
    }

    /** Compiles the text; false where the compiler aborts because of a missing or an extra `]`. */
    method Compile() returns (ok: bool)
      requires pos == 0
      modifies this
      ensures ok <==> IsProgram(text)
      ensures ok ==> blocks == Compiled(text, memtotal, abc)
    {
      EmitHeader();
      ok := ReadLoop(None, END, END);
    }

    method CreateBlock() returns (b: BlockId)
      modifies `blocks
      ensures b == |old(blocks)| && blocks == old(blocks) + [Block([], [])]
    {
      b := |blocks|;
      blocks := blocks + [Block([], [])];
    }

    method CreatePhi(b: BlockId) returns (phi: Reg)
      requires b < |blocks| && blocks[b].phis == []
      modifies `blocks, `nextReg
      ensures phi == old(nextReg) && nextReg == old(nextReg) + 1
      ensures blocks == old(blocks)[b := old(blocks)[b].(phis := [Phi(phi, [])])]
    {
      phi := nextReg;
      nextReg := nextReg + 1;
      blocks := blocks[b := blocks[b].(phis := [Phi(phi, [])])];
    }

    method AddIncomingTo(b: BlockId, value: Reg, from: BlockId)
      requires b < |blocks|
      modifies `blocks
      ensures blocks == old(blocks)[b := AddIncoming(old(blocks)[b], Edge(from, value))]
    {
      blocks := blocks[b := AddIncoming(blocks[b], Edge(from, value))];
    }

    method InsertAt(b: BlockId, i: Instr)
      requires b < |blocks|
      modifies `blocks
      ensures blocks == Append(old(blocks), b, [i])
    {
      blocks := blocks[b := blocks[b].(code := blocks[b].code + [i])];
    }

    method NewReg() returns (r: Reg)
      modifies `nextReg
      ensures r == old(nextReg) && nextReg == old(nextReg) + 1
    {
      r := nextReg;
      nextReg := nextReg + 1;
    }

    method EmitHeader()
      modifies `blocks, `insertBlock, `curhead, `nextReg
      ensures State() == Header(memtotal, abc)
    {
      blocks := [];
      insertBlock := CreateBlock();
      InsertAt(insertBlock, Malloc(ARR, memtotal));
      InsertAt(insertBlock, Memset(ARR, memtotal));
      if abc {
        InsertAt(insertBlock, Gep(ARRMAX, ARR, memtotal));
      }
      curhead, nextReg := 2, 3;
      InsertAt(insertBlock, Gep(curhead, ARR, memtotal / 2));
      var endbb := CreateBlock();
      InsertAt(endbb, Free(ARR));
      InsertAt(endbb, RetVoid);
      if abc {
        var aberrorbb := CreateBlock();
        InsertAt(aberrorbb, Puts);
        InsertAt(aberrorbb, Br(endbb));
      }
      ghost var header := Header(memtotal, abc).blocks;
      assert blocks[ENTRY].code == header[ENTRY].code;
      assert blocks[END].code == header[END].code;
      assert abc ==> blocks[ABERROR].code == header[ABERROR].code;
      assert blocks == header;
    }

    /** Compiles one nesting level. Inside a loop, phi is the head in its test block and oldbb the
        first block of its body. */
    method ReadLoop(phi: Option<Reg>, oldbb: BlockId, testbb: BlockId) returns (ok: bool)
      requires Valid()
      requires phi.Some? ==> testbb < |blocks|
      modifies this
      ensures Valid() && old(pos) <= pos
      ensures var r := Parse(text, old(pos));
              && (ok <==> r.Parsed? && r.closed == phi.Some?)
              && (ok ==>
                   var g := Gen(Fuse(r.prog), old(State()), abc);
                   && pos == r.next
                   && State() == if phi.Some? then CloseLoop(g, phi.value, testbb, oldbb) else g.Emit([Br(END)], 0))
      decreases |text| - pos, 1
    {
      var cursym, curvalue, nextsym, nextvalue := SymNone, 0, SymNone, 0;
      ghost var result := Parse(text, pos);
      ghost var g0 := State();
      while cursym != SymEof && cursym != SymEndLoop
        invariant Valid() && old(pos) <= pos && Lookahead(cursym, nextsym)
        invariant cursym == SymEof ==> pos == |text|
        invariant nextsym == SymEof ==> pos == |text|
        invariant cursym == SymLoop ==> old(pos) < pos
        invariant |old(blocks)| <= |blocks|
        invariant Agrees(Pending(cursym, curvalue, nextsym, nextvalue, text, pos), State(), result, g0, abc)
        decreases 3 * (|text| - pos) + Weight(cursym) + NextWeight(nextsym)
      {
        ok := WriteOut(cursym, curvalue, nextsym, nextvalue, result, g0);
        if !ok {
          return;
        }
        cursym, curvalue, nextsym := nextsym, nextvalue, SymNone;
        cursym, curvalue, nextsym, nextvalue := ReadSymbols(cursym, curvalue);
      }
      ghost var g := State();
      assert Pending(cursym, curvalue, nextsym, nextvalue, text, pos) == Parsed(Empty, pos, cursym == SymEndLoop);
      assert result.Parsed? && Gen(Fuse(result.prog), g0, abc) == g;
      if cursym == SymEndLoop {
        if phi.None? {
          return false;
        }
        FinishLoop(phi.value, oldbb, testbb);
        return true;
      }
      InsertAt(insertBlock, Br(END));
      return phi.None?;
    }

    /** Writes out the current command. */
    method WriteOut(cursym: Symbol, curvalue: int, nextsym: Symbol, nextvalue: int, ghost result: ParseResult,
                    ghost g0: Builder)
      returns (ok: bool)
      requires Valid() && Lookahead(cursym, nextsym) && cursym != SymEof && cursym != SymEndLoop
      requires g0.Ok() && Agrees(Pending(cursym, curvalue, nextsym, nextvalue, text, pos), State(), result, g0, abc)
      modifies this
      ensures Valid() && old(pos) <= pos && (ok ==> |old(blocks)| <= |blocks|)
      ensures cursym != SymLoop ==> pos == old(pos)
      ensures if ok then Agrees(After(nextsym, nextvalue, text, pos), State(), result, g0, abc) else result.Missing?
      decreases |text| - pos, if cursym == SymLoop then 3 else 0
    {
      ok := true;
      ghost var g, start := State(), pos;
      if cursym == SymLoop {
        ok := EmitLoop();
        if ok {
          EmitLoopFirst(text, start, curvalue, g, abc);
        }
      } else if cursym != SymNone {
        EmitFirst(cursym, curvalue, nextsym, nextvalue, text, pos, g, abc);
        EmitCommand(cursym, curvalue);
      }
    }

    /** The lookahead: reads on while the current symbol is unknown or a run that may go on. */
    method ReadSymbols(cursym0: Symbol, curvalue0: int)
      returns (cursym: Symbol, curvalue: int, nextsym: Symbol, nextvalue: int)
      requires pos <= |text| && (cursym0 == SymEof ==> pos == |text|)
      modifies `pos
      ensures old(pos) <= pos <= |text| && Lookahead(cursym, nextsym) && cursym != SymNone
      ensures cursym == SymEof || nextsym == SymEof ==> pos == |text|
      ensures FuseResult(Pending(cursym, curvalue, nextsym, nextvalue, text, pos))
           == FuseResult(After(cursym0, curvalue0, text, old(pos)))
      ensures 3 * (|text| - pos) + Weight(cursym) + NextWeight(nextsym) <= 3 * (|text| - old(pos)) + NextWeight(cursym0)
    {
      hide FuseResult, Parse, Prepend, ParseLoop;
      cursym, curvalue, nextsym, nextvalue := cursym0, curvalue0, SymNone, 0;
      var loop := cursym == SymNone || cursym == SymMove || cursym == SymChange;
      while loop
        invariant old(pos) <= pos <= |text|
        invariant if loop then nextsym == SymNone && (cursym == SymNone || cursym == SymMove || cursym == SymChange)
                  else Lookahead(cursym, nextsym) && cursym != SymNone
        invariant cursym == SymEof || nextsym == SymEof ==> pos == |text|
        invariant FuseResult(Pending(cursym, curvalue, nextsym, nextvalue, text, pos))
               == FuseResult(After(cursym0, curvalue0, text, old(pos)))
        invariant 3 * (|text| - pos) + (if cursym == SymNone then 0 else Weight(cursym)) + NextWeight(nextsym)
               <= 3 * (|text| - old(pos)) + NextWeight(cursym0)
        decreases |text| - pos, loop
      {
        if pos == |text| {
          EndOfText(cursym, curvalue, text);
          if cursym == SymNone {
            cursym := SymEof;
          } else {
            nextsym := SymEof;
          }
          loop := false;
        } else {
          var c := text[pos];
          NextCharacter(cursym, curvalue, text, pos);
          pos := pos + 1;
          var direction := 1;
          if c == '-' || c == '+' {
            if c == '-' {
              direction := -1;
            }
            if cursym == SymChange {
              curvalue := curvalue + direction;
            } else if cursym == SymNone {
              cursym, curvalue := SymChange, direction;
            } else {
              nextsym, nextvalue, loop := SymChange, direction, false;
            }
          } else if c == '<' || c == '>' {
            if c == '<' {
              direction := -1;
            }
            if cursym == SymMove {
              curvalue := curvalue + direction;
            } else if cursym == SymNone {
              cursym, curvalue := SymMove, direction;
            } else {
              nextsym, nextvalue, loop := SymMove, direction, false;
            }
          } else if c == ',' || c == '.' || c == '[' || c == ']' {
            if cursym == SymNone {
              cursym := SymbolOf(c);
            } else {
              nextsym := SymbolOf(c);
            }
            loop := false;
          }
          // other characters are comments
        }
      }
    }

    /** Writes out a command other than a loop. */
    method EmitCommand(cursym: Symbol, curvalue: int)
      requires Valid()
      requires cursym == SymMove || cursym == SymChange || cursym == SymRead || cursym == SymWrite
      modifies `blocks, `insertBlock, `curhead, `nextReg
      ensures Valid()
      ensures State() == GenCmd(CommandOf(cursym, curvalue), old(State()), abc)
    {
      ghost var g := State();
      if cursym == SymRead {
        var tape0 := NewReg();
        InsertAt(insertBlock, GetChar(tape0));
        var tape1 := NewReg();
        InsertAt(insertBlock, Trunc8(tape1, tape0));
        InsertAt(insertBlock, Store(tape1, curhead));
        assert State() == g.Emit([GetChar(tape0)], 1).Emit([Trunc8(tape1, tape0)], 1).Emit([Store(tape1, curhead)], 0);
        EmitThree(g, GetChar(tape0), 1, Trunc8(tape1, tape0), 1, Store(tape1, curhead), 0);
      } else if cursym == SymWrite {
        var tape0 := NewReg();
        InsertAt(insertBlock, Load(tape0, curhead));
        var tape1 := NewReg();
        InsertAt(insertBlock, SExt32(tape1, tape0));
        InsertAt(insertBlock, PutChar(tape1));
        assert State() == g.Emit([Load(tape0, curhead)], 1).Emit([SExt32(tape1, tape0)], 1).Emit([PutChar(tape1)], 0);
        EmitThree(g, Load(tape0, curhead), 1, SExt32(tape1, tape0), 1, PutChar(tape1), 0);
      } else if cursym == SymMove {
        EmitMove(curvalue);
      } else {
        var tape0 := NewReg();
        InsertAt(insertBlock, Load(tape0, curhead));
        var tape1 := NewReg();
        var k := curvalue % 256;  // truncated to eight bits
        InsertAt(insertBlock, Add8(tape1, tape0, k));
        InsertAt(insertBlock, Store(tape1, curhead));
        assert State() == g.Emit([Load(tape0, curhead)], 1).Emit([Add8(tape1, tape0, k)],
                                                                 1).Emit([Store(tape1, curhead)], 0);
        EmitThree(g, Load(tape0, curhead), 1, Add8(tape1, tape0, k), 1, Store(tape1, curhead), 0);
      }
    }

    method EmitMove(curvalue: int)
      requires Valid()
      modifies `blocks, `insertBlock, `curhead, `nextReg
      ensures Valid() && State() == GenCmd(Move(curvalue), old(State()), abc)
    {
      var head := NewReg();
      InsertAt(insertBlock, Gep(head, curhead, curvalue));
      curhead := head;
      assert State() == old(State()).Emit([Gep(head, old(curhead), curvalue)], 1).(head := head);
      if abc {
        EmitCheck();
      }
    }

    /** Branches to the error block if the head is off the tape. */
    method EmitCheck()
      requires Valid()
      modifies `blocks, `insertBlock, `nextReg
      ensures Valid() && State() == GenCheck(old(State()))
    {
      ghost var g := State();
      var test0 := NewReg();
      InsertAt(insertBlock, ICmpUge(test0, curhead, ARRMAX));
      var test1 := NewReg();
      InsertAt(insertBlock, ICmpUlt(test1, curhead, ARR));
      var test2 := NewReg();
      InsertAt(insertBlock, Or1(test2, test0, test1));
      EmitThree(g, ICmpUge(test0, curhead, ARRMAX), 1, ICmpUlt(test1, curhead, ARR), 1, Or1(test2, test0, test1), 1);
      var nextbb := CreateBlock();
      InsertAt(insertBlock, CondBr(test2, ABERROR, nextbb));
      insertBlock := nextbb;
      assert blocks[g.cur].code == GenCheck(g).blocks[g.cur].code;
      assert blocks == GenCheck(g).blocks;
    }

    /** Opens a loop, compiles its body and finishes it. */
    method EmitLoop() returns (ok: bool)
      requires Valid()
      modifies this
      ensures Valid() && old(pos) <= pos && (ok ==> |old(blocks)| <= |blocks|)
      ensures var body := Parse(text, old(pos));
              && (ok <==> body.Parsed? && body.closed)
              && (ok ==> pos == body.next && State() == GenCmd(Loop(Fuse(body.prog)), old(State()), abc))
      decreases |text| - pos, 2
    {
      hide Parse, Fuse, Gen, CloseLoop;
      ghost var g := State();
      var testbb := CreateBlock();
      InsertAt(insertBlock, Br(testbb));
      var bb0 := insertBlock;
      var bb1 := CreateBlock();
      insertBlock := bb1;
      var phi0 := CreatePhi(testbb);
      AddIncomingTo(testbb, curhead, bb0);
      curhead := phi0;
      OpenBlocks(g);
      ok := ReadLoop(Some(phi0), bb1, testbb);
    }

    /** The loop test, once the end of the body is known. */
    method FinishLoop(phi: Reg, oldbb: BlockId, testbb: BlockId)
      requires Valid() && testbb < |blocks|
      modifies `blocks, `insertBlock, `curhead, `nextReg
      ensures Valid() && State() == CloseLoop(old(State()), phi, testbb, oldbb)
    {
      ghost var g := State();
      InsertAt(insertBlock, Br(testbb));
      AddIncomingTo(testbb, curhead, insertBlock);
      ghost var blocks2 := blocks;
      var tape0 := NewReg();
      InsertAt(testbb, Load(tape0, phi));
      var test0 := NewReg();
      InsertAt(testbb, ICmpEq0(test0, tape0));
      var bb0 := CreateBlock();
      InsertAt(testbb, CondBr(test0, bb0, oldbb));
      insertBlock := bb0;
      var phi1 := CreatePhi(insertBlock);
      AddIncomingTo(insertBlock, phi, testbb);
      curhead := phi1;
      CloseBlocks(g, phi, testbb, oldbb);
      assert blocks == CloseLoop(g, phi, testbb, oldbb).blocks;
    }
  }

  lemma EmitThree(g: Builder, i1: Instr, n1: nat, i2: Instr, n2: nat, i3: Instr, n3: nat)
    requires g.Ok()
    ensures g.Emit([i1], n1).Emit([i2], n2).Emit([i3], n3) == g.Emit([i1, i2, i3], n1 + n2 + n3)
  {
    EmitJoins(g, [i1], n1, [i2], n2);
    EmitJoins(g, [i1] + [i2], n1 + n2, [i3], n3);
    assert [i1] + [i2] + [i3] == [i1, i2, i3];
  }

  /** Opening a loop block by block, in the order of `readloop`. */
  lemma OpenBlocks(g: Builder)
    requires g.Ok()
    ensures var test := |g.blocks|;
            var b1 := Append(g.blocks + [Block([], [])], g.cur, [Br(test)]) + [Block([], [])];
            var b2 := b1[test := b1[test].(phis := [Phi(g.next, [])])];
            b2[test := AddIncoming(b2[test], Edge(g.cur, g.head))] == OpenLoop(g).blocks
  {
    var test := |g.blocks|;
    var b1 := Append(g.blocks + [Block([], [])], g.cur, [Br(test)]) + [Block([], [])];
    var b2 := b1[test := b1[test].(phis := [Phi(g.next, [])])];
    assert [] + [Edge(g.cur, g.head)] == [Edge(g.cur, g.head)];
    assert AddIncoming(b2[test], Edge(g.cur, g.head)).phis == [Phi(g.next, [Edge(g.cur, g.head)])];
  }

  /** Finishing a loop instruction by instruction, in the order of `readloop`. */
  lemma CloseBlocks(g: Builder, phi: Reg, test: BlockId, body: BlockId)
    requires g.Ok() && test < |g.blocks|
    ensures var r := g.next;
            var exit := |g.blocks|;
            var b1 := Append(g.blocks, g.cur, [Br(test)]);
            var b2 := b1[test := AddIncoming(b1[test], Edge(g.cur, g.head))];
            var b3 := Append(Append(b2, test, [Load(r, phi)]), test, [ICmpEq0(r + 1, r)]);
            var b4 := Append(b3 + [Block([], [])], test, [CondBr(r + 1, exit, body)]);
            var b5 := b4[exit := b4[exit].(phis := [Phi(r + 2, [])])];
            b5[exit := AddIncoming(b5[exit], Edge(test, phi))] == CloseLoop(g, phi, test, body).blocks
  {
    var r := g.next;
    var exit := |g.blocks|;
    var b1 := Append(g.blocks, g.cur, [Br(test)]);
    var b2 := b1[test := AddIncoming(b1[test], Edge(g.cur, g.head))];
    var b3 := Append(Append(b2, test, [Load(r, phi)]), test, [ICmpEq0(r + 1, r)]);
    var b4 := Append(b3 + [Block([], [])], test, [CondBr(r + 1, exit, body)]);
    var b5 := b4[exit := b4[exit].(phis := [Phi(r + 2, [])])];
    var b6 := b5[exit := AddIncoming(b5[exit], Edge(test, phi))];
    assert [] + [Edge(test, phi)] == [Edge(test, phi)];
    assert b6[exit].phis == [Phi(r + 2, [Edge(test, phi)])];
    assert b6[test].code == b2[test].code + [Load(r, phi), ICmpEq0(r + 1, r), CondBr(r + 1, exit, body)];
    var c := CloseLoop(g, phi, test, body).blocks;
    assert b6[test] == c[test] && b6[exit] == c[exit];
    assert forall i :: 0 <= i < |c| ==> b6[i] == c[i];
  }

  function Weight(s: Symbol): nat {
    match s
    case SymEof => 0
    case SymEndLoop => 0
    case SymNone => 1
    case _ => 2
  }

  function NextWeight(s: Symbol): nat { if s == SymNone then 0 else Weight(s) }
}
