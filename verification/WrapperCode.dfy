/** The code of a function that invokes another one inside a try with catch clauses and a finally, and
    the builder that generates it. */
module WrapperCode {
  import opened Options
  import opened ExceptionTable

  datatype Label =
    | Entry | Normal | Exception | ExceptionRoute | ExternalException | UnwindResume | End
    | Finally | Catch(clause: nat)

  datatype Flag = NotThrown | Thrown | Caught

  /** The slots on the stack are the flag, the exception, and the result of the landing pad. */
  datatype Instr =
    | StoreFlag(flag: Flag) | ClearException | ClearResult
    | StoreException | StoreResult   // what the landing pad was given
    | PrintFinally | PrintCatch(t: Type)
    | DeleteException                // deleteOurException of what is in the slot

  datatype Terminator =
    | Open                                                   // not yet terminated
    | Invoke(normal: Label, unwind: Label)
    | Br(to: Label)
    | SwitchFlag(otherwise: Label, cases: map<Flag, Label>)
    | BrIfOurs(yes: Label, no: Label)
    | SwitchSelector(otherwise: Label, catches: seq<Label>)  // case k + 1 goes to catches[k]
    | RetVoid
    | Resume                                                 // with the result in its slot

  datatype Block = Block(body: seq<Instr>, exit: Terminator)

  type Code = map<Label, Block>

  // ----- the generated code -----

  function Labels(catches: nat): set<Label> {
    {Entry, Normal, Exception, ExceptionRoute, ExternalException, UnwindResume, End, Finally}
    + set k | 0 <= k < catches :: Catch(k)
  }

  function CatchLabels(n: nat): (labels: seq<Label>)
    ensures |labels| == n && forall k :: 0 <= k < n ==> labels[k] == Catch(k)
  {
    seq(n, (k: nat) => Catch(k))
  }

  function BlockOf(catches: seq<Type>, l: Label): Block
    requires l in Labels(|catches|)
  {
    match l
    case Entry => Block([ClearResult, ClearException, StoreFlag(NotThrown)], Invoke(Normal, Exception))
    case Normal => Block([], Br(Finally))
    case Exception => Block([StoreResult, StoreException, StoreFlag(Thrown)],
                            BrIfOurs(ExceptionRoute, ExternalException))
    case ExceptionRoute => Block([], SwitchSelector(Finally, CatchLabels(|catches|)))
    case ExternalException => Block([], Br(Finally))
    case Catch(k) => Block([PrintCatch(catches[k]), StoreFlag(Caught)], Br(Finally))
    case Finally => Block([PrintFinally], SwitchFlag(End, map[Caught := End, Thrown := UnwindResume]))
    case UnwindResume => Block([], Resume)
    case End => Block([DeleteException], RetVoid)
  }

  function Wrapper(catches: seq<Type>): Code {
    map l | l in Labels(|catches|) :: BlockOf(catches, l)
  }

  lemma LabelsNext(n: nat)
    ensures Labels(0) == {Entry, Normal, Exception, ExceptionRoute, ExternalException, UnwindResume, End, Finally}
    ensures Labels(n + 1) == Labels(n) + {Catch(n)} && Catch(n) !in Labels(0)
  {
  }

  lemma FixedLabels(n: nat)
    ensures Entry in Labels(n) && Normal in Labels(n) && Exception in Labels(n) && ExceptionRoute in Labels(n)
    ensures ExternalException in Labels(n) && UnwindResume in Labels(n) && End in Labels(n) && Finally in Labels(n)
    ensures forall k: nat :: Catch(k) in Labels(n) <==> k < n
    ensures forall k: nat :: Catch(k) !in Labels(0)
  {
  }

  lemma Assembled(code: Code, catches: seq<Type>)
    requires code.Keys == Labels(|catches|)
    requires code[Entry] == Block([ClearResult, ClearException, StoreFlag(NotThrown)], Invoke(Normal, Exception))
    requires code[Normal] == Block([], Br(Finally)) && code[ExternalException] == Block([], Br(Finally))
    requires code[Exception]
             == Block([StoreResult, StoreException, StoreFlag(Thrown)], BrIfOurs(ExceptionRoute, ExternalException))
    requires code[ExceptionRoute] == Block([], SwitchSelector(Finally, CatchLabels(|catches|)))
    requires code[UnwindResume] == Block([], Resume) && code[End] == Block([DeleteException], RetVoid)
    requires code[Finally] == Block([PrintFinally], SwitchFlag(End, map[Caught := End, Thrown := UnwindResume]))
    requires forall k: nat :: k < |catches| ==>
               Catch(k) in code && code[Catch(k)] == Block([PrintCatch(catches[k]), StoreFlag(Caught)], Br(Finally))
    ensures code == Wrapper(catches)
  {
    forall l | l in Labels(|catches|)
      ensures code[l] == BlockOf(catches, l)
    {
    }
  }

  lemma AllEmpty(code: Code)
    requires code == map[][Entry := Block([], Open)][Normal := Block([], Open)][Exception := Block([], Open)]
                          [ExceptionRoute := Block([], Open)][ExternalException := Block([], Open)]
                          [UnwindResume := Block([], Open)][End := Block([], Open)]
    ensures code.Keys + {Finally} == Labels(0) && Finally !in code && Entry in code
    ensures forall l :: l in code ==> code[l] == Block([], Open)
  {
    LabelsNext(0);
  }

  /** The blocks of the first n types have been added. */
  ghost predicate HasCatches(code: Code, base: Code, types: seq<Type>, n: nat)
    requires n <= |types|
  {
    && code.Keys == Labels(n)
    && (forall l :: l in base ==> l in code && code[l] == base[l])
    && (forall k: nat :: k < n ==>
          Catch(k) in code && code[Catch(k)] == Block([PrintCatch(types[k]), StoreFlag(Caught)], Br(Finally)))
  }

  lemma NoCatches(base: Code, types: seq<Type>)
    requires base.Keys == Labels(0)
    ensures HasCatches(base, base, types, 0)
  {
  }

  lemma OneMoreCatch(code: Code, code': Code, base: Code, types: seq<Type>, n: nat)
    requires base.Keys == Labels(0) && n < |types| && HasCatches(code, base, types, n)
    requires code'.Keys == code.Keys + {Catch(n)}
    requires code'[Catch(n)] == Block([PrintCatch(types[n]), StoreFlag(Caught)], Br(Finally))
    requires forall l :: l in code' && l != Catch(n) ==> code'[l] == code[l]
    ensures HasCatches(code', base, types, n + 1)
  {
    LabelsNext(n);
    assert Catch(n) !in base;
    hide Labels;
  }

  lemma AllCatches(code: Code, base: Code, types: seq<Type>)
    requires HasCatches(code, base, types, |types|)
    ensures code.Keys == Labels(|types|)
    ensures forall l :: l in base ==> l in code && code[l] == base[l]
    ensures forall k: nat :: k < |types| ==>
              Catch(k) in code && code[Catch(k)] == Block([PrintCatch(types[k]), StoreFlag(Caught)], Br(Finally))
  {
  }

  // ----- the builder -----

  class WrapperBuilder {
    var blocks: Code
    var insertPoint: Label

    constructor ()
      ensures blocks == map[]
    {
      blocks, insertPoint := map[], Entry;
    }

    method CreateBlock(l: Label)
      modifies `blocks
      ensures blocks == old(blocks)[l := Block([], Open)]
    {
      blocks := blocks[l := Block([], Open)];
    }

    method Emit(i: Instr)
      requires insertPoint in blocks
      modifies `blocks
      ensures blocks == old(blocks)[insertPoint :=
                                    Block(old(blocks)[insertPoint].body + [i], old(blocks)[insertPoint].exit)]
    {
      blocks := blocks[insertPoint := blocks[insertPoint].(body := blocks[insertPoint].body + [i])];
    }

    method Terminate(exit: Terminator)
      requires insertPoint in blocks
      modifies `blocks
      ensures blocks.Keys == old(blocks).Keys && blocks[insertPoint] == Block(old(blocks)[insertPoint].body, exit)
      ensures forall l :: l in blocks && l != insertPoint ==> blocks[l] == old(blocks)[l]
    {
      blocks := blocks[insertPoint := blocks[insertPoint].(exit := exit)];
    }

    /** Allocates a slot at the start of the entry block, and initializes it. */
    method CreateEntryBlockAlloca(init: Instr)
      requires Entry in blocks
      modifies `blocks
      ensures blocks == old(blocks)[Entry := Block([init] + old(blocks)[Entry].body, old(blocks)[Entry].exit)]
    {
      blocks := blocks[Entry := blocks[Entry].(body := [init] + blocks[Entry].body)];
    }

    method CreateFinallyBlock(terminatorBlock: Label, unwindResumeBlock: Label)
      requires Entry in blocks && blocks[Entry] == Block([], Open) && Finally !in blocks
      modifies `blocks, `insertPoint
      ensures blocks.Keys == old(blocks).Keys + {Finally}
      ensures blocks[Entry] == Block([ClearResult, ClearException, StoreFlag(NotThrown)], Open)
      ensures blocks[Finally]
           == Block([PrintFinally],
                    SwitchFlag(terminatorBlock, map[Caught := terminatorBlock, Thrown := unwindResumeBlock]))
      ensures forall l :: l in blocks && l != Entry && l != Finally ==> blocks[l] == old(blocks)[l]
    {
      CreateEntryBlockAlloca(StoreFlag(NotThrown));
      CreateEntryBlockAlloca(ClearException);
      CreateEntryBlockAlloca(ClearResult);
      CreateBlock(Finally);
      insertPoint := Finally;
      Emit(PrintFinally);
      var cases := map[];
      cases := cases[Caught := terminatorBlock];
      cases := cases[Thrown := unwindResumeBlock];
      Terminate(SwitchFlag(terminatorBlock, cases));
      assert [] + [PrintFinally] == [PrintFinally];
      assert [ClearResult] + ([ClearException] + ([StoreFlag(NotThrown)] + []))
             == [ClearResult, ClearException, StoreFlag(NotThrown)];
    }

    method CreateCatchBlock(clause: nat, t: Type, terminatorBlock: Label)
      modifies `blocks, `insertPoint
      ensures blocks.Keys == old(blocks).Keys + {Catch(clause)}
      ensures blocks[Catch(clause)] == Block([PrintCatch(t), StoreFlag(Caught)], Br(terminatorBlock))
      ensures forall l :: l in blocks && l != Catch(clause) ==> blocks[l] == old(blocks)[l]
    {
      CreateBlock(Catch(clause));
      insertPoint := Catch(clause);
      Emit(PrintCatch(t));
      Emit(StoreFlag(Caught));
      Terminate(Br(terminatorBlock));
      assert [] + [PrintCatch(t)] + [StoreFlag(Caught)] == [PrintCatch(t), StoreFlag(Caught)];
    }

    method Fill(l: Label, body: seq<Instr>, exit: Terminator)
      requires l in blocks && blocks[l].body == []
      modifies `blocks, `insertPoint
      ensures blocks.Keys == old(blocks).Keys && blocks[l] == Block(body, exit)
      ensures forall x :: x in blocks && x != l ==> blocks[x] == old(blocks)[x]
    {
      insertPoint := l;
      for k := 0 to |body|
        invariant insertPoint == l && blocks == old(blocks)[l := Block(body[..k], old(blocks)[l].exit)]
      {
        Emit(body[k]);
        assert body[..k + 1] == body[..k] + [body[k]];
      }
      assert body[..|body|] == body;
      Terminate(exit);
    }

    /** Creates the blocks other than those of the clauses; those that stay empty are not terminated. */
    method CreateBlocks()
      requires blocks == map[]
      modifies `blocks, `insertPoint
      ensures blocks.Keys == Labels(0)
      ensures blocks[Entry] == Block([ClearResult, ClearException, StoreFlag(NotThrown)], Open)
      ensures blocks[Finally] == Block([PrintFinally], SwitchFlag(End, map[Caught := End, Thrown := UnwindResume]))
      ensures forall l :: l in blocks && l != Entry && l != Finally ==> blocks[l].body == []
    {
      hide Labels, BlockOf;
      LabelsNext(0);
      CreateBlock(Entry);
      CreateBlock(Normal);
      CreateBlock(Exception);
      CreateBlock(ExceptionRoute);
      CreateBlock(ExternalException);
      CreateBlock(UnwindResume);
      CreateBlock(End);
      AllEmpty(blocks);
      CreateFinallyBlock(End, UnwindResume);
    }

    /** Creates a block for each type to catch. */
    method CreateCatchBlocks(exceptionTypesToCatch: seq<Type>) returns (catchBlocks: seq<Label>)
      requires blocks.Keys == Labels(0)
      modifies `blocks, `insertPoint
      ensures blocks.Keys == Labels(|exceptionTypesToCatch|) && catchBlocks == CatchLabels(|exceptionTypesToCatch|)
      ensures forall l :: l in old(blocks) ==> blocks[l] == old(blocks)[l]
      ensures forall k: nat :: k < |exceptionTypesToCatch| ==>
                && Catch(k) in blocks
                && blocks[Catch(k)] == Block([PrintCatch(exceptionTypesToCatch[k]), StoreFlag(Caught)], Br(Finally))
    {
      hide Labels, HasCatches;
      catchBlocks := [];
      NoCatches(blocks, exceptionTypesToCatch);
      for i := 0 to |exceptionTypesToCatch|
        invariant HasCatches(blocks, old(blocks), exceptionTypesToCatch, i) && catchBlocks == CatchLabels(i)
      {
        ghost var was := blocks;
        CreateCatchBlock(i, exceptionTypesToCatch[i], Finally);
        OneMoreCatch(was, blocks, old(blocks), exceptionTypesToCatch, i);
        catchBlocks := catchBlocks + [Catch(i)];
      }
      AllCatches(blocks, old(blocks), exceptionTypesToCatch);
    }

    /** The landing pad, and what tells foreign exceptions and types apart. */
    method CreateExceptionBlocks(catchBlocks: seq<Label>)
      requires Exception in blocks && ExternalException in blocks && ExceptionRoute in blocks
      requires blocks[Exception].body == blocks[ExternalException].body == blocks[ExceptionRoute].body == []
      modifies `blocks, `insertPoint
      ensures blocks.Keys == old(blocks).Keys
      ensures blocks[Exception] == Block([StoreResult, StoreException, StoreFlag(Thrown)],
                                         BrIfOurs(ExceptionRoute, ExternalException))
      ensures blocks[ExternalException] == Block([], Br(Finally))
      ensures blocks[ExceptionRoute] == Block([], SwitchSelector(Finally, catchBlocks))
      ensures forall l :: l in blocks && l !in {Exception, ExternalException, ExceptionRoute} ==>
                blocks[l] == old(blocks)[l]
    {
      Fill(Exception, [StoreResult, StoreException, StoreFlag(Thrown)], BrIfOurs(ExceptionRoute, ExternalException));
      Fill(ExternalException, [], Br(Finally));
      Fill(ExceptionRoute, [], SwitchSelector(Finally, catchBlocks));
    }

    /** Terminates the entry block and those that end a wrapper or lead on. */
    method TerminateBlocks()
      requires Entry in blocks && End in blocks && Normal in blocks && UnwindResume in blocks
      requires blocks[End].body == blocks[Normal].body == blocks[UnwindResume].body == []
      modifies `blocks, `insertPoint
      ensures blocks.Keys == old(blocks).Keys
      ensures blocks[Entry] == Block(old(blocks)[Entry].body, Invoke(Normal, Exception))
      ensures blocks[End] == Block([DeleteException], RetVoid)
      ensures blocks[Normal] == Block([], Br(Finally)) && blocks[UnwindResume] == Block([], Resume)
      ensures forall l :: l in blocks && l !in {Entry, End, Normal, UnwindResume} ==> blocks[l] == old(blocks)[l]
    {
      insertPoint := Entry;
      Terminate(Invoke(Normal, Exception));
      Fill(End, [DeleteException], RetVoid);
      Fill(Normal, [], Br(Finally));
      Fill(UnwindResume, [], Resume);
    }

    /** Generates the function. */
    method CreateCatchWrappedInvokeFunction(exceptionTypesToCatch: seq<Type>)
      requires blocks == map[]
      modifies `blocks, `insertPoint
      ensures blocks == Wrapper(exceptionTypesToCatch)
    {
      hide Labels, BlockOf, Wrapper;
      CreateBlocks();
      FixedLabels(0);
      FixedLabels(|exceptionTypesToCatch|);
      var catchBlocks := CreateCatchBlocks(exceptionTypesToCatch);
      TerminateBlocks();
      CreateExceptionBlocks(catchBlocks);
      Assembled(blocks, exceptionTypesToCatch);
    }
  }
}
