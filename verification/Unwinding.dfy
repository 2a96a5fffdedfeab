/** What happens when an exception passes through nested wrapper functions: the generated code is
    executed block by block, and the personality routine selects what a landing pad does. */
module Unwinding {
  import opened Options
  import opened Leb128
  import opened ExceptionTable
  import ExceptionTableWriter
  import opened WrapperCode

  /** An exception that was created for a type, or a foreign one. */
  datatype Exn = Ours(id: nat, t: Type) | Foreign(id: nat)

  /** How a function ends. */
  datatype Exit = Returned | Raised(e: Exn)

  datatype Event = RanFinally(frame: nat) | RanCatch(frame: nat, t: Type) | Freed(id: nat)

  // ----- executing a wrapper -----

  /** The slots of a frame, and what was passed to its landing pad: an exception and a selector. */
  datatype Frame = Frame(flag: Flag, exception: Option<Exn>, result: Option<Exn>, landed: Option<Exn>, selector: nat)

  datatype Outcome = Outcome(exit: Exit, log: seq<Event>)

  /** deleteOurException frees an exception that was not a foreign one. */
  function DeleteOurException(e: Option<Exn>): seq<Event> {
    if e.Some? && e.value.Ours? then [Freed(e.value.id)] else []
  }

  function Step(i: Instr, f: Frame, frame: nat): (Frame, seq<Event>) {
    match i
    case StoreFlag(flag) => (f.(flag := flag), [])
    case ClearException => (f.(exception := None), [])
    case ClearResult => (f.(result := None), [])
    case StoreException => (f.(exception := f.landed), [])
    case StoreResult => (f.(result := f.landed), [])
    case PrintFinally => (f, [RanFinally(frame)])
    case PrintCatch(t) => (f, [RanCatch(frame, t)])
    case DeleteException => (f, DeleteOurException(f.exception))
  }

  function Steps(body: seq<Instr>, f: Frame, frame: nat): (Frame, seq<Event>) {
    if body == [] then (f, []) else
      var (f1, log1) := Step(body[0], f, frame);
      var (f2, log2) := Steps(body[1..], f1, frame);
      (f2, log1 + log2)
  }

  /** The landing pad of a wrapper lists its clauses in order and is a cleanup, too. */
  function Clauses(catches: seq<Type>): (records: seq<Option<Type>>)
    ensures |records| == |catches| + 1 && records[|catches|] == None
    ensures forall k :: 0 <= k < |catches| ==> records[k] == Some(catches[k])
  {
    seq(|catches|, k requires 0 <= k < |catches| => Some(catches[k])) + [None]
  }

  /** What the personality routine says of a frame that invokes a function that raises e. */
  function Personality(catches: seq<Type>, search: bool, e: Exn): Reason {
    AtCallSite(CallSite(0, 1, 1, Clauses(catches)), search, e.Ours?, if e.Ours? then e.t else 0)
  }

  /** The clauses of a wrapper as numbers of the type table: its types in order, then the cleanup. */
  function ClauseNumbers(n: nat): (clauses: seq<nat>)
    ensures |clauses| == n + 1 && clauses[n] == 0 && forall k :: 0 <= k < n ==> clauses[k] == k + 1
  {
    seq(n, (k: nat) => k + 1) + [0]
  }

  /** The call site of a wrapper, written with these clauses and a table of its types, is for what the
      wrapper catches. */
  lemma {:induction false} WrittenClauses(catches: seq<Type>, addresses: seq<nat>, infos: map<nat, Type>)
    requires |addresses| == |catches| && |catches| < LIMIT && ExceptionTableWriter.Known(addresses, infos)
    requires forall k :: 0 <= k < |catches| ==> infos[addresses[k]] == catches[k]
    ensures ExceptionTableWriter.Clauses(ClauseNumbers(|catches|), |addresses|)
    ensures ExceptionTableWriter.Records(ClauseNumbers(|catches|), addresses, infos) == Clauses(catches)
  {
    var clauses := ClauseNumbers(|catches|);
    forall k | 0 <= k <= |catches|
      ensures clauses[k] <= |addresses| && clauses[k] < LIMIT
      ensures ExceptionTableWriter.RecordOf(clauses[k], addresses, infos) == Clauses(catches)[k]
    {
    }
    assert ExceptionTableWriter.Records(clauses, addresses, infos) == Clauses(catches);
  }

  /** In the data written for a wrapper, the call site number k is its invoke: the one that covers pc. */
  ghost predicate WrittenFor(m: Memory, p: nat, sites: seq<ExceptionTableWriter.Site>, addresses: seq<nat>,
                             plan: ExceptionTableWriter.Plan, catches: seq<Type>, k: nat, pc: nat)
  {
    && k < |sites| && sites[k].clauses == ClauseNumbers(|catches|) && sites[k].landingPad != 0
    && sites[k].start <= pc < Word(sites[k].start + sites[k].length)
    && (forall j :: 0 <= j < |sites| && j != k ==> !(sites[j].start <= pc < Word(sites[j].start + sites[j].length)))
    && |addresses| == |catches| && plan.Supported() && ExceptionTableWriter.Readable(m, p, sites, addresses, plan)
    && (forall j :: 0 <= j < |catches| ==> m.infos[addresses[j]] == catches[j])
    && Written(m.bytes, p, ExceptionTableWriter.WriteLsda(p, sites, addresses, plan))
  }

  /** A landing pad at its place in the function. */
  function PlacedAt(r: Reason, landingPad: nat): Reason {
    match r
    case InstallContext(selector, _) => InstallContext(selector, landingPad)
    case _ => r
  }

  /** The bytes written for a wrapper say what its runs assume: where the wrapper invokes a function, the
      personality routine, which decides by those bytes, does in both phases what it does for the types
      that the wrapper catches. */
  lemma {:induction false} WrittenWrapperDecides(m: Memory, p: nat, sites: seq<ExceptionTableWriter.Site>,
                                                 addresses: seq<nat>, plan: ExceptionTableWriter.Plan,
                                                 catches: seq<Type>, k: nat, pc: nat)
    requires WrittenFor(m, p, sites, addresses, plan, catches, k, pc)
    ensures var meaning := ExceptionTableWriter.Meaning(sites, addresses, m.infos);
            && Describes(m, p, meaning)
            && forall search, e: Exn ::
                 Decide(meaning, pc, search, e.Ours?, if e.Ours? then e.t else 0)
                 == PlacedAt(Personality(catches, search, e), sites[k].landingPad)
  {
    var meaning := ExceptionTableWriter.Meaning(sites, addresses, m.infos);
    ExceptionTableWriter.WrittenDataIsRead(m, p, sites, addresses, plan);
    assert ExceptionTableWriter.Clauses(sites[k].clauses, |addresses|);
    assert ClauseNumbers(|catches|)[if |catches| == 0 then 0 else |catches| - 1] < LIMIT;
    WrittenClauses(catches, addresses, m.infos);
    forall search, e: Exn
      ensures Decide(meaning, pc, search, e.Ours?, if e.Ours? then e.t else 0)
              == PlacedAt(Personality(catches, search, e), sites[k].landingPad)
    {
      DecidedAt(sites, addresses, m.infos, k, pc, search, e.Ours?, if e.Ours? then e.t else 0);
    }
  }

  /** The one call site that covers pc decides. */
  lemma {:induction false} DecidedAt(sites: seq<ExceptionTableWriter.Site>, addresses: seq<nat>, infos: map<nat, Type>,
                                     k: nat, pc: nat, search: bool, ours: bool, t: Type)
    requires (forall j :: 0 <= j < |sites| ==> ExceptionTableWriter.Clauses(sites[j].clauses, |addresses|))
    requires ExceptionTableWriter.Known(addresses, infos) && k < |sites| && sites[k].landingPad != 0
    requires sites[k].start <= pc < Word(sites[k].start + sites[k].length)
    requires forall j :: 0 <= j < |sites| && j != k ==> !(sites[j].start <= pc < Word(sites[j].start + sites[j].length))
    ensures Decide(ExceptionTableWriter.Meaning(sites, addresses, infos), pc, search, ours, t)
         == AtCallSite(CallSite(sites[k].start, sites[k].length, sites[k].landingPad,
                                ExceptionTableWriter.Records(sites[k].clauses, addresses, infos)), search, ours, t)
    decreases |sites|
  {
    hide ExceptionTableWriter.Records, AtCallSite, ExceptionTableWriter.Known, ExceptionTableWriter.Clauses;
    var meaning := ExceptionTableWriter.Meaning(sites, addresses, infos);
    assert meaning[1..] == ExceptionTableWriter.Meaning(sites[1..], addresses, infos);
    if k > 0 {
      assert forall j :: 0 <= j < |sites| - 1 ==> sites[1..][j] == sites[j + 1];
      DecidedAt(sites[1..], addresses, infos, k - 1, pc, search, ours, t);
    }
  }

  /** Where the next block is, if control stays in the function. */
  function NextLabel(exit: Terminator, f: Frame, inner: Exit): Option<Label> {
    match exit
    case Invoke(normal, unwind) => Some(if inner.Returned? then normal else unwind)
    case Br(to) => Some(to)
    case SwitchFlag(otherwise, cases) => Some(if f.flag in cases then cases[f.flag] else otherwise)
    case BrIfOurs(yes, no) => if f.landed.Some? then Some(if f.landed.value.Ours? then yes else no) else None
    case SwitchSelector(otherwise, catches) => Some(if 1 <= f.selector <= |catches| then catches[f.selector - 1]
                                                    else otherwise)
    case _ => None
  }

  /** Unwinding to a landing pad passes it the exception and the selector. */
  function Land(exit: Terminator, f: Frame, catches: seq<Type>, inner: Exit): Frame {
    if exit.Invoke? && inner.Raised? then
      match Personality(catches, false, inner.e)
      case InstallContext(selector, _) => f.(landed := Some(inner.e), selector := selector)
      case _ => f
    else f
  }

  /** Executes from a block on, for at most so many blocks; inner is how the invoked function ends. */
  function Exec(code: Code, l: Label, f: Frame, catches: seq<Type>, inner: Exit, frame: nat, fuel: nat): Option<Outcome>
    decreases fuel
  {
    if fuel == 0 || l !in code then None else
      var exit := code[l].exit;
      var (f1, log) := Steps(code[l].body, f, frame);
      if exit.RetVoid? then Some(Outcome(Returned, log))
      else if exit.Resume? then (if f1.result.Some? then Some(Outcome(Raised(f1.result.value), log)) else None)
      else
        match NextLabel(exit, f1, inner)
        case None => None
        case Some(next) =>
          match Exec(code, next, Land(exit, f1, catches, inner), catches, inner, frame, fuel - 1)
          case None => None
          case Some(rest) => Some(Outcome(rest.exit, log + rest.log))
  }

  /** No path through a wrapper has more blocks. */
  const BLOCKS := 6

  function RunWrapper(catches: seq<Type>, inner: Exit, frame: nat): Option<Outcome> {
    Exec(Wrapper(catches), Entry, Frame(NotThrown, None, None, None, 0), catches, inner, frame, BLOCKS)
  }

  /** Runs nested wrappers, the innermost first, around a function that ends like this. */
  function RunNested(stack: seq<seq<Type>>, thrown: Exit): Option<Outcome> {
    if stack == [] then Some(Outcome(thrown, []))
    else
      var n := |stack| - 1;
      match RunNested(stack[..n], thrown)
      case None => None
      case Some(inner) =>
        match RunWrapper(stack[n], inner.exit, n)
        case None => None
        case Some(outer) => Some(Outcome(outer.exit, inner.log + outer.log))
  }

  /** The search phase: the innermost frame whose personality routine finds a handler. */
  function Search(stack: seq<seq<Type>>, e: Exn): (r: Option<nat>)
    ensures r.Some? ==> r.value < |stack|
  {
    if stack == [] then None
    else match Search(stack[..|stack| - 1], e)
         case Some(h) => Some(h)
         case None => if Personality(stack[|stack| - 1], true, e) == HandlerFound then Some(|stack| - 1) else None
  }

  // ----- what should happen -----

  predicate Lists(catches: seq<Type>, e: Exn) { e.Ours? && e.t in catches }

  /** The innermost wrapper that lists the type catches the exception and frees it at its end; each
      wrapper's finally runs once. */
  function Story(n: nat, handler: Option<nat>, e: Exn): seq<Event> {
    if n == 0 then []
    else Story(n - 1, handler, e)
         + (if handler == Some(n - 1) && e.Ours? then [RanCatch(n - 1, e.t), RanFinally(n - 1), Freed(e.id)]
            else [RanFinally(n - 1)])
  }

  // ----- one wrapper -----

  lemma SelectorLists(catches: seq<Type>, e: Exn)
    ensures var k := Selector(Clauses(catches), e.Ours?, if e.Ours? then e.t else 0);
            && (k != 0 <==> Lists(catches, e))
            && (k != 0 ==> k <= |catches| && catches[k - 1] == e.t)
            && Personality(catches, false, e) == InstallContext(k, 1)
            && (Personality(catches, true, e) == HandlerFound <==> Lists(catches, e))
  {
    if Lists(catches, e) {
      var j :| 0 <= j < |catches| && catches[j] == e.t;
      assert Clauses(catches)[j] == Some(e.t);
    }
  }

  /** Executing one block. */
  lemma ExecBlock(code: Code, l: Label, f: Frame, f1: Frame, log: seq<Event>, catches: seq<Type>, inner: Exit,
                  frame: nat, fuel: nat)
    requires fuel > 0 && l in code && Steps(code[l].body, f, frame) == (f1, log)
    ensures Exec(code, l, f, catches, inner, frame, fuel)
         == (match code[l].exit
             case RetVoid => Some(Outcome(Returned, log))
             case Resume => if f1.result.Some? then Some(Outcome(Raised(f1.result.value), log)) else None
             case exit =>
               if NextLabel(exit, f1, inner).None? then None
               else
                 match Exec(code, NextLabel(exit, f1, inner).value, Land(exit, f1, catches, inner), catches, inner,
                            frame, fuel - 1)
                 case None => None
                 case Some(rest) => Some(Outcome(rest.exit, log + rest.log)))
  {
  }

  lemma Append()
    ensures forall log: seq<Event> :: log + [] == log && [] + log == log
  {
  }

  lemma CodeOf(catches: seq<Type>, l: Label)
    requires l in Labels(|catches|)
    ensures l in Wrapper(catches) && Wrapper(catches)[l] == BlockOf(catches, l)
  {
  }

  lemma StepsOne(a: Instr, f: Frame, frame: nat)
    ensures Steps([a], f, frame) == Step(a, f, frame)
  {
    assert [a][1..] == [];
    assert Step(a, f, frame).1 + [] == Step(a, f, frame).1;
  }

  lemma StepsTwo(a: Instr, b: Instr, f: Frame, frame: nat)
    ensures var (f1, log1) := Step(a, f, frame);
            var (f2, log2) := Step(b, f1, frame);
            Steps([a, b], f, frame) == (f2, log1 + log2)
  {
    assert [a, b][1..] == [b];
    StepsOne(b, Step(a, f, frame).0, frame);
  }

  lemma StepsThree(a: Instr, b: Instr, c: Instr, f: Frame, frame: nat)
    ensures var (f1, log1) := Step(a, f, frame);
            var (f2, log2) := Step(b, f1, frame);
            var (f3, log3) := Step(c, f2, frame);
            Steps([a, b, c], f, frame) == (f3, log1 + (log2 + log3))
  {
    assert [a, b, c][1..] == [b, c];
    StepsTwo(b, c, Step(a, f, frame).0, frame);
  }

  /** From the finally block on. */
  lemma {:induction false} ExecFinally(catches: seq<Type>, f: Frame, inner: Exit, frame: nat, fuel: nat)
    requires fuel >= 2 && (f.flag == Thrown ==> f.result.Some?)
    ensures Exec(Wrapper(catches), Finally, f, catches, inner, frame, fuel)
         == Some(if f.flag == Thrown then Outcome(Raised(f.result.value), [RanFinally(frame)])
                 else Outcome(Returned, [RanFinally(frame)] + DeleteOurException(f.exception)))
  {
    hide Exec, Wrapper, Steps;
    Append();
    var code := Wrapper(catches);
    CodeOf(catches, Finally);
    StepsOne(PrintFinally, f, frame);
    ExecBlock(code, Finally, f, f, [RanFinally(frame)], catches, inner, frame, fuel);
    if f.flag == Thrown {
      CodeOf(catches, UnwindResume);
      StepsNone(f, frame);
      ExecBlock(code, UnwindResume, f, f, [], catches, inner, frame, fuel - 1);
    } else {
      CodeOf(catches, End);
      StepsOne(DeleteException, f, frame);
      ExecBlock(code, End, f, f, DeleteOurException(f.exception), catches, inner, frame, fuel - 1);
    }
  }

  lemma StepsNone(f: Frame, frame: nat)
    ensures Steps([], f, frame) == (f, [])
  {
  }

  lemma {:induction false} ExecCatch(catches: seq<Type>, k: nat, f: Frame, inner: Exit, frame: nat, fuel: nat)
    requires fuel >= 3 && k < |catches|
    ensures Exec(Wrapper(catches), Catch(k), f, catches, inner, frame, fuel)
         == Some(Outcome(Returned, [RanCatch(frame, catches[k]), RanFinally(frame)] + DeleteOurException(f.exception)))
  {
    hide Exec, Wrapper, Steps;
    Append();
    CodeOf(catches, Catch(k));
    var f1 := f.(flag := Caught);
    StepsTwo(PrintCatch(catches[k]), StoreFlag(Caught), f, frame);
    ExecBlock(Wrapper(catches), Catch(k), f, f1, [RanCatch(frame, catches[k])], catches, inner, frame, fuel);
    ExecFinally(catches, f1, inner, frame, fuel - 1);
    var freed := DeleteOurException(f.exception);
    assert [RanCatch(frame, catches[k])] + ([RanFinally(frame)] + freed)
           == [RanCatch(frame, catches[k]), RanFinally(frame)] + freed;
  }

  /** From where our exceptions are told from foreign ones on. */
  lemma {:induction false} ExecRoute(catches: seq<Type>, f: Frame, e: Exn, frame: nat, fuel: nat)
    requires fuel >= 4 && f.landed == f.result == f.exception == Some(e) && f.flag == Thrown
    requires f.selector == Selector(Clauses(catches), e.Ours?, if e.Ours? then e.t else 0)
    ensures Exec(Wrapper(catches), if e.Ours? then ExceptionRoute else ExternalException, f, catches, Raised(e), frame,
                 fuel)
         == Some(if Lists(catches, e) then Outcome(Returned, [RanCatch(frame, e.t), RanFinally(frame), Freed(e.id)])
                 else Outcome(Raised(e), [RanFinally(frame)]))
  {
    hide Exec, Wrapper, Steps;
    Append();
    SelectorLists(catches, e);
    var l := if e.Ours? then ExceptionRoute else ExternalException;
    CodeOf(catches, l);
    StepsNone(f, frame);
    ExecBlock(Wrapper(catches), l, f, f, [], catches, Raised(e), frame, fuel);
    if Lists(catches, e) {
      ExecCatch(catches, f.selector - 1, f, Raised(e), frame, fuel - 1);
      assert [RanCatch(frame, e.t), RanFinally(frame)] + [Freed(e.id)]
             == [RanCatch(frame, e.t), RanFinally(frame), Freed(e.id)];
    } else {
      ExecFinally(catches, f, Raised(e), frame, fuel - 1);
    }
  }

  /** From the landing pad on. */
  lemma {:induction false} ExecException(catches: seq<Type>, f: Frame, e: Exn, frame: nat, fuel: nat)
    requires fuel >= 5 && f.landed == Some(e)
    requires f.selector == Selector(Clauses(catches), e.Ours?, if e.Ours? then e.t else 0)
    ensures Exec(Wrapper(catches), Exception, f, catches, Raised(e), frame, fuel)
         == Some(if Lists(catches, e) then Outcome(Returned, [RanCatch(frame, e.t), RanFinally(frame), Freed(e.id)])
                 else Outcome(Raised(e), [RanFinally(frame)]))
  {
    hide Exec, Wrapper, Steps;
    Append();
    CodeOf(catches, Exception);
    var f1 := f.(result := Some(e), exception := Some(e), flag := Thrown);
    StepsThree(StoreResult, StoreException, StoreFlag(Thrown), f, frame);
    ExecBlock(Wrapper(catches), Exception, f, f1, [], catches, Raised(e), frame, fuel);
    ExecRoute(catches, f1, e, frame, fuel - 1);
  }

  /** A wrapper always runs its finally once, and catches and frees exactly the exceptions it lists. */
  lemma {:induction false} WrapperRun(catches: seq<Type>, inner: Exit, frame: nat)
    ensures RunWrapper(catches, inner, frame)
         == Some(if inner.Returned? then Outcome(Returned, [RanFinally(frame)])
                 else if Lists(catches, inner.e)
                   then Outcome(Returned, [RanCatch(frame, inner.e.t), RanFinally(frame), Freed(inner.e.id)])
                 else Outcome(inner, [RanFinally(frame)]))
  {
    hide Exec, Wrapper, Steps;
    Append();
    CodeOf(catches, Entry);
    var f := Frame(NotThrown, None, None, None, 0);
    StepsThree(ClearResult, ClearException, StoreFlag(NotThrown), f, frame);
    ExecBlock(Wrapper(catches), Entry, f, f, [], catches, inner, frame, BLOCKS);
    if inner.Returned? {
      CodeOf(catches, Normal);
      StepsNone(f, frame);
      ExecBlock(Wrapper(catches), Normal, f, f, [], catches, inner, frame, BLOCKS - 1);
      ExecFinally(catches, f, inner, frame, BLOCKS - 2);
    } else {
      SelectorLists(catches, inner.e);
      ExecException(catches, Land(Invoke(Normal, Exception), f, catches, inner), inner.e, frame, BLOCKS - 1);
    }
  }

  // ----- any depth -----

  lemma {:induction false} InnermostHandler(stack: seq<seq<Type>>, e: Exn)
    ensures Search(stack, e).None? ==> forall i :: 0 <= i < |stack| ==> !Lists(stack[i], e)
    ensures Search(stack, e).Some? ==> Lists(stack[Search(stack, e).value], e) && forall i ::
              0 <= i < Search(stack, e).value ==> !Lists(stack[i], e)
  {
    if stack != [] {
      InnermostHandler(stack[..|stack| - 1], e);
      SelectorLists(stack[|stack| - 1], e);
    }
  }

  lemma {:induction false} StoryBeyond(n: nat, h: Option<nat>, h': Option<nat>, e: Exn)
    requires forall i: nat :: i < n ==> (h == Some(i) <==> h' == Some(i))
    ensures Story(n, h, e) == Story(n, h', e)
  {
    if n > 0 {
      StoryBeyond(n - 1, h, h', e);
    }
  }

  /** For every stack of wrappers and every exception, the run is as told: the handler of the search
      phase catches it, or it leaves the outermost wrapper. */
  lemma {:induction false} NestedRun(stack: seq<seq<Type>>, e: Exn)
    ensures RunNested(stack, Raised(e))
         == Some(Outcome(if Search(stack, e).Some? then Returned else Raised(e), Story(|stack|, Search(stack, e), e)))
  {
    if stack != [] {
      var n := |stack| - 1;
      NestedRun(stack[..n], e);
      var inner := RunNested(stack[..n], Raised(e)).value;
      WrapperRun(stack[n], inner.exit, n);
      SelectorLists(stack[n], e);
      InnermostHandler(stack, e);
      StoryBeyond(n, Search(stack[..n], e), Search(stack, e), e);
    }
  }

  /** Without an exception, only the finally blocks run. */
  lemma {:induction false} NestedReturn(stack: seq<seq<Type>>, e: Exn)
    ensures RunNested(stack, Returned) == Some(Outcome(Returned, Story(|stack|, None, e)))
  {
    if stack != [] {
      NestedReturn(stack[..|stack| - 1], e);
      WrapperRun(stack[|stack| - 1], Returned, |stack| - 1);
    }
  }

  function Count(log: seq<Event>, x: Event): nat {
    if log == [] then 0 else Count(log[..|log| - 1], x) + if log[|log| - 1] == x then 1 else 0
  }

  lemma {:induction false} CountAppend(a: seq<Event>, b: seq<Event>, x: Event)
    ensures Count(a + b, x) == Count(a, x) + Count(b, x)
  {
    if b == [] {
      assert a + b == a;
    } else {
      assert (a + b)[..|a + b| - 1] == a + b[..|b| - 1];
      CountAppend(a, b[..|b| - 1], x);
    }
  }

  lemma CountShort(log: seq<Event>, x: Event)
    requires |log| == 1 || |log| == 3
    ensures |log| == 1 ==> Count(log, x) == if log[0] == x then 1 else 0
    ensures |log| == 3 ==>
              Count(log, x) == (if log[0] == x then 1 else 0) + (if log[1] == x then 1 else 0) + if log[2] == x then 1
                else 0
    decreases |log|
  {
    if |log| == 3 {
      CountShort([log[0]], x);
      assert log[..2] == [log[0], log[1]] && log[..2][..1] == [log[0]];
      assert Count(log[..2], x) == Count([log[0]], x) + if log[1] == x then 1 else 0;
    } else {
      assert log[..0] == [];
    }
  }

  /** How often an event of the story happens. */
  function Times(n: nat, handler: Option<nat>, e: Exn, x: Event): nat
    requires handler.Some? ==> e.Ours?
  {
    match x
    case RanFinally(i) => if i < n then 1 else 0
    case RanCatch(i, t) => if handler == Some(i) && i < n && t == e.t then 1 else 0
    case Freed(id) => if handler.Some? && handler.value < n && id == e.id then 1 else 0
  }

  lemma CountNone(x: Event)
    ensures Count([], x) == 0
  {
  }

  lemma {:induction false} StoryCount(n: nat, handler: Option<nat>, e: Exn, x: Event)
    requires handler.Some? ==> e.Ours?
    ensures Count(Story(n, handler, e), x) == Times(n, handler, e, x)
  {
    hide Count;
    if n == 0 {
      CountNone(x);
    } else {
      StoryCount(n - 1, handler, e, x);
      LastFrame(n, handler, e, x);
    }
  }

  /** What one more wrapper adds. */
  lemma LastFrame(n: nat, handler: Option<nat>, e: Exn, x: Event)
    requires n > 0 && (handler.Some? ==> e.Ours?)
    ensures Count(Story(n, handler, e), x) - Count(Story(n - 1, handler, e), x)
            == Times(n, handler, e, x) - Times(n - 1, handler, e, x)
  {
    hide Count;
    var last := if handler == Some(n - 1) then [RanCatch(n - 1, e.t), RanFinally(n - 1), Freed(e.id)]
      else [RanFinally(n - 1)];
    CountAppend(Story(n - 1, handler, e), last, x);
    CountShort(last, x);
  }

  /** Every finally runs exactly once; the innermost wrapper that lists the type of the exception, and
      no other, catches it; the exception is freed exactly once if it is caught, and otherwise resumed
      out of every wrapper and never freed. */
  lemma {:induction false} ExceptionsAreHandledOnce(stack: seq<seq<Type>>, e: Exn)
    ensures RunNested(stack, Raised(e)).Some?
    ensures var run := RunNested(stack, Raised(e)).value;
            && (forall i: nat :: Count(run.log, RanFinally(i)) == if i < |stack| then 1 else 0)
            && (forall i: nat, t :: Count(run.log, RanCatch(i, t)) == if Catches(stack, e, i) && t == e.t then 1 else 0)
            && (forall id: nat :: Count(run.log, Freed(id)) == if run.exit.Returned? && id == e.id then 1 else 0)
            && (run.exit == Returned <==> exists i: nat :: Catches(stack, e, i))
            && (run.exit != Returned ==> run.exit == Raised(e))
  {
    hide RunNested, Story, Count, Search, Lists, Catches;
    NestedRun(stack, e);
    CatchesIff(stack, e);
    forall x
      ensures Count(Story(|stack|, Search(stack, e), e), x) == Times(|stack|, Search(stack, e), e, x)
    {
      StoryCount(|stack|, Search(stack, e), e, x);
    }
  }

  lemma {:induction false} CatchesIff(stack: seq<seq<Type>>, e: Exn)
    ensures forall i: nat :: Catches(stack, e, i) <==> Search(stack, e) == Some(i)
    ensures Search(stack, e).Some? ==> e.Ours?
  {
    hide Search;
    InnermostHandler(stack, e);
  }

  /** Wrapper i is the innermost one that lists the exception. */
  ghost predicate Catches(stack: seq<seq<Type>>, e: Exn, i: nat) {
    i < |stack| && Lists(stack[i], e) && forall j :: 0 <= j < i ==> !Lists(stack[j], e)
  }
}
