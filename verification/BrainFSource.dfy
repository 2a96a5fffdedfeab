/** The BrainF language: texts, their bracket structure, and what a program means when its
    symbols are executed one at a time. */
module BrainFSource {

  type Byte = x: int | 0 <= x < 256

  /** A program at one nesting level. Move and Change carry a signed count: the parser of this
      module only produces counts of one, the compiler fuses whole runs into one command. */
  datatype Prog = Empty | Then(first: Cmd, rest: Prog)
  datatype Cmd = Read | Write | Move(count: int) | Change(count: int) | Loop(body: Prog)

  // ----- parsing -----

  /** What reading one nesting level yields: its commands, the position after it and whether a
      `]` (rather than the end of the text) ended it; or a `[` that is never closed. */
  datatype ParseResult = Parsed(prog: Prog, next: nat, closed: bool) | Missing

  function Prepend(c: Cmd, r: ParseResult): ParseResult {
    match r
    case Missing => Missing
    case Parsed(p, next, closed) => Parsed(Then(c, p), next, closed)
  }

  function Parse(text: string, i: nat): (r: ParseResult)
    requires i <= |text|
    ensures r.Parsed? ==> i <= r.next <= |text|
    ensures r.Parsed? && r.closed ==> i < r.next
    ensures r.Parsed? && !r.closed ==> r.next == |text|
    decreases |text| - i
  {
    if i == |text| then Parsed(Empty, i, false)
    else match text[i]
      case ',' => Prepend(Read, Parse(text, i + 1))
      case '.' => Prepend(Write, Parse(text, i + 1))
      case '+' => Prepend(Change(1), Parse(text, i + 1))
      case '-' => Prepend(Change(-1), Parse(text, i + 1))
      case '>' => Prepend(Move(1), Parse(text, i + 1))
      case '<' => Prepend(Move(-1), Parse(text, i + 1))
      case '[' => ParseLoop(text, i, Parse(text, i + 1))
      case ']' => Parsed(Empty, i + 1, true)
      case _ => Parse(text, i + 1)
  }

  /** The rest of a level whose `[` at i has the given body. */
  function ParseLoop(text: string, i: nat, body: ParseResult): (r: ParseResult)
    requires body.Parsed? && body.closed ==> i < body.next <= |text|
    ensures r.Parsed? ==> i < r.next <= |text|
    ensures r.Parsed? && !r.closed ==> r.next == |text|
    decreases |text| - i, 0
  {
    if body.Missing? || !body.closed then Missing
    else Prepend(Loop(body.prog), Parse(text, body.next))
  }

  /** A text is a program when its top level runs to the end of the text. */
  predicate IsProgram(text: string) {
    var r := Parse(text, 0);
    r.Parsed? && !r.closed
  }

  function ProgramOf(text: string): Prog
    requires IsProgram(text)
  {
    Parse(text, 0).prog
  }

  // ----- an independent account of bracketing -----

  /** Counting brackets from position i with d of them open: never below zero, zero at the end. */
  predicate Balanced(text: string, i: nat, d: nat)
    requires i <= |text|
    decreases |text| - i
  {
    if i == |text| then d == 0
    else if text[i] == '[' then Balanced(text, i + 1, d + 1)
    else if text[i] == ']' then d > 0 && Balanced(text, i + 1, d - 1)
    else Balanced(text, i + 1, d)
  }

  lemma {:induction false} ParseCountsBrackets(text: string, i: nat, d: nat)
    requires i <= |text|
    ensures var r := Parse(text, i);
            Balanced(text, i, d) ==
            if r.Missing? then false
            else if r.closed then d > 0 && Balanced(text, r.next, d - 1)
            else d == 0
    decreases |text| - i
  {
    if i == |text| {
    } else if text[i] == '[' {
      ParseCountsBrackets(text, i + 1, d + 1);
      var body := Parse(text, i + 1);
      if body.Parsed? && body.closed {
        ParseCountsBrackets(text, body.next, d);
      }
    } else if text[i] != ']' {
      ParseCountsBrackets(text, i + 1, d);
    }
  }

  /** The texts that parse are exactly those whose brackets balance. */
  lemma ProgramIffBalanced(text: string)
    ensures IsProgram(text) <==> Balanced(text, 0, 0)
  {
    ParseCountsBrackets(text, 0, 0);
  }

  /** A text with its comments removed. */
  function Symbols(text: string): string {
    if text == "" then ""
    else if text[0] in ",.+-<>[]" then [text[0]] + Symbols(text[1..])
    else Symbols(text[1..])
  }

  function ShowCmd(c: Cmd): string {
    match c
    case Read => ","
    case Write => "."
    case Move(n) => if n > 0 then ">" else "<"
    case Change(n) => if n > 0 then "+" else "-"
    case Loop(b) => "[" + Show(b) + "]"
  }

  function Show(p: Prog): string {
    match p
    case Empty => ""
    case Then(c, rest) => ShowCmd(c) + Show(rest)
  }

  predicate Unit(p: Prog) {
    match p
    case Empty => true
    case Then(c, rest) =>
      (match c
       case Move(n) => n == 1 || n == -1
       case Change(n) => n == 1 || n == -1
       case Loop(b) => Unit(b)
       case _ => true)
      && Unit(rest)
  }

  lemma {:induction false} SymbolsFrom(text: string, i: nat)
    requires i < |text|
    ensures Symbols(text[i..]) ==
            (if text[i] in ",.+-<>[]" then [text[i]] else "") + Symbols(text[i + 1..])
  {
    assert text[i..][0] == text[i] && text[i..][1..] == text[i + 1..];
  }

  /** r, a result of parsing from i, spells the symbols of the text between i and where it stopped. */
  predicate Spells(text: string, i: nat, r: ParseResult)
    requires i <= |text| && (r.Parsed? ==> r.next <= |text|)
  {
    r.Parsed? ==>
      && Unit(r.prog)
      && Symbols(text[i..]) == Show(r.prog) + ((if r.closed then "]" else "") + Symbols(text[r.next..]))
  }

  lemma {:induction false} PrependSpells(text: string, i: nat, c: Cmd, j: nat, r: ParseResult)
    requires i < j <= |text| && (r.Parsed? ==> r.next <= |text|)
    requires Unit(Then(c, Empty)) && Symbols(text[i..]) == ShowCmd(c) + Symbols(text[j..])
    requires Spells(text, j, r)
    ensures Spells(text, i, Prepend(c, r))
  {
    if r.Parsed? {
      var end := (if r.closed then "]" else "") + Symbols(text[r.next..]);
      assert ShowCmd(c) + (Show(r.prog) + end) == (ShowCmd(c) + Show(r.prog)) + end;
    }
  }

  lemma {:induction false} ParseKeepsSymbolsFrom(text: string, i: nat)
    requires i <= |text|
    ensures Spells(text, i, Parse(text, i))
    decreases |text| - i
  {
    if i < |text| {
      SymbolsFrom(text, i);
      if text[i] == '[' {
        var body := Parse(text, i + 1);
        ParseKeepsSymbolsFrom(text, i + 1);
        if body.Parsed? && body.closed {
          ParseKeepsSymbolsFrom(text, body.next);
          LoopSpells(text, i, body);
        }
      } else if text[i] != ']' {
        ParseKeepsSymbolsFrom(text, i + 1);
        if text[i] in ",.+-<>" {
          ParseSymbol(text, i);
        }
      }
    }
  }

  lemma {:induction false} LoopSpells(text: string, i: nat, body: ParseResult)
    requires i < |text| && text[i] == '[' && body.Parsed? && body.closed && i < body.next <= |text|
    requires Spells(text, i + 1, body) && Spells(text, body.next, Parse(text, body.next))
    ensures Spells(text, i, Prepend(Loop(body.prog), Parse(text, body.next)))
  {
    hide Parse;
    SymbolsFrom(text, i);
    var tail := Symbols(text[body.next..]);
    assert "[" + (Show(body.prog) + ("]" + tail)) == ("[" + Show(body.prog) + "]") + tail;
    PrependSpells(text, i, Loop(body.prog), body.next, Parse(text, body.next));
  }

  lemma {:induction false} ParseSymbol(text: string, i: nat)
    requires i < |text| && text[i] in ",.+-<>"
    requires Spells(text, i + 1, Parse(text, i + 1))
    ensures Spells(text, i, Parse(text, i))
  {
    SymbolsFrom(text, i);
    var r := Parse(text, i + 1);
    match text[i] {
      case ',' => PrependSpells(text, i, Read, i + 1, r);
      case '.' => PrependSpells(text, i, Write, i + 1, r);
      case '+' => PrependSpells(text, i, Change(1), i + 1, r);
      case '-' => PrependSpells(text, i, Change(-1), i + 1, r);
      case '>' => PrependSpells(text, i, Move(1), i + 1, r);
      case '<' => PrependSpells(text, i, Move(-1), i + 1, r);
    }
  }

  /** Parsing neither loses, adds nor reorders a symbol: the tree spells the text. */
  lemma {:induction false} ParseKeepsSymbols(text: string)
    requires IsProgram(text)
    ensures Unit(ProgramOf(text)) && Show(ProgramOf(text)) == Symbols(text)
  {
    ParseKeepsSymbolsFrom(text, 0);
    assert text[0..] == text;
    assert text[|text|..] == "";
  }

  // ----- execution -----

  /** Tape, head, the input still to come and the output so far. */
  datatype State = State(tape: seq<Byte>, head: int, input: seq<Byte>, output: seq<Byte>) {
    predicate OnTape() { 0 <= head < |tape| }

    function Cell(): Byte
      requires OnTape()
    {
      tape[head]
    }

    function Put(b: Byte): State
      requires OnTape()
    {
      this.(tape := tape[head := b])
    }

    /** Reads a character into the cell, 255 at the end of the input. */
    function DoRead(): State
      requires OnTape()
    {
      if input == [] then Put(255) else Put(input[0]).(input := input[1..])
    }

    function DoWrite(): State
      requires OnTape()
    {
      this.(output := output + [Cell()])
    }

    function DoChange(n: int): State
      requires OnTape()
    {
      Put((Cell() + n) % 256)
    }
  }

  /** Where a run looks at the position of the head, besides at every access to the cell under it:
      nowhere else, after every maximal run of moves, or after every single move. */
  datatype Policy = AtAccess | AtRunEnd | AtEveryMove

  /** How a run ends: normally, with an access outside the tape, with a position check that
      failed, or not within the fuel; and the state that was reached then. */
  datatype Outcome = Done(s: State) | OffTape(s: State) | LeftTape(s: State) | Timeout(s: State)

  predicate StartsWithMove(p: Prog) { p.Then? && p.first.Move? }

  predicate Checks(policy: Policy, rest: Prog) {
    policy == AtEveryMove || (policy == AtRunEnd && !StartsWithMove(rest))
  }

  /** Fuel bounds the number of times a loop is repeated. */
  function Run(p: Prog, s: State, fuel: nat, policy: Policy): Outcome
    decreases fuel, p
  {
    match p
    case Empty => Done(s)
    case Then(c, rest) =>
      var o := RunCmd(c, Checks(policy, rest), s, fuel, policy);
      if o.Done? then Run(rest, o.s, fuel, policy) else o
  }

  function RunCmd(c: Cmd, check: bool, s: State, fuel: nat, policy: Policy): Outcome
    decreases fuel, c
  {
    match c
    case Move(n) =>
      var s' := s.(head := s.head + n);
      if check && !s'.OnTape() then LeftTape(s') else Done(s')
    case Read => if s.OnTape() then Done(s.DoRead()) else OffTape(s)
    case Write => if s.OnTape() then Done(s.DoWrite()) else OffTape(s)
    case Change(n) => if s.OnTape() then Done(s.DoChange(n)) else OffTape(s)
    case Loop(b) =>
      if !s.OnTape() then OffTape(s)
      else if s.Cell() == 0 then Done(s)
      else
        var o := Run(b, s, fuel, policy);
        if !o.Done? then o
        else if fuel == 0 then Timeout(o.s)
        else RunCmd(c, check, o.s, fuel - 1, policy)
  }

  /** More fuel changes no answer. */
  lemma {:induction false} FuelMonotone(p: Prog, s: State, fuel: nat, more: nat, policy: Policy)
    requires fuel <= more
    ensures !Run(p, s, fuel, policy).Timeout? ==> Run(p, s, more, policy) == Run(p, s, fuel, policy)
    decreases fuel, p
  {
    match p
    case Empty =>
    case Then(c, rest) =>
      var check := Checks(policy, rest);
      FuelMonotoneCmd(c, check, s, fuel, more, policy);
      var o := RunCmd(c, check, s, fuel, policy);
      if o.Done? {
        FuelMonotone(rest, o.s, fuel, more, policy);
      }
  }

  lemma {:induction false} FuelMonotoneCmd(c: Cmd, check: bool, s: State, fuel: nat, more: nat, policy: Policy)
    requires fuel <= more
    ensures !RunCmd(c, check, s, fuel, policy).Timeout? ==>
              RunCmd(c, check, s, more, policy) == RunCmd(c, check, s, fuel, policy)
    decreases fuel, c
  {
    match c
    case Loop(b) =>
      if s.OnTape() && s.Cell() != 0 {
        FuelMonotone(b, s, fuel, more, policy);
        var o := Run(b, s, fuel, policy);
        if o.Done? && fuel > 0 {
          FuelMonotoneCmd(c, check, o.s, fuel - 1, more - 1, policy);
        }
      }
    case _ =>
  }
}
