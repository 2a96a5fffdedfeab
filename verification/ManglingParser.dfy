/** A parser for nested names of the Itanium mangling scheme: template arguments and nested names
    contain each other. */
module ManglingParser {
  import opened Options

  /** A part of a name that was parsed, and what follows. */
  datatype Name = Name(part: string, rest: string)

  /** What is left after template arguments. */
  datatype Skipped = Skipped(rest: string) | NoEnd | TooComplexName

  /** The parts of a nested name, with whether they are templates, and what follows. */
  datatype Parsed = Parsed(parts: seq<(string, bool)>, rest: string) | Failed | TooComplex

  // ----- the patterns, on text without newlines -----

  predicate Digit(c: char) { '0' <= c <= '9' }

  predicate SubstitutionChar(c: char) { 'A' <= c <= 'Z' || Digit(c) }

  predicate Qualifier(c: char) { c in "rVKRO" }

  /** The length of the longest run of characters. */
  function Run(s: string, p: char -> bool): (k: nat)
    ensures k <= |s| && (forall i :: 0 <= i < k ==> p(s[i])) && (k < |s| ==> !p(s[k]))
  {
    if s == "" || !p(s[0]) then 0 else Run(s[1..], p) + 1
  }

  function Number(digits: string): nat
    requires forall i :: 0 <= i < |digits| ==> Digit(digits[i])
  {
    if digits == "" then 0
    else 10 * Number(digits[..|digits| - 1]) + Value(digits[|digits| - 1])
  }

  function Value(digit: char): (n: nat)
    requires Digit(digit)
    ensures n < 10
  {
    digit as int - '0' as int
  }

  /** The pattern (\d+)(.+): all leading digits, but for the last character. */
  function DigitsBeforeText(s: string): (k: nat)
    ensures k > 0 ==> k < |s| && forall i :: 0 <= i < k ==> Digit(s[i])
  {
    var d := Run(s, Digit);
    if d < |s| then d else if d > 1 then d - 1 else 0
  }

  /** A source name: its length and that many characters, or as many as there are. */
  function SourceName(s: string): (r: Option<Name>)
    ensures r.Some? ==> r.value.part + r.value.rest == s && r.value.part != ""
  {
    var k := DigitsBeforeText(s);
    if k == 0 then None
    else
      var end := if k + Number(s[..k]) < |s| then k + Number(s[..k]) else |s|;
      Some(Name(s[..end], s[end..]))
  }

  /** The pattern S[A-Z0-9]*_(.+): the length of what precedes the last group, or 0. */
  function Substitution(s: string): (k: nat)
    ensures k > 0 ==> k < |s|
  {
    if s == "" || s[0] != 'S' then 0
    else
      var d := Run(s[1..], SubstitutionChar) + 1;
      if d + 1 < |s| && s[d] == '_' then d + 1 else 0
  }

  /** The pattern [rVKRO]*(.+): the length of what precedes the last group. */
  function Qualifiers(s: string): (k: nat)
    ensures s != "" ==> k < |s|
    ensures s == "" ==> k == 0
  {
    var d := Run(s, Qualifier);
    if d < |s| || d == 0 then d else d - 1
  }

  function NameOf(s: string): (r: Option<Name>)
    ensures r.Some? ==> r.value.part + r.value.rest == s && r.value.part != ""
  {
    if SourceName(s).Some? then SourceName(s)
    else if |s| > 2 && s[0] in "CD" && s[1] in "123" then Some(Name(s[..2], s[2..]))
    else
      var d := Run(s, c => c != 'E');
      var k := if d < |s| || d == 0 then d else d - 1;
      if k > 0 then Some(Name(s[..k], s[k..])) else None
  }

  /** The first k characters are the longest text of such characters, at least one, that leaves some text;
      if k is 0, there is none. This is what the pattern p+(.+) matches. */
  predicate Longest(s: string, k: nat, p: char -> bool) {
    && (k > 0 ==> k < |s| && (forall i :: 0 <= i < k ==> p(s[i])) && (k + 1 == |s| || !p(s[k])))
    && (k == 0 ==> |s| < 2 || !p(s[0]))
  }

  /** Only one length is the longest. */
  lemma LongestIsUnique(s: string, p: char -> bool, j: nat, k: nat)
    requires Longest(s, j, p) && Longest(s, k, p)
    ensures j == k
  {
  }

  /** The digits of a source name, and the qualifiers of a nested name. */
  lemma {:induction false} LongestPatterns(s: string)
    ensures Longest(s, DigitsBeforeText(s), Digit) && (s != "" ==> Longest(s, Qualifiers(s), Qualifier))
  {
  }

  /** A substitution is an S, any number of its characters, and an underscore, with some text after it. */
  lemma {:induction false} SubstitutionPattern(s: string, k: nat)
    ensures Substitution(s) == k + 2 <==>
              k + 2 < |s| && s[0] == 'S' && s[k + 1] == '_' && forall i :: 0 < i <= k ==> SubstitutionChar(s[i])
    ensures Substitution(s) != 1
  {
    if s != "" && s[0] == 'S' {
      var d := Run(s[1..], SubstitutionChar);
      assert forall i :: 0 < i <= d ==> s[i] == s[1..][i - 1];
      assert d + 1 < |s| ==> s[d + 1] == s[1..][d];
      assert forall i :: 0 <= i < |s| - 1 ==> s[1..][i] == s[i + 1];
    }
  }

  /** A source name is a number and that many characters, or as many as there are. What is neither that nor
      the name of a constructor or destructor is the longest text without an E. */
  lemma {:induction false} NamePatterns(s: string)
    ensures var k := DigitsBeforeText(s);
            var operator := NameOf(s).Some? && k == 0 && !(|s| > 2 && s[0] in "CD" && s[1] in "123");
            && (k > 0 ==>
                  && NameOf(s).Some?
                  && |NameOf(s).value.part| == if k + Number(s[..k]) < |s| then k + Number(s[..k]) else |s|)
            && (k == 0 && |s| > 2 && s[0] in "CD" && s[1] in "123" ==> NameOf(s) == Some(Name(s[..2], s[2..])))
            && (operator ==> Longest(s, |NameOf(s).value.part|, c => c != 'E'))
            && (NameOf(s).None? ==> k == 0 && Longest(s, 0, c => c != 'E'))
  {
  }

  // ----- what parsing yields -----

  predicate StrictSuffix(rest: string, s: string) {
    |rest| < |s| && s[|s| - |rest|..] == rest
  }

  /** Skips template arguments, up to their end. */
  function Skip(tmp: string): (r: Skipped)
    ensures r.Skipped? ==> StrictSuffix(r.rest, tmp)
    decreases |tmp|
  {
    if tmp == "" then NoEnd
    else if SourceName(tmp).Some? then Skip(SourceName(tmp).value.rest)
    else if Substitution(tmp) > 0 then Skip(tmp[Substitution(tmp)..])
    else if tmp[0] == 'I' then
      match Skip(tmp[1..])
      case Skipped(rest) => Skip(rest)
      case other => other
    else if tmp[0] == 'N' then
      match Nested(tmp)
      case Parsed(_, rest) => Skip(rest)
      case Failed => NoEnd
      case TooComplex => TooComplexName
    else if tmp[0] == 'L' || tmp[0] == 'X' then TooComplexName
    else if tmp[0] == 'E' then Skipped(tmp[1..])
    else Skip(tmp[1..])
  }

  lemma SuffixIn(tmp: string, part: string, rest: string, rest': string)
    requires tmp == part + rest && part != "" && rest != "" && StrictSuffix(rest', rest[1..])
    ensures StrictSuffix(rest', tmp)
  {
    assert rest[|rest| - |rest'|..] == rest[1..][|rest| - 1 - |rest'|..];
    assert tmp[|tmp| - |rest'|..] == rest[|rest| - |rest'|..];
  }

  /** Parses the parts of a nested name, up to its end. */
  function Parts(tmp: string, ret: seq<(string, bool)>): (r: Parsed)
    ensures r.Parsed? ==> StrictSuffix(r.rest, tmp)
    decreases |tmp|
  {
    if tmp == "" then Failed
    else if tmp[0] == 'E' then Parsed(ret, tmp[1..])
    else match NameOf(tmp)
         case None => Failed
         case Some(Name(part, rest)) =>
           if rest != "" && rest[0] == 'I' then
             match Skip(rest[1..])
             case Skipped(rest') =>
               SuffixIn(tmp, part, rest, rest');
               Parts(rest', ret + [(part, true)])
             case NoEnd => Failed
             case TooComplexName => TooComplex
           else Parts(rest, ret + [(part, false)])
  }

  /** What follows the N of a nested name and its substitution and qualifiers, if any. */
  function NestedStart(arg: string): (tmp: string)
    requires arg != "" && arg[0] == 'N'
    ensures StrictSuffix(tmp, arg)
  {
    var tmp := arg[1..];
    var tmp1 := tmp[Substitution(tmp)..];
    tmp1[Qualifiers(tmp1)..]
  }

  function Nested(arg: string): (r: Parsed)
    requires arg != "" && arg[0] == 'N'
    ensures r.Parsed? ==> StrictSuffix(r.rest, arg)
    decreases |arg|, 0
  {
    Parts(NestedStart(arg), [])
  }

  // ----- the parsers -----

  method SkipItaniumTemplate(arg: string) returns (r: Skipped)
    requires arg != "" && arg[0] == 'I'
    ensures r == Skip(arg[1..])
    decreases |arg|
  {
    var tmp := arg[1..];
    while tmp != ""
      invariant |tmp| < |arg| && Skip(tmp) == Skip(arg[1..])
      decreases |tmp|
    {
      if SourceName(tmp).Some? {
        tmp := SourceName(tmp).value.rest;
      } else if Substitution(tmp) > 0 {
        tmp := tmp[Substitution(tmp)..];
      } else if tmp[0] == 'I' {
        r := SkipItaniumTemplate(tmp);
        if !r.Skipped? {
          return;
        }
        tmp := r.rest;
      } else if tmp[0] == 'N' {
        var nested := ParseItaniumNestedName(tmp);
        if !nested.Parsed? {
          return if nested == Failed then NoEnd else TooComplexName;
        }
        tmp := nested.rest;
      } else if tmp[0] == 'L' || tmp[0] == 'X' {
        return TooComplexName;
      } else if tmp[0] == 'E' {
        return Skipped(tmp[1..]);
      } else {
        tmp := tmp[1..];
      }
    }
    return NoEnd;
  }

  method ParseItaniumNestedName(arg: string) returns (r: Parsed)
    requires arg != "" && arg[0] == 'N'
    ensures r == Nested(arg)
    decreases |arg|
  {
    var ret: seq<(string, bool)> := [];
    var tmp := NestedStart(arg);
    while tmp != ""
      invariant |tmp| < |arg| && Parts(tmp, ret) == Nested(arg)
      decreases |tmp|
    {
      if tmp[0] == 'E' {
        return Parsed(ret, tmp[1..]);
      }
      var name := NameOf(tmp);
      if name.None? {
        return Failed;
      }
      var isTemplate := false;
      tmp := name.value.rest;
      if tmp != "" && tmp[0] == 'I' {
        var skipped := SkipItaniumTemplate(tmp);
        if !skipped.Skipped? {
          return if skipped == NoEnd then Failed else TooComplex;
        }
        tmp := skipped.rest;
        isTemplate := true;
      }
      ret := ret + [(name.value.part, isTemplate)];
    }
    return Failed;
  }

  // ----- printing -----

  /** A source name, or a constructor or destructor. */
  datatype Simple = Source(id: string) | Structor(kind: char, number: char)

  /** Template arguments: types that are one letter, names, substitutions, more template arguments (of the
      name in front of them), and nested names. */
  datatype Args =
    | NoArgs
    | Letter(c: char, tail: Args)
    | Named(id: string, tail: Args)
    | Subst(id: string, tail: Args)
    | Group(args: Args, tail: Args)
    | InNested(name: NestedName, tail: Args)

  datatype Components = NoComponents | Component(simple: Simple, targs: Option<Args>, more: Components)

  datatype NestedName = NestedName(subst: Option<string>, qualifiers: string, components: Components)

  predicate Identifier(id: string) { id != "" && !Digit(id[0]) }

  predicate SubstitutionId(id: string) { forall k :: 0 <= k < |id| ==> SubstitutionChar(id[k]) }

  predicate ValidSimple(s: Simple) {
    match s case Source(id) => Identifier(id) case Structor(kind, number) => kind in "CD" && number in "123"
  }

  predicate ValidArgs(args: Args) {
    match args
    case NoArgs => true
    case Letter(c, tail) => !Digit(c) && c !in "SINLXE" && ValidArgs(tail)
    case Named(id, tail) => Identifier(id) && ValidArgs(tail)
    case Subst(id, tail) => SubstitutionId(id) && ValidArgs(tail)
    case Group(inner, tail) => ValidArgs(inner) && ValidArgs(tail)
    case InNested(name, tail) => ValidNested(name) && ValidArgs(tail)
  }

  predicate ValidComponents(cs: Components) {
    match cs
    case NoComponents => true
    case Component(simple, targs, more) =>
      ValidSimple(simple) && (targs.Some? ==> ValidArgs(targs.value)) && ValidComponents(more)
  }

  predicate ValidNested(n: NestedName) {
    && (n.subst.Some? ==> SubstitutionId(n.subst.value))
    && (forall k :: 0 <= k < |n.qualifiers| ==> Qualifier(n.qualifiers[k]))
    && ValidComponents(n.components)
  }

  function Decimal(n: nat): (s: string)
    ensures s != "" && forall k :: 0 <= k < |s| ==> Digit(s[k])
  {
    var last := [('0' as int + n % 10) as char];
    if n < 10 then last else Decimal(n / 10) + last
  }

  function PrintSource(id: string): string { Decimal(|id|) + id }

  function PrintSimple(s: Simple): string {
    match s case Source(id) => PrintSource(id) case Structor(kind, number) => [kind, number]
  }

  function PrintArgs(args: Args): string {
    match args
    case NoArgs => ""
    case Letter(c, tail) => [c] + PrintArgs(tail)
    case Named(id, tail) => PrintSource(id) + PrintArgs(tail)
    case Subst(id, tail) => ("S" + id + "_") + PrintArgs(tail)
    case Group(inner, tail) => "I" + (PrintArgs(inner) + ("E" + PrintArgs(tail)))
    case InNested(name, tail) => PrintNested(name) + PrintArgs(tail)
  }

  function PrintComponents(cs: Components): string {
    match cs
    case NoComponents => ""
    case Component(simple, targs, more) =>
      PrintSimple(simple)
      + ((match targs case None => "" case Some(args) => "I" + (PrintArgs(args) + "E")) + PrintComponents(more))
  }

  function PrintNested(n: NestedName): string {
    "N" + ((match n.subst case None => "" case Some(id) => "S" + id + "_")
           + (n.qualifiers + (PrintComponents(n.components) + "E")))
  }

  /** What should be parsed. */
  function Listed(cs: Components): seq<(string, bool)> {
    match cs
    case NoComponents => []
    case Component(simple, targs, more) => [(PrintSimple(simple), targs.Some?)] + Listed(more)
  }

  // ----- parsing what was printed -----

  lemma {:induction false} RunPrefix(s: string, t: string, p: char -> bool)
    requires (forall k :: 0 <= k < |s| ==> p(s[k])) && (t != "" ==> !p(t[0]))
    ensures Run(s + t, p) == |s|
  {
    if s == "" {
      assert s + t == t;
    } else {
      assert (s + t)[1..] == s[1..] + t;
      RunPrefix(s[1..], t, p);
    }
  }

  lemma {:induction false} NumberDecimal(n: nat)
    ensures Number(Decimal(n)) == n
  {
    var s := Decimal(n);
    assert Value(('0' as int + n % 10) as char) == n % 10;
    if n >= 10 {
      NumberDecimal(n / 10);
      assert s[..|s| - 1] == Decimal(n / 10);
    }
  }

  lemma {:induction false} ParseSource(id: string, text: string)
    requires Identifier(id)
    ensures SourceName(PrintSource(id) + text) == Some(Name(PrintSource(id), text))
  {
    var digits, s := Decimal(|id|), PrintSource(id) + text;
    assert s == digits + (id + text);
    RunPrefix(digits, id + text, Digit);
    NumberDecimal(|id|);
    assert s[..|digits|] == digits;
    assert s[..|digits| + |id|] == PrintSource(id) && s[|digits| + |id|..] == text;
  }

  lemma {:induction false} ParseSimple(simple: Simple, text: string)
    requires ValidSimple(simple) && text != ""
    ensures NameOf(PrintSimple(simple) + text) == Some(Name(PrintSimple(simple), text))
    ensures (PrintSimple(simple) + text)[0] != 'E'
  {
    var s := PrintSimple(simple) + text;
    match simple
    case Source(id) =>
      ParseSource(id, text);
      assert s[0] == Decimal(|id|)[0];
    case Structor(kind, number) =>
      assert s[..2] == [kind, number] && s[2..] == text;
      assert Run(s, Digit) == 0;
  }

  lemma {:induction false} ParseSubstitution(id: string, text: string)
    requires SubstitutionId(id) && text != ""
    ensures Substitution("S" + id + "_" + text) == |id| + 2 && ("S" + id + "_" + text)[|id| + 2..] == text
  {
    var s := "S" + id + "_" + text;
    assert s[1..] == id + ("_" + text);
    RunPrefix(id, "_" + text, SubstitutionChar);
  }

  lemma NoName(s: string)
    requires s != "" && !Digit(s[0])
    ensures SourceName(s).None? && (s[0] != 'S' ==> Substitution(s) == 0)
  {
    assert Run(s, Digit) == 0;
  }

  lemma SkipNothing(text: string)
    ensures Skip("E" + text) == Skipped(text)
  {
    hide SourceName, Substitution;
    NoName("E" + text);
    assert ("E" + text)[1..] == text;
  }

  lemma SkipLetter(c: char, text: string)
    requires !Digit(c) && c !in "SINLXE"
    ensures Skip([c] + text) == Skip(text)
  {
    hide SourceName, Substitution;
    NoName([c] + text);
    assert ([c] + text)[1..] == text;
    OtherLetter(c);
  }

  lemma OtherLetter(c: char)
    requires c !in "SINLXE"
    ensures c != 'S' && c != 'I' && c != 'N' && c != 'L' && c != 'X' && c != 'E'
  {
    var s := "SINLXE";
    assert s[0] == 'S' && s[1] == 'I' && s[2] == 'N' && s[3] == 'L' && s[4] == 'X' && s[5] == 'E';
  }

  lemma SkipGroup(inner: string, text: string)
    requires Skip(inner) == Skipped(text)
    ensures Skip("I" + inner) == Skip(text)
  {
    hide SourceName, Substitution;
    NoName("I" + inner);
    assert ("I" + inner)[1..] == inner;
  }

  lemma SkipNested(s: string)
    requires s != "" && s[0] == 'N' && Nested(s).Parsed?
    ensures Skip(s) == Skip(Nested(s).rest)
  {
    hide SourceName, Substitution, Nested;
    NoName(s);
  }

  lemma SkipNamed(id: string, text: string)
    requires Identifier(id)
    ensures Skip(PrintSource(id) + text) == Skip(text)
  {
    ParseSource(id, text);
  }

  lemma SkipSubst(id: string, text: string)
    requires SubstitutionId(id) && text != ""
    ensures Skip("S" + id + "_" + text) == Skip(text)
  {
    ParseSubstitution(id, text);
    assert Run("S" + id + "_" + text, Digit) == 0;
  }

  lemma Concat(a: string, b: string, c: string)
    ensures a + b + c == a + (b + c)
  {
  }

  /** Printed arguments, by the first of them. */
  lemma ArgsSplit(args: Args, text: string)
    ensures PrintArgs(args) + text
         == match args
            case NoArgs => text
            case Letter(c, tail) => [c] + (PrintArgs(tail) + text)
            case Named(id, tail) => PrintSource(id) + (PrintArgs(tail) + text)
            case Subst(id, tail) => "S" + id + "_" + (PrintArgs(tail) + text)
            case Group(inner, tail) => "I" + (PrintArgs(inner) + ("E" + (PrintArgs(tail) + text)))
            case InNested(name, tail) => PrintNested(name) + (PrintArgs(tail) + text)
  {
    hide PrintSource, PrintNested;
    match args
    case NoArgs =>
      assert "" + text == text;
    case Letter(c, tail) => Concat([c], PrintArgs(tail), text);
    case Named(id, tail) => Concat(PrintSource(id), PrintArgs(tail), text);
    case Subst(id, tail) => Concat("S" + id + "_", PrintArgs(tail), text);
    case Group(inner, tail) =>
      Concat("I", PrintArgs(inner) + ("E" + PrintArgs(tail)), text);
      Concat(PrintArgs(inner), "E" + PrintArgs(tail), text);
      Concat("E", PrintArgs(tail), text);
    case InNested(name, tail) => Concat(PrintNested(name), PrintArgs(tail), text);
  }

  /** Printed template arguments are skipped. */
  lemma {:induction false} SkipPrinted(args: Args, text: string)
    requires ValidArgs(args) && text != ""
    ensures Skip(PrintArgs(args) + text) == Skip(text)
    decreases args
  {
    hide Skip, PrintArgs, PrintSource, PrintNested;
    ArgsSplit(args, text);
    match args
    case NoArgs =>
    case Letter(c, tail) =>
      SkipLetter(c, PrintArgs(tail) + text);
      SkipPrinted(tail, text);
    case Named(id, tail) =>
      SkipNamed(id, PrintArgs(tail) + text);
      SkipPrinted(tail, text);
    case Subst(id, tail) =>
      SkipSubst(id, PrintArgs(tail) + text);
      SkipPrinted(tail, text);
    case Group(inner, tail) =>
      var rest := PrintArgs(tail) + text;
      SkipPrinted(inner, "E" + rest);
      SkipNothing(rest);
      SkipGroup(PrintArgs(inner) + ("E" + rest), rest);
      SkipPrinted(tail, text);
    case InNested(name, tail) =>
      var rest := PrintArgs(tail) + text;
      ParsePrinted(name, rest);
      SkipNested(PrintNested(name) + rest);
      SkipPrinted(tail, text);
  }

  /** Template arguments with an expression or a literal among them are given up. */
  lemma {:induction false} ExpressionsAreTooComplex(args: Args, c: char, text: string)
    requires ValidArgs(args) && c in "LX"
    ensures Skip(PrintArgs(args) + ([c] + text)) == TooComplexName
  {
    hide PrintArgs, SourceName, Substitution;
    SkipPrinted(args, [c] + text);
    NoName([c] + text);
  }

  /** Template arguments that do not end are rejected. */
  lemma {:induction false} UnendedArgs(args: Args, c: char)
    requires ValidArgs(args) && !Digit(c) && c !in "SINLXE"
    ensures Skip(PrintArgs(args) + [c]) == NoEnd
  {
    hide PrintArgs, SourceName, Substitution;
    SkipPrinted(args, [c]);
    assert [c] + "" == [c];
    SkipLetter(c, "");
  }

  /** How the components of a name can begin. */
  lemma ComponentsStart(cs: Components, text: string)
    requires ValidComponents(cs)
    ensures var s := PrintComponents(cs) + ("E" + text); s != "" && (Digit(s[0]) || s[0] in "CDE")
  {
    var s := PrintComponents(cs) + ("E" + text);
    match cs
    case NoComponents =>
      assert s == "E" + text;
    case Component(simple, targs, more) =>
      assert s[0] == PrintSimple(simple)[0];
  }

  /** One more part of a nested name. */
  lemma PartsStep(tmp: string, part: string, rest: string, ret: seq<(string, bool)>)
    requires tmp != "" && tmp[0] != 'E' && NameOf(tmp) == Some(Name(part, rest))
    ensures rest == "" || rest[0] != 'I' ==> Parts(tmp, ret) == Parts(rest, ret + [(part, false)])
    ensures rest != "" && rest[0] == 'I' && Skip(rest[1..]).Skipped? ==>
              Parts(tmp, ret) == Parts(Skip(rest[1..]).rest, ret + [(part, true)])
  {
    hide NameOf, Skip;
  }

  lemma PartsEnd(text: string, ret: seq<(string, bool)>)
    ensures Parts("E" + text, ret) == Parsed(ret, text)
  {
    assert ("E" + text)[1..] == text;
  }

  /** What follows the simple name of a component. */
  function AfterSimple(targs: Option<Args>, last: string): string {
    match targs case None => last case Some(args) => "I" + (PrintArgs(args) + ("E" + last))
  }

  lemma ComponentSplit(cs: Components, text: string)
    requires cs.Component?
    ensures PrintComponents(cs) + ("E" + text)
            == PrintSimple(cs.simple) + AfterSimple(cs.targs, PrintComponents(cs.more) + ("E" + text))
  {
    hide PrintSimple, PrintArgs;
    var last := PrintComponents(cs.more) + ("E" + text);
    if cs.targs.Some? {
      var printed := PrintArgs(cs.targs.value);
      assert ("I" + (printed + "E")) + last == "I" + (printed + ("E" + last));
    }
  }

  /** The component in front is parsed. */
  lemma {:induction false} ComponentPrinted(cs: Components, ret: seq<(string, bool)>, text: string)
    requires ValidComponents(cs) && cs.Component?
    requires forall args :: cs.targs == Some(args) ==>
               Skip(PrintArgs(args) + ("E" + PrintComponents(cs.more) + ("E" + text)))
                 == Skipped(PrintComponents(cs.more) + ("E" + text))
    ensures Parts(PrintComponents(cs) + ("E" + text), ret)
         == Parts(PrintComponents(cs.more) + ("E" + text), ret + [(PrintSimple(cs.simple), cs.targs.Some?)])
  {
    hide Parts, Skip, NameOf, PrintComponents, PrintSimple, PrintArgs;
    var last := PrintComponents(cs.more) + ("E" + text);
    var rest := AfterSimple(cs.targs, last);
    ComponentSplit(cs, text);
    ComponentsStart(cs.more, text);
    ParseSimple(cs.simple, rest);
    if cs.targs.Some? {
      var printed := PrintArgs(cs.targs.value);
      assert "E" + PrintComponents(cs.more) + ("E" + text) == "E" + last;
      assert rest[1..] == printed + ("E" + last);
    }
    PartsStep(PrintSimple(cs.simple) + rest, PrintSimple(cs.simple), rest, ret);
  }

  lemma {:induction false} ComponentsPrinted(cs: Components, ret: seq<(string, bool)>, text: string)
    requires ValidComponents(cs)
    ensures Parts(PrintComponents(cs) + ("E" + text), ret) == Parsed(ret + Listed(cs), text)
    decreases cs
  {
    hide Parts, Skip, NameOf, PrintSimple, PrintArgs;
    match cs
    case NoComponents =>
      assert PrintComponents(cs) + ("E" + text) == "E" + text && ret + Listed(cs) == ret;
      PartsEnd(text, ret);
    case Component(simple, targs, more) =>
      hide PrintComponents;
      var last := PrintComponents(more) + ("E" + text);
      assert "E" + PrintComponents(more) + ("E" + text) == "E" + last;
      if targs.Some? {
        SkipPrinted(targs.value, "E" + last);
        SkipNothing(last);
      }
      ComponentPrinted(cs, ret, text);
      var ret' := ret + [(PrintSimple(simple), targs.Some?)];
      ComponentsPrinted(more, ret', text);
      assert ret + Listed(cs) == ret' + Listed(more);
  }

  lemma ParseQualifiers(qualifiers: string, rest: string)
    requires forall k :: 0 <= k < |qualifiers| ==> Qualifier(qualifiers[k])
    requires rest != "" && (Digit(rest[0]) || rest[0] in "CDE")
    ensures Qualifiers(qualifiers + rest) == |qualifiers| && (qualifiers + rest)[|qualifiers|..] == rest
    ensures Substitution(qualifiers + rest) == 0
  {
    var s := qualifiers + rest;
    RunPrefix(qualifiers, rest, Qualifier);
    if qualifiers != "" {
      assert Qualifier(s[0]);
    } else {
      assert s[0] == rest[0];
    }
  }

  lemma {:induction false} StartPrinted(n: NestedName, text: string)
    requires ValidNested(n)
    ensures NestedStart(PrintNested(n) + text) == PrintComponents(n.components) + ("E" + text)
  {
    hide PrintComponents, Substitution, Qualifiers, Run, ValidComponents;
    var s, rest := PrintNested(n) + text, PrintComponents(n.components) + ("E" + text);
    var qualified := n.qualifiers + rest;
    ComponentsStart(n.components, text);
    ParseQualifiers(n.qualifiers, rest);
    if n.subst.Some? {
      assert s[1..] == "S" + n.subst.value + "_" + qualified;
      ParseSubstitution(n.subst.value, qualified);
    } else {
      assert s[1..] == qualified;
    }
  }

  /** Parsing a printed nested name, followed by any text, gives back exactly its components, which of
      them are templates, and that text. */
  lemma {:induction false} ParsePrinted(n: NestedName, text: string)
    requires ValidNested(n)
    ensures PrintNested(n) + text != "" && (PrintNested(n) + text)[0] == 'N'
    ensures Nested(PrintNested(n) + text) == Parsed(Listed(n.components), text)
    decreases n
  {
    hide Parts, PrintComponents, NestedStart;
    StartPrinted(n, text);
    ComponentsPrinted(n.components, [], text);
    assert [] + Listed(n.components) == Listed(n.components);
  }
}
