/** The generator of a case folding function: mappings are grouped into arithmetic progressions, for
    each of which a few tests are emitted. */
module CaseFold {

  datatype Mapping = Mapping(from: int, to: int)
  {
    function Shift(): int { to - from }
  }

  // ----- the generated function -----

  /** The emitted tests of the character C. */
  datatype Test =
    | ReturnIfBelow(first: int)        // if (C < first) return C;
    | IfEqual(x: int, y: int)          // if (C == x) return y;
    // if (C <= last && C % stride == modulo) return C + shift;
    | IfModulo(last: int, stride: int, modulo: int, shift: int)
    | IfOddOrNext(last: int)           // if (C <= last) return C | 1;
    | IfUpTo(last: int, shift: int)    // if (C <= last) return C + shift;

  datatype Result = Return(value: int) | FallThrough

  /** C's remainder has the sign of the dividend. */
  function CRemainder(a: int, b: int): int
    requires b > 0
  {
    if a >= 0 then a % b else -(-a % b)
  }

  function COrOne(a: int): int { if a % 2 == 0 then a + 1 else a }

  predicate Defined(t: Test) { t.IfModulo? ==> t.stride > 0 }

  function RunTest(t: Test, c: int): Result
    requires Defined(t)
  {
    match t
    case ReturnIfBelow(first) => if c < first then Return(c) else FallThrough
    case IfEqual(x, y) => if c == x then Return(y) else FallThrough
    case IfModulo(last, stride, modulo, shift) =>
      if c <= last && CRemainder(c, stride) == modulo then Return(c + shift) else FallThrough
    case IfOddOrNext(last) => if c <= last then Return(COrOne(c)) else FallThrough
    case IfUpTo(last, shift) => if c <= last then Return(c + shift) else FallThrough
  }

  predicate AllDefined(body: seq<Test>) { forall k :: 0 <= k < |body| ==> Defined(body[k]) }

  function Run(body: seq<Test>, c: int): Result
    requires AllDefined(body)
  {
    if body == [] then FallThrough
    else match RunTest(body[0], c)
         case Return(v) => Return(v)
         case FallThrough => Run(body[1..], c)
  }

  /** The function ends with "return C;". */
  function FoldChar(body: seq<Test>, c: int): int
    requires AllDefined(body)
  {
    match Run(body, c) case Return(v) => v case FallThrough => c
  }

  lemma {:induction false} RunAppend(a: seq<Test>, b: seq<Test>, c: int)
    requires AllDefined(a) && AllDefined(b)
    ensures AllDefined(a + b)
    ensures Run(a + b, c) == if Run(a, c).Return? then Run(a, c) else Run(b, c)
  {
    if a == [] {
      assert a + b == b;
    } else {
      assert (a + b)[1..] == a[1..] + b;
      RunAppend(a[1..], b, c);
    }
  }

  // ----- blocks -----

  predicate Increasing(ms: seq<Mapping>) {
    && (ms != [] ==> ms[0].from > -1)
    && forall i, j :: 0 <= i < j < |ms| ==> ms[i].from < ms[j].from
  }

  function Stride(b: seq<Mapping>): int
    requires |b| >= 2
  {
    b[1].from - b[0].from
  }

  /** The mappings have the same shift and a constant stride. */
  predicate Block(b: seq<Mapping>) {
    && b != []
    && (forall k :: 0 <= k < |b| ==> b[k].Shift() == b[0].Shift())
    && (|b| >= 2 ==> Stride(b) > 0 && forall k :: 0 <= k < |b| - 1 ==> b[k + 1].from - b[k].from == Stride(b))
  }

  /** What is emitted for a block. */
  function Tests(b: seq<Mapping>): (tests: seq<Test>)
    requires Block(b) && b[0].from >= 0
    ensures AllDefined(tests)
  {
    if |b| == 1 then [IfEqual(b[0].from, b[0].to)]
    else
      var first, stride := b[0].from, Stride(b);
      var last, modulo := first + stride * (|b| - 1), first % stride;
      [ReturnIfBelow(first)]
      + if stride == 2 && b[0].Shift() == 1 && modulo == 0 then [IfOddOrNext(last)]
        else if stride == 1 then [IfUpTo(last, b[0].Shift())]
        else [IfModulo(last, stride, modulo, b[0].Shift())]
  }

  predicate Maps(ms: seq<Mapping>, c: int) { exists k :: 0 <= k < |ms| && ms[k].from == c }

  predicate Above(ms: seq<Mapping>, c: int) { forall k :: 0 <= k < |ms| ==> ms[k].from < c }

  /** The tests map a character that is to be mapped, and leave any other alone; what is above the
      mappings they leave to the tests that follow. */
  ghost predicate ImplementsAt(body: seq<Test>, ms: seq<Mapping>, c: int)
    requires AllDefined(body)
  {
    && (forall k {:trigger ms[k]} :: 0 <= k < |ms| && ms[k].from == c ==> Run(body, c) == Return(ms[k].to))
    && (!Maps(ms, c) ==> Run(body, c) == FallThrough || Run(body, c) == Return(c))
    && (Above(ms, c) ==> Run(body, c) == FallThrough)
  }

  ghost predicate Implements(body: seq<Test>, ms: seq<Mapping>)
    requires AllDefined(body)
  {
    forall c {:trigger ImplementsAt(body, ms, c)} :: ImplementsAt(body, ms, c)
  }

  lemma {:induction false} Progression(b: seq<Mapping>, k: nat)
    requires Block(b) && |b| >= 2 && k < |b|
    ensures b[k].from == b[0].from + Stride(b) * k && b[k].to == b[k].from + b[0].Shift()
  {
    if k > 0 {
      Progression(b, k - 1);
      assert b[k - 1 + 1].from - b[k - 1].from == Stride(b);
      assert Stride(b) * k == Stride(b) * (k - 1) + Stride(b);
    }
  }

  /** The numbers from first to last with the right remainder are those of the progression. */
  lemma {:induction false} Members(first: int, stride: int, n: nat, c: int)
    requires 0 <= first <= c <= first + stride * n && stride > 0
    ensures c % stride == first % stride <==> exists k: nat :: k <= n && c == first + stride * k
  {
    var q := (c - first) / stride;
    var r := (c - first) % stride;
    assert c == first + stride * q + r;
    if c % stride == first % stride {
      Difference(first, c, stride);
      assert q <= n by { Quotient(q, n, stride); }
      assert c == first + stride * q;
    }
    if k: nat :| k <= n && c == first + stride * k {
      Multiple(first, stride, k);
    }
  }

  lemma Difference(a: int, b: int, m: int)
    requires m > 0 && a % m == b % m
    ensures (b - a) % m == 0
  {
    assert b - a == m * (b / m - a / m);
    Multiple(0, m, b / m - a / m);
  }

  lemma Multiple(a: int, m: int, k: int)
    requires m > 0
    ensures (a + m * k) % m == a % m
  {
    var q, r := a / m, a % m;
    assert a + m * k == m * (q + k) + r;
    UniqueRemainder(m, q + k, r, a + m * k);
  }

  lemma UniqueRemainder(m: int, q: int, r: int, a: int)
    requires m > 0 && 0 <= r < m && a == m * q + r
    ensures a % m == r
  {
    var q', r' := a / m, a % m;
    assert a == m * q' + r';
    Spread(m, q, q');
    Spread(m, q', q);
  }

  lemma Distribute(m: int, a: int, b: int)
    ensures m * (a + b) == m * a + m * b
  {
  }

  lemma Spread(m: int, p: int, q: int)
    requires m > 0
    ensures p > q ==> m * p >= m * q + m
  {
    if p > q {
      Distribute(m, q, p - q);
      Distribute(m, p - q - 1, 1);
      assert m * (p - q - 1) >= 0;
    }
  }

  lemma Quotient(q: int, n: nat, m: int)
    requires m > 0 && m * q <= m * n
    ensures q <= n
  {
    Spread(m, q, n);
  }

  lemma RunOne(t: Test, c: int)
    requires Defined(t)
    ensures Run([t], c) == RunTest(t, c)
  {
    assert [t][1..] == [];
  }

  lemma RunBlock(b: seq<Mapping>, c: int)
    requires Block(b) && |b| >= 2 && b[0].from >= 0
    ensures |Tests(b)| == 2 && Run(Tests(b), c) == if c < b[0].from then Return(c) else RunTest(Tests(b)[1], c)
  {
    assert Tests(b)[1..] == [Tests(b)[1]];
    RunOne(Tests(b)[1], c);
  }

  lemma {:induction false} BlockImplements(b: seq<Mapping>)
    requires Block(b) && b[0].from >= 0
    ensures Implements(Tests(b), b)
  {
    forall c
      ensures ImplementsAt(Tests(b), b, c)
    {
      if |b| >= 2 {
        InBlock(b, c);
        RunBlock(b, c);
      } else {
        RunOne(IfEqual(b[0].from, b[0].to), c);
        assert Maps(b, c) <==> c == b[0].from;
      }
    }
  }

  lemma Monotone(m: int, k: nat, n: nat)
    requires m > 0 && k <= n
    ensures 0 <= m * k <= m * n
  {
    if k < n {
      Spread(m, n, k);
    }
  }

  /** The characters of a block are told by the range and the remainder. */
  lemma {:induction false} MapsByRemainder(b: seq<Mapping>, c: int)
    requires Block(b) && |b| >= 2 && b[0].from >= 0
    ensures Maps(b, c) <==> b[0].from <= c <= b[|b| - 1].from && c % Stride(b) == b[0].from % Stride(b)
    ensures b[|b| - 1].from == b[0].from + Stride(b) * (|b| - 1) >= b[0].from
  {
    var n := |b| - 1;
    Progression(b, n);
    Monotone(Stride(b), 0, n);
    if Maps(b, c) {
      var k: nat :| k < |b| && b[k].from == c;
      Progression(b, k);
      Monotone(Stride(b), k, n);
      Members(b[0].from, Stride(b), n, c);
    } else if b[0].from <= c <= b[n].from {
      Members(b[0].from, Stride(b), n, c);
      if k: nat :| k <= n && c == b[0].from + Stride(b) * k {
        Progression(b, k);
        assert false;
      }
    }
  }

  /** The second test of a block. */
  lemma {:induction false} InBlock(b: seq<Mapping>, c: int)
    requires Block(b) && |b| >= 2 && b[0].from >= 0
    ensures Maps(b, c) ==> c >= b[0].from && RunTest(Tests(b)[1], c) == Return(c + b[0].Shift())
    ensures !Maps(b, c) && c >= b[0].from ==>
              RunTest(Tests(b)[1], c) == FallThrough || RunTest(Tests(b)[1], c) == Return(c)
    ensures c > b[|b| - 1].from ==> c >= b[0].from && RunTest(Tests(b)[1], c) == FallThrough
  {
    hide Maps, Block;
    MapsByRemainder(b, c);
  }

  lemma {:induction false} AppendImplementsAt(body: seq<Test>, done: seq<Mapping>, more: seq<Test>, b: seq<Mapping>,
                                              c: int)
    requires AllDefined(body) && AllDefined(more) && ImplementsAt(body, done, c) && ImplementsAt(more, b, c)
    requires Increasing(done + b)
    ensures AllDefined(body + more) && ImplementsAt(body + more, done + b, c)
  {
    var ms := done + b;
    RunAppend(body, more, c);
    forall k | 0 <= k < |ms| && ms[k].from == c
      ensures Run(body + more, c) == Return(ms[k].to)
    {
      if k >= |done| {
        assert ms[k] == b[k - |done|];
        assert forall i :: 0 <= i < |done| ==> ms[i] == done[i] && ms[i].from < ms[k].from;
        assert Above(done, c);
      }
    }
    assert forall k :: 0 <= k < |done| ==> ms[k] == done[k];
    assert forall k :: 0 <= k < |b| ==> ms[|done| + k] == b[k];
  }

  lemma {:induction false} AppendImplements(body: seq<Test>, done: seq<Mapping>, b: seq<Mapping>)
    requires AllDefined(body) && Implements(body, done) && Increasing(done + b) && Block(b) && b[0].from >= 0
    ensures AllDefined(body + Tests(b)) && Implements(body + Tests(b), done + b)
  {
    hide ImplementsAt, Block, Increasing;
    BlockImplements(b);
    forall c
      ensures ImplementsAt(body + Tests(b), done + b, c)
    {
      AppendImplementsAt(body, done, Tests(b), b, c);
    }
  }

  // ----- the generator -----

  datatype Outcome = Generated(body: seq<Test>) | DuplicateOrUnsorted | NothingToMap

  class Generator {
    var body: seq<Test>

    constructor ()
      ensures body == []
    {
      body := [];
    }

    method DumpBlock(b: seq<Mapping>)
      requires Block(b) && b[0].from >= 0
      modifies this
      ensures body == old(body) + Tests(b)
    {
      if |b| == 1 {
        body := body + [IfEqual(b[0].from, b[0].to)];
        return;
      }
      var first, stride := b[0].from, Stride(b);
      var last, modulo := first + stride * (|b| - 1), first % stride;
      body := body + [ReturnIfBelow(first)];
      var pattern := IfModulo(last, stride, modulo, b[0].Shift());
      if stride == 2 && b[0].Shift() == 1 && modulo == 0 {
        pattern := IfOddOrNext(last);
      } else if stride == 1 {
        pattern := IfUpTo(last, b[0].Shift());
      }
      body := body + [pattern];
    }

    /** Groups the mappings of a file into blocks and emits the tests for them. */
    method Generate(ms: seq<Mapping>) returns (r: Outcome)
      requires body == []
      modifies this
      ensures r == DuplicateOrUnsorted <==> !Increasing(ms)
      ensures r == NothingToMap <==> ms == []
      ensures r.Generated? ==> r.body == body && AllDefined(body)
      ensures r.Generated? ==> forall k :: 0 <= k < |ms| ==> FoldChar(body, ms[k].from) == ms[k].to
      ensures r.Generated? ==> forall c :: !Maps(ms, c) ==> FoldChar(body, c) == c
    {
      hide Implements, Increasing, Block, Tests, Run, Maps, AllDefined, FoldChar, Stride;
      EmptyImplements();
      var previousFrom := -1;
      var block: seq<Mapping> := [];
      ghost var done: seq<Mapping> := [];
      for i := 0 to |ms|
        invariant ms[..i] == done + block && Increasing(ms[..i])
        invariant previousFrom == if i == 0 then -1 else ms[i - 1].from
        invariant if i == 0 then block == [] else Block(block) && block != [] && block[0].from >= 0
        invariant AllDefined(body) && Implements(body, done)
      {
        var m := ms[i];
        if m.from <= previousFrom {
          NotIncreasing(ms, i);
          return DuplicateOrUnsorted;
        }
        previousFrom := m.from;
        OneMapped(ms, i, done, block);
        IncreasingNext(ms[..i], m);
        Grows(done, block, m);
        if i > 0 && (block[0].Shift() != m.Shift()
                     || (|block| != 1 && Stride(block) != m.from - block[|block| - 1].from)) {
          AppendImplements(body, done, block);
          DumpBlock(block);
          done := done + block;
          block := [m];
        } else {
          block := block + [m];
        }
      }
      assert ms[..|ms|] == ms;
      if block == [] {
        return NothingToMap;  // the last block has no first mapping
      }
      AppendImplements(body, done, block);
      DumpBlock(block);
      ImplementsFold(body, ms);
      r := Generated(body);
    }
  }

  /** The next mapping starts a block or goes to the end of the current one. */
  lemma OneMapped(ms: seq<Mapping>, i: nat, done: seq<Mapping>, block: seq<Mapping>)
    requires i < |ms| && ms[..i] == done + block
    ensures ms[..i + 1] == ms[..i] + [ms[i]] == done + block + [ms[i]] == done + (block + [ms[i]])
    ensures block == [] ==> block + [ms[i]] == [ms[i]]
  {
    assert ms[..i + 1] == ms[..i] + [ms[i]];
  }

  lemma NotIncreasing(ms: seq<Mapping>, i: nat)
    requires i < |ms| && ms[i].from <= (if i == 0 then -1 else ms[i - 1].from)
    ensures !Increasing(ms)
  {
  }

  lemma EmptyImplements()
    ensures AllDefined([]) && Implements([], []) && Increasing([])
  {
  }

  /** What can start or extend a block. */
  lemma Grows(done: seq<Mapping>, block: seq<Mapping>, m: Mapping)
    requires Increasing(done + block + [m]) && (block != [] ==> Block(block))
    ensures Block([m]) && m.from >= 0
    ensures block != [] && block[0].Shift() == m.Shift()
            && (|block| == 1 || Stride(block) == m.from - block[|block| - 1].from) ==>
              Block(block + [m])
  {
    var ms := done + block + [m];
    assert ms[|ms| - 1] == m;
    if block != [] {
      assert ms[|ms| - 2] == block[|block| - 1];
    }
  }

  lemma ImplementsFold(body: seq<Test>, ms: seq<Mapping>)
    requires AllDefined(body) && Implements(body, ms)
    ensures forall k :: 0 <= k < |ms| ==> FoldChar(body, ms[k].from) == ms[k].to
    ensures forall c :: !Maps(ms, c) ==> FoldChar(body, c) == c
  {
    forall c
      ensures !Maps(ms, c) ==> FoldChar(body, c) == c
      ensures forall k {:trigger ms[k]} :: 0 <= k < |ms| && ms[k].from == c ==> FoldChar(body, c) == ms[k].to
    {
      assert ImplementsAt(body, ms, c);
    }
  }

  lemma IncreasingNext(ms: seq<Mapping>, m: Mapping)
    requires Increasing(ms) && m.from > (if ms == [] then -1 else ms[|ms| - 1].from)
    ensures Increasing(ms + [m])
  {
    assert forall i :: 0 <= i < |ms| ==> ms[i].from <= ms[|ms| - 1].from;
  }
}
