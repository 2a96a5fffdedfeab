/** Splitting blocks of the same size into lines that are common to all of them and lines that are
    tagged with the prefixes of one of them. */
module BlockBreakdown {

  type Line = string
  type Prefix = string

  datatype Entry = Entry(prefix: Prefix, line: Line)

  /** The lines that a run with these prefixes checks. */
  function Kept(entries: seq<Entry>, common: Prefix, prefix: Prefix): seq<Line> {
    if entries == [] then []
    else
      var last := entries[|entries| - 1];
      Kept(entries[..|entries| - 1], common, prefix)
      + if last.prefix == common || last.prefix == prefix then [last.line] else []
  }

  /** The lines that are tagged with a prefix. */
  function Under(entries: seq<Entry>, tag: Prefix): seq<Line> {
    if entries == [] then []
    else
      var last := entries[|entries| - 1];
      Under(entries[..|entries| - 1], tag) + if last.prefix == tag then [last.line] else []
  }

  function Lines(entries: seq<Entry>): (lines: seq<Line>)
    ensures |lines| == |entries| && forall k :: 0 <= k < |entries| ==> lines[k] == entries[k].line
  {
    seq(|entries|, k requires 0 <= k < |entries| => entries[k].line)
  }

  // ----- the order of strings -----

  /** a is not after b in the order of strings. */
  predicate AtMost(a: string, b: string) {
    a == "" || (b != "" && (a[0] < b[0] || (a[0] == b[0] && AtMost(a[1..], b[1..]))))
  }

  lemma {:induction false} AtMostTotal(a: string, b: string)
    ensures AtMost(a, b) || AtMost(b, a)
    ensures AtMost(a, a)
  {
    if a != "" {
      AtMostTotal(a[1..], if b == "" then "" else b[1..]);
    }
  }

  lemma {:induction false} AtMostTrans(a: string, b: string, c: string)
    requires AtMost(a, b) && AtMost(b, c)
    ensures AtMost(a, c)
  {
    if a != "" && a[0] == b[0] == c[0] {
      AtMostTrans(a[1..], b[1..], c[1..]);
    }
  }

  lemma {:induction false} Least(s: set<string>) returns (least: string)
    requires s != {}
    ensures least in s && forall p :: p in s ==> AtMost(least, p)
  {
    var p :| p in s;
    AtMostTotal(p, p);
    least := p;
    if s != {p} {
      assert s - {p} != {};
      var q := Least(s - {p});
      AtMostTotal(p, q);
      if !AtMost(p, q) {
        least := q;
      }
      forall r | r in s
        ensures AtMost(least, r)
      {
        if r != p && least == p {
          AtMostTrans(p, q, r);
        }
      }
    }
  }

  /** Between common lines, the entries are ordered by their prefixes. */
  ghost predicate Ordered(entries: seq<Entry>, common: Prefix) {
    forall i, j :: 0 <= i < j < |entries| && NoneCommon(entries, common, i, j) ==>
      AtMost(entries[i].prefix, entries[j].prefix)
  }

  ghost predicate NoneCommon(entries: seq<Entry>, common: Prefix, i: int, j: int)
    requires 0 <= i <= j < |entries|
  {
    forall k :: i <= k <= j ==> entries[k].prefix != common
  }

  /** No batch has been flushed after the last common line. */
  predicate EndsCommon(entries: seq<Entry>, common: Prefix) {
    entries != [] ==> entries[|entries| - 1].prefix == common
  }

  predicate Tagged(entries: seq<Entry>, prefix: Prefix) {
    forall k :: 0 <= k < |entries| ==> entries[k].prefix == prefix
  }

  lemma {:induction false} KeptAppend(a: seq<Entry>, b: seq<Entry>, common: Prefix, prefix: Prefix)
    ensures Kept(a + b, common, prefix) == Kept(a, common, prefix) + Kept(b, common, prefix)
  {
    if b == [] {
      assert a + b == a;
    } else {
      assert (a + b)[..|a + b| - 1] == a + b[..|b| - 1];
      KeptAppend(a, b[..|b| - 1], common, prefix);
    }
  }

  lemma {:induction false} KeptTagged(entries: seq<Entry>, tag: Prefix, common: Prefix, prefix: Prefix)
    requires Tagged(entries, tag) && tag != common
    ensures Kept(entries, common, prefix) == if tag == prefix then Lines(entries) else []
  {
    if entries != [] {
      KeptTagged(entries[..|entries| - 1], tag, common, prefix);
      assert Lines(entries) == Lines(entries[..|entries| - 1]) + [entries[|entries| - 1].line];
    }
  }

  lemma {:induction false} UnderAppend(a: seq<Entry>, b: seq<Entry>, tag: Prefix)
    ensures Under(a + b, tag) == Under(a, tag) + Under(b, tag)
  {
    if b == [] {
      assert a + b == a;
    } else {
      assert (a + b)[..|a + b| - 1] == a + b[..|b| - 1];
      UnderAppend(a, b[..|b| - 1], tag);
    }
  }

  lemma {:induction false} UnderTagged(entries: seq<Entry>, tag: Prefix, other: Prefix)
    requires Tagged(entries, tag)
    ensures Under(entries, other) == if tag == other then Lines(entries) else []
  {
    if entries != [] {
      UnderTagged(entries[..|entries| - 1], tag, other);
      assert Lines(entries) == Lines(entries[..|entries| - 1]) + [entries[|entries| - 1].line];
    }
  }

  /** The batch of a prefix, empty by default. */
  function Batch(batches: map<Prefix, seq<Entry>>, prefix: Prefix): seq<Entry> {
    if prefix in batches then batches[prefix] else []
  }

  predicate WellTagged(batches: map<Prefix, seq<Entry>>, common: Prefix) {
    common !in batches && forall p :: p in batches ==> Tagged(batches[p], p)
  }

  /** The texts have the same number of lines, at least one. Their lists of prefixes omit the common one,
      and no prefix occurs twice. */
  ghost predicate Blocks(texts: seq<seq<Line>>, prefixes: seq<seq<Prefix>>, common: Prefix) {
    && |texts| == |prefixes| > 0
    && (forall t :: 0 <= t < |texts| ==> |texts[t]| == |texts[0]| > 0)
    && (forall t :: 0 <= t < |prefixes| ==> common !in prefixes[t])
    && (forall t, u, i, j ::
        0 <= t < |prefixes| && 0 <= u < |prefixes| && 0 <= i < |prefixes[t]| && 0 <= j < |prefixes[u]| ==>
          (prefixes[t][i] == prefixes[u][j] ==> t == u && i == j))
  }

  predicate SameLine(texts: seq<seq<Line>>, i: nat)
    requires |texts| > 0 && forall t :: 0 <= t < |texts| ==> i < |texts[t]|
  {
    forall t :: 0 <= t < |texts| ==> texts[t][i] == texts[0][i]
  }

  /** The first i lines of text t that all texts share, in order. */
  function Shared(texts: seq<seq<Line>>, t: nat, i: nat): seq<Line>
    requires t < |texts| && forall u :: 0 <= u < |texts| ==> i <= |texts[u]|
  {
    if i == 0 then [] else Shared(texts, t, i - 1) + if SameLine(texts, i - 1) then [texts[t][i - 1]] else []
  }

  /** The other ones. */
  function Own(texts: seq<seq<Line>>, t: nat, i: nat): seq<Line>
    requires t < |texts| && forall u :: 0 <= u < |texts| ==> i <= |texts[u]|
  {
    if i == 0 then [] else Own(texts, t, i - 1) + if SameLine(texts, i - 1) then [] else [texts[t][i - 1]]
  }

  /** A prefix of none of the texts. */
  predicate Unlisted(prefixes: seq<seq<Prefix>>, p: Prefix) { forall t :: 0 <= t < |prefixes| ==> p !in prefixes[t] }

  /** Among the entries, exactly the lines that all texts share are tagged with the common prefix, and
      exactly the other lines of a text with each of its prefixes, in order; there are no other tags. */
  ghost predicate Split(entries: seq<Entry>, common: Prefix, texts: seq<seq<Line>>, prefixes: seq<seq<Prefix>>, i: nat)
    requires |texts| == |prefixes| > 0 && forall u :: 0 <= u < |texts| ==> i <= |texts[u]|
  {
    && Under(entries, common) == Shared(texts, 0, i)
    && (forall t, p {:trigger texts[t], p in prefixes[t]} :: 0 <= t < |texts| && p in prefixes[t] ==>
          Under(entries, p) == Own(texts, t, i))
    && (forall p :: p != common && Unlisted(prefixes, p) ==> Under(entries, p) == [])
  }

  /** What was flushed after result is ordered, and not after what is left. */
  ghost predicate Flushed(result: seq<Entry>, result': seq<Entry>, left: set<Prefix>, common: Prefix) {
    && result <= result' && Ordered(result', common)
    && forall i, p :: |result| <= i < |result'| && p in left ==> AtMost(result'[i].prefix, p)
  }

  lemma {:induction false} FlushedMore(result: seq<Entry>, result': seq<Entry>, left: set<Prefix>, common: Prefix,
                                       prefix: Prefix, batch: seq<Entry>)
    requires Flushed(result, result', left, common) && EndsCommon(result, common) && Tagged(batch, prefix)
    requires prefix in left && forall p :: p in left ==> AtMost(prefix, p)
    ensures Flushed(result, result' + batch, left - {prefix}, common)
  {
    hide AtMost;
    var more := result' + batch;
    assert result != [] ==> more[|result| - 1] == result[|result| - 1];
    forall i, j | 0 <= i < j < |more| && NoneCommon(more, common, i, j)
      ensures AtMost(more[i].prefix, more[j].prefix)
    {
      if j < |result'| {
        assert forall k :: i <= k <= j ==> more[k] == result'[k];
        assert NoneCommon(result', common, i, j);
      }
    }
  }

  /** Adds the batches to the result, one prefix after the other, in their order. */
  method Flush(result: seq<Entry>, batches: map<Prefix, seq<Entry>>, ghost common: Prefix) returns (result': seq<Entry>)
    requires WellTagged(batches, common) && Ordered(result, common) && EndsCommon(result, common)
    ensures forall p :: p != common ==> Kept(result', common, p) == Kept(result, common, p) + Lines(Batch(batches, p))
    ensures forall p :: Under(result', p) == Under(result, p) + Lines(Batch(batches, p))
    ensures result <= result' && Ordered(result', common)
  {
    hide Kept, Under, Tagged, Ordered, AtMost, EndsCommon;
    result' := result;
    var left := batches.Keys;
    while left != {}
      invariant left <= batches.Keys && Flushed(result, result', left, common)
      invariant forall p :: p != common ==>
                  Kept(result', common, p) == Kept(result, common, p) + if p in left then []
                    else Lines(Batch(batches, p))
      invariant forall p ::
                  Under(result', p) == Under(result, p) + if p in left then [] else Lines(Batch(batches, p))
    {
      ghost var least := Least(left);
      var prefix :| prefix in left && forall p :: p in left ==> AtMost(prefix, p);
      FlushedMore(result, result', left, common, prefix, batches[prefix]);
      forall p
        ensures p != common ==>
                  Kept(result' + batches[prefix], common, p)
                  == Kept(result', common, p) + if p == prefix then Lines(batches[prefix]) else []
        ensures Under(result' + batches[prefix], p)
             == Under(result', p) + if p == prefix then Lines(batches[prefix]) else []
      {
        KeptAppend(result', batches[prefix], common, p);
        KeptTagged(batches[prefix], prefix, common, p);
        UnderAppend(result', batches[prefix], p);
        UnderTagged(batches[prefix], prefix, p);
      }
      result' := result' + batches[prefix];
      left := left - {prefix};
    }
  }

  /** Adds a line of one text to the batch of each of its prefixes. */
  method AddToBatches(batches: map<Prefix, seq<Entry>>, prefixes: seq<Prefix>, line: Line, ghost common: Prefix)
      returns (batches': map<Prefix, seq<Entry>>)
    requires WellTagged(batches, common) && common !in prefixes
    requires forall i, j :: 0 <= i < j < |prefixes| ==> prefixes[i] != prefixes[j]
    ensures WellTagged(batches', common)
    ensures forall p :: Batch(batches', p) == Batch(batches, p) + if p in prefixes then [Entry(p, line)] else []
  {
    batches' := batches;
    for k := 0 to |prefixes|
      invariant WellTagged(batches', common)
      invariant forall p ::
                  Batch(batches', p) == Batch(batches, p) + if p in prefixes[..k] then [Entry(p, line)] else []
    {
      var prefix := prefixes[k];
      assert prefixes[..k + 1] == prefixes[..k] + [prefix];
      assert prefix !in prefixes[..k];
      batches' := batches'[prefix := Batch(batches', prefix) + [Entry(prefix, line)]];
    }
  }

  /** The lines up to i of each text are what is kept for any of its prefixes, the batches included. */
  ghost predicate Complete(result: seq<Entry>, batches: map<Prefix, seq<Entry>>, common: Prefix,
                           texts: seq<seq<Line>>, prefixes: seq<seq<Prefix>>, i: nat)
    requires |texts| == |prefixes|
  {
    forall t, p {:trigger texts[t], p in prefixes[t]} :: 0 <= t < |texts| && p in prefixes[t] ==>
      CompleteFor(result, batches, common, texts[t], p, i)
  }

  ghost predicate CompleteFor(result: seq<Entry>, batches: map<Prefix, seq<Entry>>, common: Prefix, text: seq<Line>,
                              prefix: Prefix, i: nat)
  {
    i <= |text| && Kept(result, common, prefix) + Lines(Batch(batches, prefix)) == text[..i]
  }

  /** Adds line i of every text to the batches of its prefixes. */
  method BatchLine(batches: map<Prefix, seq<Entry>>, texts: seq<seq<Line>>, prefixes: seq<seq<Prefix>>, i: nat,
                   ghost common: Prefix)
      returns (batches': map<Prefix, seq<Entry>>)
    requires Blocks(texts, prefixes, common) && i < |texts[0]| && WellTagged(batches, common)
    ensures WellTagged(batches', common)
    ensures forall t, p :: 0 <= t < |texts| && p in prefixes[t] ==>
              Batch(batches', p) == Batch(batches, p) + [Entry(p, texts[t][i])]
    ensures forall p :: Unlisted(prefixes, p) ==> Batch(batches', p) == Batch(batches, p)
  {
    hide Batch, WellTagged;
    batches' := batches;
    for t := 0 to |texts|
      invariant WellTagged(batches', common)
      invariant forall p :: Unlisted(prefixes, p) ==> Batch(batches', p) == Batch(batches, p)
      invariant forall u, p :: 0 <= u < |texts| && p in prefixes[u] ==>
                  Batch(batches', p) == Batch(batches, p) + if u < t then [Entry(p, texts[u][i])] else []
    {
      PrefixesOf(texts, prefixes, common, t);
      batches' := AddToBatches(batches', prefixes[t], texts[t][i], common);
    }
  }

  lemma {:induction false} PrefixesOf(texts: seq<seq<Line>>, prefixes: seq<seq<Prefix>>, common: Prefix, t: nat)
    requires Blocks(texts, prefixes, common) && t < |prefixes|
    ensures common !in prefixes[t] && forall i, j :: 0 <= i < j < |prefixes[t]| ==> prefixes[t][i] != prefixes[t][j]
    ensures forall u, p :: 0 <= u < |prefixes| && p in prefixes[u] ==> (p in prefixes[t] <==> u == t)
  {
  }

  /** Breaks blocks down by lines; gives up if the first lines differ, or lines differ that no prefix
      tells apart. */
  method BreakDownBlock(texts: seq<seq<Line>>, prefixes: seq<seq<Prefix>>, common: Prefix) returns (result: seq<Entry>)
    requires Blocks(texts, prefixes, common)
    ensures result != []
            <==> SameLine(texts, 0) && (prefixes[0] != [] || forall i :: 0 <= i < |texts[0]| ==> SameLine(texts, i))
    ensures result != [] ==> forall t, p :: 0 <= t < |texts| && p in prefixes[t] ==> Kept(result, common, p) == texts[t]
    ensures result != [] ==> Split(result, common, texts, prefixes, |texts[0]|)
    ensures Ordered(result, common)
  {
    hide Kept, Under, Complete, Parted, Split, AtMost;
    result := [];
    var same := AllSame(texts, 0);
    if !same {
      return;
    }
    var batches: map<Prefix, seq<Entry>> := map[];
    NothingYet(common, texts, prefixes);
    for i := 0 to |texts[0]|
      invariant WellTagged(batches, common) && (i > 0 ==> result != [])
      invariant Complete(result, batches, common, texts, prefixes, i)
      invariant Parted(result, batches, common, texts, prefixes, i)
      invariant Ordered(result, common) && EndsCommon(result, common)
      invariant prefixes[0] == [] ==> forall j :: 0 <= j < i ==> SameLine(texts, j)
    {
      same := AllSame(texts, i);
      if same {
        ghost var was := result;
        result := Flush(result, batches, common);
        ghost var flushed := result;
        result := result + [Entry(common, texts[0][i])];
        CommonLine(was, flushed, batches, common, texts, prefixes, i);
        CommonParted(was, flushed, batches, common, texts, prefixes, i);
        OrderedCommon(flushed, common, texts[0][i]);
        batches := map[];
      } else if prefixes[0] == [] {
        return [];
      } else {
        ghost var was := batches;
        batches := BatchLine(batches, texts, prefixes, i, common);
        BatchedLine(result, was, batches, common, texts, prefixes, i);
        BatchedParted(result, was, batches, common, texts, prefixes, i);
      }
    }
    ghost var was := result;
    result := Flush(result, batches, common);
    AllLines(was, result, batches, common, texts, prefixes);
  }

  lemma OrderedCommon(entries: seq<Entry>, common: Prefix, line: Line)
    requires Ordered(entries, common)
    ensures Ordered(entries + [Entry(common, line)], common)
  {
    hide AtMost;
    var more := entries + [Entry(common, line)];
    forall i, j | 0 <= i < j < |more| && NoneCommon(more, common, i, j)
      ensures AtMost(more[i].prefix, more[j].prefix)
    {
      assert more[j].prefix != common;
      assert forall k :: i <= k <= j ==> more[k] == entries[k];
      assert NoneCommon(entries, common, i, j);
    }
  }

  lemma NothingYet(common: Prefix, texts: seq<seq<Line>>, prefixes: seq<seq<Prefix>>)
    requires Blocks(texts, prefixes, common)
    ensures Complete([], map[], common, texts, prefixes, 0) && Parted([], map[], common, texts, prefixes, 0)
  {
    forall p
      ensures Lines(Batch(map[], p)) == []
    {
    }
    forall t, p | 0 <= t < |texts| && p in prefixes[t]
      ensures CompleteFor([], map[], common, texts[t], p, 0)
    {
      assert texts[t][..0] == [];
    }
  }

  lemma {:induction false} AllLines(result: seq<Entry>, flushed: seq<Entry>, batches: map<Prefix, seq<Entry>>,
                                    common: Prefix, texts: seq<seq<Line>>, prefixes: seq<seq<Prefix>>)
    requires Blocks(texts, prefixes, common) && WellTagged(batches, common)
    requires Complete(result, batches, common, texts, prefixes, |texts[0]|)
    requires Parted(result, batches, common, texts, prefixes, |texts[0]|)
    requires forall p :: p != common ==> Kept(flushed, common, p) == Kept(result, common, p) + Lines(Batch(batches, p))
    requires forall p :: Under(flushed, p) == Under(result, p) + Lines(Batch(batches, p))
    ensures forall t, p :: 0 <= t < |texts| && p in prefixes[t] ==> Kept(flushed, common, p) == texts[t]
    ensures Split(flushed, common, texts, prefixes, |texts[0]|)
  {
    hide Kept, Under, Shared, Own;
    forall t, p | 0 <= t < |texts| && p in prefixes[t]
      ensures Kept(flushed, common, p) == texts[t] && Under(flushed, p) == Own(texts, t, |texts[0]|)
    {
      assert texts[t][..|texts[0]|] == texts[t];
      assert CompleteFor(result, batches, common, texts[t], p, |texts[0]|);
    }
    assert Lines([]) == [];
  }

  method AllSame(texts: seq<seq<Line>>, i: nat) returns (same: bool)
    requires |texts| > 0 && forall t :: 0 <= t < |texts| ==> i < |texts[t]|
    ensures same <==> SameLine(texts, i)
  {
    var distinct := {};
    for t := 0 to |texts|
      invariant forall u :: 0 <= u < t ==> texts[u][i] in distinct
      invariant forall l :: l in distinct ==> exists u :: 0 <= u < t && texts[u][i] == l
    {
      distinct := distinct + {texts[t][i]};
    }
    if SameLine(texts, i) {
      assert distinct == {texts[0][i]};
    } else {
      var u :| 0 <= u < |texts| && texts[u][i] != texts[0][i];
      TwoElements(distinct, texts[u][i], texts[0][i]);
    }
    same := |distinct| == 1;
  }

  lemma TwoElements(s: set<Line>, a: Line, b: Line)
    requires a in s && b in s && a != b
    ensures |s| != 1
  {
    var rest := s - {a};
    assert b in rest && |rest| == |s| - 1;
  }

  lemma {:induction false} CommonLine(result: seq<Entry>, flushed: seq<Entry>, batches: map<Prefix, seq<Entry>>,
                                      common: Prefix, texts: seq<seq<Line>>, prefixes: seq<seq<Prefix>>, i: nat)
    requires Blocks(texts, prefixes, common) && i < |texts[0]| && SameLine(texts, i)
    requires Complete(result, batches, common, texts, prefixes, i)
    requires forall p :: p != common ==> Kept(flushed, common, p) == Kept(result, common, p) + Lines(Batch(batches, p))
    ensures Complete(flushed + [Entry(common, texts[0][i])], map[], common, texts, prefixes, i + 1)
  {
    forall t, p | 0 <= t < |texts| && p in prefixes[t]
      ensures CompleteFor(flushed + [Entry(common, texts[0][i])], map[], common, texts[t], p, i + 1)
    {
      hide Kept, Lines, CompleteFor;
      CommonLineFor(result, flushed, batches, common, texts[t], p, i);
    }
  }

  lemma {:induction false} CommonLineFor(result: seq<Entry>, flushed: seq<Entry>, batches: map<Prefix, seq<Entry>>,
                                         common: Prefix, text: seq<Line>, prefix: Prefix, i: nat)
    requires i < |text| && CompleteFor(result, batches, common, text, prefix, i)
    requires Kept(flushed, common, prefix) == Kept(result, common, prefix) + Lines(Batch(batches, prefix))
    ensures CompleteFor(flushed + [Entry(common, text[i])], map[], common, text, prefix, i + 1)
  {
    var last := Entry(common, text[i]);
    assert (flushed + [last])[..|flushed|] == flushed;
    assert text[..i + 1] == text[..i] + [text[i]];
  }

  lemma {:induction false} BatchedLine(result: seq<Entry>, batches: map<Prefix, seq<Entry>>,
                                       batches': map<Prefix, seq<Entry>>, common: Prefix,
                                       texts: seq<seq<Line>>, prefixes: seq<seq<Prefix>>, i: nat)
    requires Blocks(texts, prefixes, common) && i < |texts[0]|
    requires Complete(result, batches, common, texts, prefixes, i)
    requires forall t, p :: 0 <= t < |texts| && p in prefixes[t] ==>
               Batch(batches', p) == Batch(batches, p) + [Entry(p, texts[t][i])]
    ensures Complete(result, batches', common, texts, prefixes, i + 1)
  {
    forall t, p | 0 <= t < |texts| && p in prefixes[t]
      ensures CompleteFor(result, batches', common, texts[t], p, i + 1)
    {
      hide Kept, Lines, Batch, CompleteFor;
      BatchedLineFor(result, batches, batches', common, texts[t], p, i);
    }
  }

  lemma {:induction false} BatchedLineFor(result: seq<Entry>, batches: map<Prefix, seq<Entry>>,
                                          batches': map<Prefix, seq<Entry>>, common: Prefix, text: seq<Line>,
                                          prefix: Prefix, i: nat)
    requires i < |text| && CompleteFor(result, batches, common, text, prefix, i)
    requires Batch(batches', prefix) == Batch(batches, prefix) + [Entry(prefix, text[i])]
    ensures CompleteFor(result, batches', common, text, prefix, i + 1)
  {
    hide Kept;
    assert Lines(Batch(batches', prefix)) == Lines(Batch(batches, prefix)) + [text[i]];
    assert text[..i + 1] == text[..i] + [text[i]];
  }

  // ----- which lines get which tags -----

  /** The same with the batches that are still to be flushed. */
  ghost predicate Parted(result: seq<Entry>, batches: map<Prefix, seq<Entry>>, common: Prefix,
                         texts: seq<seq<Line>>, prefixes: seq<seq<Prefix>>, i: nat)
    requires |texts| == |prefixes| > 0 && forall u :: 0 <= u < |texts| ==> i <= |texts[u]|
  {
    && Under(result, common) == Shared(texts, 0, i)
    && (forall t, p {:trigger texts[t], p in prefixes[t]} :: 0 <= t < |texts| && p in prefixes[t] ==>
          Under(result, p) + Lines(Batch(batches, p)) == Own(texts, t, i))
    && (forall p :: p != common && Unlisted(prefixes, p) ==> Under(result, p) == [] && Batch(batches, p) == [])
  }

  lemma {:induction false} CommonParted(result: seq<Entry>, flushed: seq<Entry>, batches: map<Prefix, seq<Entry>>,
                                        common: Prefix, texts: seq<seq<Line>>, prefixes: seq<seq<Prefix>>, i: nat)
    requires Blocks(texts, prefixes, common) && i < |texts[0]| && SameLine(texts, i) && WellTagged(batches, common)
    requires Parted(result, batches, common, texts, prefixes, i)
    requires forall p :: Under(flushed, p) == Under(result, p) + Lines(Batch(batches, p))
    ensures Parted(flushed + [Entry(common, texts[0][i])], map[], common, texts, prefixes, i + 1)
  {
    var last := Entry(common, texts[0][i]);
    forall p
      ensures Under(flushed + [last], p) == Under(flushed, p) + if p == common then [last.line] else []
    {
      assert (flushed + [last])[..|flushed|] == flushed;
    }
    hide Under, SameLine;
    assert Lines([]) == [];
    forall t, p | 0 <= t < |texts| && p in prefixes[t]
      ensures Under(flushed + [last], p) + Lines(Batch(map[], p)) == Own(texts, t, i + 1)
    {
      assert p != common;
    }
  }

  lemma {:induction false} BatchedParted(result: seq<Entry>, batches: map<Prefix, seq<Entry>>,
                                         batches': map<Prefix, seq<Entry>>, common: Prefix,
                                         texts: seq<seq<Line>>, prefixes: seq<seq<Prefix>>, i: nat)
    requires Blocks(texts, prefixes, common) && i < |texts[0]| && !SameLine(texts, i)
    requires Parted(result, batches, common, texts, prefixes, i)
    requires forall t, p :: 0 <= t < |texts| && p in prefixes[t] ==>
               Batch(batches', p) == Batch(batches, p) + [Entry(p, texts[t][i])]
    requires forall p :: Unlisted(prefixes, p) ==> Batch(batches', p) == Batch(batches, p)
    ensures Parted(result, batches', common, texts, prefixes, i + 1)
  {
    hide Under, SameLine, Batch;
    forall t, p | 0 <= t < |texts| && p in prefixes[t]
      ensures Under(result, p) + Lines(Batch(batches', p)) == Own(texts, t, i + 1)
    {
      assert Lines(Batch(batches', p)) == Lines(Batch(batches, p)) + [texts[t][i]];
    }
  }
}
