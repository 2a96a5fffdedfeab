/** The edits by which the compiler builds a function keep it certified. */
module BrainFSsaEdits {
  import opened BrainFIR
  import opened BrainFGen
  import opened BrainFSsa

  /** What was defined on every way to the end of a block still is. */
  ghost predicate Kept(blocks: seq<Block>, c: Cert, blocks': seq<Block>, c': Cert) {
    forall b: BlockId, r :: Out(blocks, c, b, r) ==> Out(blocks', c', b, r)
  }

  // ----- appending an instruction that is not a terminator -----

  lemma AppendSites(blocks: seq<Block>, b: BlockId, i: Instr)
    requires b < |blocks|
    ensures var blocks' := Append(blocks, b, [i]);
            && (forall s, r: Reg :: DefinedAt(blocks, s, r) ==> DefinedAt(blocks', s, r))
            && (forall s, r: Reg :: DefinedAt(blocks', s, r) ==>
                 DefinedAt(blocks, s, r) || (s == CodeAt(b, |blocks[b].code|) && Result(i) == [r]))
            && (forall r :: Result(i) == [r] ==> DefinedAt(blocks', CodeAt(b, |blocks[b].code|), r))
  {
  }

  lemma AppendDefinedBefore(blocks: seq<Block>, b: BlockId, i: Instr)
    requires b < |blocks|
    ensures var blocks' := Append(blocks, b, [i]);
            && (forall x, k: nat, r :: DefinedBefore(blocks, x, k, r) ==> DefinedBefore(blocks', x, k, r))
            && (forall x, r :: DefinedIn(blocks, x, r) ==> DefinedIn(blocks', x, r))
            && (forall r :: Result(i) == [r] ==> DefinedIn(blocks', b, r))
  {
    AppendSites(blocks, b, i);
    var blocks' := Append(blocks, b, [i]);
    forall x: BlockId, r: Reg | DefinedIn(blocks, x, r)
      ensures DefinedIn(blocks', x, r)
    {
      assert DefinedBefore(blocks', x, |blocks[x].code|, r);
    }
  }

  function Extended(c: Cert, i: Instr, s: Site): Cert {
    if Result(i) == [] then c else c.(sites := c.sites[Result(i)[0] := s])
  }

  /** The edit adds no edge: an instruction that does not branch, after others that do not. */
  lemma AppendGoes(blocks: seq<Block>, b: BlockId, i: Instr)
    requires b < |blocks| && Open(blocks[b]) && !IsTerminator(i)
    ensures forall x, j :: Goes(Append(blocks, b, [i]), x, j) <==> Goes(blocks, x, j)
  {
  }

  lemma AppendUses(blocks: seq<Block>, c: Cert, b: BlockId, i: Instr)
    requires UsesOk(blocks, c) && b < |blocks|
    requires forall r :: Uses(i, r) ==> Out(blocks, c, b, r)
    ensures UsesOk(Append(blocks, b, [i]), Extended(c, i, CodeAt(b, |blocks[b].code|)))
  {
    var blocks' := Append(blocks, b, [i]);
    AppendDefinedBefore(blocks, b, i);
    forall x: BlockId, k: nat, r | UsedAt(blocks', x, k, r)
      ensures r in c.avail[x] || DefinedBefore(blocks', x, k, r)
    {
      if x == b && k == |blocks[b].code| {
        assert Uses(i, r);
        assert Out(blocks, c, b, r);
      } else {
        assert UsedAt(blocks, x, k, r);
      }
    }
  }

  lemma AppendEdges(blocks: seq<Block>, c: Cert, b: BlockId, i: Instr)
    requires EdgesOk(blocks, c) && PhisOk(blocks, c) && b < |blocks| && Open(blocks[b]) && !IsTerminator(i)
    ensures var blocks' := Append(blocks, b, [i]);
            var c' := Extended(c, i, CodeAt(b, |blocks[b].code|));
            EdgesOk(blocks', c') && PhisOk(blocks', c') && Kept(blocks, c, blocks', c')
  {
    var blocks' := Append(blocks, b, [i]);
    var c' := Extended(c, i, CodeAt(b, |blocks[b].code|));
    AppendDefinedBefore(blocks, b, i);
    AppendGoes(blocks, b, i);
    assert Kept(blocks, c, blocks', c');
    forall x: BlockId, k: nat | x < |blocks'| && k < |blocks'[x].phis|
      ensures PhiMatches(blocks', x, blocks'[x].phis[k].incoming)
    {
      assert PhiMatches(blocks, x, blocks[x].phis[k].incoming);
    }
    forall e | PhiEdge(blocks', e)
      ensures Out(blocks', c', e.from, e.value)
    {
      assert PhiEdge(blocks, e);
    }
  }

  lemma AppendKeeps(blocks: seq<Block>, c: Cert, b: BlockId, i: Instr) returns (c': Cert)
    requires Certified(blocks, c) && b < |blocks| && Open(blocks[b]) && !IsTerminator(i)
    requires forall r :: Uses(i, r) ==> Out(blocks, c, b, r)
    requires Result(i) != [] ==> Result(i)[0] !in c.sites
    ensures Certified(Append(blocks, b, [i]), c') && Kept(blocks, c, Append(blocks, b, [i]), c')
    ensures c'.avail == c.avail && c'.sites.Keys == c.sites.Keys + (set r | r in Result(i))
    ensures forall r :: r in Result(i) ==> Out(Append(blocks, b, [i]), c', b, r)
  {
    c' := Extended(c, i, CodeAt(b, |blocks[b].code|));
    AppendUses(blocks, c, b, i);
    AppendEdges(blocks, c, b, i);
    AppendSites(blocks, b, i);
    AppendDefinedBefore(blocks, b, i);
  }

  // ----- adding a block -----

  /** A new block that nothing branches to yet, with at most one phi, still without edges. */
  lemma NewBlockKeeps(blocks: seq<Block>, c: Cert, phis: seq<Phi>, avail: set<Reg>) returns (c': Cert)
    requires Certified(blocks, c)
    requires |phis| <= 1 && forall p :: p in phis ==> p.dst !in c.sites && p.incoming == []
    ensures var blocks' := blocks + [Block(phis, [])];
            Certified(blocks', c') && Kept(blocks, c, blocks', c')
    ensures c'.avail == c.avail + [avail]
    ensures c'.sites.Keys == c.sites.Keys + (set p | p in phis :: p.dst)
  {
    var n := |blocks|;
    var blocks' := blocks + [Block(phis, [])];
    c' := Cert(if phis == [] then c.sites else c.sites[phis[0].dst := PhiAt(n, 0)], c.avail + [avail]);
    NewBlockFacts(blocks, phis);
    assert forall b, r :: Out(blocks, c, b, r) ==> Out(blocks', c', b, r);
    forall b: BlockId, k: nat, r | UsedAt(blocks', b, k, r)
      ensures r in c'.avail[b] || DefinedBefore(blocks', b, k, r)
    {
      assert UsedAt(blocks, b, k, r);
    }
    forall x: BlockId, k: nat | x < |blocks'| && k < |blocks'[x].phis|
      ensures PhiMatches(blocks', x, blocks'[x].phis[k].incoming)
    {
      if x < n {
        assert PhiMatches(blocks, x, blocks[x].phis[k].incoming);
      }
    }
    forall e | PhiEdge(blocks', e)
      ensures Out(blocks', c', e.from, e.value)
    {
      assert PhiEdge(blocks, e);
    }
    forall i: BlockId, j: BlockId | Goes(blocks', i, j)
      ensures j < |blocks'| && forall r :: r in c'.avail[j] ==> Out(blocks', c', i, r)
    {
      assert Goes(blocks, i, j);
    }
  }

  lemma NewBlockFacts(blocks: seq<Block>, phis: seq<Phi>)
    requires |phis| <= 1 && forall p :: p in phis ==> p.incoming == []
    ensures var blocks' := blocks + [Block(phis, [])];
            && (forall i, j :: Goes(blocks', i, j) <==> Goes(blocks, i, j))
            && (forall s, r: Reg :: DefinedAt(blocks, s, r) ==> DefinedAt(blocks', s, r))
            && (forall s, r: Reg :: DefinedAt(blocks', s, r) ==>
                 DefinedAt(blocks, s, r) || (s == PhiAt(|blocks|, 0) && phis != [] && phis[0].dst == r))
            && (forall x, k: nat, r :: DefinedBefore(blocks, x, k, r) ==> DefinedBefore(blocks', x, k, r))
            && (forall x, r :: DefinedIn(blocks, x, r) ==> DefinedIn(blocks', x, r))
  {
  }

  // ----- ending a block -----

  /** Appending a terminator none of whose targets has a phi. */
  lemma BranchKeeps(blocks: seq<Block>, c: Cert, b: BlockId, i: Instr)
    requires Certified(blocks, c) && b < |blocks| && Open(blocks[b]) && IsTerminator(i)
    requires forall r :: Uses(i, r) ==> Out(blocks, c, b, r)
    requires forall j: BlockId :: Targets(i, j) ==> j < |blocks| && blocks[j].phis == []
    requires forall j: BlockId, r :: Targets(i, j) && r in c.avail[j] ==> Out(blocks, c, b, r)
    ensures Certified(Append(blocks, b, [i]), c) && Kept(blocks, c, Append(blocks, b, [i]), c)
  {
    var blocks' := Append(blocks, b, [i]);
    AppendUses(blocks, c, b, i);
    AppendSites(blocks, b, i);
    AppendDefinedBefore(blocks, b, i);
    BranchGoes(blocks, b, i);
    assert Kept(blocks, c, blocks', c);
    forall x: BlockId, k: nat | x < |blocks'| && k < |blocks'[x].phis|
      ensures PhiMatches(blocks', x, blocks'[x].phis[k].incoming)
    {
      assert PhiMatches(blocks, x, blocks[x].phis[k].incoming);
    }
    forall e | PhiEdge(blocks', e)
      ensures Out(blocks', c, e.from, e.value)
    {
      assert PhiEdge(blocks, e);
    }
  }

  lemma BranchGoes(blocks: seq<Block>, b: BlockId, i: Instr)
    requires b < |blocks| && Open(blocks[b]) && IsTerminator(i)
    ensures forall j :: !Goes(blocks, b, j)
    ensures forall x, j :: Goes(Append(blocks, b, [i]), x, j) <==> Goes(blocks, x, j) || (x == b && Targets(i, j))
  {
  }

  /** Appending a terminator to b and an edge for it to the phi of its target t. */
  function Link(blocks: seq<Block>, b: BlockId, i: Instr, t: BlockId, v: Reg): seq<Block>
    requires b < |blocks| && t < |blocks|
  {
    var blocks' := Append(blocks, b, [i]);
    blocks'[t := AddIncoming(blocks'[t], Edge(b, v))]
  }

  lemma LinkFacts(blocks: seq<Block>, b: BlockId, i: Instr, t: BlockId, v: Reg)
    requires b < |blocks| && t < |blocks| && b != t && |blocks[t].phis| == 1
    ensures var blocks1 := Append(blocks, b, [i]);
            var blocks' := Link(blocks, b, i, t, v);
            && (forall x, j :: Goes(blocks', x, j) <==> Goes(blocks1, x, j))
            && (forall s, r :: DefinedAt(blocks', s, r) <==> DefinedAt(blocks1, s, r))
            && (forall x, k: nat, r :: DefinedBefore(blocks', x, k, r) <==> DefinedBefore(blocks1, x, k, r))
            && (forall x, r :: DefinedIn(blocks', x, r) <==> DefinedIn(blocks1, x, r))
            && (forall x, k: nat, r :: UsedAt(blocks', x, k, r) <==> UsedAt(blocks1, x, k, r))
  {
  }

  lemma LinkPhis(blocks: seq<Block>, c: Cert, b: BlockId, i: Instr, t: BlockId, v: Reg)
    requires PhisOk(blocks, c) && |c.avail| == |blocks|
    requires b < |blocks| && t < |blocks| && b != t && |blocks[t].phis| == 1
    requires Open(blocks[b]) && IsTerminator(i) && Targets(i, t) && Out(blocks, c, b, v)
    requires forall j: BlockId :: Targets(i, j) ==> j < |blocks| && (j == t || blocks[j].phis == [])
    ensures PhisOk(Link(blocks, b, i, t, v), c) && Kept(blocks, c, Link(blocks, b, i, t, v), c)
  {
    var blocks' := Link(blocks, b, i, t, v);
    LinkFacts(blocks, b, i, t, v);
    AppendDefinedBefore(blocks, b, i);
    BranchGoes(blocks, b, i);
    assert Kept(blocks, c, blocks', c);
    forall x: BlockId, k: nat | x < |blocks'| && k < |blocks'[x].phis|
      ensures PhiMatches(blocks', x, blocks'[x].phis[k].incoming)
    {
      assert PhiMatches(blocks, x, blocks[x].phis[k].incoming);
      if x == t {
        LinkPhiMatches(blocks, b, i, t, v);
      }
    }
    forall e | PhiEdge(blocks', e)
      ensures Out(blocks', c, e.from, e.value)
    {
      assert e == Edge(b, v) || PhiEdge(blocks, e);
    }
  }

  lemma LinkPhiMatches(blocks: seq<Block>, b: BlockId, i: Instr, t: BlockId, v: Reg)
    requires b < |blocks| && t < |blocks| && b != t && |blocks[t].phis| == 1
    requires Open(blocks[b]) && IsTerminator(i) && Targets(i, t)
    requires PhiMatches(blocks, t, blocks[t].phis[0].incoming)
    ensures var blocks' := Link(blocks, b, i, t, v); PhiMatches(blocks', t, blocks'[t].phis[0].incoming)
  {
    var blocks' := Link(blocks, b, i, t, v);
    LinkFacts(blocks, b, i, t, v);
    BranchGoes(blocks, b, i);
    var incoming := blocks[t].phis[0].incoming;
    var incoming' := blocks'[t].phis[0].incoming;
    assert incoming' == incoming + [Edge(b, v)];
    assert forall e :: e in incoming ==> e.from != b;
    forall x: BlockId | Goes(blocks', x, t)
      ensures exists e :: e in incoming' && e.from == x
    {
      if x == b {
        assert Edge(b, v) in incoming';
      } else {
        assert Goes(blocks, x, t);
        var e :| e in incoming && e.from == x;
        assert e in incoming';
      }
    }
  }

  lemma LinkKeeps(blocks: seq<Block>, c: Cert, b: BlockId, i: Instr, t: BlockId, v: Reg)
    requires Certified(blocks, c)
    requires b < |blocks| && t < |blocks| && b != t && |blocks[t].phis| == 1
    requires Open(blocks[b]) && IsTerminator(i) && Targets(i, t) && Out(blocks, c, b, v)
    requires forall r :: Uses(i, r) ==> Out(blocks, c, b, r)
    requires forall j: BlockId :: Targets(i, j) ==> j < |blocks| && (j == t || blocks[j].phis == [])
    requires forall j: BlockId, r :: Targets(i, j) && r in c.avail[j] ==> Out(blocks, c, b, r)
    ensures Certified(Link(blocks, b, i, t, v), c) && Kept(blocks, c, Link(blocks, b, i, t, v), c)
  {
    LinkPhis(blocks, c, b, i, t, v);
    LinkFacts(blocks, b, i, t, v);
    AppendUses(blocks, c, b, i);
    AppendSites(blocks, b, i);
    BranchGoes(blocks, b, i);
  }
}
