/** Everything the compiler emits is in SSA form. */
module BrainFSsaGen {
  import opened BrainFSource
  import opened BrainFIR
  import opened BrainFGen
  import opened BrainFSsa
  import opened BrainFSsaEdits

  /** The function so far is certified, and the registers the next commands may need are defined on
      every way to the place where the builder emits. */
  ghost predicate Here(g: Builder, c: Cert, abc: bool) {
    && Ready(g) && Certified(g.blocks, c)
    && (forall r :: r in c.sites ==> r < g.next)
    && (forall r: Reg :: Out(g.blocks, c, g.cur, r) ==> r < g.next)
    && Out(g.blocks, c, g.cur, g.head) && Out(g.blocks, c, g.cur, ARR)
    && (abc ==> Out(g.blocks, c, g.cur, ARRMAX))
    && (abc ==> ABERROR < |g.blocks| && g.blocks[ABERROR].phis == [] && c.avail[ABERROR] == {ARR})
  }

  /** From g to g' nothing was lost. */
  ghost predicate Onward(g: Builder, c: Cert, g': Builder, c': Cert) {
    && c.avail <= c'.avail
    && forall r: Reg :: Out(g.blocks, c, g.cur, r) ==> Out(g'.blocks, c', g'.cur, r)
  }

  /** One more instruction, into the next register if it has a result. */
  lemma SsaEmit(g: Builder, c: Cert, i: Instr, abc: bool) returns (c': Cert)
    requires Here(g, c, abc) && !IsTerminator(i)
    requires Result(i) == [] || Result(i) == [g.next]
    requires forall r :: Uses(i, r) ==> Out(g.blocks, c, g.cur, r)
    ensures var g' := g.Emit([i], |Result(i)|);
            && Here(g', c', abc) && Onward(g, c, g', c')
            && (Result(i) != [] ==> Out(g'.blocks, c', g.cur, g.next))
  {
    c' := AppendKeeps(g.blocks, c, g.cur, i);
    var g' := g.Emit([i], |Result(i)|);
    assert forall r :: r in c.avail[g.cur] ==> Out(g.blocks, c, g.cur, r);
    SitesBound(g', c');
  }

  /** What is defined on every way to a block was recorded for it or has a definition in it. */
  lemma SitesBound(g: Builder, c: Cert)
    requires g.Ok() && SitesOk(g.blocks, c) && |c.avail| == |g.blocks|
    requires forall r :: r in c.sites ==> r < g.next
    requires forall r :: r in c.avail[g.cur] ==> r < g.next
    ensures forall r: Reg :: Out(g.blocks, c, g.cur, r) ==> r < g.next
  {
  }

  lemma SsaEmitThree(g: Builder, c: Cert, i1: Instr, i2: Instr, i3: Instr, abc: bool) returns (c': Cert)
    requires Here(g, c, abc) && !IsTerminator(i1) && !IsTerminator(i2) && !IsTerminator(i3)
    requires Result(i1) == [g.next]
    requires Result(i2) == [g.next + 1]
    requires Result(i3) == [] || Result(i3) == [g.next + 2]
    requires forall r :: Uses(i1, r) ==> Out(g.blocks, c, g.cur, r)
    requires forall r :: Uses(i2, r) ==> r == g.next || Out(g.blocks, c, g.cur, r)
    requires forall r :: Uses(i3, r) ==> r == g.next || r == g.next + 1 || Out(g.blocks, c, g.cur, r)
    ensures var g' := g.Emit([i1, i2, i3], 2 + |Result(i3)|);
            && Here(g', c', abc) && Onward(g, c, g', c')
            && (Result(i3) != [] ==> Out(g'.blocks, c', g.cur, g.next + 2))
  {
    var g1 := g.Emit([i1], 1);
    var c1 := SsaEmit(g, c, i1, abc);
    var g2 := g1.Emit([i2], 1);
    var c2 := SsaEmit(g1, c1, i2, abc);
    c' := SsaEmit(g2, c2, i3, abc);
    EmitJoins(g, [i1], 1, [i2], 1);
    EmitJoins(g, [i1, i2], 2, [i3], |Result(i3)|);
    assert [i1] + [i2] == [i1, i2] && [i1, i2] + [i3] == [i1, i2, i3];
  }

  /** Everything defined on every way to the place where the builder emits. */
  ghost function Everything(g: Builder, c: Cert): (s: set<Reg>)
    ensures forall r: Reg :: r in s <==> r < g.next && Out(g.blocks, c, g.cur, r)
  {
    set r: Reg | r < g.next && Out(g.blocks, c, g.cur, r)
  }

  /** A new block, to which the current one branches unless it complains. */
  lemma {:induction false} SsaBranchOff(g: Builder, c: Cert, cond: Reg) returns (c': Cert)
    requires Here(g, c, true) && Out(g.blocks, c, g.cur, cond)
    ensures Certified(Append(g.blocks + [Block([], [])], g.cur, [CondBr(cond, ABERROR, |g.blocks|)]), c')
    ensures c'.avail == c.avail + [Everything(g, c)] && c'.sites.Keys == c.sites.Keys
  {
    hide Certified, DefinedIn;
    CertifiedSize(g.blocks, c);
    c' := NewBlockKeeps(g.blocks, c, [], Everything(g, c));
    var blocks := g.blocks + [Block([], [])];
    assert forall q: Reg :: Out(g.blocks, c, g.cur, q) ==> Out(blocks, c', g.cur, q);
    BranchKeeps(blocks, c', g.cur, CondBr(cond, ABERROR, |g.blocks|));
  }

  lemma {:induction false} SsaCheck(g: Builder, c: Cert) returns (c': Cert)
    requires Here(g, c, true)
    ensures Here(GenCheck(g), c', true) && Onward(g, c, GenCheck(g), c')
  {
    hide Certified, DefinedIn;
    var r := g.next;
    var next := |g.blocks|;
    var i1, i2, i3 := ICmpUge(r, g.head, ARRMAX), ICmpUlt(r + 1, g.head, ARR), Or1(r + 2, r, r + 1);
    var c1 := SsaEmitThree(g, c, i1, i2, i3, true);
    var g1 := g.Emit([i1, i2, i3], 3);
    CertifiedSize(g1.blocks, c1);
    c' := SsaBranchOff(g1, c1, r + 2);
    CheckByEdits(g);
    CheckFrame(g);
    EmptyBlock(GenCheck(g).blocks, c', next);
  }

  /** The blocks of a check, edit by edit. */
  lemma {:induction false} CheckByEdits(g: Builder)
    requires g.Ok()
    ensures var r := g.next;
            var g1 := g.Emit([ICmpUge(r, g.head, ARRMAX), ICmpUlt(r + 1, g.head, ARR), Or1(r + 2, r, r + 1)], 3);
            && |g1.blocks| == |g.blocks|
            && GenCheck(g).blocks == Append(g1.blocks + [Block([], [])], g.cur, [CondBr(r + 2, ABERROR, |g.blocks|)])
  {
    var r := g.next;
    var i1, i2, i3 := ICmpUge(r, g.head, ARRMAX), ICmpUlt(r + 1, g.head, ARR), Or1(r + 2, r, r + 1);
    var branch := CondBr(r + 2, ABERROR, |g.blocks|);
    assert g.Emit([i1, i2, i3], 3).blocks[g.cur].code + [branch] == g.blocks[g.cur].code + [i1, i2, i3, branch];
  }

  /** A certificate for the state after opening a loop. */
  lemma {:induction false} SsaOpen(g: Builder, c: Cert, abc: bool) returns (c': Cert)
    requires Here(g, c, abc)
    ensures var g' := OpenLoop(g);
            && Here(g', c', abc) && Onward(g, c, g', c')
            && c'.avail[|g.blocks|] == Everything(g, c) && c'.avail[|g.blocks| + 1] == Everything(g, c) + {g.next}
  {
    hide Certified, DefinedIn;
    var test := |g.blocks|;
    CertifiedSize(g.blocks, c);
    c' := SsaOpenBlocks(g, c, abc);
    OpenByEdits(g);
    OpenReady(g);
    EmptyBlock(OpenLoop(g).blocks, c', test + 1);
  }

  lemma {:induction false} SsaOpenBlocks(g: Builder, c: Cert, abc: bool) returns (c': Cert)
    requires Here(g, c, abc)
    ensures Certified(Link(g.blocks + [Block([Phi(g.next, [])], [])] + [Block([], [])], g.cur, Br(|g.blocks|),
                           |g.blocks|, g.head), c')
    ensures c'.avail == c.avail + [Everything(g, c), Everything(g, c) + {g.next}]
    ensures c'.sites.Keys == c.sites.Keys + {g.next}
  {
    hide Certified, DefinedIn;
    var a := Everything(g, c);
    var phi := Phi(g.next, []);
    var test := |g.blocks|;
    CertifiedSize(g.blocks, c);
    var c1 := NewBlockKeeps(g.blocks, c, [phi], a);
    var blocks1 := g.blocks + [Block([phi], [])];
    c' := NewBlockKeeps(blocks1, c1, [], a + {g.next});
    var blocks2 := blocks1 + [Block([], [])];
    assert forall r: Reg :: Out(g.blocks, c, g.cur, r) ==> Out(blocks2, c', g.cur, r);
    LinkKeeps(blocks2, c', g.cur, Br(test), test, g.head);
  }

  /** The blocks that opening a loop makes, edit by edit. */
  lemma {:induction false} OpenByEdits(g: Builder)
    requires g.Ok()
    ensures var test := |g.blocks|;
            OpenLoop(g).blocks
            == Link(g.blocks + [Block([Phi(g.next, [])], [])] + [Block([], [])], g.cur, Br(test), test, g.head)
  {
    var test := |g.blocks|;
    var blocks := g.blocks + [Block([Phi(g.next, [])], [])] + [Block([], [])];
    assert [] + [Edge(g.cur, g.head)] == [Edge(g.cur, g.head)];
    assert [Phi(g.next, [Edge(g.cur, g.head)])] + [] == [Phi(g.next, [Edge(g.cur, g.head)])];
    assert Link(blocks, g.cur, Br(test), test, g.head)[test] == OpenLoop(g).blocks[test];
  }

  lemma EmptyBlock(blocks: seq<Block>, c: Cert, b: BlockId)
    requires b < |blocks| == |c.avail| && blocks[b] == Block([], [])
    ensures forall r: Reg :: Out(blocks, c, b, r) <==> r in c.avail[b]
  {
  }

  /** The state of a loop whose body has been emitted: the test block still is as it was opened, and
      what it may rely on is defined at the end of the body. */
  ghost predicate InLoop(g2: Builder, c2: Cert, phi: Reg, test: BlockId, a: set<Reg>) {
    && test + 1 < |g2.blocks| == |c2.avail| && test != g2.cur
    && |g2.blocks[test].phis| == 1 && g2.blocks[test].phis[0].dst == phi && g2.blocks[test].code == []
    && g2.blocks[test + 1].phis == []
    && c2.avail[test] == a && c2.avail[test + 1] == a + {phi} && phi < g2.next
    && (forall r :: r in a ==> r < g2.next && Out(g2.blocks, c2, g2.cur, r))
  }

  lemma {:induction false} AtLoopEnd(g: Builder, g2: Builder, c1: Cert, c2: Cert, a: set<Reg>)
    requires Ready(g) && Frame(OpenLoop(g), g2) && |c2.avail| == |g2.blocks|
    requires |c1.avail| == |g.blocks| + 2 && c1.avail[|g.blocks|] == a && c1.avail[|g.blocks| + 1] == a + {g.next}
    requires c1.avail <= c2.avail
    requires forall r :: r in a ==> r < g2.next && Out(g2.blocks, c2, g2.cur, r)
    ensures InLoop(g2, c2, g.next, |g.blocks|, a)
  {
    var g1 := OpenLoop(g);
    var test := |g.blocks|;
    assert g2.blocks[test] == g1.blocks[test];
    assert g2.blocks[test + 1].phis == g1.blocks[test + 1].phis;
    assert c2.avail[test] == c1.avail[test] && c2.avail[test + 1] == c1.avail[test + 1];
  }

  lemma {:induction false} SsaBackEdge(g2: Builder, c2: Cert, phi: Reg, test: BlockId, a: set<Reg>, abc: bool)
    requires Here(g2, c2, abc) && InLoop(g2, c2, phi, test, a)
    ensures var blocks := Link(g2.blocks, g2.cur, Br(test), test, g2.head);
            && Certified(blocks, c2) && Open(blocks[test]) && blocks[test].code == []
            && Out(blocks, c2, test, phi)
  {
    LinkKeeps(g2.blocks, c2, g2.cur, Br(test), test, g2.head);
    var blocks := Link(g2.blocks, g2.cur, Br(test), test, g2.head);
    assert DefinedAt(blocks, PhiAt(test, 0), phi);
    assert DefinedIn(blocks, test, phi);
  }

  lemma {:induction false} SsaTest(blocks: seq<Block>, c: Cert, phi: Reg, test: BlockId, r: Reg) returns (c': Cert)
    requires Certified(blocks, c) && test < |blocks| && blocks[test].code == [] && Out(blocks, c, test, phi)
    requires forall q :: q in c.sites ==> q < r
    ensures var blocks' := Append(blocks, test, [Load(r, phi), ICmpEq0(r + 1, r)]);
            && Certified(blocks', c') && c'.avail == c.avail && Open(blocks'[test])
            && (forall q :: q in c'.sites ==> q < r + 2)
            && Kept(blocks, c, blocks', c') && Out(blocks', c', test, r + 1)
  {
    var c1 := AppendKeeps(blocks, c, test, Load(r, phi));
    var blocks1 := Append(blocks, test, [Load(r, phi)]);
    c' := AppendKeeps(blocks1, c1, test, ICmpEq0(r + 1, r));
    assert Append(blocks1, test, [ICmpEq0(r + 1, r)]) == Append(blocks, test, [Load(r, phi), ICmpEq0(r + 1, r)]) by {
      assert blocks1[test].code + [ICmpEq0(r + 1, r)] == blocks[test].code + [Load(r, phi), ICmpEq0(r + 1, r)];
    }
  }

  lemma {:induction false} SsaExit(blocks: seq<Block>, c: Cert, phi: Reg, test: BlockId, r: Reg, a: set<Reg>)
      returns (c': Cert)
    requires Certified(blocks, c) && test + 1 < |blocks| && Open(blocks[test]) && blocks[test + 1].phis == []
    requires Out(blocks, c, test, phi) && Out(blocks, c, test, r + 1)
    requires c.avail[test] == a && c.avail[test + 1] == a + {phi}
    requires forall q :: q in c.sites ==> q < r + 2
    ensures var exit := |blocks|;
            var blocks' := Link(blocks + [Block([Phi(r + 2, [])], [])], test, CondBr(r + 1, exit, test + 1), exit, phi);
            && Certified(blocks', c') && c'.avail == c.avail + [a]
            && (forall q :: q in c'.sites ==> q < r + 3)
  {
    var exit := |blocks|;
    c' := NewBlockKeeps(blocks, c, [Phi(r + 2, [])], a);
    var blocks1 := blocks + [Block([Phi(r + 2, [])], [])];
    assert blocks1[test] == blocks[test];
    assert forall q: Reg :: Out(blocks, c, test, q) ==> Out(blocks1, c', test, q);
    LinkKeeps(blocks1, c', test, CondBr(r + 1, exit, test + 1), exit, phi);
  }

  /** The blocks that closing a loop makes, edit by edit. */
  lemma {:induction false} CloseByEdits(g2: Builder, phi: Reg, test: BlockId)
    requires g2.Ok() && test + 1 < |g2.blocks| && test != g2.cur && |g2.blocks[test].phis| == 1
             && g2.blocks[test].code == []
    ensures var r := g2.next;
            var exit := |g2.blocks|;
            var blocks1 := Link(g2.blocks, g2.cur, Br(test), test, g2.head);
            var blocks2 := Append(blocks1, test, [Load(r, phi), ICmpEq0(r + 1, r)]);
            CloseLoop(g2, phi, test, test + 1).blocks
            == Link(blocks2 + [Block([Phi(r + 2, [])], [])], test, CondBr(r + 1, exit, test + 1), exit, phi)
  {
    var r := g2.next;
    var exit := |g2.blocks|;
    var blocks1 := Link(g2.blocks, g2.cur, Br(test), test, g2.head);
    var blocks2 := Append(blocks1, test, [Load(r, phi), ICmpEq0(r + 1, r)]);
    var lhs := CloseLoop(g2, phi, test, test + 1).blocks;
    var rhs := Link(blocks2 + [Block([Phi(r + 2, [])], [])], test, CondBr(r + 1, exit, test + 1), exit, phi);
    assert lhs[test].code == [Load(r, phi), ICmpEq0(r + 1, r), CondBr(r + 1, exit, test + 1)] == rhs[test].code;
    assert lhs[test] == rhs[test];
    assert [] + [Edge(test, phi)] == [Edge(test, phi)];
    assert [Phi(r + 2, [Edge(test, phi)])] + [] == [Phi(r + 2, [Edge(test, phi)])];
    assert lhs[exit] == rhs[exit];
    assert forall i :: 0 <= i < |lhs| ==> lhs[i] == rhs[i];
  }

  lemma {:induction false} SsaClose(g2: Builder, c2: Cert, phi: Reg, test: BlockId, a: set<Reg>, abc: bool)
      returns (c': Cert)
    requires Here(g2, c2, abc) && InLoop(g2, c2, phi, test, a)
    requires ARR in a && (abc ==> ARRMAX in a)
    requires Ready(CloseLoop(g2, phi, test, test + 1))
    ensures var g' := CloseLoop(g2, phi, test, test + 1);
            && Here(g', c', abc) && c2.avail <= c'.avail
            && forall r: Reg :: r in a ==> Out(g'.blocks, c', g'.cur, r)
  {
    hide Certified;
    var r := g2.next;
    SsaBackEdge(g2, c2, phi, test, a, abc);
    var blocks1 := Link(g2.blocks, g2.cur, Br(test), test, g2.head);
    var c3 := SsaTest(blocks1, c2, phi, test, r);
    var blocks2 := Append(blocks1, test, [Load(r, phi), ICmpEq0(r + 1, r)]);
    assert blocks2[test + 1].phis == g2.blocks[test + 1].phis;
    c' := SsaExit(blocks2, c3, phi, test, r, a);
    CloseByEdits(g2, phi, test);
    var g' := CloseLoop(g2, phi, test, test + 1);
    assert DefinedAt(g'.blocks, PhiAt(g'.cur, 0), r + 2);
    assert DefinedIn(g'.blocks, g'.cur, r + 2);
    SitesBound(g', c');
    assert abc ==> g'.blocks[ABERROR].phis == [] by {
      if abc {
        assert test != ABERROR;
      }
    }
  }

  lemma {:induction false} SsaGen(p: Prog, g: Builder, c: Cert, abc: bool) returns (c': Cert)
    requires Here(g, c, abc)
    ensures Here(Gen(p, g, abc), c', abc) && Onward(g, c, Gen(p, g, abc), c')
    decreases p, 0
  {
    match p
    case Empty =>
      c' := c;
    case Then(d, rest) =>
      var c1 := SsaCmd(d, g, c, abc);
      c' := SsaGen(rest, GenCmd(d, g, abc), c1, abc);
  }

  lemma {:induction false} SsaCmd(d: Cmd, g: Builder, c: Cert, abc: bool) returns (c': Cert)
    requires Here(g, c, abc)
    ensures Here(GenCmd(d, g, abc), c', abc) && Onward(g, c, GenCmd(d, g, abc), c')
    decreases d, 1
  {
    hide Certified;
    var r := g.next;
    match d
    case Read => c' := SsaEmitThree(g, c, GetChar(r), Trunc8(r + 1, r), Store(r + 1, g.head), abc);
    case Write => c' := SsaEmitThree(g, c, Load(r, g.head), SExt32(r + 1, r), PutChar(r + 1), abc);
    case Change(n) => c' := SsaEmitThree(g, c, Load(r, g.head), Add8(r + 1, r, n % 256), Store(r + 1, g.head), abc);
    case Move(n) =>
      var c1 := SsaEmit(g, c, Gep(r, g.head, n), abc);
      var g1 := g.Emit([Gep(r, g.head, n)], 1).(head := r);
      c' := c1;
      if abc {
        c' := SsaCheck(g1, c1);
      }
    case Loop(b) => c' := SsaLoop(b, g, c, abc);
  }

  lemma {:induction false} SsaLoop(b: Prog, g: Builder, c: Cert, abc: bool) returns (c': Cert)
    requires Here(g, c, abc)
    ensures Here(GenCmd(Loop(b), g, abc), c', abc) && Onward(g, c, GenCmd(Loop(b), g, abc), c')
    decreases b, 2
  {
    hide Certified;
    var g1 := OpenLoop(g);
    var c1 := SsaOpen(g, c, abc);
    var a := Everything(g, c);
    GenFrame(b, g1, abc);
    var g2 := Gen(b, g1, abc);
    var c2 := SsaGen(b, g1, c1, abc);
    CertifiedSize(g.blocks, c);
    CertifiedSize(g1.blocks, c1);
    CertifiedSize(g2.blocks, c2);
    assert forall r :: r in a ==> Out(g1.blocks, c1, g1.cur, r);
    AtLoopEnd(g, g2, c1, c2, a);
    LoopFrame(g, g2);
    c' := SsaClose(g2, c2, g.next, |g.blocks|, a, abc);
  }

  lemma {:induction false} SsaHeader(mem: nat, abc: bool) returns (c: Cert)
    ensures Here(Header(mem, abc), c, abc) && c.avail[END] == {ARR}
  {
    var g := Header(mem, abc);
    var blocks := g.blocks;
    var sites := if abc then map[ARR := CodeAt(ENTRY, 0), ARRMAX := CodeAt(ENTRY, 2), 2 := CodeAt(ENTRY, 3)]
                 else map[ARR := CodeAt(ENTRY, 0), 2 := CodeAt(ENTRY, 2)];
    c := Cert(sites, [{}, {ARR}] + if abc then [{ARR}] else []);
    HeaderFacts(mem, abc);
    assert SitesOk(blocks, c);
    SitesBound(g, c);
  }

  lemma {:induction false} HeaderFacts(mem: nat, abc: bool)
    ensures var blocks := Header(mem, abc).blocks;
            && (forall i: BlockId, j: BlockId :: Goes(blocks, i, j) ==> abc && i == ABERROR && j == END)
            && (forall b: BlockId, k: nat, r :: UsedAt(blocks, b, k, r) ==> r == ARR && (b == ENTRY ==> k > 0))
            && (forall b: BlockId :: b < |blocks| ==> blocks[b].phis == [])
            && DefinedAt(blocks, CodeAt(ENTRY, 0), ARR)
            && DefinedAt(blocks, CodeAt(ENTRY, if abc then 3 else 2), 2)
            && (abc ==> DefinedAt(blocks, CodeAt(ENTRY, 2), ARRMAX))
            && forall s, r :: DefinedAt(blocks, s, r) ==>
                 || (s == CodeAt(ENTRY, 0) && r == ARR)
                 || (s == CodeAt(ENTRY, if abc then 3 else 2) && r == 2)
                 || (abc && s == CodeAt(ENTRY, 2) && r == ARRMAX)
  {
    var blocks := Header(mem, abc).blocks;
    if abc {
      assert blocks[ENTRY].code == [Malloc(ARR, mem), Memset(ARR, mem), Gep(ARRMAX, ARR, mem), Gep(2, ARR, mem / 2)];
      assert blocks[ABERROR].code == [Puts, Br(END)];
    } else {
      assert blocks[ENTRY].code == [Malloc(ARR, mem), Memset(ARR, mem), Gep(2, ARR, mem / 2)];
    }
    assert blocks[END].code == [Free(ARR), RetVoid];
  }

  /** For every program the emitted function is in SSA form: registers have one definition, the
      edges of every phi are the predecessors of its block, and definitions dominate uses. */
  lemma {:induction false} FunctionIsSsa(p: Prog, mem: nat, abc: bool)
    ensures var blocks := Function(p, mem, abc);
            UniqueDefinitions(blocks) && PhisMatch(blocks) && Dominated(blocks)
  {
    hide Certified;
    var h := Header(mem, abc);
    var c := SsaHeader(mem, abc);
    var g := Gen(p, h, abc);
    var c' := SsaGen(p, h, c, abc);
    GenFrame(p, h, abc);
    CertifiedSize(h.blocks, c);
    CertifiedSize(g.blocks, c');
    assert c'.avail[END] == {ARR};
    BranchKeeps(g.blocks, c', g.cur, Br(END));
    CertifiedIsSsa(Function(p, mem, abc), c');
  }
}
