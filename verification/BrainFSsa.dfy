/** What it means for a function to be in SSA form, and small edits of a function that keep it so. */
module BrainFSsa {
  import opened BrainFIR

  // ----- SSA form -----

  /** Control can go from block i to block j. */
  predicate Goes(blocks: seq<Block>, i: BlockId, j: BlockId) {
    i < |blocks| && blocks[i].code != [] && Targets(blocks[i].code[|blocks[i].code| - 1], j)
  }

  /** A place where a register gets its value. */
  datatype Site = PhiAt(block: BlockId, k: nat) | CodeAt(block: BlockId, k: nat)

  predicate DefinedAt(blocks: seq<Block>, s: Site, r: Reg) {
    s.block < |blocks| &&
    match s
    case PhiAt(b, k) => k < |blocks[b].phis| && blocks[b].phis[k].dst == r
    case CodeAt(b, k) => k < |blocks[b].code| && Result(blocks[b].code[k]) == [r]
  }

  predicate UsedAt(blocks: seq<Block>, b: BlockId, k: nat, r: Reg) {
    b < |blocks| && k < |blocks[b].code| && Uses(blocks[b].code[k], r)
  }

  /** e is an edge into a phi of some block. */
  ghost predicate PhiEdge(blocks: seq<Block>, e: Edge) {
    exists b: BlockId, k: nat :: b < |blocks| && k < |blocks[b].phis| && e in blocks[b].phis[k].incoming
  }

  /** r is defined in block b before its instruction k. */
  ghost predicate DefinedBefore(blocks: seq<Block>, b: BlockId, k: nat, r: Reg) {
    || (exists j: nat :: DefinedAt(blocks, PhiAt(b, j), r))
    || (exists j: nat :: j < k && DefinedAt(blocks, CodeAt(b, j), r))
  }

  ghost predicate DefinedIn(blocks: seq<Block>, b: BlockId, r: Reg) {
    b < |blocks| && DefinedBefore(blocks, b, |blocks[b].code|, r)
  }

  /** Every register has one definition. */
  ghost predicate UniqueDefinitions(blocks: seq<Block>) {
    forall s, s', r :: DefinedAt(blocks, s, r) && DefinedAt(blocks, s', r) ==> s == s'
  }

  /** The incoming blocks of the phi are the predecessors of its block, each once. */
  ghost predicate PhiMatches(blocks: seq<Block>, b: BlockId, incoming: seq<Edge>) {
    && (forall i, j :: 0 <= i < j < |incoming| ==> incoming[i].from != incoming[j].from)
    && (forall e :: e in incoming ==> Goes(blocks, e.from, b))
    && (forall i: BlockId :: Goes(blocks, i, b) ==> exists e :: e in incoming && e.from == i)
  }

  ghost predicate PhisMatch(blocks: seq<Block>) {
    forall b, k :: 0 <= b < |blocks| && 0 <= k < |blocks[b].phis| ==> PhiMatches(blocks, b, blocks[b].phis[k].incoming)
  }

  /** A way through the function, from its entry. */
  ghost predicate IsPath(blocks: seq<Block>, path: seq<BlockId>) {
    && path != [] && path[0] == 0 && |blocks| > 0
    && forall i :: 0 <= i < |path| - 1 ==> Goes(blocks, path[i], path[i + 1])
  }

  /** r has been defined on the way, before instruction k of the last block. */
  ghost predicate DefinedOn(blocks: seq<Block>, path: seq<BlockId>, k: nat, r: Reg)
    requires path != []
  {
    || DefinedBefore(blocks, path[|path| - 1], k, r)
    || (exists i :: 0 <= i < |path| - 1 && DefinedIn(blocks, path[i], r))
  }

  /** Every use of a register, by an instruction or by a phi on one of its edges, is dominated by
      its definition: every path to it runs through the definition first. */
  ghost predicate Dominated(blocks: seq<Block>) {
    && (forall path, k: nat, r :: IsPath(blocks, path) && UsedAt(blocks, path[|path| - 1], k, r)
         ==> DefinedOn(blocks, path, k, r))
    && (forall path, e :: IsPath(blocks, path) && PhiEdge(blocks, e) && e.from == path[|path| - 1] && e.from < |blocks|
         ==> DefinedOn(blocks, path, |blocks[e.from].code|, e.value))
  }

  // ----- a certificate that can be checked edge by edge -----

  /** For each register its definition, and for each block registers that are defined on every way
      to it. */
  datatype Cert = Cert(sites: map<Reg, Site>, avail: seq<set<Reg>>)

  /** r is defined on every way to the end of block b. */
  ghost predicate Out(blocks: seq<Block>, c: Cert, b: BlockId, r: Reg) {
    b < |c.avail| && (r in c.avail[b] || DefinedIn(blocks, b, r))
  }

  ghost predicate SitesOk(blocks: seq<Block>, c: Cert) {
    forall s, r :: DefinedAt(blocks, s, r) ==> r in c.sites && c.sites[r] == s
  }

  ghost predicate UsesOk(blocks: seq<Block>, c: Cert) {
    |c.avail| == |blocks| &&
    forall b: BlockId, k: nat, r :: UsedAt(blocks, b, k, r) ==> r in c.avail[b] || DefinedBefore(blocks, b, k, r)
  }

  ghost predicate EdgesOk(blocks: seq<Block>, c: Cert) {
    |c.avail| == |blocks| && |blocks| > 0 && c.avail[0] == {} &&
    forall i: BlockId, j: BlockId :: Goes(blocks, i, j) ==>
      j < |blocks| && forall r :: r in c.avail[j] ==> Out(blocks, c, i, r)
  }

  ghost predicate PhisOk(blocks: seq<Block>, c: Cert) {
    && PhisMatch(blocks)
    && forall e :: PhiEdge(blocks, e) ==> Out(blocks, c, e.from, e.value)
  }

  ghost predicate Certified(blocks: seq<Block>, c: Cert) {
    SitesOk(blocks, c) && UsesOk(blocks, c) && EdgesOk(blocks, c) && PhisOk(blocks, c)
  }

  lemma CertifiedSize(blocks: seq<Block>, c: Cert)
    requires Certified(blocks, c)
    ensures |c.avail| == |blocks|
  {
  }

  lemma {:induction false} AvailableOnPath(blocks: seq<Block>, c: Cert, path: seq<BlockId>, r: Reg)
    requires EdgesOk(blocks, c) && IsPath(blocks, path)
    requires path[|path| - 1] < |blocks| && r in c.avail[path[|path| - 1]]
    ensures exists i :: 0 <= i < |path| - 1 && DefinedIn(blocks, path[i], r)
    decreases |path|
  {
    var n := |path| - 1;
    if n > 0 {
      var front := path[..n];
      assert Goes(blocks, path[n - 1], path[n]);
      assert Out(blocks, c, path[n - 1], r);
      assert forall i :: 0 <= i < n - 1 ==> Goes(blocks, front[i], front[i + 1]);
      if !DefinedIn(blocks, path[n - 1], r) {
        AvailableOnPath(blocks, c, front, r);
        var i :| 0 <= i < |front| - 1 && DefinedIn(blocks, front[i], r);
        assert DefinedIn(blocks, path[i], r);
      }
    }
  }

  /** A certificate proves SSA form. */
  lemma {:induction false} CertifiedIsSsa(blocks: seq<Block>, c: Cert)
    requires Certified(blocks, c)
    ensures UniqueDefinitions(blocks) && PhisMatch(blocks) && Dominated(blocks)
  {
    forall path, k: nat, r | IsPath(blocks, path) && UsedAt(blocks, path[|path| - 1], k, r)
      ensures DefinedOn(blocks, path, k, r)
    {
      if !DefinedBefore(blocks, path[|path| - 1], k, r) {
        AvailableOnPath(blocks, c, path, r);
      }
    }
    forall path, e | IsPath(blocks, path) && PhiEdge(blocks, e) && e.from == path[|path| - 1] && e.from < |blocks|
      ensures DefinedOn(blocks, path, |blocks[e.from].code|, e.value)
    {
      if !DefinedIn(blocks, e.from, e.value) {
        AvailableOnPath(blocks, c, path, e.value);
      }
    }
  }
}
