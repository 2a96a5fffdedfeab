/** Aligning the blocks that several lists of blocks have in common, by inserting empty blocks. */
module BlockAlignment {

  type Block = string  // a block of text; the empty one pads

  const EMPTY: Block := ""

  /** The position of the first occurrence. */
  function Index(blocks: seq<Block>, block: Block): (k: nat)
    requires block in blocks
    ensures k < |blocks| && blocks[k] == block && forall j :: 0 <= j < k ==> blocks[j] != block
  {
    if blocks[0] == block then 0 else Index(blocks[1..], block) + 1
  }

  function Farthest(farthest: map<Block, nat>, block: Block): nat {
    if block in farthest then farthest[block] else 0
  }

  /** The farthest first occurrence of a block, if it is farther than base. */
  function FarthestIn(all: seq<seq<Block>>, base: nat, block: Block): nat {
    if all == [] then base
    else
      var farthest, last := FarthestIn(all[..|all| - 1], base, block), all[|all| - 1];
      if block in last && Index(last, block) > farthest then Index(last, block) else farthest
  }

  /** How many blocks directly follow another one. */
  function Adjacent(blocks: seq<Block>): nat {
    if |blocks| < 2 then 0
    else Adjacent(blocks[..|blocks| - 1]) + if blocks[|blocks| - 1] != EMPTY && blocks[|blocks| - 2] != EMPTY then 1
      else 0
  }

  function AllAdjacent(all: seq<seq<Block>>): nat {
    if all == [] then 0 else AllAdjacent(all[..|all| - 1]) + Adjacent(all[|all| - 1])
  }

  /** after is before with empty blocks inserted. */
  predicate Padded(before: seq<Block>, after: seq<Block>) {
    if after == [] then before == []
    else
      var n := |after| - 1;
      || (before != [] && before[|before| - 1] == after[n] && Padded(before[..|before| - 1], after[..n]))
      || (after[n] == EMPTY && Padded(before, after[..n]))
  }

  ghost predicate AllPadded(before: seq<seq<Block>>, after: seq<seq<Block>>) {
    |before| == |after| && forall k :: 0 <= k < |before| ==> Padded(before[k], after[k])
  }

  lemma {:induction false} PaddedRefl(blocks: seq<Block>)
    ensures Padded(blocks, blocks)
  {
    if blocks != [] {
      PaddedRefl(blocks[..|blocks| - 1]);
    }
  }

  lemma {:induction false} PaddedTrans(a: seq<Block>, b: seq<Block>, c: seq<Block>)
    requires Padded(a, b) && Padded(b, c)
    ensures Padded(a, c)
    decreases |c|
  {
    if c != [] {
      var n := |c| - 1;
      if b != [] && b[|b| - 1] == c[n] && Padded(b[..|b| - 1], c[..n]) {
        if a != [] && a[|a| - 1] == b[|b| - 1] && Padded(a[..|a| - 1], b[..|b| - 1]) {
          PaddedTrans(a[..|a| - 1], b[..|b| - 1], c[..n]);
        } else {
          PaddedTrans(a, b[..|b| - 1], c[..n]);
        }
      } else {
        PaddedTrans(a, b, c[..n]);
      }
    }
  }

  function Insert(blocks: seq<Block>, index: nat): seq<Block>
    requires index <= |blocks|
  {
    blocks[..index] + [EMPTY] + blocks[index..]
  }

  function Pads(n: nat): seq<Block> { seq(n, _ => EMPTY) }

  /** The block at index moves to the farthest index. */
  function Shunted(blocks: seq<Block>, index: nat, farthest: nat): seq<Block>
    requires index <= |blocks| && index <= farthest
  {
    blocks[..index] + Pads(farthest - index) + blocks[index..]
  }

  lemma ShuntedNot(blocks: seq<Block>, index: nat)
    requires index <= |blocks|
    ensures Shunted(blocks, index, index) == blocks
  {
  }

  lemma ShuntedMore(blocks: seq<Block>, start: nat, index: nat)
    requires start <= |blocks| && start <= index
    ensures index <= |Shunted(blocks, start, index)|
    ensures Insert(Shunted(blocks, start, index), index) == Shunted(blocks, start, index + 1)
  {
    assert Pads(index + 1 - start) == Pads(index - start) + [EMPTY];
  }

  lemma {:induction false} InsertPads(blocks: seq<Block>, index: nat)
    requires index <= |blocks|
    ensures Padded(blocks, Insert(blocks, index))
    decreases |blocks|
  {
    var after := Insert(blocks, index);
    var n := |after| - 1;
    if index == |blocks| {
      assert after[..n] == blocks;
      PaddedRefl(blocks);
    } else {
      assert after[..n] == Insert(blocks[..|blocks| - 1], index);
      InsertPads(blocks[..|blocks| - 1], index);
    }
  }

  /** Inserting between two blocks separates them; inserting after an empty one changes nothing. */
  lemma {:induction false} InsertAdjacent(blocks: seq<Block>, index: nat)
    requires 0 < index < |blocks| && blocks[index] != EMPTY
    ensures Adjacent(Insert(blocks, index)) + (if blocks[index - 1] != EMPTY then 1 else 0) == Adjacent(blocks)
    decreases |blocks|
  {
    var after := Insert(blocks, index);
    var n := |after| - 1;
    assert after[..n] == Insert(blocks[..|blocks| - 1], index);
    if index == |blocks| - 1 {
      assert after[..n][..n - 1] == blocks[..index];
      assert Adjacent(after[..n]) == Adjacent(blocks[..index]);
    } else {
      InsertAdjacent(blocks[..|blocks| - 1], index);
    }
  }

  lemma {:induction false} AllAdjacentUpdate(all: seq<seq<Block>>, k: nat, blocks: seq<Block>)
    requires k < |all|
    ensures AllAdjacent(all[k := blocks]) == AllAdjacent(all) - Adjacent(all[k]) + Adjacent(blocks)
  {
    var n := |all| - 1;
    if k == n {
      assert all[k := blocks][..n] == all[..n];
    } else {
      assert all[k := blocks][..n] == all[..n][k := blocks];
      AllAdjacentUpdate(all[..n], k, blocks);
    }
  }

  /** A block that follows another one is not in front of its farthest index. */
  predicate SettledAt(blocks: seq<Block>, farthest: map<Block, nat>, k: nat)
    requires k < |blocks|
  {
    blocks[k] != EMPTY && k > 0 && blocks[k - 1] != EMPTY ==> k >= Farthest(farthest, blocks[k])
  }

  predicate Settled(blocks: seq<Block>, farthest: map<Block, nat>) {
    forall i :: 0 <= i < |blocks| ==> SettledAt(blocks, farthest, i)
  }

  predicate AllSettled(all: seq<seq<Block>>, farthest: map<Block, nat>) {
    forall k :: 0 <= k < |all| ==> Settled(all[k], farthest)
  }

  /** The recorded indexes after an analysis. */
  ghost predicate Recorded(all: seq<seq<Block>>, farthest: map<Block, nat>, farthest': map<Block, nat>) {
    forall b :: Farthest(farthest', b) ==
                if b == EMPTY then Farthest(farthest, b) else FarthestIn(all, Farthest(farthest, b), b)
  }

  /** The first block of all that follows another one and is in front of its farthest index moves there, and
      nothing else. */
  ghost predicate FirstMoves(all: seq<seq<Block>>, farthest: map<Block, nat>, all': seq<seq<Block>>, k: nat, i: nat) {
    && k < |all| && i < |all[k]| && !SettledAt(all[k], farthest, i)
    && AllSettled(all[..k], farthest) && (forall j :: 0 <= j < i ==> SettledAt(all[k], farthest, j))
    && all' == all[k := Shunted(all[k], i, Farthest(farthest, all[k][i]))]
  }

  /** What one pass does. */
  ghost predicate Pass(all: seq<seq<Block>>, farthest: map<Block, nat>, all': seq<seq<Block>>,
                       farthest': map<Block, nat>)
  {
    && Recorded(all, farthest, farthest')
    && if AllSettled(all, farthest') then all' == all else exists k, i :: FirstMoves(all, farthest', all', k, i)
  }

  /** Passes, one after the other; all but the last one change something. */
  ghost predicate Passes(trace: seq<(seq<seq<Block>>, map<Block, nat>)>) {
    && |trace| > 1
    && (forall n :: 0 < n < |trace| ==> Pass(trace[n - 1].0, trace[n - 1].1, trace[n].0, trace[n].1))
    && (forall n :: 0 < n < |trace| ==> (trace[n].0 == trace[n - 1].0 <==> n == |trace| - 1))
  }

  /** No first occurrence is behind the farthest index. */
  ghost predicate Analyzed(blocks: seq<Block>, farthest: map<Block, nat>) {
    forall b :: b in blocks && b != EMPTY ==> Farthest(farthest, b) >= Index(blocks, b)
  }

  /** Some list has its first such block there. */
  ghost predicate FirstAt(all: seq<seq<Block>>, block: Block, index: nat) {
    exists k :: 0 <= k < |all| && block in all[k] && Index(all[k], block) == index
  }

  ghost predicate Farther(farthest: map<Block, nat>, farthest': map<Block, nat>) {
    forall b :: Farthest(farthest', b) >= Farthest(farthest, b)
  }

  lemma AnalyzedFarther(blocks: seq<Block>, farthest: map<Block, nat>, farthest': map<Block, nat>)
    requires Analyzed(blocks, farthest) && Farther(farthest, farthest')
    ensures Analyzed(blocks, farthest')
  {
  }

  /** No recorded index is beyond all first occurrences of its block. */
  ghost predicate Attained(all: seq<seq<Block>>, farthest: map<Block, nat>) {
    forall b :: Farthest(farthest, b) > 0 ==> b != EMPTY && AsFar(all, b, Farthest(farthest, b))
  }

  ghost predicate AsFar(all: seq<seq<Block>>, block: Block, index: nat) {
    exists k :: 0 <= k < |all| && block in all[k] && Index(all[k], block) >= index
  }

  /** The recorded index of each block is the farthest of its first occurrences. */
  ghost predicate Exact(all: seq<seq<Block>>, farthest: map<Block, nat>) {
    forall k, b :: 0 <= k < |all| && b in all[k] && b != EMPTY ==>
      Index(all[k], b) <= Farthest(farthest, b) && FirstAt(all, b, Farthest(farthest, b))
  }

  lemma AnalyzedExact(all: seq<seq<Block>>, farthest: map<Block, nat>)
    requires Attained(all, farthest) && forall k :: 0 <= k < |all| ==> Analyzed(all[k], farthest)
    ensures Exact(all, farthest)
  {
    hide Farthest, Index;
    forall k, b | 0 <= k < |all| && b in all[k] && b != EMPTY
      ensures Index(all[k], b) <= Farthest(farthest, b) && FirstAt(all, b, Farthest(farthest, b))
    {
      if Farthest(farthest, b) > 0 {
        assert AsFar(all, b, Farthest(farthest, b));
        var j :| 0 <= j < |all| && b in all[j] && Index(all[j], b) >= Farthest(farthest, b);
        assert Analyzed(all[j], farthest);
      } else {
        assert Analyzed(all[k], farthest);
      }
    }
  }

  /** Padding moves no block to the front. */
  lemma {:induction false} PaddedIndex(before: seq<Block>, after: seq<Block>, b: Block)
    requires Padded(before, after) && b != EMPTY
    ensures |before| <= |after| && (b in before <==> b in after)
    ensures b in before ==> Index(after, b) >= Index(before, b)
    decreases |after|
  {
    if after != [] {
      var n := |after| - 1;
      if before != [] && before[|before| - 1] == after[n] && Padded(before[..|before| - 1], after[..n]) {
        PaddedIndex(before[..|before| - 1], after[..n], b);
        IndexOfFront(before, b);
      } else {
        PaddedIndex(before, after[..n], b);
      }
      IndexOfFront(after, b);
    }
  }

  lemma IndexOfFront(blocks: seq<Block>, b: Block)
    requires blocks != []
    ensures var front := blocks[..|blocks| - 1];
            && (b in blocks <==> b in front || b == blocks[|blocks| - 1])
            && (b in front ==> Index(blocks, b) == Index(front, b))
            && (b in blocks && b !in front ==> Index(blocks, b) == |blocks| - 1)
  {
    hide Index;
    var front := blocks[..|blocks| - 1];
    assert blocks == front + [blocks[|blocks| - 1]];
    if b in blocks {
      var k := Index(blocks, b);
      assert k < |front| ==> front[k] == b;
      if b in front {
        assert blocks[Index(front, b)] == b;
      }
    }
  }

  lemma {:induction false} AttainedPadded(before: seq<seq<Block>>, after: seq<seq<Block>>, farthest: map<Block, nat>)
    requires AllPadded(before, after) && Attained(before, farthest)
    ensures Attained(after, farthest)
  {
    hide Farthest, Index, Padded;
    forall b | Farthest(farthest, b) > 0
      ensures AsFar(after, b, Farthest(farthest, b))
    {
      assert AsFar(before, b, Farthest(farthest, b));
      var k :| 0 <= k < |before| && b in before[k] && Index(before[k], b) >= Farthest(farthest, b);
      PaddedIndex(before[k], after[k], b);
    }
  }

  lemma AttainedMore(all: seq<seq<Block>>, blocks: seq<Block>, farthest: map<Block, nat>)
    requires Attained(all, farthest)
    ensures Attained(all + [blocks], farthest)
  {
    hide Farthest, Index;
    forall b | Farthest(farthest, b) > 0
      ensures AsFar(all + [blocks], b, Farthest(farthest, b))
    {
      assert AsFar(all, b, Farthest(farthest, b));
      var k :| 0 <= k < |all| && b in all[k] && Index(all[k], b) >= Farthest(farthest, b);
      assert (all + [blocks])[k] == all[k];
    }
  }

  lemma AttainedAt(all: seq<seq<Block>>, k: nat, farthest: map<Block, nat>, farthest': map<Block, nat>)
    requires k < |all| && Attained(all, farthest)
    requires forall b :: Farthest(farthest', b) != Farthest(farthest, b) ==>
               b in all[k] && b != EMPTY && Farthest(farthest', b) == Index(all[k], b)
    ensures Attained(all, farthest')
  {
    hide Farthest, Index;
    forall b | Farthest(farthest', b) > 0
      ensures b != EMPTY && AsFar(all, b, Farthest(farthest', b))
    {
      assert Farthest(farthest', b) == Farthest(farthest, b) || Farthest(farthest', b) == Index(all[k], b);
    }
  }

  class Aligner {
    var allBlocks: seq<seq<Block>>
    var farthestIndexes: map<Block, nat>

    /** No recorded index is beyond all first occurrences of its block. */
    ghost predicate Valid()
      reads this
    {
      Attained(allBlocks, farthestIndexes)
    }

    constructor ()
      ensures Valid()
      ensures allBlocks == [] && farthestIndexes == map[]
    {
      allBlocks, farthestIndexes := [], map[];
    }

    /** Records the farthest first occurrence of each block. */
    method Analyze()
      requires Valid()
      modifies `farthestIndexes
      ensures Valid()
      ensures forall k :: 0 <= k < |allBlocks| ==> Analyzed(allBlocks[k], farthestIndexes)
      ensures Farther(old(farthestIndexes), farthestIndexes)
      ensures forall b :: Farthest(farthestIndexes, b) != Farthest(old(farthestIndexes), b) ==>
                FirstAt(allBlocks, b, Farthest(farthestIndexes, b))
      ensures Recorded(allBlocks, old(farthestIndexes), farthestIndexes)
    {
      hide Analyzed, Recorded;
      NoneRecorded(farthestIndexes);
      assert allBlocks[..0] == [];
      for k := 0 to |allBlocks|
        invariant Valid() && Recorded(allBlocks[..k], old(farthestIndexes), farthestIndexes)
        invariant forall j :: 0 <= j < k ==> Analyzed(allBlocks[j], farthestIndexes)
        invariant Farther(old(farthestIndexes), farthestIndexes)
        invariant forall b :: Farthest(farthestIndexes, b) != Farthest(old(farthestIndexes), b) ==>
                    FirstAt(allBlocks, b, Farthest(farthestIndexes, b))
      {
        ghost var was := farthestIndexes;
        AnalyzeList(allBlocks[k]);
        AttainedAt(allBlocks, k, was, farthestIndexes);
        assert allBlocks[..k + 1] == allBlocks[..k] + [allBlocks[k]];
        OneRecorded(allBlocks[..k], allBlocks[k], old(farthestIndexes), was, farthestIndexes);
        forall j | 0 <= j < k
          ensures Analyzed(allBlocks[j], farthestIndexes)
        {
          AnalyzedFarther(allBlocks[j], was, farthestIndexes);
        }
      }
      assert allBlocks[..|allBlocks|] == allBlocks;
    }

    method AnalyzeList(blocks: seq<Block>)
      modifies `farthestIndexes
      ensures Analyzed(blocks, farthestIndexes) && Farther(old(farthestIndexes), farthestIndexes)
      ensures forall b :: Farthest(farthestIndexes, b) != Farthest(old(farthestIndexes), b) ==>
                b in blocks && b != EMPTY && Farthest(farthestIndexes, b) == Index(blocks, b)
    {
      hide Farthest, Index;
      for i := 0 to |blocks|
        invariant forall j :: 0 <= j < i && blocks[j] != EMPTY ==>
                    Farthest(farthestIndexes, blocks[j]) >= Index(blocks, blocks[j])
        invariant Farther(old(farthestIndexes), farthestIndexes)
        invariant forall b :: Farthest(farthestIndexes, b) != Farthest(old(farthestIndexes), b) ==>
                    b in blocks && b != EMPTY && Farthest(farthestIndexes, b) == Index(blocks, b)
      {
        var block := blocks[i];
        if block == EMPTY {
          continue;
        }
        AnalyzeBlock(block, Index(blocks, block));
      }
    }

    /** Records an occurrence of a block. */
    method AnalyzeBlock(block: Block, index: nat)
      modifies `farthestIndexes
      ensures forall b :: Farthest(farthestIndexes, b)
                       == if b == block && index > Farthest(old(farthestIndexes), b) then index
                         else Farthest(old(farthestIndexes), b)
    {
      if index > Farthest(farthestIndexes, block) {
        farthestIndexes := farthestIndexes[block := index];
      }
    }

    /** One pass of alignment. */
    method AlignMatchingBlocks() returns (changed: bool)
      requires Valid()
      modifies this
      ensures Valid()
      ensures Pass(old(allBlocks), old(farthestIndexes), allBlocks, farthestIndexes)
      ensures changed <==> !AllSettled(old(allBlocks), farthestIndexes)
      ensures changed <==> allBlocks != old(allBlocks)
      ensures AllPadded(old(allBlocks), allBlocks)
      ensures changed ==> AllAdjacent(allBlocks) < AllAdjacent(old(allBlocks))
      ensures !changed ==> allBlocks == old(allBlocks)
      ensures !changed ==> forall k :: 0 <= k < |allBlocks| ==>
                Analyzed(allBlocks[k], farthestIndexes)
                && forall i :: 0 <= i < |allBlocks[k]| ==> SettledAt(allBlocks[k], farthestIndexes, i)
    {
      hide Recorded, Padded, Analyzed, Farthest, Shunted, Adjacent, AllAdjacent, Attained, Pass, FirstMoves;
      forall blocks ensures Padded(blocks, blocks) { PaddedRefl(blocks); }
      Analyze();
      for k := 0 to |allBlocks|
        invariant allBlocks == old(allBlocks) && Valid() && Recorded(allBlocks, old(farthestIndexes), farthestIndexes)
        invariant forall j :: 0 <= j < |allBlocks| ==> Analyzed(allBlocks[j], farthestIndexes)
        invariant forall j :: 0 <= j < k ==> Settled(allBlocks[j], farthestIndexes)
      {
        var blocks := allBlocks[k];
        for index := 0 to |blocks|
          invariant allBlocks == old(allBlocks) && blocks == allBlocks[k] && Valid()
          invariant Recorded(allBlocks, old(farthestIndexes), farthestIndexes)
          invariant forall i :: 0 <= i < index ==> SettledAt(blocks, farthestIndexes, i)
        {
          var block := blocks[index];
          if block != EMPTY && index > 0 && blocks[index - 1] != EMPTY && index < Farthest(farthestIndexes, block) {
            assert !SettledAt(allBlocks[k], farthestIndexes, index);
            blocks := Shunt(blocks, index, Farthest(farthestIndexes, block));
            AllAdjacentUpdate(allBlocks, k, blocks);
            allBlocks := allBlocks[k := blocks];
            AttainedPadded(old(allBlocks), allBlocks, farthestIndexes);
            MovesAt(old(allBlocks), old(farthestIndexes), allBlocks, farthestIndexes, k, index);
            return true;
          }
        }
      }
      MovesNothing(allBlocks, old(farthestIndexes), farthestIndexes);
      return false;
    }

    /** Inserts empty blocks until the block at index is at the farthest index. */
    method Shunt(before: seq<Block>, start: nat, farthest: nat) returns (blocks: seq<Block>)
      requires 0 < start < |before| && before[start] != EMPTY && before[start - 1] != EMPTY && start < farthest
      ensures Padded(before, blocks) && Adjacent(blocks) < Adjacent(before)
      ensures blocks == Shunted(before, start, farthest)
      ensures farthest < |blocks| && blocks[farthest] == before[start]
    {
      hide Padded, Adjacent, Shunted;
      blocks := before;
      var index := start;
      PaddedRefl(before);
      ShuntedNot(before, start);
      while index < farthest
        invariant start <= index <= farthest && index < |blocks| && blocks[index] == before[start]
        invariant Padded(before, blocks) && blocks == Shunted(before, start, index)
        invariant if index == start then blocks == before
                  else blocks[index - 1] == EMPTY && Adjacent(blocks) + 1 == Adjacent(before)
      {
        InsertPads(blocks, index);
        InsertAdjacent(blocks, index);
        PaddedTrans(before, blocks, Insert(blocks, index));
        ShuntedMore(before, start, index);
        blocks := blocks[..index] + [EMPTY] + blocks[index..];
        index := index + 1;
      }
    }

    /** Adds the blocks of another run, and aligns until nothing changes: then every first occurrence that
        follows another block is exactly at the farthest index of its block, which is that of a first
        occurrence in some list, and of none beyond. */
    method AddBlocks(blocks: seq<Block>)
      returns (ghost trace: seq<(seq<seq<Block>>, map<Block, nat>)>)
      requires Valid()
      modifies this
      ensures Valid() && Exact(allBlocks, farthestIndexes)
      ensures AllPadded(old(allBlocks) + [blocks], allBlocks)
      ensures forall k :: 0 <= k < |allBlocks| ==> Aligned(allBlocks[k], farthestIndexes)
      ensures Passes(trace) && trace[0] == (old(allBlocks) + [blocks], old(farthestIndexes))
      ensures trace[|trace| - 1] == (allBlocks, farthestIndexes)
      ensures NoneInFront(old(allBlocks) + [blocks], old(farthestIndexes)) <==> allBlocks == old(allBlocks) + [blocks]
      ensures old(allBlocks) == [] && old(farthestIndexes) == map[] ==> allBlocks == [blocks]
    {
      hide Aligned, Analyzed, Exact, Pass, Farthest, Padded, AllPadded, NoneInFront, AllAdjacent, AllSettled, Attained,
           SettledAt;
      AttainedMore(allBlocks, blocks, farthestIndexes);
      allBlocks := allBlocks + [blocks];
      trace := [(allBlocks, farthestIndexes)];
      AllPaddedRefl(allBlocks);
      var madeChanges := true;
      while madeChanges
        invariant AllPadded(old(allBlocks) + [blocks], allBlocks)
        invariant Valid() && (!madeChanges ==> Exact(allBlocks, farthestIndexes))
        invariant !madeChanges ==> forall k :: 0 <= k < |allBlocks| ==> Aligned(allBlocks[k], farthestIndexes)
        invariant Chain(trace, madeChanges) && trace[0] == (old(allBlocks) + [blocks], old(farthestIndexes))
        invariant trace[|trace| - 1] == (allBlocks, farthestIndexes) && (madeChanges || |trace| > 1)
        invariant |trace| > 1 ==>
                    if NoneInFront(trace[0].0, trace[0].1) then allBlocks == trace[0].0 && !madeChanges
                    else AllAdjacent(allBlocks) < AllAdjacent(trace[0].0)
        decreases AllAdjacent(allBlocks), madeChanges
      {
        ghost var was, before := allBlocks, farthestIndexes;
        madeChanges := AlignMatchingBlocks();
        AllPaddedTrans(old(allBlocks) + [blocks], was, allBlocks);
        InFrontIffUnsettled(was, before, allBlocks, farthestIndexes);
        ChainNext(trace, allBlocks, farthestIndexes, madeChanges);
        trace := trace + [(allBlocks, farthestIndexes)];
        if !madeChanges {
          AnalyzedExact(allBlocks, farthestIndexes);
          forall k | 0 <= k < |allBlocks|
            ensures Aligned(allBlocks[k], farthestIndexes)
          {
            SettledAligned(allBlocks[k], farthestIndexes);
          }
        }
      }
      if old(allBlocks) == [] && old(farthestIndexes) == map[] {
        assert [] + [blocks] == [blocks];
        FirstListStays(blocks);
      }
    }
  }

  // ----- what is moved, and what is not -----

  lemma MovesNothing(all: seq<seq<Block>>, farthest: map<Block, nat>, farthest': map<Block, nat>)
    requires Recorded(all, farthest, farthest') && AllSettled(all, farthest')
    ensures Pass(all, farthest, all, farthest')
  {
  }

  lemma MovesAt(all: seq<seq<Block>>, farthest: map<Block, nat>, all': seq<seq<Block>>, farthest': map<Block, nat>,
                k: nat, i: nat)
    requires k < |all| && i < |all[k]| && !SettledAt(all[k], farthest', i) && Recorded(all, farthest, farthest')
    requires forall j :: 0 <= j < k ==> Settled(all[j], farthest')
    requires forall j :: 0 <= j < i ==> SettledAt(all[k], farthest', j)
    requires all' == all[k := Shunted(all[k], i, Farthest(farthest', all[k][i]))]
    ensures Pass(all, farthest, all', farthest') && !AllSettled(all, farthest')
  {
    hide Recorded, Shunted, SettledAt;
    assert !Settled(all[k], farthest');
    assert FirstMoves(all, farthest', all', k, i);
  }

  lemma NoneRecorded(farthest: map<Block, nat>)
    ensures Recorded([], farthest, farthest)
  {
  }

  lemma {:induction false} OneRecorded(all: seq<seq<Block>>, blocks: seq<Block>, farthest: map<Block, nat>,
                                       farthest1: map<Block, nat>, farthest2: map<Block, nat>)
    requires Recorded(all, farthest, farthest1) && Analyzed(blocks, farthest2) && Farther(farthest1, farthest2)
    requires forall b :: Farthest(farthest2, b) != Farthest(farthest1, b) ==>
               b in blocks && b != EMPTY && Farthest(farthest2, b) == Index(blocks, b)
    ensures Recorded(all + [blocks], farthest, farthest2)
  {
    hide Farthest, Index;
    assert (all + [blocks])[..|all|] == all;
  }

  /** No block that follows another one is in front of the farthest first occurrence of its kind, or of the
      index that was recorded for it. */
  ghost predicate NoneInFront(all: seq<seq<Block>>, farthest: map<Block, nat>) {
    forall k, i :: 0 <= k < |all| && 0 < i < |all[k]| && all[k][i] != EMPTY && all[k][i - 1] != EMPTY ==>
      i >= FarthestIn(all, Farthest(farthest, all[k][i]), all[k][i])
  }

  lemma {:induction false} InFrontIffUnsettled(all: seq<seq<Block>>, farthest: map<Block, nat>, all': seq<seq<Block>>,
                                               farthest': map<Block, nat>)
    requires Pass(all, farthest, all', farthest')
    ensures NoneInFront(all, farthest) <==> AllSettled(all, farthest')
  {
    hide Farthest, FarthestIn;
    if AllSettled(all, farthest') {
      forall k, i | 0 <= k < |all| && 0 < i < |all[k]| && all[k][i] != EMPTY && all[k][i - 1] != EMPTY
        ensures i >= FarthestIn(all, Farthest(farthest, all[k][i]), all[k][i])
      {
        assert Settled(all[k], farthest') && SettledAt(all[k], farthest', i);
      }
    }
  }

  ghost predicate Chain(trace: seq<(seq<seq<Block>>, map<Block, nat>)>, madeChanges: bool) {
    && trace != []
    && (forall n :: 0 < n < |trace| ==> Pass(trace[n - 1].0, trace[n - 1].1, trace[n].0, trace[n].1))
    && (forall n :: 0 < n < |trace| ==> (trace[n].0 == trace[n - 1].0 <==> n == |trace| - 1 && !madeChanges))
  }

  lemma ChainNext(trace: seq<(seq<seq<Block>>, map<Block, nat>)>, all: seq<seq<Block>>, farthest: map<Block, nat>,
                  madeChanges: bool)
    requires Chain(trace, true)
    requires var last := trace[|trace| - 1];
             Pass(last.0, last.1, all, farthest) && (madeChanges <==> all != last.0)
    ensures Chain(trace + [(all, farthest)], madeChanges)
  {
    hide Pass;
  }

  /** The first list has nothing to be aligned with. */
  lemma {:induction false} FirstListStays(blocks: seq<Block>)
    ensures NoneInFront([blocks], map[])
  {
    assert [blocks][..0] == [];
    forall i | 0 < i < |blocks|
      ensures i >= FarthestIn([blocks], 0, blocks[i])
    {
      assert blocks[i] in blocks;
    }
  }

  /** What follows another block and is the first of its kind is at its farthest index. */
  ghost predicate Aligned(blocks: seq<Block>, farthest: map<Block, nat>) {
    forall k: nat ::
        0 < k < |blocks| && blocks[k] != EMPTY && blocks[k - 1] != EMPTY && Index(blocks, blocks[k]) == k ==>
      Farthest(farthest, blocks[k]) == k
  }

  lemma SettledAligned(blocks: seq<Block>, farthest: map<Block, nat>)
    requires Analyzed(blocks, farthest) && forall i :: 0 <= i < |blocks| ==> SettledAt(blocks, farthest, i)
    ensures Aligned(blocks, farthest)
  {
    forall k: nat | 0 < k < |blocks| && blocks[k] != EMPTY && blocks[k - 1] != EMPTY && Index(blocks, blocks[k]) == k
      ensures Farthest(farthest, blocks[k]) == k
    {
      assert SettledAt(blocks, farthest, k) && blocks[k] in blocks;
    }
  }

  lemma AllPaddedRefl(all: seq<seq<Block>>)
    ensures AllPadded(all, all)
  {
    forall k | 0 <= k < |all|
      ensures Padded(all[k], all[k])
    {
      PaddedRefl(all[k]);
    }
  }

  lemma {:induction false} AllPaddedTrans(a: seq<seq<Block>>, b: seq<seq<Block>>, c: seq<seq<Block>>)
    requires AllPadded(a, b) && AllPadded(b, c)
    ensures AllPadded(a, c)
  {
    forall k | 0 <= k < |a|
      ensures Padded(a[k], c[k])
    {
      PaddedTrans(a[k], b[k], c[k]);
    }
  }

  /** Padding leaves the blocks and their order alone. */
  function Squeeze(blocks: seq<Block>): seq<Block> {
    if blocks == [] then []
    else Squeeze(blocks[..|blocks| - 1]) + if blocks[|blocks| - 1] == EMPTY then [] else [blocks[|blocks| - 1]]
  }

  lemma {:induction false} PaddedSqueeze(before: seq<Block>, after: seq<Block>)
    requires Padded(before, after)
    ensures Squeeze(before) == Squeeze(after) && |before| <= |after|
    decreases |after|
  {
    if after != [] {
      var n := |after| - 1;
      if before != [] && before[|before| - 1] == after[n] && Padded(before[..|before| - 1], after[..n]) {
        PaddedSqueeze(before[..|before| - 1], after[..n]);
      } else {
        PaddedSqueeze(before, after[..n]);
      }
    }
  }
}
