/** Choosing where to resume after a fork signal: what the buffer's walk over the signalled refs
    answers, what the reference model asks for, and exactly when the two agree. */
module Forks {
  import opened Types
  import opened Window

  /** The length of the longest prefix of `prev` that ends in a ref at or below `number`: what is
      left of the list once the refs above `number` have been popped off its end. */
  function KeptAt(prev: seq<BlockRef>, number: nat): (k: nat)
    ensures k <= |prev|
    ensures forall i :: k <= i < |prev| ==> prev[i].number > number
    ensures k > 0 ==> prev[k - 1].number <= number
  {
    if prev == [] || prev[|prev| - 1].number <= number then |prev|
    else KeptAt(prev[..|prev| - 1], number)
  }

  /** The walk stops at `b`: no ref at or below its height is left, or the last one is `b` itself. */
  predicate StopsAt(prev: seq<BlockRef>, b: Block) {
    var k := KeptAt(prev, b.number);
    k == 0 || prev[k - 1] == b.Ref()
  }

  /** A resume point of the reference model: a signalled block, or one below every signalled ref. */
  predicate Resumable(prev: seq<BlockRef>, b: Block) {
    b.Ref() in prev || forall i :: 0 <= i < |prev| ==> b.number < prev[i].number
  }

  /** The highest index from `fin` up whose block satisfies `p`, or None. */
  function Highest(blocks: seq<Block>, fin: nat, p: Block -> bool): (r: Option<nat>)
    ensures r.Some? ==> fin <= r.value < |blocks| && p(blocks[r.value])
    ensures r.Some? ==> forall j :: r.value < j < |blocks| ==> !p(blocks[j])
    ensures r.None? ==> forall j :: fin <= j < |blocks| ==> !p(blocks[j])
  {
    if |blocks| <= fin then None
    else if p(blocks[|blocks| - 1]) then Some(|blocks| - 1)
    else Highest(blocks[..|blocks| - 1], fin, p)
  }

  lemma {:induction false} HighestIs(blocks: seq<Block>, fin: nat, p: Block -> bool, i: nat)
    requires i < |blocks| && (forall j :: i < j < |blocks| ==> !p(blocks[j]))
    ensures fin <= i && p(blocks[i]) ==> Highest(blocks, fin, p) == Some(i)
    ensures i < fin ==> Highest(blocks, fin, p) == None
  {
    var h := Highest(blocks, fin, p);
    if h.Some? && h.value < i && fin <= i {
      assert !p(blocks[i]);
    }
  }

  function RefAt(b: Buffer, i: Option<nat>): Option<BlockRef>
    requires i.Some? ==> i.value < |b.blocks|
  {
    if i.Some? then Some(b.blocks[i.value].Ref()) else None
  }

  /** The base the buffer rebases to: the newest block at or above finality the walk stops at. */
  function ForkBase(b: Buffer, prev: seq<BlockRef>): Option<BlockRef> {
    RefAt(b, Highest(b.blocks, b.fin, x => StopsAt(prev, x)))
  }

  /** The walk's answer, read off where it stops. */
  lemma ForkBaseIs(b: Buffer, prev: seq<BlockRef>, i: nat)
    requires i < |b.blocks| && forall j :: i < j < |b.blocks| ==> !StopsAt(prev, b.blocks[j])
    ensures b.fin <= i && StopsAt(prev, b.blocks[i]) ==> ForkBase(b, prev) == Some(b.blocks[i].Ref())
    ensures i < b.fin ==> ForkBase(b, prev) == None
  {
    HighestIs(b.blocks, b.fin, x => StopsAt(prev, x), i);
  }

  /** The base the reference model rebases to. */
  function ForkTarget(b: Buffer, prev: seq<BlockRef>): Option<BlockRef> {
    RefAt(b, Highest(b.blocks, b.fin, x => Resumable(prev, x)))
  }

  /** The conditions on a kept length determine it. */
  lemma KeptIs(prev: seq<BlockRef>, number: nat, k: nat)
    requires k <= |prev|
    requires forall i :: k <= i < |prev| ==> prev[i].number > number
    requires k > 0 ==> prev[k - 1].number <= number
    ensures KeptAt(prev, number) == k
  {
  }

  /** The `i`-th signalled ref is the last one at or below its own height. */
  predicate LastAtItsHeight(prev: seq<BlockRef>, i: nat)
    requires i < |prev|
  {
    var k := KeptAt(prev, prev[i].number);
    k > 0 && prev[k - 1] == prev[i]
  }

  /** Each signalled ref is the last one at or below its own height. */
  predicate Settled(prev: seq<BlockRef>) {
    forall i :: 0 <= i < |prev| ==> LastAtItsHeight(prev, i)
  }

  ghost predicate StrictlyAscending(prev: seq<BlockRef>) {
    forall i, j :: 0 <= i < j < |prev| ==> prev[i].number < prev[j].number
  }

  lemma AscendingIsSettled(prev: seq<BlockRef>)
    requires StrictlyAscending(prev)
    ensures Settled(prev)
  {
    forall i | 0 <= i < |prev|
      ensures LastAtItsHeight(prev, i)
    {
      var k := KeptAt(prev, prev[i].number);
      assert i < k;
    }
  }

  lemma SettledStops(prev: seq<BlockRef>, b: Block, i: nat)
    requires Settled(prev) && i < |prev| && prev[i] == b.Ref()
    ensures StopsAt(prev, b)
  {
    assert LastAtItsHeight(prev, i) && prev[i].number == b.number;
  }

  /** The walk never stops where the model would not; on a settled list it stops wherever the
      model would. */
  lemma StopsAreResumable(prev: seq<BlockRef>, b: Block)
    requires prev != []
    ensures StopsAt(prev, b) ==> Resumable(prev, b)
    ensures Settled(prev) ==> (StopsAt(prev, b) <==> Resumable(prev, b))
  {
    if b.Ref() in prev {
      var i :| 0 <= i < |prev| && prev[i] == b.Ref();
      if Settled(prev) {
        SettledStops(prev, b, i);
      }
    }
  }

  /** Two tests that agree block by block find the same index. */
  lemma {:induction false} HighestAgrees(blocks: seq<Block>, fin: nat, p: Block -> bool, q: Block -> bool)
    requires forall x: Block :: p(x) <==> q(x)
    ensures Highest(blocks, fin, p) == Highest(blocks, fin, q)
  {
    if |blocks| > fin && !p(blocks[|blocks| - 1]) {
      HighestAgrees(blocks[..|blocks| - 1], fin, p, q);
    }
  }

  lemma SettledSignalsAgree(b: Buffer, prev: seq<BlockRef>)
    requires prev != [] && Settled(prev)
    ensures ForkBase(b, prev) == ForkTarget(b, prev)
  {
    forall x: Block
      ensures StopsAt(prev, x) <==> Resumable(prev, x)
    {
      StopsAreResumable(prev, x);
    }
    HighestAgrees(b.blocks, b.fin, x => StopsAt(prev, x), x => Resumable(prev, x));
  }

  /** Strictly ascending fork signals rebase where the reference model says. */
  lemma AscendingSignalsAgree(b: Buffer, prev: seq<BlockRef>)
    requires prev != [] && StrictlyAscending(prev)
    ensures ForkBase(b, prev) == ForkTarget(b, prev)
  {
    AscendingIsSettled(prev);
    SettledSignalsAgree(b, prev);
  }

  const SOME_HASH := "p"

  lemma SomeHashIsUsable()
    ensures UsableHash(SOME_HASH)
  {
  }

  lemma OneBlockDiverges(prev: seq<BlockRef>, i: nat, b: Buffer)
    requires i < |prev| && !LastAtItsHeight(prev, i)
    requires b == Buffer([Block(prev[i].number, prev[i].hash, 0, SOME_HASH)], 0)
    ensures b.Valid() && ForkBase(b, prev) == None && ForkTarget(b, prev).Some?
  {
    var x := b.blocks[0];
    assert x.Ref() == prev[i];
    assert !StopsAt(prev, x) && Resumable(prev, x);
    assert b.blocks[|b.blocks| - 1] == x;
  }

  /** On a list that is not settled, a one-block buffer tells the two apart: the model resumes
      at the block, the walk runs off the end, and the service would end its run. Its block is one
      the signal names, under a parent that a batch may name. */
  lemma UnsettledSignalsDiverge(prev: seq<BlockRef>) returns (b: Buffer)
    requires !Settled(prev)
    ensures |b.blocks| == 1 && b.blocks[0].Ref() in prev && UsableHash(b.blocks[0].parentHash)
    ensures b.Valid() && ForkBase(b, prev) == None && ForkTarget(b, prev).Some?
  {
    hide UsableHash, ForkBase, ForkTarget, KeptAt;
    var i :| 0 <= i < |prev| && !LastAtItsHeight(prev, i);
    SomeHashIsUsable();
    b := Buffer([Block(prev[i].number, prev[i].hash, 0, SOME_HASH)], 0);
    OneBlockDiverges(prev, i, b);
    assert b.blocks[0].Ref() == prev[i];
  }

  /** The service rebases as the model does on every buffer, exactly for settled signals. */
  lemma ForkBaseIsForkTargetIffSettled(prev: seq<BlockRef>)
    requires prev != []
    ensures (forall b: Buffer :: b.Valid() ==> ForkBase(b, prev) == ForkTarget(b, prev)) <==> Settled(prev)
  {
    if Settled(prev) {
      forall b: Buffer
        ensures ForkBase(b, prev) == ForkTarget(b, prev)
      {
        SettledSignalsAgree(b, prev);
      }
    } else {
      var b := UnsettledSignalsDiverge(prev);
    }
  }
}
