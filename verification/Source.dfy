/** The adapter's continuity gate: it cuts the acquired stream at the first block whose parent
    hash breaks the chain, and reports the break as a one-ref fork signal. */
module Source {
  import opened Sequences
  import opened Types
  import opened Window

  /** What acquisition yields: a batch of blocks, or a fault that ends the stream. */
  datatype IngestItem = Ingested(batch: Batch) | Faulted

  function Below(number: Height): Height {
    if number == 0 then 0 else number - 1
  }

  function BlocksOf(item: IngestItem): seq<Block> {
    if item.Ingested? then item.batch.blocks else []
  }

  function ArrivedIn(item: StreamItem): seq<Block> {
    if item.Arrived? then item.batch.blocks else []
  }

  /** All blocks acquired, in order. */
  function Acquired(stream: seq<IngestItem>): seq<Block> {
    if stream == [] then [] else Acquired(stream[..|stream| - 1]) + BlocksOf(stream[|stream| - 1])
  }

  /** All blocks passed on, in order. */
  function Delivered(items: seq<StreamItem>): seq<Block> {
    if items == [] then [] else Delivered(items[..|items| - 1]) + ArrivedIn(items[|items| - 1])
  }

  lemma DeliveredOneMore(items: seq<StreamItem>, item: StreamItem)
    ensures Delivered(items + [item]) == Delivered(items) + ArrivedIn(item)
  {
    assert (items + [item])[..|items|] == items;
  }

  lemma {:induction false} AcquiredGrows(stream: seq<IngestItem>, n: nat)
    requires n <= |stream|
    ensures Acquired(stream[..n]) <= Acquired(stream)
  {
    if n < |stream| {
      var front := stream[..|stream| - 1];
      assert front[..n] == stream[..n];
      AcquiredGrows(front, n);
    } else {
      assert stream[..n] == stream;
    }
  }

  /** The hash the next block must name as its parent. */
  function Expected(parentHash: Option<string>, blocks: seq<Block>): Option<string> {
    if blocks == [] then parentHash else Some(blocks[|blocks| - 1].hash)
  }

  predicate Breaks(expected: Option<string>, x: Block) {
    expected.Some? && expected.value != x.parentHash
  }

  /** Every block names the one before it, and the first names `parentHash` when given. */
  ghost predicate HashLinked(parentHash: Option<string>, blocks: seq<Block>) {
    && (blocks != [] ==> !Breaks(parentHash, blocks[0]))
    && forall i, j :: 0 <= i < |blocks| && 0 <= j < |blocks| && j == i + 1 ==> blocks[i].hash == blocks[j].parentHash
  }

  /** The gate's fork signal for the block it stops at. */
  function ForkSignal(x: Block): seq<BlockRef> {
    [BlockRef(Below(x.number), x.parentHash)]
  }

  /** The number of leading blocks that follow on from `expected`. */
  method LinkedPrefix(expected: Option<string>, blocks: seq<Block>) returns (n: nat)
    ensures n <= |blocks| && HashLinked(expected, blocks[..n])
    ensures n < |blocks| ==> Breaks(Expected(expected, blocks[..n]), blocks[n])
  {
    var next := expected;
    n := 0;
    while n < |blocks| && !Breaks(next, blocks[n])
      invariant n <= |blocks| && HashLinked(expected, blocks[..n])
      invariant next == Expected(expected, blocks[..n])
    {
      HashLinkedAppend(expected, blocks[..n], [blocks[n]]);
      assert blocks[..n + 1] == blocks[..n] + [blocks[n]];
      next := Some(blocks[n].hash);
      n := n + 1;
    }
  }

  lemma HashLinkedAppend(parentHash: Option<string>, blocks: seq<Block>, more: seq<Block>)
    requires HashLinked(parentHash, blocks) && HashLinked(Expected(parentHash, blocks), more)
    ensures HashLinked(parentHash, blocks + more)
    ensures Expected(parentHash, blocks + more) == Expected(Expected(parentHash, blocks), more)
  {
    var all := blocks + more;
    forall i | 0 <= i < |all| - 1
      ensures all[i].hash == all[i + 1].parentHash
    {
      if i == |blocks| - 1 {
        assert all[i + 1] == more[0];
      } else if i >= |blocks| {
        assert all[i] == more[i - |blocks|] && all[i + 1] == more[i + 1 - |blocks|];
      }
    }
  }

  lemma {:induction false} DeliveredConcat(a: seq<StreamItem>, b: seq<StreamItem>)
    ensures Delivered(a + b) == Delivered(a) + Delivered(b)
  {
    if b == [] {
      assert a + b == a;
    } else {
      var front, last := b[..|b| - 1], b[|b| - 1];
      DeliveredConcat(a, front);
      ConcatFront(a, b);
    }
  }

  /** Every item but possibly the last carries a non-empty batch. */
  ghost predicate BatchesThenEnd(items: seq<StreamItem>) {
    && (forall k :: 0 <= k < |items| && items[k].Arrived? ==> items[k].batch.blocks != [])
    && (forall k :: 0 <= k < |items| - 1 ==> items[k].Arrived?)
  }

  ghost predicate StillOpen(items: seq<StreamItem>) {
    forall k :: 0 <= k < |items| ==> items[k].Arrived? && items[k].batch.blocks != []
  }

  /** So far the gate has let everything acquired through, as a linked chain. */
  ghost predicate PassedAll(parentHash: Option<string>, acquired: seq<Block>, out: seq<StreamItem>) {
    HashLinked(parentHash, Delivered(out)) && Delivered(out) == acquired && StillOpen(out)
  }

  /** The gate cut the stream: what came out is a linked proper prefix of what was acquired, then
      a fork signal naming the first block that does not follow on. */
  ghost predicate CutAtBreak(parentHash: Option<string>, acquired: seq<Block>, out: seq<StreamItem>) {
    var n := |Delivered(out)|;
    && HashLinked(parentHash, Delivered(out)) && n < |acquired| && Delivered(out) == acquired[..n]
    && BatchesThenEnd(out)
    && Breaks(Expected(parentHash, Delivered(out)), acquired[n])
    && out != [] && out[|out| - 1] == Forked(ForkSignal(acquired[n]))
  }

  lemma CutNow(expected: Option<string>, blocks: seq<Block>, n: nat, items: seq<StreamItem>)
    requires n < |blocks| && Delivered(items) == blocks[..n] && StillOpen(items)
    requires HashLinked(expected, blocks[..n]) && Breaks(Expected(expected, blocks[..n]), blocks[n])
    ensures CutAtBreak(expected, blocks, items + [Forked(ForkSignal(blocks[n]))])
    ensures |Delivered(items + [Forked(ForkSignal(blocks[n]))])| == n
  {
    var fork := Forked(ForkSignal(blocks[n]));
    DeliveredOneMore(items, fork);
    SnocFront(items, fork);
    assert Delivered(items + [fork]) == blocks[..n];
  }

  /** The first `n` blocks of a batch go on under the batch's own report; none are no batch. */
  function Forwarded(batch: Batch, n: nat): seq<StreamItem>
    requires n <= |batch.blocks|
  {
    if n == 0 then [] else [Arrived(Batch(batch.blocks[..n], batch.finalized))]
  }

  lemma ForwardedDelivers(batch: Batch, n: nat)
    requires n <= |batch.blocks|
    ensures Delivered(Forwarded(batch, n)) == batch.blocks[..n] && StillOpen(Forwarded(batch, n))
  {
    assert n > 0 ==> Forwarded(batch, n)[..0] == [];
  }

  /** One batch through the gate: what is passed on, and whether the chain broke. */
  method GateBatch(expected: Option<string>, batch: Batch) returns (items: seq<StreamItem>, cut: bool)
    ensures !cut ==> PassedAll(expected, batch.blocks, items) && items == Forwarded(batch, |batch.blocks|)
    ensures cut ==>
      && CutAtBreak(expected, batch.blocks, items) && |Delivered(items)| < |batch.blocks|
      && items == Forwarded(batch, |Delivered(items)|) + [Forked(ForkSignal(batch.blocks[|Delivered(items)|]))]
  {
    hide HashLinked, Delivered, Breaks, CutAtBreak, StillOpen;
    var n := LinkedPrefix(expected, batch.blocks);
    items := [];
    if n > 0 {
      items := [Arrived(Batch(batch.blocks[..n], batch.finalized))];
    }
    ForwardedDelivers(batch, n);
    cut := n < |batch.blocks|;
    if cut {
      CutNow(expected, batch.blocks, n, items);
      items := items + [Forked(ForkSignal(batch.blocks[n]))];
    } else {
      TakeAll(batch.blocks);
    }
  }

  lemma PassedMore(parentHash: Option<string>, acquired: seq<Block>, out: seq<StreamItem>,
      blocks: seq<Block>, items: seq<StreamItem>)
    requires PassedAll(parentHash, acquired, out)
    requires PassedAll(Expected(parentHash, acquired), blocks, items)
    ensures PassedAll(parentHash, acquired + blocks, out + items)
  {
    DeliveredConcat(out, items);
    HashLinkedAppend(parentHash, acquired, blocks);
  }

  lemma CutLater(parentHash: Option<string>, acquired: seq<Block>, out: seq<StreamItem>,
      blocks: seq<Block>, items: seq<StreamItem>, rest: seq<Block>)
    requires PassedAll(parentHash, acquired, out)
    requires CutAtBreak(Expected(parentHash, acquired), blocks, items)
    ensures CutAtBreak(parentHash, acquired + blocks + rest, out + items)
  {
    DeliveredConcat(out, items);
    HashLinkedAppend(parentHash, acquired, Delivered(items));
    var n, m := |acquired|, |Delivered(items)|;
    assert (acquired + blocks + rest)[n + m] == blocks[m];
    assert (acquired + blocks + rest)[..n + m] == acquired + blocks[..m];
    assert (out + items)[|out + items| - 1] == items[|items| - 1];
  }

  /** The stream up to its first fault came through, then the fault. */
  ghost predicate PassedToFault(parentHash: Option<string>, stream: seq<IngestItem>, k: nat, out: seq<StreamItem>)
    requires k < |stream|
  {
    && stream[k].Faulted? && out != [] && out[|out| - 1] == Broken
    && PassedAll(parentHash, Acquired(stream[..k]), out[..|out| - 1])
  }

  /** How a gated stream ends: used up, all delivered; cut; or with the upstream's fault,
      everything before it delivered. */
  ghost predicate Continued(parentHash: Option<string>, stream: seq<IngestItem>, out: seq<StreamItem>) {
    || (PassedAll(parentHash, Acquired(stream), out) && forall k :: 0 <= k < |stream| ==> stream[k].Ingested?)
    || CutAtBreak(parentHash, Acquired(stream), out)
    || exists k :: 0 <= k < |stream| && PassedToFault(parentHash, stream, k, out)
  }

  lemma FaultReached(parentHash: Option<string>, stream: seq<IngestItem>, k: nat, out: seq<StreamItem>)
    requires k < |stream| && stream[k].Faulted? && PassedAll(parentHash, Acquired(stream[..k]), out)
    ensures Continued(parentHash, stream, out + [Broken])
  {
    SnocFront(out, Broken);
    assert PassedToFault(parentHash, stream, k, out + [Broken]);
  }

  lemma CutReached(parentHash: Option<string>, stream: seq<IngestItem>, k: nat, out: seq<StreamItem>,
      items: seq<StreamItem>)
    requires k < |stream| && PassedAll(parentHash, Acquired(stream[..k]), out)
    requires CutAtBreak(Expected(parentHash, Delivered(out)), BlocksOf(stream[k]), items)
    ensures CutAtBreak(parentHash, Acquired(stream), out + items)
  {
    var acquired := Acquired(stream[..k + 1]);
    TakeOneMore(stream, k);
    AcquiredGrows(stream, k + 1);
    PrefixAndRest(acquired, Acquired(stream));
    CutLater(parentHash, Acquired(stream[..k]), out, BlocksOf(stream[k]), items, Acquired(stream)[|acquired|..]);
  }

  lemma BatchPassed(parentHash: Option<string>, stream: seq<IngestItem>, k: nat, out: seq<StreamItem>,
      items: seq<StreamItem>)
    requires k < |stream| && PassedAll(parentHash, Acquired(stream[..k]), out)
    requires PassedAll(Expected(parentHash, Delivered(out)), BlocksOf(stream[k]), items)
    ensures PassedAll(parentHash, Acquired(stream[..k + 1]), out + items)
  {
    TakeOneMore(stream, k);
    PassedMore(parentHash, Acquired(stream[..k]), out, BlocksOf(stream[k]), items);
  }

  // ----- the reports -----------------------------------------------------------------

  /** How many of the batch's blocks are among the first `n`, when `before` come before them. */
  function Share(n: nat, before: nat, blocks: seq<Block>): (k: nat)
    ensures k <= |blocks|
  {
    if n <= before then 0 else if n - before < |blocks| then n - before else |blocks|
  }

  /** The batches that carry the first `n` blocks on, each under its own report. */
  function Relayed(stream: seq<IngestItem>, n: nat): seq<StreamItem> {
    if stream == [] then []
    else
      var front, last := stream[..|stream| - 1], stream[|stream| - 1];
      Relayed(front, n)
        + if last.Ingested? then Forwarded(last.batch, Share(n, |Acquired(front)|, last.batch.blocks)) else []
  }

  /** What came through came in the batches it was acquired in, with the reports these had. */
  ghost predicate Carries(stream: seq<IngestItem>, out: seq<StreamItem>) {
    || out == Relayed(stream, |Delivered(out)|)
    || (out != [] && !out[|out| - 1].Arrived? && out[..|out| - 1] == Relayed(stream, |Delivered(out)|))
  }

  lemma {:induction false} RelayedBefore(stream: seq<IngestItem>, k: nat, n: nat)
    requires k <= |stream| && n <= |Acquired(stream[..k])|
    ensures Relayed(stream, n) == Relayed(stream[..k], n)
  {
    if k < |stream| {
      var front := stream[..|stream| - 1];
      assert front[..k] == stream[..k];
      AcquiredGrows(front, k);
      RelayedBefore(front, k, n);
    } else {
      TakeAll(stream);
    }
  }

  lemma {:induction false} RelayedWhole(stream: seq<IngestItem>, n: nat)
    requires n >= |Acquired(stream)|
    ensures Relayed(stream, n) == Relayed(stream, |Acquired(stream)|)
  {
    if stream != [] {
      var front := stream[..|stream| - 1];
      RelayedWhole(front, n);
      RelayedWhole(front, |Acquired(stream)|);
    }
  }

  lemma RelayedSnoc(stream: seq<IngestItem>, k: nat, n: nat)
    requires k < |stream| && stream[k].Ingested?
    ensures var before := Acquired(stream[..k]);
      && Relayed(stream[..k + 1], n)
           == Relayed(stream[..k], n) + Forwarded(stream[k].batch, Share(n, |before|, stream[k].batch.blocks))
      && |Acquired(stream[..k + 1])| == |before| + |stream[k].batch.blocks|
  {
    TakeOneMore(stream, k);
  }

  lemma RelayedOneMore(stream: seq<IngestItem>, k: nat, n: nat)
    requires k < |stream| && stream[k].Ingested? && n <= |stream[k].batch.blocks|
    ensures var before := |Acquired(stream[..k])|;
      Relayed(stream, before + n) == Relayed(stream[..k], before) + Forwarded(stream[k].batch, n)
  {
    hide Acquired, Relayed, Forwarded;
    var before := |Acquired(stream[..k])|;
    RelayedSnoc(stream, k, before + n);
    RelayedBefore(stream, k + 1, before + n);
    RelayedWhole(stream[..k], before + n);
  }

  lemma FaultCarries(stream: seq<IngestItem>, k: nat, out: seq<StreamItem>)
    requires k <= |stream| && Delivered(out) == Acquired(stream[..k])
    requires out == Relayed(stream[..k], |Acquired(stream[..k])|)
    ensures Carries(stream, out + [Broken])
  {
    SnocFront(out, Broken);
    DeliveredOneMore(out, Broken);
    RelayedBefore(stream, k, |Acquired(stream[..k])|);
  }

  lemma CutCarries(stream: seq<IngestItem>, k: nat, out: seq<StreamItem>, n: nat, fork: StreamItem)
    requires k < |stream| && stream[k].Ingested? && n <= |stream[k].batch.blocks| && fork.Forked?
    requires Delivered(out) == Acquired(stream[..k]) && out == Relayed(stream[..k], |Acquired(stream[..k])|)
    ensures Carries(stream, out + (Forwarded(stream[k].batch, n) + [fork]))
  {
    hide Acquired, Relayed, Forwarded, Delivered;
    var more := out + Forwarded(stream[k].batch, n);
    Associates(out, Forwarded(stream[k].batch, n), [fork]);
    SnocFront(more, fork);
    ForwardedDelivers(stream[k].batch, n);
    DeliveredConcat(out, Forwarded(stream[k].batch, n));
    DeliveredOneMore(more, fork);
    RelayedOneMore(stream, k, n);
  }

  lemma PassCarries(stream: seq<IngestItem>, k: nat)
    requires k < |stream| && stream[k].Ingested?
    ensures var blocks := stream[k].batch.blocks;
      Relayed(stream[..k + 1], |Acquired(stream[..k + 1])|)
        == Relayed(stream[..k], |Acquired(stream[..k])|) + Forwarded(stream[k].batch, |blocks|)
  {
    hide Acquired, Relayed, Forwarded;
    RelayedSnoc(stream, k, |Acquired(stream[..k + 1])|);
    RelayedWhole(stream[..k], |Acquired(stream[..k + 1])|);
  }

  /** A batch that came through is the front of one acquired, under the report that one had. */
  ghost predicate CarriedFrom(stream: seq<IngestItem>, item: StreamItem) {
    && item.Arrived?
    && exists k :: 0 <= k < |stream| && stream[k].Ingested?
         && item.batch.blocks <= stream[k].batch.blocks && item.batch.finalized == stream[k].batch.finalized
  }

  lemma {:induction false} RelayedAreCarried(stream: seq<IngestItem>, n: nat, j: nat)
    requires j < |Relayed(stream, n)|
    ensures CarriedFrom(stream, Relayed(stream, n)[j])
  {
    var front := stream[..|stream| - 1];
    if j < |Relayed(front, n)| {
      RelayedAreCarried(front, n, j);
      var item := Relayed(front, n)[j];
      var k :| 0 <= k < |front| && front[k].Ingested?
        && item.batch.blocks <= front[k].batch.blocks && item.batch.finalized == front[k].batch.finalized;
      assert stream[k] == front[k];
    }
  }

  lemma ArrivalsAreCarried(stream: seq<IngestItem>, out: seq<StreamItem>, j: nat)
    requires Carries(stream, out) && j < |out| && out[j].Arrived?
    ensures CarriedFrom(stream, out[j])
  {
    hide CarriedFrom;
    RelayedAreCarriedAt(stream, |Delivered(out)|, j, out[j]);
  }

  lemma RelayedAreCarriedAt(stream: seq<IngestItem>, n: nat, j: nat, item: StreamItem)
    ensures j < |Relayed(stream, n)| && Relayed(stream, n)[j] == item ==> CarriedFrom(stream, item)
  {
    if j < |Relayed(stream, n)| {
      RelayedAreCarried(stream, n, j);
    }
  }

  /** Pass the stream on while every block follows on from the one before. */
  method EnsureContinuity(parentHash: Option<string>, stream: seq<IngestItem>) returns (out: seq<StreamItem>)
    ensures Continued(parentHash, stream, out) && Carries(stream, out)
  {
    hide HashLinked, Acquired, Relayed, Forwarded, Carries, CutAtBreak, StillOpen;
    out := [];
    ContinuityStarts(parentHash, stream);
    for k := 0 to |stream|
      invariant PassedAll(parentHash, Acquired(stream[..k]), out)
      invariant out == Relayed(stream[..k], |Acquired(stream[..k])|)
      invariant forall j :: 0 <= j < k ==> stream[j].Ingested?
    {
      if stream[k].Faulted? {
        FaultReached(parentHash, stream, k, out);
        FaultCarries(stream, k, out);
        out := out + [Broken];
        return;
      }
      var items, cut := GateBatch(Expected(parentHash, Delivered(out)), stream[k].batch);
      if cut {
        CutReached(parentHash, stream, k, out, items);
        CutCarries(stream, k, out, |Delivered(items)|, items[|items| - 1]);
        out := out + items;
        return;
      }
      BatchPassed(parentHash, stream, k, out, items);
      PassCarries(stream, k);
      out := out + items;
    }
    TakeAll(stream);
    AllCarries(stream, out);
  }

  lemma ContinuityStarts(parentHash: Option<string>, stream: seq<IngestItem>)
    ensures PassedAll(parentHash, Acquired(stream[..0]), []) && Relayed(stream[..0], |Acquired(stream[..0])|) == []
  {
  }

  lemma AllCarries(stream: seq<IngestItem>, out: seq<StreamItem>)
    requires Delivered(out) == Acquired(stream) && out == Relayed(stream, |Acquired(stream)|)
    ensures Carries(stream, out)
  {
  }

  /** Heights run from `from` without a gap, and each block's parent height is the one below. */
  ghost predicate Consecutive(blocks: seq<Block>, from: nat) {
    forall i :: 0 <= i < |blocks| ==>
      blocks[i].number == from + i && blocks[i].parentNumber == Below(blocks[i].number)
  }

  /** What the gate lets through of a consecutive stream is a chain in the buffer's sense. */
  lemma DeliveredIsChained(parentHash: Option<string>, blocks: seq<Block>, from: nat)
    requires Consecutive(blocks, from) && HashLinked(parentHash, blocks)
    ensures Chained(blocks)
    ensures forall i, j :: 0 <= i <= j <= |blocks| ==> Chained(blocks[i..j])
  {
  }
}
