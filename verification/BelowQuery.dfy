/** Queries below the window: a backfill from the source, streamed as the head of a response whose
    tail is the snapshot of the buffer. */
module BelowQuery {
  import opened Sequences
  import opened Types
  import opened Window
  import opened Source

  datatype QueryError = Internal | InvalidBaseBlock(previous: seq<BlockRef>)

  /** One item of a response's head: a batch of records, or the error that ends the response. */
  datatype HeadItem = Records(blocks: seq<Block>) | Fault

  /** What is asked of the source. */
  datatype Request = Request(from: Height, to: Height, parentHash: Option<string>)

  // ----- the request -----------------------------------------------------------------

  function Subtract(a: Height, b: Height): Height {
    if a < b then 0 else a - b
  }

  function Add(a: Height, b: Height): Height {
    if a + b > HEIGHT_MAX then HEIGHT_MAX else a + b
  }

  predicate IsBelowWindow(tail: seq<Block>, from: Height)
    requires tail != []
  {
    !tail[0].IsRoot() && from <= tail[0].parentNumber
  }

  function RequestTo(tail: seq<Block>, from: Height): Height
    requires tail != []
  {
    var missing := Add(Subtract(tail[0].parentNumber, from), 1);
    Add(from, missing - 1)
  }

  /** The backfill asks for exactly the heights from the client's base to the window's parent: no
      window is high enough for the saturating arithmetic to fall short. A buffer that has meanwhile
      moved below the client's base leaves it asking for its first height alone. */
  lemma RequestReachesTheWindow(tail: seq<Block>, from: Height)
    requires WellFormed(tail)
    ensures IsBelowWindow(tail, from) ==> RequestTo(tail, from) == tail[0].parentNumber
    ensures from > tail[0].parentNumber ==> RequestTo(tail, from) == from
  {
  }

  // ----- continuity ---------------------------------------------------------------------

  /** The check made of each backfilled block, and of the tail's first. */
  predicate ChainContinues(parentHash: Option<string>, prev: Option<Block>, next: Block) {
    match prev
    case Some(p) => Linked(p, next)
    case None => parentHash.Some? ==> parentHash.value == next.parentHash
  }

  /** The records form one chain, from the client's parent hash when it gave one. */
  ghost predicate OneChain(parentHash: Option<string>, records: seq<Block>) {
    && (records != [] && parentHash.Some? ==> records[0].parentHash == parentHash.value)
    && forall i :: 0 <= i < |records| - 1 ==> Linked(records[i], records[i + 1])
  }

  function LastOf(records: seq<Block>): Option<Block> {
    if records == [] then None else Some(records[|records| - 1])
  }

  lemma OneChainAppend(parentHash: Option<string>, records: seq<Block>, more: seq<Block>)
    requires OneChain(parentHash, records) && Continues(parentHash, LastOf(records), more)
    ensures OneChain(parentHash, records + more)
  {
    var all := records + more;
    forall i | 0 <= i < |all| - 1
      ensures Linked(all[i], all[i + 1])
    {
      if i >= |records| {
        assert all[i] == more[i - |records|] && all[i + 1] == more[i + 1 - |records|];
      } else if i == |records| - 1 {
        assert all[i + 1] == more[0];
      }
    }
  }

  /** A batch goes on from `prev` as a chain. */
  ghost predicate Continues(parentHash: Option<string>, prev: Option<Block>, blocks: seq<Block>) {
    OneChain(None, blocks) && (blocks != [] ==> ChainContinues(parentHash, prev, blocks[0]))
  }

  lemma OneChainSuffix(parentHash: Option<string>, records: seq<Block>, more: seq<Block>)
    requires OneChain(parentHash, records + more)
    ensures Continues(parentHash, LastOf(records), more)
  {
    var all, n := records + more, |records|;
    forall i | 0 <= i < |more| - 1
      ensures Linked(more[i], more[i + 1])
    {
      assert all[n + i] == more[i] && all[n + i + 1] == more[i + 1];
    }
    if more != [] {
      assert all[n] == more[0];
      assert n > 0 ==> all[n - 1] == records[n - 1] && Linked(all[n - 1], all[n - 1 + 1]);
    }
  }

  lemma OneChainPrefix(parentHash: Option<string>, records: seq<Block>, n: nat)
    requires OneChain(parentHash, records) && n <= |records|
    ensures OneChain(parentHash, records[..n])
  {
  }

  // ----- the head -----------------------------------------------------------------------

  /** The records a response's head carries before it ends. */
  function Carried(head: seq<HeadItem>): seq<Block> {
    if head == [] then []
    else (Carried(head[..|head| - 1]) + if head[|head| - 1].Records? then head[|head| - 1].blocks else [])
  }

  lemma CarriedOneMore(head: seq<HeadItem>, item: HeadItem)
    ensures Carried(head + [item]) == Carried(head) + if item.Records? then item.blocks else []
  {
    assert (head + [item])[..|head|] == head;
  }

  /** A fault, if there is one, is the head's last item. */
  predicate FaultEnds(head: seq<HeadItem>) {
    forall k :: 0 <= k < |head| - 1 ==> head[k].Records?
  }

  predicate Faulty(head: seq<HeadItem>) {
    head != [] && head[|head| - 1].Fault?
  }

  /** Whether a whole batch continues the chain. A broken one is dropped whole. */
  method BatchContinues(parentHash: Option<string>, prev: Option<Block>, blocks: seq<Block>)
    returns (ok: bool, last: Option<Block>)
    ensures ok <==> Continues(parentHash, prev, blocks)
    ensures ok ==> last == if blocks == [] then prev else LastOf(blocks)
  {
    last := prev;
    for i := 0 to |blocks|
      invariant OneChain(None, blocks[..i]) && (i > 0 ==> ChainContinues(parentHash, prev, blocks[0]))
      invariant last == if i == 0 then prev else Some(blocks[i - 1])
    {
      if !ChainContinues(parentHash, last, blocks[i]) {
        assert i > 0 ==> !Linked(blocks[i - 1], blocks[i]);
        return false, last;
      }
      OneChainAppend(None, blocks[..i], [blocks[i]]);
      assert blocks[..i + 1] == blocks[..i] + [blocks[i]];
      last := Some(blocks[i]);
    }
    assert blocks[..|blocks|] == blocks;
    ok := true;
  }

  /** So far every batch sent continues the chain. */
  ghost predicate Flowing(parentHash: Option<string>, head: seq<HeadItem>, prev: Option<Block>) {
    && (forall k :: 0 <= k < |head| ==> head[k].Records?)
    && OneChain(parentHash, Carried(head)) && prev == LastOf(Carried(head))
  }

  lemma FlowStarts(parentHash: Option<string>)
    ensures Flowing(parentHash, [], None) && Carried([]) == [] && Delivered([]) == []
  {
  }

  lemma FlowOn(parentHash: Option<string>, head: seq<HeadItem>, prev: Option<Block>, blocks: seq<Block>)
    requires Flowing(parentHash, head, prev) && Continues(parentHash, prev, blocks)
    ensures Flowing(parentHash, head + [Records(blocks)], if blocks == [] then prev else LastOf(blocks))
    ensures Carried(head + [Records(blocks)]) == Carried(head) + blocks
  {
    CarriedOneMore(head, Records(blocks));
    OneChainAppend(parentHash, Carried(head), blocks);
  }

  /** What the head of a response may be: its records form one chain; a fault ends it; and without
      one it is not empty, and the snapshot's first block continues it. */
  ghost predicate GoodHead(parentHash: Option<string>, head: seq<HeadItem>, tail: seq<Block>) {
    && OneChain(parentHash, Carried(head)) && FaultEnds(head)
    && (!Faulty(head) ==>
          && Carried(head) != []
          && (tail != [] ==> ChainContinues(parentHash, LastOf(Carried(head)), tail[0])))
  }

  lemma FaultEndsHead(parentHash: Option<string>, head: seq<HeadItem>, prev: Option<Block>, tail: seq<Block>)
    requires Flowing(parentHash, head, prev)
    ensures GoodHead(parentHash, head + [Fault], tail) && Carried(head + [Fault]) == Carried(head)
  {
    CarriedOneMore(head, Fault);
  }

  /** The source delivered what was asked: no error, and one chain up to the snapshot's first block. */
  ghost predicate SourceServes(parentHash: Option<string>, stream: seq<StreamItem>, tail: seq<Block>) {
    && (forall k :: 0 <= k < |stream| ==> stream[k].Arrived?)
    && OneChain(parentHash, Delivered(stream)) && Delivered(stream) != []
    && (tail != [] ==> ChainContinues(parentHash, LastOf(Delivered(stream)), tail[0]))
  }

  lemma {:induction false} DeliveredOfFront(stream: seq<StreamItem>, n: nat)
    requires n <= |stream|
    ensures Delivered(stream[..n]) <= Delivered(stream)
  {
    if n < |stream| {
      var front := stream[..|stream| - 1];
      assert front[..n] == stream[..n];
      DeliveredOfFront(front, n);
    } else {
      assert stream[..n] == stream;
    }
  }

  /** A batch that does not continue the chain keeps the whole delivery from being one. */
  lemma BrokenForGood(parentHash: Option<string>, stream: seq<StreamItem>, k: nat)
    requires k < |stream| && !Continues(parentHash, LastOf(Delivered(stream[..k])), ArrivedIn(stream[k]))
    ensures !OneChain(parentHash, Delivered(stream))
  {
    var before, blocks, all := Delivered(stream[..k]), ArrivedIn(stream[k]), Delivered(stream);
    TakeOneMore(stream, k);
    DeliveredOfFront(stream, k + 1);
    PrefixAndRest(before + blocks, all);
    if OneChain(parentHash, all) {
      OneChainPrefix(parentHash, all, |before + blocks|);
      OneChainSuffix(parentHash, before, blocks);
    }
  }

  /** The head must end before the n-th item: it is no batch, or one that does not go on as a chain. */
  ghost predicate StopsThere(parentHash: Option<string>, stream: seq<StreamItem>, n: nat)
    requires n < |stream|
  {
    !stream[n].Arrived? || !Continues(parentHash, LastOf(Delivered(stream[..n])), stream[n].batch.blocks)
  }

  /** The producer: forward the batches while they continue the chain. A stream's error or a broken
      batch ends the head in a fault, and so does a splice onto the tail that does not hold. */
  method ProduceHead(parentHash: Option<string>, stream: seq<StreamItem>, tail: seq<Block>)
    returns (head: seq<HeadItem>, ghost n: nat)
    ensures GoodHead(parentHash, head, tail)
    ensures !Faulty(head) <==> SourceServes(parentHash, stream, tail)
    ensures n <= |stream| && Carried(head) == Delivered(stream[..n])
    ensures n < |stream| ==> Faulty(head) && StopsThere(parentHash, stream, n)
  {
    hide OneChain, ChainContinues, Continues, Linked, Carried, Delivered;
    head, n := [], 0;
    var prev: Option<Block> := None;
    FlowStarts(parentHash);
    assert stream[..0] == [];
    for k := 0 to |stream|
      invariant Flowing(parentHash, head, prev)
      invariant Carried(head) == Delivered(stream[..k])
      invariant forall j :: 0 <= j < k ==> stream[j].Arrived?
      invariant n == k
    {
      TakeOneMore(stream, k);
      if !stream[k].Arrived? {
        FaultEndsHead(parentHash, head, prev, tail);
        head := head + [Fault];
        return;
      }
      var blocks := stream[k].batch.blocks;
      var ok, last := BatchContinues(parentHash, prev, blocks);
      if !ok {
        FaultEndsHead(parentHash, head, prev, tail);
        BrokenForGood(parentHash, stream, k);
        head := head + [Fault];
        return;
      }
      FlowOn(parentHash, head, prev, blocks);
      DeliveredOneMore(stream[..k], stream[k]);
      head, prev, n := head + [Records(blocks)], last, k + 1;
    }
    TakeAll(stream);
    if prev.None? || (tail != [] && !ChainContinues(parentHash, prev, tail[0])) {
      FaultEndsHead(parentHash, head, prev, tail);
      head := head + [Fault];
    }
  }

  // ----- the response -------------------------------------------------------------------

  datatype Response = Response(head: seq<HeadItem>, tail: seq<Block>)

  /** The first item of the stream decides whether there is a response at all. */
  method Query(tail: seq<Block>, from: Height, parentHash: Option<string>, stream: seq<StreamItem>)
    returns (request: Request, r: Result<Response, QueryError>)
    requires tail != []
    ensures request == Request(from, RequestTo(tail, from), parentHash)
    ensures r.Ok? <==> stream != [] && stream[0].Arrived?
    ensures r.Err? && r.error.InvalidBaseBlock? <==>
      stream != [] && stream[0].Forked? && stream[0].previous != []
    ensures r.Err? && r.error.InvalidBaseBlock? ==> r.error.previous == stream[0].previous
    ensures r.Ok? ==> r.value.tail == tail && GoodHead(parentHash, r.value.head, tail)
    ensures r.Ok? && !Faulty(r.value.head) ==>
      SourceServes(parentHash, stream, tail) && Carried(r.value.head) == Delivered(stream)
  {
    request := Request(from, RequestTo(tail, from), parentHash);
    if stream == [] {
      return request, Err(Internal);
    }
    match stream[0] {
      case Forked(previous) =>
        r := Err(if previous == [] then Internal else InvalidBaseBlock(previous));
      case Broken =>
        r := Err(Internal);
      case Arrived(_) =>
        var head, n := ProduceHead(parentHash, stream, tail);
        TakeAll(stream);
        r := Ok(Response(head, tail));
    }
  }

  /** The records of a response, in order: the head's, then unless a fault ended it the tail's. */
  function Served(r: Response): seq<Block> {
    Carried(r.head) + if Faulty(r.head) then [] else r.tail
  }

  /** The body: the head's batches record by record, then the tail. A fault cuts the body short. */
  method BlockStream(r: Response) returns (records: seq<Block>, failed: bool)
    requires FaultEnds(r.head)
    ensures records == Served(r) && failed == Faulty(r.head)
  {
    records := [];
    for k := 0 to |r.head|
      invariant records == Carried(r.head[..k])
      invariant forall j :: 0 <= j < k ==> r.head[j].Records?
    {
      assert r.head[..k + 1][..k] == r.head[..k];
      if r.head[k].Fault? {
        assert r.head[..k + 1] == r.head;
        return records, true;
      }
      for i := 0 to |r.head[k].blocks|
        invariant records == Carried(r.head[..k]) + r.head[k].blocks[..i]
      {
        records := records + [r.head[k].blocks[i]];
      }
      assert r.head[k].blocks[..|r.head[k].blocks|] == r.head[k].blocks;
    }
    assert r.head[..|r.head|] == r.head;
    records := records + r.tail;
    failed := false;
  }

  lemma ChainedIsOneChain(blocks: seq<Block>)
    requires Chained(blocks)
    ensures OneChain(None, blocks)
  {
    forall i | 0 <= i < |blocks| - 1
      ensures Linked(blocks[i], blocks[i + 1])
    {
      assert Follows(blocks[i], blocks[i + 1]);
    }
  }

  /** Against any source, every prefix of what a below-window query serves is one chain from the
      client's parent hash; and a response without a fault begins below the tail and is one chain
      to the snapshot's head. */
  lemma ServedIsOneChain(parentHash: Option<string>, r: Response, n: nat)
    requires GoodHead(parentHash, r.head, r.tail) && Chained(r.tail) && n <= |Served(r)|
    ensures OneChain(parentHash, Served(r)[..n])
    ensures !Faulty(r.head) && r.tail != [] ==>
      |Served(r)| > |r.tail| && Served(r)[|Served(r)| - 1] == r.tail[|r.tail| - 1]
  {
    if !Faulty(r.head) {
      ChainedIsOneChain(r.tail);
      OneChainAppend(parentHash, Carried(r.head), r.tail);
    }
    assert OneChain(parentHash, Served(r));
    OneChainPrefix(parentHash, Served(r), n);
  }

  /** What the adapter's own stream delivers always passes: consecutive heights linked by hash are
      one chain, so only a short stream or a splice onto the tail can fail. */
  lemma ConsecutiveIsOneChain(parentHash: Option<string>, blocks: seq<Block>, from: nat)
    requires Consecutive(blocks, from) && HashLinked(parentHash, blocks)
    ensures OneChain(parentHash, blocks)
  {
    forall i | 0 <= i < |blocks| - 1
      ensures Linked(blocks[i], blocks[i + 1])
    {
      assert blocks[i + 1].parentNumber == Below(blocks[i + 1].number);
    }
  }
}
