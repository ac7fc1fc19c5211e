/** The adapter's stream: acquisition behind the continuity gate, as the service's run loop opens
    it one above its base. */
module HeadStream {
  import opened Sequences
  import opened Types
  import opened Window
  import opened Source
  import opened Enrichment
  import opened Acquisition
  import opened Emission
  import opened Ingest
  import opened Service
  import Model
  import Recovery

  /** The items of a stream that emitted `out` and ended so: a failure is its last item. */
  function Items(out: seq<Batch>, end: StreamEnd): (items: seq<IngestItem>)
    ensures |items| == |out| + (if end.Failed? then 1 else 0)
    ensures forall k :: 0 <= k < |out| ==> items[k] == Ingested(out[k])
    ensures end.Failed? ==> items[|out|] == Faulted
  {
    seq(|out|, i requires 0 <= i < |out| => Ingested(out[i])) + if end.Failed? then [Faulted] else []
  }

  lemma {:induction false} AcquiredIsFlat(out: seq<Batch>, items: seq<IngestItem>)
    requires |items| == |out| && forall k :: 0 <= k < |out| ==> items[k] == Ingested(out[k])
    ensures Acquired(items) == Flat(out)
  {
    if out != [] {
      AcquiredIsFlat(out[..|out| - 1], items[..|out| - 1]);
    }
  }

  lemma ItemsAcquired(out: seq<Batch>, end: StreamEnd)
    ensures Acquired(Items(out, end)) == Flat(out) && Acquired(Items(out, end)[..|out|]) == Flat(out)
  {
    var items := Items(out, end);
    AcquiredIsFlat(out, items[..|out|]);
    if end.Failed? {
      assert items[..|items| - 1] == items[..|out|];
      assert Acquired(items) == Acquired(items[..|out|]) + [];
    } else {
      assert items == items[..|out|];
    }
  }

  /** How a gated stream stands: all that was acquired came through, all of it came through and
      then the fault, or it was cut at the first block that does not follow on. */
  datatype Gated = Whole | ThenFault | Cut

  ghost predicate GatedAs(g: Gated, parentHash: Option<string>, acquired: seq<Block>, items: seq<StreamItem>) {
    match g
    case Whole => PassedAll(parentHash, acquired, items)
    case ThenFault => items != [] && items[|items| - 1] == Broken && PassedAll(parentHash, acquired, items[..|items| - 1])
    case Cut => CutAtBreak(parentHash, acquired, items)
  }

  ghost predicate GatedSomehow(end: StreamEnd, parentHash: Option<string>, acquired: seq<Block>,
      items: seq<StreamItem>)
  {
    || (GatedAs(Whole, parentHash, acquired, items) && !end.Failed?)
    || GatedAs(Cut, parentHash, acquired, items)
    || (GatedAs(ThenFault, parentHash, acquired, items) && end.Failed?)
  }

  lemma FaultIsLast(parentHash: Option<string>, out: seq<Batch>, end: StreamEnd, items: seq<StreamItem>, k: nat)
    requires k < |Items(out, end)| && PassedToFault(parentHash, Items(out, end), k, items)
    ensures end.Failed? && GatedAs(ThenFault, parentHash, Flat(out), items)
  {
    ItemsAcquired(out, end);
    assert k == |out|;
  }

  lemma ContinuedIsGated(parentHash: Option<string>, out: seq<Batch>, end: StreamEnd, items: seq<StreamItem>)
    requires Continued(parentHash, Items(out, end), items)
    ensures GatedSomehow(end, parentHash, Flat(out), items)
  {
    var stream := Items(out, end);
    if k :| 0 <= k < |stream| && PassedToFault(parentHash, stream, k, items) {
      FaultIsLast(parentHash, out, end, items, k);
    } else {
      ItemsAcquired(out, end);
      assert end.Failed? ==> stream[|out|] == Faulted;
    }
  }

  /** Which of the three a gated stream is, read off its last item. */
  method GateEnd(end: StreamEnd, parentHash: Option<string>, ghost acquired: seq<Block>, items: seq<StreamItem>)
    returns (g: Gated)
    requires GatedSomehow(end, parentHash, acquired, items)
    ensures GatedAs(g, parentHash, acquired, items)
    ensures g != Cut ==> (g == ThenFault <==> end.Failed?)
  {
    g := Whole;
    if items != [] {
      match items[|items| - 1] {
        case Broken => g := ThenFault;
        case Forked(_) => g := Cut;
        case Arrived(_) =>
      }
    }
  }

  // ----- what is delivered -------------------------------------------------------------------

  /** A delivered batch is the front of one that came from the upstream, under that one's report. */
  ghost predicate BatchCarried(seen: Upstream, req: DataRequest, batch: Batch) {
    exists acquired :: BatchSourced(seen, req, acquired)
      && batch.blocks <= acquired.blocks && batch.finalized == acquired.finalized
  }

  /** What a stream from `from` on delivers: consecutive heights, each block naming the one before as
      its parent and the first naming `parentHash` when given, all of it from the upstream. */
  ghost predicate Delivers(seen: Upstream, req: DataRequest, from: nat, parentHash: Option<string>,
      items: seq<StreamItem>)
  {
    && Consecutive(Delivered(items), from) && HashLinked(parentHash, Delivered(items)) && Chained(Delivered(items))
    && (forall x :: x in Delivered(items) ==> Sourced(seen, req, x))
    && (forall j :: 0 <= j < |items| && items[j].Arrived? ==> BatchCarried(seen, req, items[j].batch))
  }

  lemma EmissionIsSourced(seen: Upstream, req: DataRequest, out: seq<Batch>, from: nat, next: nat)
    requires Emitted(seen, req, out, from, next)
    ensures Consecutive(Flat(out), from) && |Flat(out)| == next - from
    ensures forall x :: x in Flat(out) ==> Sourced(seen, req, x)
  {
    hide BatchSourced, Sourced;
    forall x | x in Flat(out)
      ensures Sourced(seen, req, x)
    {
      EmittedAreSourced(seen, req, out, x);
    }
  }

  lemma GatedIsLinked(g: Gated, parentHash: Option<string>, acquired: seq<Block>, items: seq<StreamItem>)
    requires GatedAs(g, parentHash, acquired, items)
    ensures HashLinked(parentHash, Delivered(items)) && Delivered(items) <= acquired
    ensures g != Cut ==> Delivered(items) == acquired
  {
    hide HashLinked, Breaks;
    if g == ThenFault {
      var front := items[..|items| - 1];
      DeliveredOneMore(front, Broken);
      FrontAndLast(items);
      assert Delivered(front) + [] == Delivered(front);
    }
  }

  lemma ArrivalsAreSourced(seen: Upstream, req: DataRequest, out: seq<Batch>, from: nat, next: nat, end: StreamEnd,
      items: seq<StreamItem>, j: nat)
    requires Emitted(seen, req, out, from, next) && Carries(Items(out, end), items)
    requires j < |items| && items[j].Arrived?
    ensures BatchCarried(seen, req, items[j].batch)
  {
    hide BatchSourced, Consecutive, Carries, Flat;
    var stream := Items(out, end);
    ArrivalsAreCarried(stream, items, j);
    var k :| 0 <= k < |stream| && stream[k].Ingested?
      && items[j].batch.blocks <= stream[k].batch.blocks && items[j].batch.finalized == stream[k].batch.finalized;
    assert BatchSourced(seen, req, out[k]) && stream[k] == Ingested(out[k]);
  }

  lemma GatedDelivers(seen: Upstream, req: DataRequest, out: seq<Batch>, from: nat, next: nat, end: StreamEnd,
      parentHash: Option<string>, g: Gated, items: seq<StreamItem>)
    requires Emitted(seen, req, out, from, next) && GatedAs(g, parentHash, Flat(out), items)
    requires Carries(Items(out, end), items)
    ensures Delivers(seen, req, from, parentHash, items)
    ensures |Delivered(items)| <= next - from && (g != Cut ==> |Delivered(items)| == next - from)
  {
    hide Emitted, GatedAs, HashLinked, Chained, Carries, Sourced, BatchCarried, Flat, Delivered;
    EmissionIsSourced(seen, req, out, from, next);
    GatedIsLinked(g, parentHash, Flat(out), items);
    DeliveredIsChained(parentHash, Delivered(items), from);
    forall j | 0 <= j < |items| && items[j].Arrived?
      ensures BatchCarried(seen, req, items[j].batch)
    {
      ArrivalsAreSourced(seen, req, out, from, next, end, items, j);
    }
  }

  /** The stream that the upstream's answers bring about, gated: the gate lets through exactly what
      follows on, in the batches and under the reports it was acquired in. Of the blocks acquired all
      come through unless the gate cuts, so a stream that finishes uncut has delivered all of
      from..=to; and one that asks for finalized blocks delivers none above the heads it read. */
  method GetStream(up: Upstream, req: DataRequest, from: Height, to: Option<Height>, parentHash: Option<string>,
      strideSize: nat, concurrency: nat, latest: bool)
    returns (items: seq<StreamItem>, g: Gated, end: StreamEnd, left: Upstream)
    requires strideSize > 0
    ensures var s := WholeStream(up, req, from, to, strideSize, concurrency, latest);
      && left == s.up && Some(end) == s.end
      && GatedAs(g, parentHash, Flat(s.out), items) && Carries(Items(s.out, end), items)
    ensures g != Cut ==> (g == ThenFault <==> end.Failed?)
    ensures Within(left, up) && Delivers(Read(up, left), req, from, parentHash, items)
    ensures end == Finished && g == Whole ==> |Delivered(items)| == Max(from, LastOf(to) + 1) - from
    ensures !latest ==> UnderFinality(Read(up, left), from, from + |Delivered(items)|)
  {
    hide Emitted, GatedAs, GatedSomehow, Continued, Carries, WholeStream, Within, Explains, RanDry, Delivers, Flat;
    var out, next;
    out, next, end, left := IngestRange(up, req, from, to, strideSize, concurrency, latest);
    IngestEmits(up, req, from, to, strideSize, concurrency, latest);
    EmittedAscends(Read(up, left), req, out, from, next);
    items := EnsureContinuity(parentHash, Items(out, end));
    ContinuedIsGated(parentHash, out, end, items);
    g := GateEnd(end, parentHash, Flat(out), items);
    GatedDelivers(Read(up, left), req, out, from, next, end, parentHash, g, items);
  }

  /** So a stream opened above a base and cut before its first block is a fork attempt in the
      sense of recovery, whose runs are bounded. */
  lemma CutStreamIsAttempt(base: BlockRef, acquired: seq<Block>, script: Script)
    requires Consecutive(acquired, StreamFrom(base)) && GatedAs(Cut, Some(base.hash), acquired, script.items)
    requires Delivered(script.items) == []
    ensures Recovery.CutAtFirst(base, Recovery.Attempt(script, acquired))
  {
  }

  /** Such a stream lowers the run's base by one block, or at the finalized head ends the run. */
  lemma CutStreamLowersBase(r: RunState, i: nat, acquired: seq<Block>, script: Script, cfg: Model.Config)
    requires Recovery.AtBase(r, i, cfg) && r.stacked <= STALL_REINIT
    requires Consecutive(acquired, StreamFrom(r.base)) && GatedAs(Cut, Some(r.base.hash), acquired, script.items)
    requires Delivered(script.items) == []
    ensures i == r.state.buffer.fin ==> Service.Turn(r, script, cfg) == Done(Terminal, r)
    ensures i > r.state.buffer.fin ==> Service.Turn(r, script, cfg) == Running(Recovery.Lowered(r, i))
  {
    hide Recovery.AtBase, GatedAs, Service.Turn, Recovery.CutAtFirst;
    CutStreamIsAttempt(r.base, acquired, script);
    Recovery.FirstCutStep(r, i, Recovery.Attempt(script, acquired), cfg);
  }
}
