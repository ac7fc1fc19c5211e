/** Strided backfill below a finalized head: ranges fetched in parallel, completing in any order,
    emitted in order of height. */
module Strides {
  import opened Sequences
  import opened Types
  import opened Enrichment
  import opened Acquisition
  import opened Source
  import opened Inflight
  import opened Emission

  // ----- the ranges ------------------------------------------------------------------

  /** The ranges from `beg` to `top`: each a stride long but possibly the last. */
  function Ranges(beg: nat, top: Height, strideSize: nat): seq<Range>
    requires strideSize > 0
    decreases top + 1 - beg
  {
    if beg > top then []
    else
      var e: Height := if beg + strideSize - 1 < top then beg + strideSize - 1 else top;
      [Range(beg, e)] + Ranges(e + 1, top, strideSize)
  }

  /** The ranges tile the heights from `beg` to `top`. */
  ghost predicate Tiles(ranges: seq<Range>, beg: nat, top: nat) {
    if ranges == [] then beg == top + 1
    else ranges[0].s == beg && beg <= ranges[0].e <= top && Tiles(ranges[1..], ranges[0].e + 1, top)
  }

  /** Every range is as long as a stride, but the last may be shorter. */
  ghost predicate InStrides(ranges: seq<Range>, strideSize: nat) {
    forall i :: 0 <= i < |ranges| ==>
      var n := ranges[i].e - ranges[i].s + 1;
      0 < n <= strideSize && (i < |ranges| - 1 ==> n == strideSize)
  }

  lemma {:induction false} RangesTile(beg: nat, top: Height, strideSize: nat)
    requires strideSize > 0 && beg <= top + 1
    ensures var ranges := Ranges(beg, top, strideSize);
      Tiles(ranges, beg, top) && InStrides(ranges, strideSize)
    decreases top + 1 - beg
  {
    if beg <= top {
      var ranges := Ranges(beg, top, strideSize);
      RangesTile(ranges[0].e + 1, top, strideSize);
      assert ranges[1..] == Ranges(ranges[0].e + 1, top, strideSize);
    }
  }

  method SplitRange(beg: Height, top: Height, strideSize: nat) returns (ranges: seq<Range>)
    requires beg <= top && strideSize > 0
    ensures ranges == Ranges(beg, top, strideSize)
    ensures Tiles(ranges, beg, top)
    ensures InStrides(ranges, strideSize)
    ensures forall i :: 0 <= i < |ranges| ==> ranges[i].s <= ranges[i].e
  {
    ranges := [];
    var start: nat := beg;
    while start <= top
      invariant start <= top + 1
      invariant ranges + Ranges(start, top, strideSize) == Ranges(beg, top, strideSize)
    {
      var e: Height := if start + strideSize - 1 < top then start + strideSize - 1 else top;
      Associates(ranges, [Range(start, e)], Ranges(e + 1, top, strideSize));
      ranges := ranges + [Range(start, e)];
      start := e + 1;
    }
    RangesTile(beg, top, strideSize);
  }

  // ----- what the completions determine --------------------------------------------------

  type StrideSlot = Slot<Range, Option<RangeFetch>>

  /** The completions left over, everything emitted, the first height not emitted, and why the
      backfill stopped there unless it is done. */
  datatype Strided = Strided(left: seq<StrideDone>, out: seq<Batch>, next: nat, end: Option<StreamEnd>)

  function Opened(ranges: seq<Range>): (r: seq<StrideSlot>)
    ensures |r| == |ranges| && forall i :: 0 <= i < |r| ==> r[i] == Slot(ranges[i], None)
  {
    seq(|ranges|, i requires 0 <= i < |ranges| => Slot(ranges[i], None))
  }

  /** One more stride goes in flight, if one is waiting. */
  function Refilled(slots: seq<StrideSlot>, waiting: seq<Range>): seq<StrideSlot> {
    if waiting == [] then slots else slots + [Slot(waiting[0], None)]
  }

  function Behind(waiting: seq<Range>): seq<Range> {
    if waiting == [] then [] else waiting[1..]
  }

  /** The run with these strides in flight and these ranges still waiting. */
  function StridesFrom(dones: seq<StrideDone>, slots: seq<StrideSlot>, waiting: seq<Range>, finalized: BlockRef,
      out: seq<Batch>, next: nat): Strided
    decreases |slots| + |waiting|
  {
    if slots == [] then Strided(dones, out, next, None)
    else
      var (left, settled) := Settled(dones, slots);
      if settled[0].done.None? then Strided(left, out, next, Some(Waiting))
      else
        var r, done := settled[0].job, settled[0].done.value;
        var blocks := Brought(done.task, r);
        var emitted := Emit(out, blocks, Some(finalized));
        if Falters(done.task, r) then Strided(left, emitted, r.s + |blocks|, Some(Failed(StrideBroke(r, done))))
        else StridesFrom(left, Refilled(settled[1..], waiting), Behind(waiting), finalized, emitted, r.s + |blocks|)
  }

  /** As many strides go in flight at once as there are, up to the limit, which is at least one. */
  function InFlight(concurrency: nat, n: nat): (k: nat)
    ensures k <= n && k <= Max(concurrency, 1) && (k == n || k == Max(concurrency, 1))
  {
    if Max(concurrency, 1) < n then Max(concurrency, 1) else n
  }

  /** The backfill from `beg` to `top` that these completions bring about. */
  function Backfilled(dones: seq<StrideDone>, out: seq<Batch>, beg: Height, top: Height, strideSize: nat,
      concurrency: nat, finalized: BlockRef): Strided
    requires strideSize > 0
  {
    var ranges := Ranges(beg, top, strideSize);
    var n := InFlight(concurrency, |ranges|);
    StridesFrom(dones, Opened(ranges[..n]), ranges[n..], finalized, out, beg)
  }

  // ----- and what that means ---------------------------------------------------------------

  lemma {:induction false} StridesFromLeaves(dones: seq<StrideDone>, slots: seq<StrideSlot>, waiting: seq<Range>,
      finalized: BlockRef, out: seq<Batch>, next: nat)
    ensures IsSuffix(StridesFrom(dones, slots, waiting, finalized, out, next).left, dones)
    decreases |slots| + |waiting|
  {
    hide IsSuffix, Brought, Falters, Settled, Emit;
    if slots == [] {
      SuffixOfItself(dones);
    } else {
      var (left, settled) := Settled(dones, slots);
      SettledLeaves(dones, slots);
      if settled[0].done.Some? {
        var r, done := settled[0].job, settled[0].done.value;
        var blocks := Brought(done.task, r);
        var emitted := Emit(out, blocks, Some(finalized));
        var slots', waiting' := Refilled(settled[1..], waiting), Behind(waiting);
        StridesFromLeaves(left, slots', waiting', finalized, emitted, r.s + |blocks|);
        SuffixOfSuffix(StridesFrom(left, slots', waiting', finalized, emitted, r.s + |blocks|).left, left, dones);
      }
    }
  }

  function Jobs(slots: seq<StrideSlot>): (r: seq<Range>)
    ensures |r| == |slots| && forall i :: 0 <= i < |r| ==> r[i] == slots[i].job
  {
    seq(|slots|, i requires 0 <= i < |slots| => slots[i].job)
  }

  /** As the front stride is delivered the next one waiting goes in flight, so as many are as at
      first while any wait; their order stays. */
  lemma QueueMovesUp(slots: seq<StrideSlot>, settled: seq<StrideSlot>, waiting: seq<Range>)
    requires slots != [] && SameJobs(settled, slots)
    ensures |Refilled(settled[1..], waiting)| == if waiting == [] then |slots| - 1 else |slots|
    ensures (Jobs(slots) + waiting)[0] == settled[0].job
    ensures Jobs(Refilled(settled[1..], waiting)) + Behind(waiting) == (Jobs(slots) + waiting)[1..]
  {
  }

  lemma StaysFilled(settled: seq<StrideSlot>, waiting: seq<Range>, seen: seq<StrideDone>)
    requires settled != [] && Filled(settled, seen)
    ensures Filled(Refilled(settled[1..], waiting), seen)
    ensures settled[0].done.Some? ==> settled[0].done.value in seen
  {
  }

  /** Where a run may stand: the strides in flight and waiting tile what is left to emit. */
  ghost predicate Standing(seen: Upstream, slots: seq<StrideSlot>, waiting: seq<Range>, next: nat, top: nat) {
    && Tiles(Jobs(slots) + waiting, next, top) && Filled(slots, seen.strides)
    && (slots == [] ==> waiting == [])
  }

  lemma StandsOn(seen: Upstream, dones: seq<StrideDone>, slots: seq<StrideSlot>, waiting: seq<Range>, next: nat,
      top: nat)
    requires Standing(seen, slots, waiting, next, top) && slots != []
    requires Reading(seen.strides, dones, Settled(dones, slots).0)
    ensures var settled := Settled(dones, slots).1;
      && settled[0].job.s == next && next <= settled[0].job.e <= top
      && (settled[0].done.Some? ==> settled[0].done.value in seen.strides)
      && Standing(seen, Refilled(settled[1..], waiting), Behind(waiting), settled[0].job.e + 1, top)
  {
    hide Settled, Reading, Refilled, Behind, Filled;
    var settled := Settled(dones, slots).1;
    SettledIsRead(dones, slots, seen.strides);
    QueueMovesUp(slots, settled, waiting);
    StaysFilled(settled, waiting, seen.strides);
    RefilledIsEmpty(settled[1..], waiting);
  }

  lemma RefilledIsEmpty(slots: seq<StrideSlot>, waiting: seq<Range>)
    ensures Refilled(slots, waiting) == [] ==> Behind(waiting) == []
  {
  }

  lemma StrideEmits(seen: Upstream, req: DataRequest, out: seq<Batch>, from: nat, r: Range, done: StrideDone,
      finalized: BlockRef)
    requires Emitted(seen, req, out, from, r.s) && done in seen.strides && r.s <= r.e
    requires Some(finalized) in seen.hints && r.e <= finalized.number
    ensures var blocks := Brought(done.task, r);
      && Emitted(seen, req, Emit(out, blocks, Some(finalized)), from, r.s + |blocks|)
      && r.s + |blocks| <= r.e + 1 && (!Falters(done.task, r) ==> r.s + |blocks| == r.e + 1)
      && (Falters(done.task, r) ==> Explains(seen, req, StrideBroke(r, done), r.s + |blocks|))
  {
    hide Brought, Falters, FromFetch, Emitted, Emit;
    var blocks := Brought(done.task, r);
    BroughtIsFromRange(done.task, r);
    EmitsOn(seen, req, out, from, r.s, blocks, Some(finalized));
  }

  /** What the end of a backfill means: done through `top`; or waiting, all completions used up; or
      failed, at the first height that its front stride's own fetch did not bring. */
  ghost predicate EndsWell(seen: Upstream, req: DataRequest, s: Strided, beg: nat, top: nat) {
    match s.end
    case None => s.next == top + 1
    case Some(Waiting) => s.left == []
    case Some(Failed(cause)) =>
      && cause.StrideBroke? && beg <= cause.range.s && cause.range.e <= top
      && Explains(seen, req, cause, s.next)
    case Some(Finished) => false
  }

  /** In whatever order its strides complete, a backfill emits its heights in order, without a gap,
      up to where it ends. */
  lemma {:induction false} StridesFromEmit(seen: Upstream, req: DataRequest, dones: seq<StrideDone>,
      slots: seq<StrideSlot>, waiting: seq<Range>, finalized: BlockRef, out: seq<Batch>, from: nat, beg: nat,
      next: nat, top: nat)
    requires Emitted(seen, req, out, from, next) && beg <= next && Standing(seen, slots, waiting, next, top)
    requires Some(finalized) in seen.hints && top <= finalized.number && next <= top + 1
    requires Reading(seen.strides, dones, StridesFrom(dones, slots, waiting, finalized, out, next).left)
    ensures var s := StridesFrom(dones, slots, waiting, finalized, out, next);
      Emitted(seen, req, s.out, from, s.next) && s.next <= top + 1 && EndsWell(seen, req, s, beg, top)
    decreases |slots| + |waiting|
  {
    hide Emitted, Reading, Settled, Standing, Brought, Falters, Emit, Explains, IsSuffix;
    if slots == [] {
      NothingStanding(seen, waiting, next, top);
    } else {
      var (left, settled) := Settled(dones, slots);
      var s := StridesFrom(dones, slots, waiting, finalized, out, next);
      SettledLeaves(dones, slots);
      StridesStepLeaves(dones, slots, waiting, finalized, out, next);
      ReadSplit(seen.strides, dones, left, s.left);
      StandsOn(seen, dones, slots, waiting, next, top);
      if settled[0].done.Some? {
        var r, done := settled[0].job, settled[0].done.value;
        var blocks := Brought(done.task, r);
        StrideEmits(seen, req, out, from, r, done, finalized);
        if !Falters(done.task, r) {
          StridesFromEmit(seen, req, left, Refilled(settled[1..], waiting), Behind(waiting), finalized,
                         Emit(out, blocks, Some(finalized)), from, beg, r.s + |blocks|, top);
        }
      }
    }
  }

  /** Every batch of a backfill reports the finalized head it was begun under. */
  lemma {:induction false} StridesFromAdd(dones: seq<StrideDone>, slots: seq<StrideSlot>, waiting: seq<Range>,
      finalized: BlockRef, out: seq<Batch>, next: nat)
    ensures Adds(out, StridesFrom(dones, slots, waiting, finalized, out, next).out, Some(finalized))
    decreases |slots| + |waiting|
  {
    hide Settled, Brought, Falters, Emit, Adds;
    AddsNothing(out, Some(finalized));
    if slots != [] {
      var (left, settled) := Settled(dones, slots);
      if settled[0].done.Some? {
        var r, done := settled[0].job, settled[0].done.value;
        var blocks := Brought(done.task, r);
        var emitted := Emit(out, blocks, Some(finalized));
        AddsNothing(emitted, Some(finalized));
        StridesFromAdd(left, Refilled(settled[1..], waiting), Behind(waiting), finalized, emitted, r.s + |blocks|);
        AddsOn(out, blocks, StridesFrom(dones, slots, waiting, finalized, out, next).out, Some(finalized));
      }
    }
  }

  lemma NothingStanding(seen: Upstream, waiting: seq<Range>, next: nat, top: nat)
    requires Standing(seen, [], waiting, next, top)
    ensures next == top + 1
  {
    assert Jobs([]) + waiting == [];
  }

  lemma StridesStepLeaves(dones: seq<StrideDone>, slots: seq<StrideSlot>, waiting: seq<Range>,
      finalized: BlockRef, out: seq<Batch>, next: nat)
    requires slots != []
    ensures IsSuffix(StridesFrom(dones, slots, waiting, finalized, out, next).left, Settled(dones, slots).0)
  {
    hide IsSuffix, Settled, Brought, Falters, Emit;
    var (left, settled) := Settled(dones, slots);
    SuffixOfItself(left);
    if settled[0].done.Some? {
      var r, done := settled[0].job, settled[0].done.value;
      var blocks := Brought(done.task, r);
      StridesFromLeaves(left, Refilled(settled[1..], waiting), Behind(waiting), finalized,
                      Emit(out, blocks, Some(finalized)), r.s + |blocks|);
    }
  }

  lemma BackfilledLeaves(dones: seq<StrideDone>, out: seq<Batch>, beg: Height, top: Height, strideSize: nat,
      concurrency: nat, finalized: BlockRef)
    requires strideSize > 0
    ensures IsSuffix(Backfilled(dones, out, beg, top, strideSize, concurrency, finalized).left, dones)
  {
    hide IsSuffix, Ranges, StridesFrom;
    var ranges := Ranges(beg, top, strideSize);
    var n := InFlight(concurrency, |ranges|);
    StridesFromLeaves(dones, Opened(ranges[..n]), ranges[n..], finalized, out, beg);
  }

  lemma BackfilledAdds(dones: seq<StrideDone>, out: seq<Batch>, beg: Height, top: Height, strideSize: nat,
      concurrency: nat, finalized: BlockRef)
    requires strideSize > 0
    ensures Adds(out, Backfilled(dones, out, beg, top, strideSize, concurrency, finalized).out, Some(finalized))
  {
    hide Adds, Ranges, StridesFrom;
    var ranges := Ranges(beg, top, strideSize);
    var n := InFlight(concurrency, |ranges|);
    StridesFromAdd(dones, Opened(ranges[..n]), ranges[n..], finalized, out, beg);
  }

  lemma BackfillEmits(seen: Upstream, req: DataRequest, dones: seq<StrideDone>, out: seq<Batch>, from: nat,
      beg: Height, top: Height, strideSize: nat, concurrency: nat, finalized: BlockRef)
    requires strideSize > 0 && beg <= top <= finalized.number
    requires Emitted(seen, req, out, from, beg) && Some(finalized) in seen.hints
    requires Reading(seen.strides, dones, Backfilled(dones, out, beg, top, strideSize, concurrency, finalized).left)
    ensures var s := Backfilled(dones, out, beg, top, strideSize, concurrency, finalized);
      && Emitted(seen, req, s.out, from, s.next) && s.next <= top + 1 && EndsWell(seen, req, s, beg, top)
      && Adds(out, s.out, Some(finalized))
  {
    hide Emitted, Reading, Ranges, Tiles, StridesFrom, EndsWell, Adds;
    var ranges := Ranges(beg, top, strideSize);
    var n := InFlight(concurrency, |ranges|);
    RangesTile(beg, top, strideSize);
    assert Jobs(Opened(ranges[..n])) + ranges[n..] == ranges;
    StridesFromEmit(seen, req, dones, Opened(ranges[..n]), ranges[n..], finalized, out, from, beg, beg, top);
    BackfilledAdds(dones, out, beg, top, strideSize, concurrency, finalized);
  }

  // ----- the loop ----------------------------------------------------------------------------

  /** Fetch what a stride's task fetched, and emit it. */
  method DeliverRange(fetch: Option<RangeFetch>, r: Range, out: seq<Batch>, finalized: BlockRef)
    returns (emitted: seq<Batch>, next: nat, broke: bool)
    requires r.s <= r.e
    ensures emitted == Emit(out, Brought(fetch, r), Some(finalized))
    ensures next == r.s + |Brought(fetch, r)| && broke == Falters(fetch, r)
  {
    hide Stride, Acquires;
    emitted, next, broke := out, r.s, true;
    if fetch.None? || !fetch.value.mapped {
      return;
    }
    var a, unread, fetches := AcquireRangeStride(fetch.value.answers, Heights(r));
    next, broke := r.s + |a.blocks|, a.failed;
    if a.blocks != [] {
      emitted := out + [Batch(MapAll(a.blocks), Some(finalized))];
    }
  }

  lemma OneStride(dones: seq<StrideDone>, slots: seq<StrideSlot>, waiting: seq<Range>, finalized: BlockRef,
      out: seq<Batch>, next: nat)
    requires slots != []
    ensures var (left, settled) := Settled(dones, slots);
      var s := StridesFrom(dones, slots, waiting, finalized, out, next);
      if settled[0].done.None? then s == Strided(left, out, next, Some(Waiting))
      else
        var r, done := settled[0].job, settled[0].done.value;
        var emitted, n := Emit(out, Brought(done.task, r), Some(finalized)), r.s + |Brought(done.task, r)|;
        if Falters(done.task, r) then s == Strided(left, emitted, n, Some(Failed(StrideBroke(r, done))))
        else s == StridesFrom(left, Refilled(settled[1..], waiting), Behind(waiting), finalized, emitted, n)
  {
    hide Settled, Brought, Falters, Emit, Refilled, Behind;
  }

  lemma RefillsFrom(slots: seq<StrideSlot>, ranges: seq<Range>, spawned: nat)
    requires spawned <= |ranges|
    ensures spawned < |ranges| ==>
      && Refilled(slots, ranges[spawned..]) == slots + [Slot(ranges[spawned], None)]
      && Behind(ranges[spawned..]) == ranges[spawned + 1..]
    ensures spawned == |ranges| ==>
      Refilled(slots, ranges[spawned..]) == slots && Behind(ranges[spawned..]) == ranges[spawned..]
  {
  }

  /** Strides from `beg` to `top`, `concurrency` of them in flight at a time, emitted in order of
      height as they complete. */
  method Backfill(dones: seq<StrideDone>, out: seq<Batch>, beg: Height, top: Height, strideSize: nat,
      concurrency: nat, finalized: BlockRef)
    returns (left: seq<StrideDone>, emitted: seq<Batch>, next: nat, end: Option<StreamEnd>)
    requires beg <= top && strideSize > 0
    ensures Strided(left, emitted, next, end)
         == Backfilled(dones, out, beg, top, strideSize, concurrency, finalized)
  {
    hide Ranges, Settled, Brought, Falters, Emit, StridesFrom, Refilled, Behind, Tiles;
    left, emitted, next, end := dones, out, beg, None;
    var ranges := SplitRange(beg, top, strideSize);
    var spawned := if Max(concurrency, 1) < |ranges| then Max(concurrency, 1) else |ranges|;
    var pending: seq<StrideSlot> := seq(spawned, k requires 0 <= k < spawned => Slot(ranges[k], None));
    assert pending == Opened(ranges[..spawned]);
    while pending != []
      invariant spawned <= |ranges| && end.None?
      invariant forall k :: 0 <= k < |pending| ==> pending[k].job.s <= pending[k].job.e
      invariant StridesFrom(left, pending, ranges[spawned..], finalized, emitted, next)
             == Backfilled(dones, out, beg, top, strideSize, concurrency, finalized)
      decreases |pending| + |ranges| - spawned
    {
      OneStride(left, pending, ranges[spawned..], finalized, emitted, next);
      left, pending := AwaitFront(left, pending);
      if pending[0].done.None? {
        return left, emitted, next, Some(Waiting);
      }
      var r, done := pending[0].job, pending[0].done.value;
      pending := pending[1..];
      RefillsFrom(pending, ranges, spawned);
      if spawned < |ranges| {
        pending := pending + [Slot(ranges[spawned], None)];
        spawned := spawned + 1;
      }
      var broke;
      emitted, next, broke := DeliverRange(done.task, r, emitted, finalized);
      if broke {
        return left, emitted, next, Some(Failed(StrideBroke(r, done)));
      }
    }
    NoStrides(left, ranges[spawned..], finalized, emitted, next);
  }

  lemma NoStrides(dones: seq<StrideDone>, waiting: seq<Range>, finalized: BlockRef, out: seq<Batch>, next: nat)
    ensures StridesFrom(dones, [], waiting, finalized, out, next) == Strided(dones, out, next, None)
  {
  }
}
