/** What the acquisition stream reads and what it emits: the queues of upstream answers, where an
    emitted block and its finality report come from, and what it means for a stream to fail. */
module Emission {
  import opened Sequences
  import opened Types
  import opened Enrichment
  import opened Acquisition
  import opened Source
  import opened Inflight

  const PIPELINE_DEPTH: nat := 3

  // ----- the upstream, as what it answers --------------------------------------------

  /** What fetching one range comes to: the answers to its own fetches, and whether the blocks
      could be mapped. */
  datatype RangeFetch = RangeFetch(answers: Answers, mapped: bool)

  /** What enriching one body comes to, likewise. */
  datatype EnrichTask = EnrichTask(first: Option<RoundAnswer>, retries: seq<Retry>, mapped: bool)

  /** A stride's task completes with its fetch, or cannot be joined. */
  type StrideDone = Completion<Option<RangeFetch>>

  type EnrichDone = Completion<EnrichTask>

  /** A poll for the next block: a transport error, no block yet (and whether the pipeline's front
      completes before the next poll), or a body. */
  datatype Poll = PollFailed | Absent(frontReady: bool) | Body(header: Header)

  /** Everything the upstream and the scheduler decide, consumed from the front of each queue. A
      stream whose queue runs dry is one that is still waiting. */
  datatype Upstream = Upstream(
    hints: seq<Option<BlockRef>>, heads: seq<Option<Height>>, polls: seq<Poll>,
    strides: seq<StrideDone>, polled: seq<RangeFetch>, enrichments: seq<EnrichDone>)

  /** Each queue of `rest` is what is left of that of `whole`. */
  ghost predicate Within(rest: Upstream, whole: Upstream) {
    && IsSuffix(rest.hints, whole.hints) && IsSuffix(rest.heads, whole.heads) && IsSuffix(rest.polls, whole.polls)
    && IsSuffix(rest.strides, whole.strides) && IsSuffix(rest.polled, whole.polled)
    && IsSuffix(rest.enrichments, whole.enrichments)
  }

  /** What has been read of `whole` once `rest` is left. */
  ghost function Read(whole: Upstream, rest: Upstream): Upstream
    requires Within(rest, whole)
  {
    Upstream(TakenFrom(whole.hints, rest.hints), TakenFrom(whole.heads, rest.heads),
             TakenFrom(whole.polls, rest.polls), TakenFrom(whole.strides, rest.strides),
             TakenFrom(whole.polled, rest.polled), TakenFrom(whole.enrichments, rest.enrichments))
  }

  /** Reading `up` down to `rest` is part of all that is read. */
  ghost predicate ReadsOn(seen: Upstream, up: Upstream, rest: Upstream) {
    && Reading(seen.hints, up.hints, rest.hints) && Reading(seen.heads, up.heads, rest.heads)
    && Reading(seen.polls, up.polls, rest.polls) && Reading(seen.strides, up.strides, rest.strides)
    && Reading(seen.polled, up.polled, rest.polled) && Reading(seen.enrichments, up.enrichments, rest.enrichments)
  }

  lemma ReadsAll(whole: Upstream, rest: Upstream)
    requires Within(rest, whole)
    ensures ReadsOn(Read(whole, rest), whole, rest)
  {
    hide Reading;
    ReadAll(whole.hints, rest.hints);
    ReadAll(whole.heads, rest.heads);
    ReadAll(whole.polls, rest.polls);
    ReadAll(whole.strides, rest.strides);
    ReadAll(whole.polled, rest.polled);
    ReadAll(whole.enrichments, rest.enrichments);
  }

  lemma ReadsSplit(seen: Upstream, up: Upstream, mid: Upstream, rest: Upstream)
    requires ReadsOn(seen, up, rest) && Within(mid, up) && Within(rest, mid)
    ensures ReadsOn(seen, up, mid) && ReadsOn(seen, mid, rest)
  {
    hide Reading, IsSuffix;
    ReadSplit(seen.hints, up.hints, mid.hints, rest.hints);
    ReadSplit(seen.heads, up.heads, mid.heads, rest.heads);
    ReadSplit(seen.polls, up.polls, mid.polls, rest.polls);
    ReadSplit(seen.strides, up.strides, mid.strides, rest.strides);
    ReadSplit(seen.polled, up.polled, mid.polled, rest.polled);
    ReadSplit(seen.enrichments, up.enrichments, mid.enrichments, rest.enrichments);
  }

  lemma WithinSelf(up: Upstream)
    ensures Within(up, up)
  {
  }

  lemma WithinWithin(a: Upstream, b: Upstream, c: Upstream)
    requires Within(a, b) && Within(b, c)
    ensures Within(a, c)
  {
    hide IsSuffix;
    SuffixOfSuffix(a.hints, b.hints, c.hints);
    SuffixOfSuffix(a.heads, b.heads, c.heads);
    SuffixOfSuffix(a.polls, b.polls, c.polls);
    SuffixOfSuffix(a.strides, b.strides, c.strides);
    SuffixOfSuffix(a.polled, b.polled, c.polled);
    SuffixOfSuffix(a.enrichments, b.enrichments, c.enrichments);
  }

  // ----- ranges ------------------------------------------------------------------------

  datatype Range = Range(s: Height, e: Height)

  /** The heights from `s` to `e`. */
  function Heights(r: Range): (heights: seq<Height>)
    ensures |heights| == (if r.s <= r.e then r.e - r.s + 1 else 0)
    ensures forall i :: 0 <= i < |heights| ==> heights[i] == r.s + i
  {
    if r.s <= r.e then seq(r.e - r.s + 1, i requires 0 <= i < r.e - r.s + 1 => r.s + i) else []
  }

  /** The emitted block of a raw one: its parent height is the one below its own. */
  function Mapped(raw: RawBlock): Block {
    Block(raw.number, raw.hash, Below(raw.number), raw.parentHash)
  }

  function MapAll(raws: seq<RawBlock>): (r: seq<Block>)
    ensures |r| == |raws| && forall i :: 0 <= i < |r| ==> r[i] == Mapped(raws[i])
  {
    seq(|raws|, i requires 0 <= i < |raws| => Mapped(raws[i]))
  }

  /** What a range's fetch brings that can be emitted. */
  function Brought(fetch: Option<RangeFetch>, r: Range): seq<Block> {
    if fetch.None? || !fetch.value.mapped then [] else MapAll(Stride(fetch.value.answers, Heights(r)).0.blocks)
  }

  /** The fetch fell short of its range. */
  predicate Falters(fetch: Option<RangeFetch>, r: Range) {
    fetch.None? || !fetch.value.mapped || Stride(fetch.value.answers, Heights(r)).0.failed
  }

  /** `x` is a valid block that one of the fetch's answers held. */
  ghost predicate FromFetch(fetch: Option<RangeFetch>, x: Block) {
    && fetch.Some? && fetch.value.mapped
    && exists raw :: WasAnswered(fetch.value.answers, raw) && !raw.isInvalid
         && x.number == raw.number && x.hash == raw.hash && x.parentHash == raw.parentHash
  }

  /** The blocks are the range's, from its start on, given by the upstream; all of them unless the
      fetch falters. */
  ghost predicate FromRange(fetch: Option<RangeFetch>, r: Range, blocks: seq<Block>) {
    && Consecutive(blocks, r.s) && |blocks| <= r.e - r.s + 1
    && (Falters(fetch, r) || |blocks| == r.e - r.s + 1)
    && forall x :: x in blocks ==> FromFetch(fetch, x)
  }

  lemma BroughtIsFromRange(fetch: Option<RangeFetch>, r: Range)
    requires r.s <= r.e
    ensures FromRange(fetch, r, Brought(fetch, r))
    ensures Brought(fetch, r) == [] ==> Falters(fetch, r)
  {
    hide WasAnswered, Stride;
    if fetch.Some? && fetch.value.mapped {
      StrideAcquires(fetch.value.answers, Heights(r));
      var raws := Stride(fetch.value.answers, Heights(r)).0.blocks;
      forall x | x in MapAll(raws)
        ensures FromFetch(fetch, x)
      {
        var i :| 0 <= i < |raws| && MapAll(raws)[i] == x;
        assert WasAnswered(fetch.value.answers, raws[i]) && !raws[i].isInvalid;
      }
    }
  }

  /** What the first answer holds of the range, in order and linked, is brought whatever comes after. */
  lemma BroughtKeepsAnswer(fetch: RangeFetch, r: Range, k: nat)
    requires fetch.mapped && fetch.answers != [] && fetch.answers[0].Some?
    requires k <= |Heights(r)| && k <= |fetch.answers[0].value|
    requires CoherentPrefix(fetch.answers[0].value[..k], Heights(r))
    ensures MapAll(fetch.answers[0].value[..k]) <= Brought(Some(fetch), r)
    ensures k == |Heights(r)| ==>
      Brought(Some(fetch), r) == MapAll(fetch.answers[0].value[..k]) && !Falters(Some(fetch), r)
  {
    hide Stride, CoherentPrefix, Heights;
    FirstAnswerIsUsed(fetch.answers, Heights(r), k);
  }

  // ----- where a block comes from ----------------------------------------------------

  /** `body` is the answer to a poll for height `n`, and can stand there. */
  ghost predicate PolledBody(seen: Upstream, body: RawBlock, n: nat) {
    && !body.isInvalid
    && exists h :: Body(h) in seen.polls && n <= HEIGHT_MAX && body == FromHeader(n, h)
  }

  /** The emitted block that enriching `body` comes to, if that succeeds. */
  function EnrichedAs(body: RawBlock, req: DataRequest, task: EnrichTask): (x: Option<Block>)
    ensures x.Some? <==> task.mapped && EnrichedBy(body, req, task.first, task.retries).Some?
  {
    var r := EnrichedBy(body, req, task.first, task.retries);
    if r.Some? && task.mapped then Some(Mapped(r.value)) else None
  }

  /** The upstream answered a poll, or a retry of an enrichment, with this header. */
  ghost predicate HeaderGiven(seen: Upstream, hash: string, parentHash: string) {
    || (exists h :: Body(h) in seen.polls && h.hash == hash && h.parentHash == parentHash)
    || exists done, k :: done in seen.enrichments && 0 <= k < |done.task.retries|
         && done.task.retries[k].header.Some?
         && done.task.retries[k].header.value.hash == hash && done.task.retries[k].header.value.parentHash == parentHash
  }

  /** `x` is an enriched block, under a header the upstream gave. */
  ghost predicate FromPipeline(seen: Upstream, req: DataRequest, x: Block) {
    && HeaderGiven(seen, x.hash, x.parentHash)
    && exists raw :: x == Mapped(raw) && !raw.isInvalid && (Selects(req) ==> Enriched(x.number, req, raw))
  }

  /** Nothing is made up: a block comes from a range the upstream returned, or out of the pipeline. */
  ghost predicate Sourced(seen: Upstream, req: DataRequest, x: Block) {
    || (exists done :: done in seen.strides && FromFetch(done.task, x))
    || (exists fetch :: fetch in seen.polled && FromFetch(Some(fetch), x))
    || FromPipeline(seen, req, x)
  }

  /** A batch of a stride's blocks reports the finalized head the service was told of. */
  ghost predicate StrideBatch(seen: Upstream, batch: Batch) {
    && batch.finalized.Some? && batch.finalized in seen.hints
    && exists done :: done in seen.strides && forall x :: x in batch.blocks ==> FromFetch(done.task, x)
  }

  /** A batch of polled finalized blocks reports its own last block, at or below a finalized head the
      upstream answered. */
  ghost predicate PolledBatch(seen: Upstream, batch: Batch) {
    && batch.blocks != [] && batch.finalized == Some(batch.blocks[|batch.blocks| - 1].Ref())
    && (exists h: Height :: Some(h) in seen.heads && batch.finalized.value.number <= h)
    && exists fetch :: fetch in seen.polled && forall x :: x in batch.blocks ==> FromFetch(Some(fetch), x)
  }

  /** A block out of the pipeline comes alone, and reports nothing. */
  ghost predicate PipelineBatch(seen: Upstream, req: DataRequest, batch: Batch) {
    batch.finalized.None? && |batch.blocks| == 1 && FromPipeline(seen, req, batch.blocks[0])
  }

  /** A report on a batch is true of it: nothing in the batch lies above the reported head. */
  predicate ReportHolds(batch: Batch) {
    batch.finalized.Some? ==> forall i :: 0 <= i < |batch.blocks| ==> batch.blocks[i].number <= batch.finalized.value.number
  }

  /** A batch is one of the three, blocks and report. */
  ghost predicate BatchSourced(seen: Upstream, req: DataRequest, batch: Batch) {
    && batch.blocks != [] && ReportHolds(batch)
    && (StrideBatch(seen, batch) || PolledBatch(seen, batch) || PipelineBatch(seen, req, batch))
  }

  lemma BatchBlocksAreSourced(seen: Upstream, req: DataRequest, batch: Batch, x: Block)
    requires BatchSourced(seen, req, batch) && x in batch.blocks
    ensures Sourced(seen, req, x)
  {
    hide FromFetch, FromPipeline;
    if StrideBatch(seen, batch) {
      var done :| done in seen.strides && forall x :: x in batch.blocks ==> FromFetch(done.task, x);
      assert FromFetch(done.task, x);
    } else if PolledBatch(seen, batch) {
      var fetch :| fetch in seen.polled && forall x :: x in batch.blocks ==> FromFetch(Some(fetch), x);
      assert FromFetch(Some(fetch), x);
    }
  }

  /** `now` is `out` and then batches that all report this. */
  ghost predicate Adds(out: seq<Batch>, now: seq<Batch>, finalized: Option<BlockRef>) {
    out <= now && forall k :: |out| <= k < |now| ==> now[k].finalized == finalized
  }

  lemma AddsNothing(out: seq<Batch>, finalized: Option<BlockRef>)
    ensures Adds(out, out, finalized)
  {
  }

  lemma AddsOn(out: seq<Batch>, blocks: seq<Block>, now: seq<Batch>, finalized: Option<BlockRef>)
    requires Adds(Emit(out, blocks, finalized), now, finalized)
    ensures Adds(out, now, finalized)
  {
    var first := Emit(out, blocks, finalized);
    assert now[..|out|] == now[..|first|][..|out|] == out;
    if blocks != [] {
      assert now[|out|] == now[..|first|][|out|] == first[|out|];
    }
  }

  // ----- what has been emitted ------------------------------------------------------

  function Flat(out: seq<Batch>): seq<Block> {
    if out == [] then [] else Flat(out[..|out| - 1]) + out[|out| - 1].blocks
  }

  /** The batches carry exactly the heights from `from` up to, not including, `next`, and only what
      came from the upstream. */
  ghost predicate Emitted(seen: Upstream, req: DataRequest, out: seq<Batch>, from: nat, next: nat) {
    && Consecutive(Flat(out), from) && |Flat(out)| == next - from
    && forall k :: 0 <= k < |out| ==> BatchSourced(seen, req, out[k])
  }

  lemma NothingEmitted(seen: Upstream, req: DataRequest, from: nat)
    ensures Emitted(seen, req, [], from, from)
  {
  }

  lemma EmittedAscends(seen: Upstream, req: DataRequest, out: seq<Batch>, from: nat, next: nat)
    requires Emitted(seen, req, out, from, next)
    ensures from <= next
  {
  }

  /** Blocks are emitted as one batch; no blocks are no batch. */
  function Emit(out: seq<Batch>, blocks: seq<Block>, finalized: Option<BlockRef>): seq<Batch> {
    if blocks == [] then out else out + [Batch(blocks, finalized)]
  }

  lemma EmitsOn(seen: Upstream, req: DataRequest, out: seq<Batch>, from: nat, next: nat, blocks: seq<Block>,
      finalized: Option<BlockRef>)
    requires Emitted(seen, req, out, from, next) && Consecutive(blocks, next)
    requires blocks != [] ==> BatchSourced(seen, req, Batch(blocks, finalized))
    ensures Emitted(seen, req, Emit(out, blocks, finalized), from, next + |blocks|)
  {
    hide BatchSourced;
    if blocks != [] {
      SnocFront(out, Batch(blocks, finalized));
      assert Flat(out + [Batch(blocks, finalized)]) == Flat(out) + blocks;
    }
  }

  lemma {:induction false} EmittedAreSourced(seen: Upstream, req: DataRequest, out: seq<Batch>, x: Block)
    requires forall k :: 0 <= k < |out| ==> BatchSourced(seen, req, out[k])
    requires x in Flat(out)
    ensures Sourced(seen, req, x)
  {
    hide Sourced, BatchSourced;
    var front := out[..|out| - 1];
    if x in Flat(front) {
      EmittedAreSourced(seen, req, front, x);
    } else {
      BatchBlocksAreSourced(seen, req, out[|out| - 1], x);
    }
  }

  // ----- how a stream ends -------------------------------------------------------------

  /** What a stream may fail of: a stride or a range that fell short, a body that could not be
      enriched, a poll that failed, a height that stayed contradictory, a head that could not be
      read. */
  datatype Cause =
    | StrideBroke(range: Range, stride: StrideDone)
    | TaskBroke(body: RawBlock, enrichment: EnrichDone)
    | PollBroke(at: nat)
    | Contradicted(at: nat)
    | HeadBroke
    | RangeBroke(range: Range, fetch: RangeFetch)

  datatype StreamEnd = Finished | Failed(cause: Cause) | Waiting

  /** The poll brought a body that can stand at height `n`. */
  predicate Stands(poll: Poll, n: nat) {
    poll.Body? && n <= HEIGHT_MAX && !FromHeader(n, poll.header).isInvalid
  }

  /** The poll brought a body that cannot. */
  predicate Contradicts(poll: Poll, n: nat) {
    poll.Body? && n <= HEIGHT_MAX && FromHeader(n, poll.header).isInvalid
  }

  /** How many of the polls brought a body that cannot stand at `n`. */
  function Contradictions(polls: seq<Poll>, n: nat): nat {
    if polls == [] then 0
    else Contradictions(polls[..|polls| - 1], n) + if Contradicts(polls[|polls| - 1], n) then 1 else 0
  }

  lemma {:induction false} ContradictionsConcat(a: seq<Poll>, b: seq<Poll>, n: nat)
    ensures Contradictions(a + b, n) == Contradictions(a, n) + Contradictions(b, n)
  {
    hide Contradicts;
    if b == [] {
      assert a + b == a;
    } else {
      ContradictionsConcat(a, b[..|b| - 1], n);
      ConcatFront(a, b);
    }
  }

  /** What was read counts in all that was read. */
  lemma ContradictionsRead(seen: seq<Poll>, polls: seq<Poll>, left: seq<Poll>, n: nat)
    requires Reading(seen, polls, left)
    ensures Contradictions(TakenFrom(polls, left), n) <= Contradictions(seen, n)
  {
    hide Contradictions;
    var taken := TakenFrom(polls, left);
    var i: nat :| StretchAt(seen, taken, i);
    var before, after := seen[..i], seen[i + |taken|..];
    assert seen == before + (taken + after);
    ContradictionsConcat(before, taken + after, n);
    ContradictionsConcat(taken, after, n);
  }

  /** `cause` is why `n` was not emitted, from what has been read: its own fetch fell short exactly
      there; its body could not be enriched; a poll for it, or for a height above it with all
      between in flight, failed; or more bodies than there are retries contradicted it. */
  ghost predicate Explains(seen: Upstream, req: DataRequest, cause: Cause, n: nat) {
    match cause
    case StrideBroke(r, done) => done in seen.strides && Falters(done.task, r) && n == r.s + |Brought(done.task, r)|
    case TaskBroke(body, done) =>
      PolledBody(seen, body, n) && done in seen.enrichments && EnrichedAs(body, req, done.task).None?
    case PollBroke(at) => PollFailed in seen.polls && n <= at < n + PIPELINE_DEPTH
    case Contradicted(at) => n == at && Contradictions(seen.polls, n) > ENRICH_RETRIES
    case HeadBroke => None in seen.heads
    case RangeBroke(r, fetch) =>
      fetch in seen.polled && Falters(Some(fetch), r) && n == r.s + |Brought(Some(fetch), r)|
  }
}
