/** The acquisition stream: strides below the finalized head, the speculative pipeline at the head,
    and finalized polling, turn by turn, all emitting one gap-free sequence. */
module Ingest {
  import opened Sequences
  import opened Types
  import opened Acquisition
  import opened Enrichment
  import opened Source
  import opened Inflight
  import opened Emission
  import opened Strides
  import opened Pipeline

  // ----- finalized polling -----------------------------------------------------------------

  /** What polling has read: the last head fetched, and the last height emitted under it. */
  datatype PollState = PollState(head: Option<Height>, lastRead: Option<Height>)

  const NOTHING_READ := PollState(None, None)

  /** One turn of polling: the answers left, the new state, everything emitted, the first height not
      emitted, and why the stream stops there, if it does. */
  datatype PollTurn = PollTurn(heads: seq<Option<Height>>, fetches: seq<RangeFetch>, state: PollState,
                               out: seq<Batch>, next: nat, end: Option<StreamEnd>)

  /** What was read stands only for the height right above it. */
  function Resumed(state: PollState, beg: Height): PollState {
    if state.lastRead.Some? && state.lastRead.value + 1 != beg then NOTHING_READ else state
  }

  predicate NeedsHead(state: PollState) {
    state.lastRead.None? || state.head.None? || state.lastRead.value >= state.head.value
  }

  function LastRef(blocks: seq<Block>): Option<BlockRef> {
    if blocks == [] then None else Some(blocks[|blocks| - 1].Ref())
  }

  /** The heights to fetch next: at most a stride and one, within the range and under the head. */
  function PolledRange(beg: Height, head: Height, last: Height, strideSize: nat): (r: Range)
    ensures beg <= head && beg <= last ==> r.s == beg <= r.e <= head && r.e <= last && r.e <= beg + strideSize
    ensures r.e == head || r.e == last || r.e == beg + strideSize
  {
    var strideEnd := if beg + strideSize < last then beg + strideSize else last;
    Range(beg, if head < strideEnd then head else strideEnd)
  }

  /** The turn once a head is known: at most one range of heights, up to it. */
  function UnderHead(heads: seq<Option<Height>>, fetches: seq<RangeFetch>, state: PollState, out: seq<Batch>,
      beg: Height, last: Height, strideSize: nat): PollTurn
    requires state.head.Some?
  {
    if state.head.value < beg then PollTurn(heads, fetches, state, out, beg, None)
    else if fetches == [] then PollTurn(heads, fetches, state, out, beg, Some(Waiting))
    else
      var r := PolledRange(beg, state.head.value, last, strideSize);
      var fetch := Some(fetches[0]);
      var blocks := Brought(fetch, r);
      PollTurn(heads, fetches[1..],
               if blocks == [] then state else state.(lastRead := Some(blocks[|blocks| - 1].number)),
               Emit(out, blocks, LastRef(blocks)), beg + |blocks|,
               if Falters(fetch, r) then Some(Failed(RangeBroke(r, fetches[0]))) else None)
  }

  /** The turn from `beg` on: read the head when it has been used up; a head that is no higher than
      what was read leaves the turn empty. */
  function Polls(heads: seq<Option<Height>>, fetches: seq<RangeFetch>, state: PollState, out: seq<Batch>,
      beg: Height, last: Height, strideSize: nat): PollTurn
  {
    var state := Resumed(state, beg);
    if !NeedsHead(state) then UnderHead(heads, fetches, state, out, beg, last, strideSize)
    else if heads == [] then PollTurn(heads, fetches, state, out, beg, Some(Waiting))
    else if heads[0].None? then PollTurn(heads[1..], fetches, state, out, beg, Some(Failed(HeadBroke)))
    else if state.lastRead.Some? && heads[0].value <= state.lastRead.value then
      PollTurn(heads[1..], fetches, state, out, beg, None)
    else UnderHead(heads[1..], fetches, state.(head := heads[0]), out, beg, last, strideSize)
  }

  lemma PollsLeaves(heads: seq<Option<Height>>, fetches: seq<RangeFetch>, state: PollState, out: seq<Batch>,
      beg: Height, last: Height, strideSize: nat)
    ensures var t := Polls(heads, fetches, state, out, beg, last, strideSize);
      IsSuffix(t.heads, heads) && IsSuffix(t.fetches, fetches)
  {
    hide Brought, Falters, Emit;
  }

  ghost predicate HeadKnown(seen: Upstream, state: PollState) {
    state.head.Some? ==> state.head in seen.heads
  }

  /** What a turn of polling means: the next heights are emitted, none above the head it went by,
      which the upstream answered. */
  ghost predicate PollsWell(seen: Upstream, req: DataRequest, from: nat, beg: Height, last: Height, t: PollTurn) {
    && Emitted(seen, req, t.out, from, t.next) && beg <= t.next <= last + 1
    && HeadKnown(seen, t.state) && (t.next > beg ==> t.state.head.Some? && t.next <= t.state.head.value + 1)
    && (t.end.Some? ==>
         match t.end.value
         case Waiting => t.heads == [] || t.fetches == []
         case Failed(cause) => Explains(seen, req, cause, t.next)
         case Finished => false)
  }

  lemma PolledRangeEmits(seen: Upstream, req: DataRequest, out: seq<Batch>, from: nat, r: Range, fetch: RangeFetch,
      head: Height)
    requires Emitted(seen, req, out, from, r.s) && fetch in seen.polled && r.s <= r.e <= head && Some(head) in seen.heads
    ensures var blocks := Brought(Some(fetch), r);
      && Emitted(seen, req, Emit(out, blocks, LastRef(blocks)), from, r.s + |blocks|)
      && r.s + |blocks| <= r.e + 1
      && (Falters(Some(fetch), r) ==> Explains(seen, req, RangeBroke(r, fetch), r.s + |blocks|))
  {
    hide Brought, Falters, FromFetch, Emitted, Emit;
    var blocks := Brought(Some(fetch), r);
    BroughtIsFromRange(Some(fetch), r);
    EmitsOn(seen, req, out, from, r.s, blocks, LastRef(blocks));
  }

  lemma UnderHeadEmits(seen: Upstream, req: DataRequest, heads: seq<Option<Height>>, fetches: seq<RangeFetch>,
      state: PollState, out: seq<Batch>, from: nat, beg: Height, last: Height, strideSize: nat)
    requires Emitted(seen, req, out, from, beg) && beg <= last && HeadKnown(seen, state) && state.head.Some?
    requires Reading(seen.polled, fetches, UnderHead(heads, fetches, state, out, beg, last, strideSize).fetches)
    ensures PollsWell(seen, req, from, beg, last, UnderHead(heads, fetches, state, out, beg, last, strideSize))
  {
    hide Emitted, Emit, Brought, Falters, Explains, Reading;
    if state.head.value >= beg && fetches != [] {
      SuffixOfItself(fetches[1..]);
      ReadFirst(seen.polled, fetches, fetches[1..]);
      PolledRangeEmits(seen, req, out, from, PolledRange(beg, state.head.value, last, strideSize), fetches[0],
                       state.head.value);
    }
  }

  lemma PollsEmits(seen: Upstream, req: DataRequest, heads: seq<Option<Height>>, fetches: seq<RangeFetch>,
      state: PollState, out: seq<Batch>, from: nat, beg: Height, last: Height, strideSize: nat)
    requires Emitted(seen, req, out, from, beg) && beg <= last && HeadKnown(seen, state)
    requires Reading(seen.heads, heads, Polls(heads, fetches, state, out, beg, last, strideSize).heads)
    requires Reading(seen.polled, fetches, Polls(heads, fetches, state, out, beg, last, strideSize).fetches)
    ensures PollsWell(seen, req, from, beg, last, Polls(heads, fetches, state, out, beg, last, strideSize))
  {
    hide Emitted, Reading, Brought, Falters, Emit;
    var t := Polls(heads, fetches, state, out, beg, last, strideSize);
    var state := Resumed(state, beg);
    if !NeedsHead(state) {
      UnderHeadEmits(seen, req, heads, fetches, state, out, from, beg, last, strideSize);
    } else if heads != [] {
      SuffixOfItself(heads[1..]);
      ReadFirst(seen.heads, heads, t.heads);
      if heads[0].Some? && !(state.lastRead.Some? && heads[0].value <= state.lastRead.value) {
        UnderHeadEmits(seen, req, heads[1..], fetches, state.(head := heads[0]), out, from, beg, last, strideSize);
      }
    }
  }

  /** A turn of polling adds at most one batch, which reports its own last block. */
  ghost predicate AddsOwnReport(out: seq<Batch>, now: seq<Batch>) {
    now == out || (|now| == |out| + 1 && now[..|out|] == out && now[|out|].finalized == LastRef(now[|out|].blocks))
  }

  /** A turn reads a head exactly when it knows of none at or above `beg` that it was reading under;
      and with a head at or above `beg` in hand, and a fetch to read, it fetches. */
  lemma PollsReads(heads: seq<Option<Height>>, fetches: seq<RangeFetch>, state: PollState, out: seq<Batch>,
      beg: Height, last: Height, strideSize: nat)
    requires heads != [] && fetches != [] && beg <= last
    ensures var t := Polls(heads, fetches, state, out, beg, last, strideSize);
      var known := beg > 0 && state.lastRead == Some(beg - 1) && state.head.Some? && state.head.value >= beg;
      && t.heads == (if known then heads else heads[1..])
      && (known || (heads[0].Some? && heads[0].value >= beg) <==> t.fetches == fetches[1..])
      && (t.fetches != fetches[1..] ==> t.fetches == fetches && t.out == out)
      && AddsOwnReport(out, t.out)
  {
    hide Brought, Falters;
    assert fetches[1..] != fetches;
  }

  lemma FetchedRange(fetch: RangeFetch, r: Range)
    requires r.s <= r.e
    ensures var a := Stride(fetch.answers, Heights(r)).0;
      && Brought(Some(fetch), r) == (if fetch.mapped then MapAll(a.blocks) else [])
      && (Falters(Some(fetch), r) <==> !fetch.mapped || a.failed) && (a.blocks == [] ==> a.failed)
  {
    hide Stride;
    StrideAcquires(fetch.answers, Heights(r));
  }

  /** Fetch at most one range under the head, and emit what it brings. */
  method FetchUnderHead(heads: seq<Option<Height>>, fetches: seq<RangeFetch>, state: PollState, out: seq<Batch>,
      beg: Height, last: Height, strideSize: nat)
    returns (t: PollTurn)
    requires beg <= last && state.head.Some?
    ensures t == UnderHead(heads, fetches, state, out, beg, last, strideSize)
  {
    hide Brought, Falters, Stride, Acquires, PolledRange, Heights;
    t := PollTurn(heads, fetches, state, out, beg, None);
    var head := state.head.value;
    if head < beg {
      return;
    }
    if fetches == [] {
      return t.(end := Some(Waiting));
    }
    var r := PolledRange(beg, head, last, strideSize);
    var fetch := fetches[0];
    t := t.(fetches := fetches[1..]);
    var a, unread, tries := AcquireRangeStride(fetch.answers, Heights(r));
    FetchedRange(fetch, r);
    if a.blocks == [] || !fetch.mapped {
      return t.(end := Some(Failed(RangeBroke(r, fetch))));
    }
    var blocks := MapAll(a.blocks);
    var top := blocks[|blocks| - 1];
    t := t.(state := state.(lastRead := Some(top.number)), out := out + [Batch(blocks, Some(top.Ref()))],
            next := beg + |blocks|, end := if a.failed then Some(Failed(RangeBroke(r, fetch))) else None);
  }

  /** One turn of finalized polling. */
  method PollFinalized(heads: seq<Option<Height>>, fetches: seq<RangeFetch>, state: PollState, out: seq<Batch>,
      beg: Height, last: Height, strideSize: nat)
    returns (t: PollTurn)
    requires beg <= last
    ensures t == Polls(heads, fetches, state, out, beg, last, strideSize)
  {
    hide UnderHead;
    var left, read := heads, Resumed(state, beg);
    if NeedsHead(read) {
      if heads == [] {
        return PollTurn(heads, fetches, read, out, beg, Some(Waiting));
      }
      left := heads[1..];
      if heads[0].None? {
        return PollTurn(left, fetches, read, out, beg, Some(Failed(HeadBroke)));
      }
      if read.lastRead.Some? && heads[0].value <= read.lastRead.value {
        return PollTurn(left, fetches, read, out, beg, None);
      }
      read := read.(head := heads[0]);
    }
    t := FetchUnderHead(left, fetches, read, out, beg, last, strideSize);
  }

  // ----- the stream ------------------------------------------------------------------------

  /** The stream as it stands: what is left of the upstream, everything emitted, the first height not
      emitted, what polling has read, and how the stream ended, once it has. */
  datatype Progress = Progress(up: Upstream, out: seq<Batch>, next: nat, polled: PollState, end: Option<StreamEnd>)

  /** How far strides may go: up to the finalized head, within the range. */
  function Top(finalized: Option<BlockRef>, beg: Height, last: Height): Height {
    if finalized.None? then beg else if finalized.value.number < last then finalized.value.number else last
  }

  /** One turn of the outer loop, in the mode the finalized head calls for. */
  function Turn(s: Progress, req: DataRequest, last: Height, strideSize: nat, concurrency: nat, latest: bool)
      : (t: Progress)
    requires s.up.hints != [] && s.next <= last && strideSize > 0
    ensures t.up.hints == s.up.hints[1..]
  {
    var finalized, up := s.up.hints[0], s.up.(hints := s.up.hints[1..]);
    var top := Top(finalized, s.next, last);
    if top > s.next && top - s.next > strideSize then
      var b := Backfilled(up.strides, s.out, s.next, top, strideSize, concurrency, finalized.value);
      Progress(up.(strides := b.left), b.out, b.next, NOTHING_READ, b.end)
    else if latest then
      var p := Speculated(Started(up.polls, up.enrichments, s.out, s.next), req, last, strideSize);
      Progress(up.(polls := p.polls, enrichments := p.dones), p.out, p.due, s.polled, p.end)
    else
      var t := Polls(up.heads, up.polled, s.polled, s.out, s.next, last, strideSize);
      Progress(up.(heads := t.heads, polled := t.fetches), t.out, t.next, t.state, t.end)
  }

  /** The stream from where it stands. */
  function Streamed(s: Progress, req: DataRequest, last: Height, strideSize: nat, concurrency: nat, latest: bool)
      : (t: Progress)
    requires strideSize > 0
    ensures t.end.Some?
    decreases |s.up.hints|
  {
    if s.end.Some? then s
    else if s.next > last then s.(end := Some(Finished))
    else if s.up.hints == [] then s.(end := Some(Waiting))
    else Streamed(Turn(s, req, last, strideSize, concurrency, latest), req, last, strideSize, concurrency, latest)
  }

  function LastOf(to: Option<Height>): Height {
    if to.Some? then to.value else HEIGHT_MAX
  }

  /** The whole stream that these answers, and this order of completion, bring about. */
  function WholeStream(up: Upstream, req: DataRequest, from: Height, to: Option<Height>, strideSize: nat,
      concurrency: nat, latest: bool): Progress
    requires strideSize > 0
  {
    Streamed(Progress(up, [], from, NOTHING_READ, None), req, LastOf(to), strideSize, concurrency, latest)
  }

  // ----- what is left of the upstream ----------------------------------------------------------

  lemma TurnLeaves(s: Progress, req: DataRequest, last: Height, strideSize: nat, concurrency: nat, latest: bool)
    requires s.up.hints != [] && s.next <= last && strideSize > 0
    ensures Within(Turn(s, req, last, strideSize, concurrency, latest).up, s.up)
  {
    hide IsSuffix, Backfilled, Speculated, Polls;
    var finalized := s.up.hints[0];
    RestIsSuffix(s.up.hints);
    EachIsSuffix(s.up);
    SpeculatedLeaves(Started(s.up.polls, s.up.enrichments, s.out, s.next), req, last, strideSize);
    PollsLeaves(s.up.heads, s.up.polled, s.polled, s.out, s.next, last, strideSize);
    if finalized.Some? {
      BackfilledLeaves(s.up.strides, s.out, s.next, Top(finalized, s.next, last), strideSize, concurrency, finalized.value);
    }
  }

  lemma EachIsSuffix(up: Upstream)
    ensures IsSuffix(up.heads, up.heads) && IsSuffix(up.polls, up.polls) && IsSuffix(up.strides, up.strides)
    ensures IsSuffix(up.polled, up.polled) && IsSuffix(up.enrichments, up.enrichments)
  {
  }

  lemma {:induction false} StreamLeaves(s: Progress, req: DataRequest, last: Height, strideSize: nat,
      concurrency: nat, latest: bool)
    requires strideSize > 0
    ensures Within(Streamed(s, req, last, strideSize, concurrency, latest).up, s.up)
    decreases |s.up.hints|
  {
    hide Turn, Within;
    WithinSelf(s.up);
    if s.end.None? && s.next <= last && s.up.hints != [] {
      var t := Turn(s, req, last, strideSize, concurrency, latest);
      TurnLeaves(s, req, last, strideSize, concurrency, latest);
      StreamLeaves(t, req, last, strideSize, concurrency, latest);
      WithinWithin(Streamed(t, req, last, strideSize, concurrency, latest).up, t.up, s.up);
    }
  }

  // ----- which mode a turn is in -----------------------------------------------------------------

  /** The finalized head lies more than a stride above the next height, within the range. */
  predicate StridesDue(finalized: Option<BlockRef>, next: nat, last: Height, strideSize: nat) {
    finalized.Some? && finalized.value.number > next + strideSize && last > next + strideSize
  }

  /** Strides run exactly while they are due, and report the finalized head that the turn read; at the
      head of the chain only polls and enrichments are read, and nothing is reported; under finalized
      commitment only heads and ranges are, and a batch reports its own last block. */
  lemma TurnModes(s: Progress, req: DataRequest, last: Height, strideSize: nat, concurrency: nat, latest: bool)
    requires s.up.hints != [] && s.next <= last && strideSize > 0
    ensures var t := Turn(s, req, last, strideSize, concurrency, latest);
      var due := StridesDue(s.up.hints[0], s.next, last, strideSize);
      var rest := s.up.hints[1..];
      if due then
        && t.up == s.up.(hints := rest, strides := t.up.strides) && t.polled == NOTHING_READ
        && Adds(s.out, t.out, s.up.hints[0])
      else if latest then
        && t.up == s.up.(hints := rest, polls := t.up.polls, enrichments := t.up.enrichments)
        && t.polled == s.polled && Adds(s.out, t.out, None)
      else
        && t.up == s.up.(hints := rest, heads := t.up.heads, polled := t.up.polled)
        && AddsOwnReport(s.out, t.out)
  {
    hide Backfilled, Speculated, Adds, AddsOwnReport;
    var up := s.up.(hints := s.up.hints[1..]);
    SpeculatedAddsNone(up, req, s.out, s.next, last, strideSize);
    PollsAdds(up, s, last, strideSize);
    if StridesDue(s.up.hints[0], s.next, last, strideSize) {
      BackfilledAdds(up.strides, s.out, s.next, Top(s.up.hints[0], s.next, last), strideSize, concurrency,
                     s.up.hints[0].value);
    }
  }

  lemma SpeculatedAddsNone(up: Upstream, req: DataRequest, out: seq<Batch>, beg: nat, last: Height, strideSize: nat)
    ensures Adds(out, Speculated(Started(up.polls, up.enrichments, out, beg), req, last, strideSize).out, None)
  {
    hide Speculated;
    SpeculatedAdds(Started(up.polls, up.enrichments, out, beg), req, last, strideSize, out);
  }

  lemma PollsAdds(up: Upstream, s: Progress, last: Height, strideSize: nat)
    requires s.next <= last
    ensures AddsOwnReport(s.out, Polls(up.heads, up.polled, s.polled, s.out, s.next, last, strideSize).out)
  {
    hide Brought, Falters;
  }

  /** The turns of a stream, each where the one before left off. */
  ghost predicate InTurn(turns: seq<Progress>, req: DataRequest, last: Height, strideSize: nat, concurrency: nat,
      latest: bool)
    requires strideSize > 0
  {
    forall i :: 0 <= i < |turns| - 1 ==>
      && turns[i].end.None? && turns[i].next <= last && turns[i].up.hints != []
      && turns[i + 1] == Turn(turns[i], req, last, strideSize, concurrency, latest)
  }

  /** A stream is its turns, up to one that ends it, or after which the range is done or nothing is
      left to read. */
  lemma {:induction false} StreamIsItsTurns(s: Progress, req: DataRequest, last: Height, strideSize: nat,
      concurrency: nat, latest: bool) returns (turns: seq<Progress>)
    requires strideSize > 0
    ensures turns != [] && turns[0] == s && InTurn(turns, req, last, strideSize, concurrency, latest)
    ensures var t := turns[|turns| - 1];
      Streamed(s, req, last, strideSize, concurrency, latest) ==
      if t.end.Some? then t
      else t.(end := Some(if t.next > last then Finished else Waiting))
    ensures var t := turns[|turns| - 1]; t.end.Some? || t.next > last || t.up.hints == []
    decreases |s.up.hints|
  {
    hide Turn;
    turns := [s];
    if s.end.None? && s.next <= last && s.up.hints != [] {
      var t := Turn(s, req, last, strideSize, concurrency, latest);
      var later := StreamIsItsTurns(t, req, last, strideSize, concurrency, latest);
      turns := [s] + later;
      forall i | 0 <= i < |turns| - 1
        ensures turns[i].end.None? && turns[i].next <= last && turns[i].up.hints != []
        ensures turns[i + 1] == Turn(turns[i], req, last, strideSize, concurrency, latest)
      {
        assert turns[i + 1] == later[i];
        if i > 0 {
          assert turns[i] == later[i - 1] && later[i] == later[i - 1 + 1];
        }
      }
    }
  }

  // ----- what the stream keeps ---------------------------------------------------------------------

  /** A stream never touches the queues of the other commitment. */
  ghost predicate OwnQueues(rest: Upstream, up: Upstream, latest: bool) {
    if latest then rest.heads == up.heads && rest.polled == up.polled
    else rest.polls == up.polls && rest.enrichments == up.enrichments
  }

  lemma {:induction false} StreamKeepsQueues(s: Progress, req: DataRequest, last: Height, strideSize: nat,
      concurrency: nat, latest: bool)
    requires strideSize > 0
    ensures OwnQueues(Streamed(s, req, last, strideSize, concurrency, latest).up, s.up, latest)
    decreases |s.up.hints|
  {
    hide Turn, Adds, AddsOwnReport, StridesDue;
    if s.end.None? && s.next <= last && s.up.hints != [] {
      TurnModes(s, req, last, strideSize, concurrency, latest);
      StreamKeepsQueues(Turn(s, req, last, strideSize, concurrency, latest), req, last, strideSize, concurrency, latest);
    }
  }

  /** A batch a stream may emit under its commitment: a stride's, or a block of the pipeline alone and
      without a report, or a range of finalized blocks under its own last one as report. */
  ghost predicate BatchOf(seen: Upstream, req: DataRequest, latest: bool, batch: Batch) {
    || StrideBatch(seen, batch)
    || (if latest then PipelineBatch(seen, req, batch) else PolledBatch(seen, batch))
  }

  lemma BatchesFollowCommitment(seen: Upstream, req: DataRequest, latest: bool, batch: Batch)
    requires BatchSourced(seen, req, batch)
    requires if latest then seen.polled == [] else seen.polls == [] && seen.enrichments == []
    ensures BatchOf(seen, req, latest, batch)
  {
    hide StrideBatch, FromFetch;
  }

  /** A queue the stream reads from has run dry. */
  predicate RanDry(rest: Upstream, latest: bool) {
    || rest.hints == [] || rest.strides == []
    || if latest then rest.polls == [] || rest.enrichments == [] else rest.heads == [] || rest.polled == []
  }

  /** Nothing from `from` up to `next` lies above a finalized head the upstream answered. */
  ghost predicate UnderFinality(seen: Upstream, from: nat, next: nat) {
    || next <= from
    || (exists h: Height :: Some(h) in seen.heads && next <= h + 1)
    || (exists r: BlockRef :: Some(r) in seen.hints && next <= r.number + 1)
  }

  /** What holds of a stream from `from` to `last`, wherever it stands. */
  ghost predicate Kept(seen: Upstream, req: DataRequest, from: nat, last: nat, latest: bool, s: Progress) {
    && Emitted(seen, req, s.out, from, s.next) && s.next <= Max(from, last + 1)
    && HeadKnown(seen, s.polled) && (!latest ==> UnderFinality(seen, from, s.next))
    && (s.end.Some? ==>
         match s.end.value
         case Finished => s.next == Max(from, last + 1)
         case Failed(cause) => Explains(seen, req, cause, s.next)
         case Waiting => RanDry(s.up, latest))
  }

  lemma BackfillTurnKeeps(seen: Upstream, req: DataRequest, from: nat, s: Progress, last: Height, strideSize: nat,
      concurrency: nat, latest: bool)
    requires s.up.hints != [] && s.next <= last && strideSize > 0 && Kept(seen, req, from, last, latest, s)
    requires ReadsOn(seen, s.up, Turn(s, req, last, strideSize, concurrency, latest).up) && s.up.hints[0] in seen.hints
    requires var top := Top(s.up.hints[0], s.next, last); top > s.next && top - s.next > strideSize
    ensures Kept(seen, req, from, last, latest, Turn(s, req, last, strideSize, concurrency, latest))
  {
    hide Emitted, Reading, Backfilled, Explains;
    var finalized, top := s.up.hints[0], Top(s.up.hints[0], s.next, last);
    BackfillEmits(seen, req, s.up.strides, s.out, from, s.next, top, strideSize, concurrency, finalized.value);
  }

  lemma PipelineTurnKeeps(seen: Upstream, req: DataRequest, from: nat, s: Progress, last: Height, strideSize: nat,
      concurrency: nat)
    requires s.up.hints != [] && s.next <= last && strideSize > 0 && Kept(seen, req, from, last, true, s)
    requires ReadsOn(seen, s.up, Turn(s, req, last, strideSize, concurrency, true).up)
    requires var top := Top(s.up.hints[0], s.next, last); !(top > s.next && top - s.next > strideSize)
    ensures Kept(seen, req, from, last, true, Turn(s, req, last, strideSize, concurrency, true))
  {
    hide Emitted, Reading, Speculated, Explains;
    PipelineEmits(seen, req, s.up.polls, s.up.enrichments, s.out, from, s.next, last, strideSize);
  }

  lemma PollingTurnKeeps(seen: Upstream, req: DataRequest, from: nat, s: Progress, last: Height, strideSize: nat,
      concurrency: nat)
    requires s.up.hints != [] && s.next <= last && strideSize > 0 && Kept(seen, req, from, last, false, s)
    requires ReadsOn(seen, s.up, Turn(s, req, last, strideSize, concurrency, false).up)
    requires var top := Top(s.up.hints[0], s.next, last); !(top > s.next && top - s.next > strideSize)
    ensures Kept(seen, req, from, last, false, Turn(s, req, last, strideSize, concurrency, false))
  {
    hide Emitted, Reading, Polls, Explains;
    PollsEmits(seen, req, s.up.heads, s.up.polled, s.polled, s.out, from, s.next, last, strideSize);
  }

  lemma TurnKeeps(seen: Upstream, req: DataRequest, from: nat, s: Progress, last: Height, strideSize: nat,
      concurrency: nat, latest: bool)
    requires s.up.hints != [] && s.next <= last && strideSize > 0 && Kept(seen, req, from, last, latest, s)
    requires ReadsOn(seen, s.up, Turn(s, req, last, strideSize, concurrency, latest).up)
    ensures Kept(seen, req, from, last, latest, Turn(s, req, last, strideSize, concurrency, latest))
  {
    hide Kept, Turn, Reading;
    SuffixOfItself(s.up.hints[1..]);
    ReadFirst(seen.hints, s.up.hints, s.up.hints[1..]);
    var top := Top(s.up.hints[0], s.next, last);
    if top > s.next && top - s.next > strideSize {
      BackfillTurnKeeps(seen, req, from, s, last, strideSize, concurrency, latest);
    } else if latest {
      PipelineTurnKeeps(seen, req, from, s, last, strideSize, concurrency);
    } else {
      PollingTurnKeeps(seen, req, from, s, last, strideSize, concurrency);
    }
  }

  lemma StreamStops(seen: Upstream, req: DataRequest, from: nat, last: Height, latest: bool, s: Progress)
    requires Kept(seen, req, from, last, latest, s) && s.end.None?
    ensures s.next > last ==> Kept(seen, req, from, last, latest, s.(end := Some(Finished)))
    ensures s.up.hints == [] ==> Kept(seen, req, from, last, latest, s.(end := Some(Waiting)))
  {
    EmittedAscends(seen, req, s.out, from, s.next);
  }

  /** Across all switches of mode, each turn takes up where the one before left off. */
  lemma {:induction false} StreamKeeps(seen: Upstream, req: DataRequest, from: nat, s: Progress, last: Height,
      strideSize: nat, concurrency: nat, latest: bool)
    requires strideSize > 0 && Kept(seen, req, from, last, latest, s)
    requires ReadsOn(seen, s.up, Streamed(s, req, last, strideSize, concurrency, latest).up)
    ensures Kept(seen, req, from, last, latest, Streamed(s, req, last, strideSize, concurrency, latest))
    decreases |s.up.hints|
  {
    hide Kept, Turn, ReadsOn, Within;
    if s.end.None? {
      StreamStops(seen, req, from, last, latest, s);
      if s.next <= last && s.up.hints != [] {
        var t := Turn(s, req, last, strideSize, concurrency, latest);
        TurnLeaves(s, req, last, strideSize, concurrency, latest);
        StreamLeaves(t, req, last, strideSize, concurrency, latest);
        ReadsSplit(seen, s.up, t.up, Streamed(t, req, last, strideSize, concurrency, latest).up);
        TurnKeeps(seen, req, from, s, last, strideSize, concurrency, latest);
        StreamKeeps(seen, req, from, t, last, strideSize, concurrency, latest);
      }
    }
  }

  lemma StreamBegins(seen: Upstream, req: DataRequest, up: Upstream, from: nat, last: nat, latest: bool)
    ensures Kept(seen, req, from, last, latest, Progress(up, [], from, NOTHING_READ, None))
  {
    NothingEmitted(seen, req, from);
  }

  /** Whatever the upstream answers, and in whatever order its tasks complete: the batches carry from,
      from+1, from+2, ... without gap, repeat or reorder, and nothing but what was read from the
      upstream, each under the report its mode gives it; a finalized stream stays under the heads it read; a stream that finishes has emitted
      all of from..=to, one that fails everything below the height where what it read explains the
      failure, and one that waits has used up a queue it reads from. */
  lemma IngestEmits(up: Upstream, req: DataRequest, from: Height, to: Option<Height>, strideSize: nat,
      concurrency: nat, latest: bool)
    requires strideSize > 0
    ensures var s := WholeStream(up, req, from, to, strideSize, concurrency, latest);
      && Within(s.up, up) && s.end.Some?
      && Emitted(Read(up, s.up), req, s.out, from, s.next) && s.next <= Max(from, LastOf(to) + 1)
      && (!latest ==> UnderFinality(Read(up, s.up), from, s.next))
      && (forall k :: 0 <= k < |s.out| ==> BatchOf(Read(up, s.up), req, latest, s.out[k]))
      && match s.end.value
         case Finished => s.next == Max(from, LastOf(to) + 1)
         case Failed(cause) => Explains(Read(up, s.up), req, cause, s.next)
         case Waiting => RanDry(s.up, latest)
  {
    hide Emitted, Explains, UnderFinality, RanDry, Streamed, Within, ReadsOn, BatchOf;
    var start := Progress(up, [], from, NOTHING_READ, None);
    var s := WholeStream(up, req, from, to, strideSize, concurrency, latest);
    StreamLeaves(start, req, LastOf(to), strideSize, concurrency, latest);
    ReadsAll(up, s.up);
    StreamBegins(Read(up, s.up), req, up, from, LastOf(to), latest);
    StreamKeeps(Read(up, s.up), req, from, start, LastOf(to), strideSize, concurrency, latest);
    StreamKeepsQueues(start, req, LastOf(to), strideSize, concurrency, latest);
    AllFollowCommitment(up, s.up, req, latest, s.out, from, s.next);
  }

  lemma AllFollowCommitment(up: Upstream, rest: Upstream, req: DataRequest, latest: bool, out: seq<Batch>, from: nat,
      next: nat)
    requires Within(rest, up) && OwnQueues(rest, up, latest) && Emitted(Read(up, rest), req, out, from, next)
    ensures forall k :: 0 <= k < |out| ==> BatchOf(Read(up, rest), req, latest, out[k])
  {
    hide BatchSourced, BatchOf, Consecutive;
    forall k | 0 <= k < |out|
      ensures BatchOf(Read(up, rest), req, latest, out[k])
    {
      assert BatchSourced(Read(up, rest), req, out[k]);
      BatchesFollowCommitment(Read(up, rest), req, latest, out[k]);
    }
  }

  /** Ingest from `from` to `to`, or without end. */
  method IngestRange(up: Upstream, req: DataRequest, from: Height, to: Option<Height>, strideSize: nat,
      concurrency: nat, latest: bool)
    returns (out: seq<Batch>, next: nat, end: StreamEnd, left: Upstream)
    requires strideSize > 0
    ensures var s := WholeStream(up, req, from, to, strideSize, concurrency, latest);
      left == s.up && out == s.out && next == s.next && Some(end) == s.end
  {
    hide Backfilled, Speculated, Polls;
    var last := LastOf(to);
    var polled := NOTHING_READ;
    var speculativeNext: Option<nat> := None;
    var stop: Option<StreamEnd> := None;
    out, next, left := [], from, up;
    while next <= last
      invariant speculativeNext.Some? ==> latest && speculativeNext.value == next
      invariant stop.None?
      invariant Streamed(Progress(left, out, next, polled, None), req, last, strideSize, concurrency, latest)
             == WholeStream(up, req, from, to, strideSize, concurrency, latest)
      decreases |left.hints|
    {
      if left.hints == [] {
        return out, next, Waiting, left;
      }
      var finalized := left.hints[0];
      left := left.(hints := left.hints[1..]);
      var beg: Height := next;
      var top := Top(finalized, beg, last);
      if top > beg && top - beg > strideSize {
        speculativeNext, polled := None, NOTHING_READ;
        var strides;
        strides, out, next, stop := Backfill(left.strides, out, beg, top, strideSize, concurrency, finalized.value);
        left := left.(strides := strides);
      } else if latest {
        var nextNum := if speculativeNext.Some? then speculativeNext.value else beg;
        var p := Speculate(left.polls, left.enrichments, req, out, nextNum, last, strideSize);
        left, out, next, stop := left.(polls := p.polls, enrichments := p.dones), p.out, p.due, p.end;
        speculativeNext := Some(next);
      } else {
        var t := PollFinalized(left.heads, left.polled, polled, out, beg, last, strideSize);
        left, polled, out, next, stop := left.(heads := t.heads, polled := t.fetches), t.state, t.out, t.next, t.end;
      }
      if stop.Some? {
        return out, next, stop.value, left;
      }
    }
    end := Finished;
  }
}
