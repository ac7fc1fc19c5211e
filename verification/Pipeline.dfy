/** The speculative pipeline at the head: poll one height after another while the bodies already
    polled are enriched, and emit in order. */
module Pipeline {
  import opened Sequences
  import opened Types
  import opened Enrichment
  import opened Source
  import opened Inflight
  import opened Emission

  // ----- what polls and completions determine ---------------------------------------------

  type BodySlot = Slot<RawBlock, EnrichTask>

  /** The pipeline as it stands: the answers left, the bodies being enriched, everything emitted,
      the height due next; how many bodies have come without a pause, and how often the height
      polled for was contradicted; and why it stopped, once it has. */
  datatype Pipe = Pipe(polls: seq<Poll>, dones: seq<EnrichDone>, slots: seq<BodySlot>, out: seq<Batch>, due: nat,
                       hot: nat, attempts: nat, end: Option<StreamEnd>)
  {
    /** The height to poll for. */
    function Polled(): nat {
      due + |slots|
    }
  }

  function Started(polls: seq<Poll>, dones: seq<EnrichDone>, out: seq<Batch>, beg: nat): Pipe {
    Pipe(polls, dones, [], out, beg, 0, 0, None)
  }

  /** All that can stop the front body: that it is still being enriched, or could not be. */
  predicate AtFront(end: Option<StreamEnd>) {
    end.Some? ==> end.value.Waiting? || (end.value.Failed? && end.value.cause.TaskBroke?)
  }

  /** The front body emitted, once it is enriched. */
  function Fronted(p: Pipe, req: DataRequest): (q: Pipe)
    requires p.slots != [] && p.end.None?
    ensures q.polls == p.polls && q.Polled() == p.Polled() && q.hot == p.hot && q.attempts == p.attempts
    ensures q.due >= p.due && (q.end.None? ==> |q.slots| == |p.slots| - 1) && AtFront(q.end)
  {
    var (left, settled) := Settled(p.dones, p.slots);
    if settled[0].done.None? then p.(dones := left, slots := settled, end := Some(Waiting))
    else
      var body, done := settled[0].job, settled[0].done.value;
      var x := EnrichedAs(body, req, done.task);
      if x.None? then p.(dones := left, slots := settled, end := Some(Failed(TaskBroke(body, done))))
      else p.(dones := left, slots := settled[1..], out := p.out + [Batch([x.value], None)], due := p.due + 1)
  }

  /** Bodies emitted from the front until `keep` are left. */
  function Drained(p: Pipe, req: DataRequest, keep: nat): (q: Pipe)
    requires p.end.None?
    ensures q.polls == p.polls && q.Polled() == p.Polled() && q.hot == p.hot && q.attempts == p.attempts
    ensures q.due >= p.due && (q.end.None? ==> |q.slots| <= keep) && AtFront(q.end)
    decreases |p.slots|
  {
    if |p.slots| <= keep then p
    else
      var q := Fronted(p, req);
      if q.end.Some? then q else Drained(q, req, keep)
  }

  /** The next poll's answer taken: a body that can stand goes into the pipeline, one that cannot is
      polled for again up to a limit, and a pause may let the front body out. */
  function AfterPoll(p: Pipe, req: DataRequest): (q: Pipe)
    requires p.end.None? && p.polls != [] && p.Polled() <= HEIGHT_MAX
    ensures q.polls == p.polls[1..] && q.due >= p.due && p.Polled() <= q.Polled() <= p.Polled() + 1
  {
    var n, next := p.Polled(), p.(polls := p.polls[1..]);
    match p.polls[0]
    case PollFailed => next.(end := Some(Failed(PollBroke(n))))
    case Absent(frontReady) =>
      if frontReady && p.slots != [] then Fronted(next.(hot := 0), req) else next.(hot := 0)
    case Body(header) =>
      var raw := FromHeader(n, header);
      if !raw.isInvalid then next.(slots := p.slots + [Slot(raw, None)], hot := p.hot + 1, attempts := 0)
      else if p.attempts < ENRICH_RETRIES then next.(hot := 0, attempts := p.attempts + 1)
      else
        var d := Drained(next.(hot := 0), req, 0);
        if d.end.Some? then d else d.(end := Some(Failed(Contradicted(n))))
  }

  /** How many bodies may be left in flight before the next poll: none once the range is polled, or
      once so much has come without a pause that strides are due. */
  function Keep(p: Pipe, last: Height, strideSize: nat): nat {
    if p.Polled() > last || p.hot > 2 * strideSize then 0 else PIPELINE_DEPTH - 1
  }

  /** The run from where the pipeline stands. */
  function Speculated(p: Pipe, req: DataRequest, last: Height, strideSize: nat): (q: Pipe)
    requires p.end.None?
    decreases |p.polls|
  {
    var keep := Keep(p, last, strideSize);
    var d := Drained(p, req, keep);
    if d.end.Some? || keep == 0 then d
    else if d.polls == [] then d.(end := Some(Waiting))
    else
      var next := AfterPoll(d, req);
      if next.end.Some? then next else Speculated(next, req, last, strideSize)
  }

  // ----- what is left of the queues ----------------------------------------------------------

  lemma FrontedLeaves(p: Pipe, req: DataRequest)
    requires p.slots != [] && p.end.None?
    ensures IsSuffix(Fronted(p, req).dones, p.dones)
  {
    hide Settled, EnrichedAs;
    SettledLeaves(p.dones, p.slots);
  }

  lemma {:induction false} DrainedLeaves(p: Pipe, req: DataRequest, keep: nat)
    requires p.end.None?
    ensures IsSuffix(Drained(p, req, keep).dones, p.dones)
    decreases |p.slots|
  {
    hide IsSuffix, Fronted;
    SuffixOfItself(p.dones);
    if |p.slots| > keep {
      FrontedLeaves(p, req);
      var q := Fronted(p, req);
      if q.end.None? {
        DrainedLeaves(q, req, keep);
        SuffixOfSuffix(Drained(q, req, keep).dones, q.dones, p.dones);
      }
    }
  }

  lemma AfterPollLeaves(p: Pipe, req: DataRequest)
    requires p.end.None? && p.polls != [] && p.Polled() <= HEIGHT_MAX
    ensures IsSuffix(AfterPoll(p, req).dones, p.dones)
  {
    hide IsSuffix, Fronted, Drained, FromHeader;
    SuffixOfItself(p.dones);
    var next := p.(polls := p.polls[1..], hot := 0);
    if p.slots != [] {
      FrontedLeaves(next, req);
    }
    DrainedLeaves(next, req, 0);
  }

  lemma {:induction false} SpeculatedLeaves(p: Pipe, req: DataRequest, last: Height, strideSize: nat)
    requires p.end.None?
    ensures IsSuffix(Speculated(p, req, last, strideSize).dones, p.dones)
    ensures IsSuffix(Speculated(p, req, last, strideSize).polls, p.polls)
    decreases |p.polls|
  {
    hide IsSuffix, Drained, AfterPoll;
    var keep := Keep(p, last, strideSize);
    var d := Drained(p, req, keep);
    DrainedLeaves(p, req, keep);
    SuffixOfItself(p.polls);
    if d.end.None? && keep != 0 && d.polls != [] {
      AfterPollLeaves(d, req);
      RestIsSuffix(p.polls);
      var next := AfterPoll(d, req);
      SuffixOfSuffix(next.dones, d.dones, p.dones);
      if next.end.None? {
        var q := Speculated(next, req, last, strideSize);
        SpeculatedLeaves(next, req, last, strideSize);
        SuffixOfSuffix(q.dones, next.dones, p.dones);
        SuffixOfSuffix(q.polls, next.polls, p.polls);
      }
    }
  }

  // ----- what is emitted ------------------------------------------------------------------------

  /** The bodies in flight were polled for the heights from `due` on, in order. */
  ghost predicate InOrder(seen: Upstream, slots: seq<BodySlot>, due: nat) {
    forall k :: 0 <= k < |slots| ==> PolledBody(seen, slots[k].job, due + k)
  }

  ghost predicate Emits(seen: Upstream, req: DataRequest, from: nat, p: Pipe) {
    && Emitted(seen, req, p.out, from, p.due) && InOrder(seen, p.slots, p.due) && Filled(p.slots, seen.enrichments)
  }

  /** Why the pipeline stopped, if it has: the poll or the completion it waits for is not there; the
      body due could not be enriched; a poll failed; or everything below a contradicted height is out. */
  ghost predicate Stopped(seen: Upstream, req: DataRequest, p: Pipe) {
    match p.end
    case None => true
    case Some(Waiting) => p.polls == [] || p.dones == []
    case Some(Failed(TaskBroke(body, done))) => Explains(seen, req, TaskBroke(body, done), p.due)
    case Some(Failed(PollBroke(at))) => PollFailed in seen.polls && at == p.Polled()
    case Some(Failed(Contradicted(at))) => at == p.due && p.slots == []
    case _ => false
  }

  lemma ClimbGivesHeader(seen: Upstream, h: Header, done: EnrichDone, body: RawBlock, b: RawBlock)
    requires Body(h) in seen.polls && done in seen.enrichments
    requires body.hash == h.hash && body.parentHash == h.parentHash
    requires HeaderSeen(body, done.task.retries, b)
    ensures HeaderGiven(seen, b.hash, b.parentHash)
  {
    var retries := done.task.retries;
    if b.hash != body.hash || b.parentHash != body.parentHash {
      var k :| 0 <= k < |retries| && retries[k].header.Some?
        && b.hash == retries[k].header.value.hash && b.parentHash == retries[k].header.value.parentHash;
      assert done in seen.enrichments && 0 <= k < |retries|;
    }
  }

  /** A finished task's block is the next one of the pipeline. */
  lemma TaskDelivers(seen: Upstream, req: DataRequest, body: RawBlock, done: EnrichDone, n: nat)
    requires PolledBody(seen, body, n) && done in seen.enrichments && EnrichedAs(body, req, done.task).Some?
    ensures var x := EnrichedAs(body, req, done.task).value;
      x.number == n && Consecutive([x], n) && BatchSourced(seen, req, Batch([x], None))
  {
    hide HeaderGiven, HeaderSeen, Enriched, EnrichedBy;
    var h :| Body(h) in seen.polls && n <= HEIGHT_MAX && body == FromHeader(n, h);
    EnrichedByDelivers(body, req, done.task.first, done.task.retries);
    var raw := EnrichedBy(body, req, done.task.first, done.task.retries).value;
    ClimbGivesHeader(seen, h, done, body, raw);
    var x := Mapped(raw);
    assert x.number == n;
    assert FromPipeline(seen, req, x);
  }

  lemma InOrderBehind(seen: Upstream, slots: seq<BodySlot>, settled: seq<BodySlot>, due: nat)
    requires InOrder(seen, slots, due) && SameJobs(settled, slots)
    ensures InOrder(seen, settled, due)
    ensures slots != [] ==> InOrder(seen, settled[1..], due + 1) && PolledBody(seen, settled[0].job, due)
  {
    hide PolledBody;
    if slots != [] {
      assert PolledBody(seen, slots[0].job, due + 0);
      forall k | 0 <= k < |settled| - 1
        ensures PolledBody(seen, settled[1..][k].job, due + 1 + k)
      {
        assert PolledBody(seen, slots[k + 1].job, due + (k + 1));
      }
    }
  }

  lemma FilledBehind(settled: seq<BodySlot>, seen: seq<EnrichDone>)
    requires settled != [] && Filled(settled, seen)
    ensures Filled(settled[1..], seen) && (settled[0].done.Some? ==> settled[0].done.value in seen)
  {
  }

  lemma FrontedEmits(seen: Upstream, req: DataRequest, from: nat, p: Pipe)
    requires p.slots != [] && p.end.None? && Emits(seen, req, from, p)
    requires Reading(seen.enrichments, p.dones, Fronted(p, req).dones)
    ensures Emits(seen, req, from, Fronted(p, req)) && Stopped(seen, req, Fronted(p, req))
  {
    hide Emitted, InOrder, Filled, Reading, Settled, PolledBody, EnrichedAs, BatchSourced, Consecutive;
    var (left, settled) := Settled(p.dones, p.slots);
    SettledIsRead(p.dones, p.slots, seen.enrichments);
    InOrderBehind(seen, p.slots, settled, p.due);
    FilledBehind(settled, seen.enrichments);
    if settled[0].done.Some? {
      var body, done := settled[0].job, settled[0].done.value;
      if EnrichedAs(body, req, done.task).Some? {
        TaskDelivers(seen, req, body, done, p.due);
        EmitsOn(seen, req, p.out, from, p.due, [EnrichedAs(body, req, done.task).value], None);
      }
    }
  }

  lemma {:induction false} DrainedEmits(seen: Upstream, req: DataRequest, from: nat, p: Pipe, keep: nat)
    requires p.end.None? && Emits(seen, req, from, p)
    requires Reading(seen.enrichments, p.dones, Drained(p, req, keep).dones)
    ensures Emits(seen, req, from, Drained(p, req, keep)) && Stopped(seen, req, Drained(p, req, keep))
    decreases |p.slots|
  {
    hide Emits, Reading, Fronted, IsSuffix;
    if |p.slots| > keep {
      var q := Fronted(p, req);
      FrontedLeaves(p, req);
      if q.end.None? {
        DrainedLeaves(q, req, keep);
        ReadSplit(seen.enrichments, p.dones, q.dones, Drained(q, req, keep).dones);
        FrontedEmits(seen, req, from, p);
        DrainedEmits(seen, req, from, q, keep);
      } else {
        FrontedEmits(seen, req, from, p);
      }
    }
  }

  lemma BodyBegins(seen: Upstream, req: DataRequest, from: nat, p: Pipe, h: Header)
    requires Emits(seen, req, from, p) && Body(h) in seen.polls && p.Polled() <= HEIGHT_MAX
    requires !FromHeader(p.Polled(), h).isInvalid
    ensures Emits(seen, req, from, p.(slots := p.slots + [Slot(FromHeader(p.Polled(), h), None)]))
  {
    hide Emitted, FromHeader;
    assert PolledBody(seen, FromHeader(p.Polled(), h), p.Polled());
  }

  /** Everything below a height that stays contradictory is emitted before the stream fails of it. */
  lemma AfterPollEmits(seen: Upstream, req: DataRequest, from: nat, p: Pipe)
    requires p.end.None? && p.polls != [] && p.Polled() <= HEIGHT_MAX && Emits(seen, req, from, p)
    requires p.polls[0] in seen.polls && Reading(seen.enrichments, p.dones, AfterPoll(p, req).dones)
    ensures Emits(seen, req, from, AfterPoll(p, req)) && Stopped(seen, req, AfterPoll(p, req))
  {
    hide Emitted, InOrder, Filled, Reading, Fronted, Drained, FromHeader, Explains;
    var next := p.(polls := p.polls[1..], hot := 0);
    match p.polls[0]
    case PollFailed =>
    case Absent(frontReady) =>
      if frontReady && p.slots != [] {
        FrontedEmits(seen, req, from, next);
      }
    case Body(header) =>
      if !FromHeader(p.Polled(), header).isInvalid {
        BodyBegins(seen, req, from, p, header);
      } else if p.attempts >= ENRICH_RETRIES {
        DrainedEmits(seen, req, from, next, 0);
      }
  }

  lemma {:induction false} SpeculatedEmits(seen: Upstream, req: DataRequest, from: nat, p: Pipe, last: Height,
      strideSize: nat)
    requires p.end.None? && Emits(seen, req, from, p)
    requires Reading(seen.enrichments, p.dones, Speculated(p, req, last, strideSize).dones)
    requires Reading(seen.polls, p.polls, Speculated(p, req, last, strideSize).polls)
    ensures var q := Speculated(p, req, last, strideSize);
      Emits(seen, req, from, q) && Stopped(seen, req, q)
    decreases |p.polls|
  {
    hide Emits, Reading, IsSuffix, Drained, AfterPoll, Explains;
    var q, keep := Speculated(p, req, last, strideSize), Keep(p, last, strideSize);
    var d := Drained(p, req, keep);
    DrainedLeaves(p, req, keep);
    SpeculatedStepLeaves(p, req, last, strideSize);
    ReadSplit(seen.enrichments, p.dones, d.dones, q.dones);
    DrainedEmits(seen, req, from, p, keep);
    if d.end.None? && keep != 0 {
      if d.polls == [] {
        EmitsWhenStopped(seen, req, from, d, Waiting);
      } else {
        var next := AfterPoll(d, req);
        AfterPollLeaves(d, req);
        ReadFirst(seen.polls, d.polls, q.polls);
        ReadSplit(seen.enrichments, d.dones, next.dones, q.dones);
        AfterPollEmits(seen, req, from, d);
        if next.end.None? {
          SpeculatedEmits(seen, req, from, next, last, strideSize);
        }
      }
    }
  }

  lemma EmitsWhenStopped(seen: Upstream, req: DataRequest, from: nat, p: Pipe, end: StreamEnd)
    requires Emits(seen, req, from, p)
    ensures Emits(seen, req, from, p.(end := Some(end)))
  {
  }

  lemma SpeculatedStepLeaves(p: Pipe, req: DataRequest, last: Height, strideSize: nat)
    requires p.end.None?
    ensures var q, d := Speculated(p, req, last, strideSize), Drained(p, req, Keep(p, last, strideSize));
      && IsSuffix(q.dones, d.dones)
      && (d.end.None? && Keep(p, last, strideSize) != 0 && d.polls != [] ==>
            IsSuffix(q.polls, d.polls[1..]) && IsSuffix(q.dones, AfterPoll(d, req).dones))
  {
    hide IsSuffix, Drained, AfterPoll;
    var keep := Keep(p, last, strideSize);
    var d := Drained(p, req, keep);
    SuffixOfItself(d.dones);
    if d.end.None? && keep != 0 && d.polls != [] {
      var next, q := AfterPoll(d, req), Speculated(p, req, last, strideSize);
      AfterPollLeaves(d, req);
      SuffixOfItself(next.dones);
      SuffixOfItself(next.polls);
      if next.end.None? {
        SpeculatedLeaves(next, req, last, strideSize);
      }
      SuffixOfSuffix(q.dones, next.dones, d.dones);
    }
  }

  // ----- how far it polls -------------------------------------------------------------------------

  /** The next height to poll for, after these polls from `beg` on. */
  function Reached(beg: nat, polls: seq<Poll>): (n: nat)
    ensures n >= beg
  {
    if polls == [] then beg
    else
      var n := Reached(beg, polls[..|polls| - 1]);
      if Stands(polls[|polls| - 1], n) then n + 1 else n
  }

  /** How many polls in a row, up to the last, brought a body that stands. */
  function Pauseless(beg: nat, polls: seq<Poll>): (k: nat)
    ensures k <= Reached(beg, polls) - beg
  {
    if polls != [] && Stands(polls[|polls| - 1], Reached(beg, polls[..|polls| - 1])) then
      Pauseless(beg, polls[..|polls| - 1]) + 1
    else 0
  }

  /** How often the height polled for has been contradicted, pauses or not. */
  function Attempts(beg: nat, polls: seq<Poll>): nat {
    if polls == [] then 0
    else
      var front, last := polls[..|polls| - 1], polls[|polls| - 1];
      if Stands(last, Reached(beg, front)) then 0
      else Attempts(beg, front) + if Contradicts(last, Reached(beg, front)) then 1 else 0
  }

  lemma {:induction false} AttemptsAreContradictions(beg: nat, polls: seq<Poll>)
    ensures Attempts(beg, polls) <= Contradictions(polls, Reached(beg, polls))
  {
    hide Stands, Contradicts;
    if polls != [] {
      AttemptsAreContradictions(beg, polls[..|polls| - 1]);
    }
  }

  /** Where polling stands, having begun at `beg` with `polls`: what is in flight reaches up to the
      height polled for; and while the run goes on no poll has failed, and it counts the bodies that
      came without a pause and the contradictions of the height. */
  ghost predicate Polling(polls: seq<Poll>, beg: nat, p: Pipe) {
    && IsSuffix(p.polls, polls)
    && p.Polled() == Reached(beg, TakenFrom(polls, p.polls))
    && (p.end.None? ==>
          && PollFailed !in TakenFrom(polls, p.polls)
          && p.hot == Pauseless(beg, TakenFrom(polls, p.polls))
          && p.attempts == Attempts(beg, TakenFrom(polls, p.polls)))
  }

  /** A run polls no further than it may: it fails of a poll exactly when one failed, with room left
      for its body; a height contradicted once more than it may be polled again ends it, with everything
      below out unless that cannot be; and no poll follows once strides are due. */
  ghost predicate PolledEnough(polls: seq<Poll>, beg: nat, strideSize: nat, p: Pipe)
    requires |p.polls| <= |polls|
  {
    var taken := TakenFrom(polls, p.polls);
    && (PollFailed in taken <==> p.end.Some? && p.end.value.Failed? && p.end.value.cause.PollBroke?)
    && (PollFailed in taken ==> |p.slots| < PIPELINE_DEPTH)
    && Attempts(beg, taken) <= ENRICH_RETRIES + 1
    && (p.end.Some? && p.end.value.Failed? && p.end.value.cause.Contradicted? ==>
          Attempts(beg, taken) == ENRICH_RETRIES + 1)
    && (Attempts(beg, taken) == ENRICH_RETRIES + 1 ==>
          p.end.Some? && (AtFront(p.end) || (p.end.value.Failed? && p.end.value.cause.Contradicted?)))
    && Pauseless(beg, taken) <= 2 * strideSize + 1
  }

  /** A run that is left without a fault has emitted every body polled, and either used up its range
      or come so far without a pause that strides are due. */
  ghost predicate LeftEmpty(polls: seq<Poll>, beg: nat, last: Height, strideSize: nat, p: Pipe)
    requires |p.polls| <= |polls|
  {
    p.end.None? ==>
      p.slots == [] && (p.due == last + 1 || Pauseless(beg, TakenFrom(polls, p.polls)) > 2 * strideSize)
  }

  lemma OneMorePoll(polls: seq<Poll>, left: seq<Poll>, beg: nat)
    requires IsSuffix(left, polls) && left != []
    ensures IsSuffix(left[1..], polls)
    ensures var now, taken := TakenFrom(polls, left[1..]), TakenFrom(polls, left);
      var n := Reached(beg, taken);
      && (PollFailed in now <==> PollFailed in taken || left[0] == PollFailed)
      && Reached(beg, now) == (if Stands(left[0], n) then n + 1 else n)
      && Pauseless(beg, now) == (if Stands(left[0], n) then Pauseless(beg, taken) + 1 else 0)
      && Attempts(beg, now) == if Stands(left[0], n) then 0
           else Attempts(beg, taken) + if Contradicts(left[0], n) then 1 else 0
  {
    hide Stands, Contradicts;
    SuffixRest(left, polls);
    TakeOneMore(polls, |polls| - |left|);
  }

  /** While a run goes on, no height has been contradicted more often than it may be polled again. */
  ghost predicate MayGoOn(p: Pipe, strideSize: nat) {
    p.attempts <= ENRICH_RETRIES && p.hot <= 2 * strideSize + 1 && |p.slots| <= PIPELINE_DEPTH
  }

  lemma AfterPollPolls(polls: seq<Poll>, beg: nat, p: Pipe, req: DataRequest, strideSize: nat)
    requires p.end.None? && p.polls != [] && p.Polled() <= HEIGHT_MAX && Polling(polls, beg, p)
    requires |p.slots| < PIPELINE_DEPTH && p.attempts <= ENRICH_RETRIES && p.hot <= 2 * strideSize
    ensures var q := AfterPoll(p, req);
      && Polling(polls, beg, q) && |q.slots| <= PIPELINE_DEPTH && PolledEnough(polls, beg, strideSize, q)
      && (q.end.None? ==> MayGoOn(q, strideSize))
  {
    hide Fronted, Drained, FromHeader, IsSuffix, Reached, Pauseless, Attempts, Stands, Contradicts, TakenFrom;
    PollingStands(polls, beg, p);
    OneMorePoll(polls, p.polls, beg);
    StandsOrContradicts(p.polls[0], p.Polled());
  }

  lemma StandsOrContradicts(poll: Poll, n: nat)
    ensures poll.Body? && n <= HEIGHT_MAX ==>
      (Stands(poll, n) <==> !FromHeader(n, poll.header).isInvalid) && (Contradicts(poll, n) <==> !Stands(poll, n))
    ensures !poll.Body? ==> !Stands(poll, n) && !Contradicts(poll, n)
  {
  }

  lemma PollingStands(polls: seq<Poll>, beg: nat, p: Pipe)
    requires Polling(polls, beg, p)
    ensures IsSuffix(p.polls, polls) && |p.polls| <= |polls|
  {
  }

  lemma DrainedPolls(polls: seq<Poll>, beg: nat, p: Pipe, d: Pipe, strideSize: nat)
    requires Polling(polls, beg, p) && p.end.None? && MayGoOn(p, strideSize)
    requires d.polls == p.polls && d.Polled() == p.Polled() && d.due >= p.due
    requires d.hot == p.hot && d.attempts == p.attempts && AtFront(d.end)
    ensures Polling(polls, beg, d) && |d.polls| <= |polls| && PolledEnough(polls, beg, strideSize, d)
    ensures |d.slots| <= PIPELINE_DEPTH
  {
    hide Reached, Pauseless, Attempts;
  }

  lemma {:induction false} SpeculatedPolls(polls: seq<Poll>, beg: nat, p: Pipe, req: DataRequest, last: Height,
      strideSize: nat)
    requires p.end.None? && Polling(polls, beg, p) && MayGoOn(p, strideSize) && p.Polled() <= last + 1
    ensures var q := Speculated(p, req, last, strideSize);
      && Polling(polls, beg, q) && |q.polls| <= |polls| && q.Polled() <= last + 1 && |q.slots| <= PIPELINE_DEPTH
      && PolledEnough(polls, beg, strideSize, q) && LeftEmpty(polls, beg, last, strideSize, q)
    decreases |p.polls|
  {
    hide Drained, AfterPoll, Reached, Pauseless, Attempts, IsSuffix, TakenFrom;
    var keep := Keep(p, last, strideSize);
    var d := Drained(p, req, keep);
    DrainedPolls(polls, beg, p, d, strideSize);
    if d.end.None? && keep != 0 {
      if d.polls == [] {
        WaitingPolls(polls, beg, d, strideSize);
      } else {
        var next := AfterPoll(d, req);
        AfterPollPolls(polls, beg, d, req, strideSize);
        PollingStands(polls, beg, next);
        if next.end.None? {
          SpeculatedPolls(polls, beg, next, req, last, strideSize);
        }
      }
    }
  }

  lemma WaitingPolls(polls: seq<Poll>, beg: nat, d: Pipe, strideSize: nat)
    requires Polling(polls, beg, d) && d.end.None? && |d.polls| <= |polls| && PolledEnough(polls, beg, strideSize, d)
    ensures Polling(polls, beg, d.(end := Some(Waiting))) && PolledEnough(polls, beg, strideSize, d.(end := Some(Waiting)))
  {
    hide Reached, Pauseless, Attempts;
  }

  /** While there is room in the pipeline it polls on without waiting for what is in flight; and in a
      pause a front body that is enriched goes out at once. */
  lemma PollsWithoutWaiting(p: Pipe, req: DataRequest, last: Height, strideSize: nat)
    requires p.end.None? && p.polls != [] && |p.slots| < PIPELINE_DEPTH
    requires p.Polled() <= last && p.hot <= 2 * strideSize
    ensures var next := AfterPoll(p, req);
      Speculated(p, req, last, strideSize) == if next.end.Some? then next else Speculated(next, req, last, strideSize)
    ensures p.polls[0] == Absent(true) && p.slots != [] && p.slots[0].done.Some? ==>
      var x := EnrichedAs(p.slots[0].job, req, p.slots[0].done.value.task);
      x.Some? ==> AfterPoll(p, req).out == p.out + [Batch([x.value], None)] && AfterPoll(p, req).due == p.due + 1
  {
    hide EnrichedAs;
  }

  // ----- what it adds ----------------------------------------------------------------------------------

  lemma FrontedAdds(p: Pipe, req: DataRequest, before: seq<Batch>)
    requires p.slots != [] && p.end.None? && Adds(before, p.out, None)
    ensures Adds(before, Fronted(p, req).out, None)
  {
    hide Settled, EnrichedAs;
  }

  lemma {:induction false} DrainedAdds(p: Pipe, req: DataRequest, keep: nat, before: seq<Batch>)
    requires p.end.None? && Adds(before, p.out, None)
    ensures Adds(before, Drained(p, req, keep).out, None)
    decreases |p.slots|
  {
    hide Fronted, Adds;
    if |p.slots| > keep {
      FrontedAdds(p, req, before);
      if Fronted(p, req).end.None? {
        DrainedAdds(Fronted(p, req), req, keep, before);
      }
    }
  }

  /** No batch of the pipeline reports a finalized head. */
  lemma {:induction false} SpeculatedAdds(p: Pipe, req: DataRequest, last: Height, strideSize: nat, before: seq<Batch>)
    requires p.end.None? && Adds(before, p.out, None)
    ensures Adds(before, Speculated(p, req, last, strideSize).out, None)
    decreases |p.polls|
  {
    hide Drained, AfterPoll, Adds;
    var keep := Keep(p, last, strideSize);
    var d := Drained(p, req, keep);
    DrainedAdds(p, req, keep, before);
    if d.end.None? && keep != 0 && d.polls != [] {
      AfterPollAdds(d, req, before);
      if AfterPoll(d, req).end.None? {
        SpeculatedAdds(AfterPoll(d, req), req, last, strideSize, before);
      }
    }
  }

  lemma AfterPollAdds(p: Pipe, req: DataRequest, before: seq<Batch>)
    requires p.end.None? && p.polls != [] && p.Polled() <= HEIGHT_MAX && Adds(before, p.out, None)
    ensures Adds(before, AfterPoll(p, req).out, None)
  {
    hide Fronted, Drained, FromHeader, Adds;
    var next := p.(polls := p.polls[1..], hot := 0);
    if p.slots != [] {
      FrontedAdds(next, req, before);
    }
    DrainedAdds(next, req, 0, before);
  }

  // ----- runs ------------------------------------------------------------------------------------------

  /** What a run of the pipeline from `beg` on means. What is emitted and what is in flight make up
      all that was polled, and it polls no further than it may; a run left without a fault has nothing
      in flight; a failed one has its cause at the first height not emitted, and a waiting one has used up what it waits for. */
  ghost predicate RunsWell(seen: Upstream, req: DataRequest, polls: seq<Poll>, from: nat, beg: nat, last: Height,
      strideSize: nat, p: Pipe)
    requires |p.polls| <= |polls|
  {
    && Emitted(seen, req, p.out, from, p.due) && p.due <= last + 1
    && p.due + |p.slots| == Reached(beg, TakenFrom(polls, p.polls)) && |p.slots| <= PIPELINE_DEPTH
    && LeftEmpty(polls, beg, last, strideSize, p) && PolledEnough(polls, beg, strideSize, p)
    && (p.end.Some? ==>
         match p.end.value
         case Waiting => p.polls == [] || p.dones == []
         case Failed(cause) => Explains(seen, req, cause, p.due)
         case Finished => false)
  }

  lemma RunEnds(seen: Upstream, req: DataRequest, polls: seq<Poll>, from: nat, beg: nat, last: Height,
      strideSize: nat, p: Pipe)
    requires Emits(seen, req, from, p) && Stopped(seen, req, p) && Polling(polls, beg, p) && p.Polled() <= last + 1
    requires |p.polls| <= |polls| && |p.slots| <= PIPELINE_DEPTH
    requires PolledEnough(polls, beg, strideSize, p) && LeftEmpty(polls, beg, last, strideSize, p)
    requires Reading(seen.polls, polls, p.polls)
    ensures RunsWell(seen, req, polls, from, beg, last, strideSize, p)
  {
    hide Emitted, InOrder, Filled, Reached, Contradictions, LeftEmpty, Attempts, Pauseless;
    AttemptsAreContradictions(beg, TakenFrom(polls, p.polls));
    ContradictionsRead(seen.polls, polls, p.polls, p.Polled());
  }

  lemma PipelineEmits(seen: Upstream, req: DataRequest, polls: seq<Poll>, dones: seq<EnrichDone>, out: seq<Batch>,
      from: nat, beg: nat, last: Height, strideSize: nat)
    requires Emitted(seen, req, out, from, beg) && beg <= last + 1
    requires Reading(seen.polls, polls, Speculated(Started(polls, dones, out, beg), req, last, strideSize).polls)
    requires Reading(seen.enrichments, dones, Speculated(Started(polls, dones, out, beg), req, last, strideSize).dones)
    ensures RunsWell(seen, req, polls, from, beg, last, strideSize,
                     Speculated(Started(polls, dones, out, beg), req, last, strideSize))
    ensures Adds(out, Speculated(Started(polls, dones, out, beg), req, last, strideSize).out, None)
  {
    hide Emitted, Reading, Speculated, RunsWell;
    var p := Started(polls, dones, out, beg);
    assert Polling(polls, beg, p);
    SpeculatedEmits(seen, req, from, p, last, strideSize);
    SpeculatedPolls(polls, beg, p, req, last, strideSize);
    SpeculatedAdds(p, req, last, strideSize, out);
    RunEnds(seen, req, polls, from, beg, last, strideSize, Speculated(p, req, last, strideSize));
  }

  /** A failed poll does not wait for what is in flight: with one body polled and the next poll
      failing, the stream fails with that body not emitted. */
  lemma FailedPollDropsBody(h: Header, n: Height, last: Height, req: DataRequest, dones: seq<EnrichDone>,
      out: seq<Batch>, strideSize: nat)
    requires Stands(Body(h), n) && n < last && strideSize > 0
    ensures var p := Speculated(Started([Body(h), PollFailed], dones, out, n), req, last, strideSize);
      p.end == Some(Failed(PollBroke(n + 1))) && p.out == out && p.due == n
  {
    hide FromHeader;
    var start := Started([Body(h), PollFailed], dones, out, n);
    var polled := AfterPoll(start, req);
    assert polled.polls == [PollFailed] && polled.end.None?;
    assert Speculated(polled, req, last, strideSize) == AfterPoll(polled, req);
  }

  // ----- the loops ----------------------------------------------------------------------------------

  /** Wait for the front body and emit it. */
  method DeliverFront(p: Pipe, req: DataRequest) returns (q: Pipe)
    requires p.slots != [] && p.end.None?
    ensures q == Fronted(p, req)
  {
    hide Settled, EnrichedBy;
    var left, settled := AwaitFront(p.dones, p.slots);
    q := p.(dones := left, slots := settled);
    if settled[0].done.None? {
      return q.(end := Some(Waiting));
    }
    var body, done := settled[0].job, settled[0].done.value;
    var raw, kinds, blocks := EnrichBlockWithRetry(body, req, done.task.first, done.task.retries);
    if raw.None? || !done.task.mapped {
      return q.(end := Some(Failed(TaskBroke(body, done))));
    }
    q := q.(slots := settled[1..], out := p.out + [Batch([Mapped(raw.value)], None)], due := p.due + 1);
  }

  /** Emit from the front until `keep` bodies are left. */
  method Drain(p: Pipe, req: DataRequest, keep: nat) returns (q: Pipe)
    requires p.end.None?
    ensures q == Drained(p, req, keep)
  {
    hide Fronted;
    q := p;
    while |q.slots| > keep
      invariant q.end.None? && Drained(q, req, keep) == Drained(p, req, keep)
      decreases |q.slots|
    {
      q := DeliverFront(q, req);
      if q.end.Some? {
        return;
      }
    }
  }

  /** Poll one height after another, with at most `PIPELINE_DEPTH` bodies being enriched at a time,
      until the range is used up or so much has come without a pause that strides are due again. */
  method Speculate(polls: seq<Poll>, dones: seq<EnrichDone>, req: DataRequest, out: seq<Batch>, beg: nat,
      last: Height, strideSize: nat)
    returns (p: Pipe)
    requires beg <= last + 1
    ensures p == Speculated(Started(polls, dones, out, beg), req, last, strideSize)
  {
    hide Drained, Fronted;
    p := Started(polls, dones, out, beg);
    while true
      invariant p.end.None?
      invariant Speculated(p, req, last, strideSize) == Speculated(Started(polls, dones, out, beg), req, last, strideSize)
      decreases |p.polls|
    {
      var drainAll := p.Polled() > last || p.hot > 2 * strideSize;
      p := Drain(p, req, if drainAll then 0 else PIPELINE_DEPTH - 1);
      if p.end.Some? || drainAll {
        return;
      }
      if p.polls == [] {
        return p.(end := Some(Waiting));
      }
      var n, poll := p.Polled(), p.polls[0];
      p := p.(polls := p.polls[1..]);
      match poll {
        case PollFailed =>
          return p.(end := Some(Failed(PollBroke(n))));
        case Absent(frontReady) =>
          p := p.(hot := 0);
          if frontReady && p.slots != [] {
            p := DeliverFront(p, req);
          }
        case Body(header) =>
          var raw := FromHeader(n, header);
          if !raw.isInvalid {
            p := p.(slots := p.slots + [Slot(raw, None)], hot := p.hot + 1, attempts := 0);
          } else {
            p := p.(hot := 0);
            if p.attempts >= ENRICH_RETRIES {
              p := Drain(p, req, 0);
              return if p.end.Some? then p else p.(end := Some(Failed(Contradicted(n))));
            }
            p := p.(attempts := p.attempts + 1);
          }
      }
      if p.end.Some? {
        return;
      }
    }
  }
}
