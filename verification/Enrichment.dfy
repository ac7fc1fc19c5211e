/** Enrichment of one head block: the legs a request selects, the verdict marks a failed round
    leaves, and the retry ladder that re-acquires legs or the whole block. */
module Enrichment {
  import opened Sequences
  import opened Types

  const ENRICH_RETRIES: nat := 10
  const LEGS_ONLY_RETRIES: nat := 3

  datatype DataRequest = DataRequest(
    logs: bool, receipts: bool, traces: bool, stateDiffs: bool,
    useTraceApi: bool, useDebugApiForStateDiffs: bool)

  /** A raw block: its header, which legs have landed, and the verdict of the last round.
      `headerOk` says the enabled header checks passed. */
  datatype RawBlock = RawBlock(
    number: Height, hash: string, parentHash: string, headerOk: bool,
    logs: bool, receipts: bool, debugFrames: bool, debugStateDiffs: bool, traceReplays: bool,
    isInvalid: bool, isNotReady: bool, headerContested: bool)
  {
    function MarkInvalid(): RawBlock {
      this.(isInvalid := true, isNotReady := false, headerContested := false)
    }

    /** Marks a block as lagging, unless it already stands as incoherent. */
    function MarkNotReady(): RawBlock {
      if isInvalid && !isNotReady then this else this.(isInvalid := true, isNotReady := true)
    }

    function MarkHeaderContested(): RawBlock {
      if isInvalid && !isNotReady then this else MarkNotReady().(headerContested := true)
    }

    function ClearInvalid(): RawBlock {
      this.(isInvalid := false, isNotReady := false, headerContested := false)
    }

    /** A contradiction: waiting cannot heal it. */
    predicate Incoherent() {
      isInvalid && !isNotReady
    }
  }

  // ----- the legs of a request ---------------------------------------------------

  predicate WantsDebugFrames(req: DataRequest) {
    req.traces && !req.useTraceApi
  }

  predicate WantsDebugDiffs(req: DataRequest) {
    req.stateDiffs && req.useDebugApiForStateDiffs
  }

  predicate WantsReplayDiffs(req: DataRequest) {
    req.stateDiffs && !req.useDebugApiForStateDiffs
  }

  /** `trace_block` alone, where no replay call runs for the state diffs. */
  predicate WantsTraceBlock(req: DataRequest) {
    req.traces && req.useTraceApi && !WantsReplayDiffs(req)
  }

  /** The traces leg, whole: genesis is never traced. */
  predicate TracesLegInHand(b: RawBlock, req: DataRequest) {
    b.number == 0 ||
    (&& (WantsDebugFrames(req) ==> b.debugFrames)
     && (WantsDebugDiffs(req) ==> b.debugStateDiffs)
     && (WantsReplayDiffs(req) || (req.traces && req.useTraceApi) ==> b.traceReplays))
  }

  /** `req` less the legs that have landed; traces and state diffs count as one, landed together or
      not at all. */
  function MissingLegs(b: RawBlock, req: DataRequest): DataRequest {
    var tracesInHand := TracesLegInHand(b, req);
    req.(logs := req.logs && !b.logs, receipts := req.receipts && !b.receipts,
         traces := req.traces && !tracesInHand, stateDiffs := req.stateDiffs && !tracesInHand)
  }

  predicate Selects(req: DataRequest) {
    req.logs || req.receipts || req.traces || req.stateDiffs
  }

  predicate Complete(b: RawBlock, req: DataRequest) {
    && (req.logs ==> b.logs)
    && (req.receipts ==> b.receipts)
    && (req.traces || req.stateDiffs ==> TracesLegInHand(b, req))
  }

  // ----- one round ---------------------------------------------------------------

  datatype LegAnswer = Landed | Lagging | Contested | Contradictory

  /** What one round of leg fetches came back with; the trace sub-legs land or contradict. */
  datatype RoundAnswer = RoundAnswer(
    logs: LegAnswer, receipts: LegAnswer,
    framesOk: bool, diffsOk: bool, replaysOk: bool, traceBlockOk: bool)

  /** What a leg may do to a block: add legs, and mark it. The header stays, and an incoherent mark
      is never lifted or softened. */
  ghost predicate Grows(b: RawBlock, c: RawBlock) {
    && c.number == b.number && c.hash == b.hash && c.parentHash == b.parentHash && c.headerOk == b.headerOk
    && (b.logs ==> c.logs) && (b.receipts ==> c.receipts) && (b.debugFrames ==> c.debugFrames)
    && (b.debugStateDiffs ==> c.debugStateDiffs) && (b.traceReplays ==> c.traceReplays)
    && (b.isInvalid ==> c.isInvalid) && (b.Incoherent() ==> c.Incoherent())
  }

  /** Logs are never reported under another block's hash, so they cannot contest the header. */
  function ApplyLogs(b: RawBlock, a: LegAnswer): (r: RawBlock)
    ensures Grows(b, r) && (r.isInvalid || r.logs)
  {
    match a
    case Landed => b.(logs := true)
    case Contradictory => b.MarkInvalid()
    case _ => b.MarkNotReady()
  }

  function ApplyReceipts(b: RawBlock, a: LegAnswer): (r: RawBlock)
    ensures Grows(b, r) && (r.isInvalid || r.receipts)
  {
    match a
    case Landed => b.(receipts := true)
    case Lagging => b.MarkNotReady()
    case Contested => b.MarkHeaderContested()
    case Contradictory => b.MarkInvalid()
  }

  function ApplyDebugFrames(b: RawBlock, ok: bool): (r: RawBlock)
    ensures Grows(b, r) && (r.isInvalid || r.debugFrames)
  {
    if ok then b.(debugFrames := true) else b.MarkInvalid()
  }

  function ApplyDebugDiffs(b: RawBlock, ok: bool): (r: RawBlock)
    ensures Grows(b, r) && (r.isInvalid || r.debugStateDiffs)
  {
    if ok then b.(debugStateDiffs := true) else b.MarkInvalid()
  }

  function ApplyReplays(b: RawBlock, ok: bool): (r: RawBlock)
    ensures Grows(b, r) && (r.isInvalid || r.traceReplays)
  {
    if ok then b.(traceReplays := true) else b.MarkInvalid()
  }

  /** The debug sub-legs, then the replay sub-legs: each has landed, or the block is marked. */
  function ApplyDebugLegs(b: RawBlock, req: DataRequest, a: RoundAnswer): (r: RawBlock)
    ensures Grows(b, r)
    ensures r.isInvalid || ((WantsDebugFrames(req) ==> r.debugFrames) && (WantsDebugDiffs(req) ==> r.debugStateDiffs))
  {
    var b1 := if WantsDebugFrames(req) then ApplyDebugFrames(b, a.framesOk) else b;
    if WantsDebugDiffs(req) then ApplyDebugDiffs(b1, a.diffsOk) else b1
  }

  function ApplyReplayLegs(b: RawBlock, req: DataRequest, a: RoundAnswer): (r: RawBlock)
    ensures Grows(b, r)
    ensures r.isInvalid || (WantsReplayDiffs(req) || WantsTraceBlock(req) ==> r.traceReplays)
  {
    var b1 := if WantsReplayDiffs(req) then ApplyReplays(b, a.replaysOk) else b;
    if WantsTraceBlock(req) then ApplyReplays(b1, a.traceBlockOk) else b1
  }

  function ApplyTraces(b: RawBlock, req: DataRequest, a: RoundAnswer): (r: RawBlock)
    ensures Grows(b, r) && (r.isInvalid || TracesLegInHand(r, req))
  {
    if b.number == 0 then b else ApplyReplayLegs(ApplyDebugLegs(b, req, a), req, a)
  }

  /** The legs of `req`, applied in their fixed order: each has landed, or the block is marked. */
  function FetchAndApply(b: RawBlock, req: DataRequest, a: RoundAnswer): (r: RawBlock)
    ensures Grows(b, r) && (r.isInvalid || Complete(r, req))
  {
    var b1 := if req.logs then ApplyLogs(b, a.logs) else b;
    var b2 := if req.receipts then ApplyReceipts(b1, a.receipts) else b1;
    if req.traces || req.stateDiffs then ApplyTraces(b2, req, a) else b2
  }

  /** Fetching only the missing legs completes the whole request: the verdict may be cleared
      because nothing it stood for is lost. */
  lemma ResidualRoundCompletes(b: RawBlock, req: DataRequest, a: RoundAnswer)
    ensures var r := FetchAndApply(b.ClearInvalid(), MissingLegs(b, req), a);
      r.isInvalid || Complete(r, req)
  {
    var residual := MissingLegs(b, req);
    var r := FetchAndApply(b.ClearInvalid(), residual, a);
    if !r.isInvalid && (req.traces || req.stateDiffs) && !TracesLegInHand(b, req) {
      assert TracesLegInHand(r, residual);
    }
  }

  /** What a complete block holds: genesis aside, call frames where the debug API serves the traces and
      replays where the trace API does, and likewise for the state diffs. */
  lemma CompleteMeans(b: RawBlock, req: DataRequest)
    ensures Complete(b, req) <==>
      && (req.logs ==> b.logs) && (req.receipts ==> b.receipts)
      && (b.number != 0 && req.traces ==> if req.useTraceApi then b.traceReplays else b.debugFrames)
      && (b.number != 0 && req.stateDiffs ==> if req.useDebugApiForStateDiffs then b.debugStateDiffs else b.traceReplays)
  {
  }

  /** A residual request asks for nothing in hand, and for something exactly while a leg is missing. */
  lemma MissingLegsAreMissing(b: RawBlock, req: DataRequest)
    ensures var residual := MissingLegs(b, req);
      && (Selects(residual) <==> !Complete(b, req))
      && (residual.logs <==> req.logs && !b.logs) && (residual.receipts <==> req.receipts && !b.receipts)
      && (residual.traces || residual.stateDiffs ==> !TracesLegInHand(b, req))
      && residual.useTraceApi == req.useTraceApi
      && residual.useDebugApiForStateDiffs == req.useDebugApiForStateDiffs
  {
  }

  // ----- what a round's verdict means ----------------------------------------------------

  predicate Unmarked(b: RawBlock) {
    !b.isInvalid && !b.isNotReady && !b.headerContested
  }

  /** Every trace sub-leg that the request wants of this block was answered as landed. */
  predicate TracesLanded(b: RawBlock, req: DataRequest, a: RoundAnswer) {
    b.number == 0 ||
    (&& (WantsDebugFrames(req) ==> a.framesOk) && (WantsDebugDiffs(req) ==> a.diffsOk)
     && (WantsReplayDiffs(req) ==> a.replaysOk) && (WantsTraceBlock(req) ==> a.traceBlockOk))
  }

  /** Every leg wanted was. */
  predicate AllLanded(b: RawBlock, req: DataRequest, a: RoundAnswer) {
    && (req.logs ==> a.logs == Landed) && (req.receipts ==> a.receipts == Landed)
    && TracesLanded(b, req, a)
  }

  /** Some leg wanted was answered by a contradiction. */
  predicate SomeContradict(b: RawBlock, req: DataRequest, a: RoundAnswer) {
    || (req.logs && a.logs == Contradictory) || (req.receipts && a.receipts == Contradictory)
    || !TracesLanded(b, req, a)
  }

  /** The marks a block may carry: none, incoherent, or lagging, and then possibly contested. */
  predicate WellMarked(b: RawBlock) {
    Unmarked(b) || (b.isInvalid && (b.headerContested ==> b.isNotReady))
  }

  /** What a leg does to the marks: it leaves an unmarked block unmarked exactly when it landed, makes
      a block incoherent exactly when it contradicts, and contests the header if it says so and
      nothing is contradicted. */
  ghost predicate Marked(b: RawBlock, c: RawBlock, landed: bool, contradicts: bool, contests: bool) {
    && (Unmarked(c) <==> Unmarked(b) && landed)
    && (c.Incoherent() <==> b.Incoherent() || contradicts)
    && (c.headerContested <==> (b.headerContested || contests) && !c.Incoherent())
    && WellMarked(c) && c.number == b.number
  }

  lemma LegMarks(b: RawBlock, wanted: bool, a: LegAnswer)
    requires WellMarked(b)
    ensures Marked(b, if wanted then ApplyLogs(b, a) else b, wanted ==> a == Landed, wanted && a == Contradictory, false)
    ensures Marked(b, if wanted then ApplyReceipts(b, a) else b,
                   wanted ==> a == Landed, wanted && a == Contradictory, wanted && a == Contested)
  {
  }

  lemma SubLegMarks(b: RawBlock, wanted: bool, ok: bool)
    requires WellMarked(b)
    ensures Marked(b, if wanted then ApplyDebugFrames(b, ok) else b, wanted ==> ok, wanted && !ok, false)
    ensures Marked(b, if wanted then ApplyDebugDiffs(b, ok) else b, wanted ==> ok, wanted && !ok, false)
    ensures Marked(b, if wanted then ApplyReplays(b, ok) else b, wanted ==> ok, wanted && !ok, false)
  {
  }

  /** Legs one after another. */
  lemma MarksAdd(b: RawBlock, c: RawBlock, d: RawBlock, l: bool, k: bool, t: bool, l': bool, k': bool, t': bool)
    requires Marked(b, c, l, k, t) && Marked(c, d, l', k', t')
    ensures Marked(b, d, l && l', k || k', t || t')
  {
  }

  lemma WellMarkedAfter(b: RawBlock, c: RawBlock, l: bool, k: bool, t: bool)
    requires Marked(b, c, l, k, t)
    ensures WellMarked(c) && c.number == b.number
  {
  }

  lemma DebugLegMarks(b: RawBlock, req: DataRequest, a: RoundAnswer)
    requires WellMarked(b)
    ensures var frames, diffs := WantsDebugFrames(req), WantsDebugDiffs(req);
      Marked(b, ApplyDebugLegs(b, req, a), (frames ==> a.framesOk) && (diffs ==> a.diffsOk),
             (frames && !a.framesOk) || (diffs && !a.diffsOk), false)
  {
    hide Marked, WellMarked, ApplyDebugFrames, ApplyDebugDiffs;
    var frames, diffs := WantsDebugFrames(req), WantsDebugDiffs(req);
    var b1 := if frames then ApplyDebugFrames(b, a.framesOk) else b;
    SubLegMarks(b, frames, a.framesOk);
    WellMarkedAfter(b, b1, frames ==> a.framesOk, frames && !a.framesOk, false);
    SubLegMarks(b1, diffs, a.diffsOk);
    MarksAdd(b, b1, ApplyDebugLegs(b, req, a), frames ==> a.framesOk, frames && !a.framesOk, false,
             diffs ==> a.diffsOk, diffs && !a.diffsOk, false);
  }

  lemma ReplayLegMarks(b: RawBlock, req: DataRequest, a: RoundAnswer)
    requires WellMarked(b)
    ensures var replays, traceBlock := WantsReplayDiffs(req), WantsTraceBlock(req);
      Marked(b, ApplyReplayLegs(b, req, a), (replays ==> a.replaysOk) && (traceBlock ==> a.traceBlockOk),
             (replays && !a.replaysOk) || (traceBlock && !a.traceBlockOk), false)
  {
    hide Marked, WellMarked, ApplyReplays;
    var replays, traceBlock := WantsReplayDiffs(req), WantsTraceBlock(req);
    var b1 := if replays then ApplyReplays(b, a.replaysOk) else b;
    SubLegMarks(b, replays, a.replaysOk);
    WellMarkedAfter(b, b1, replays ==> a.replaysOk, replays && !a.replaysOk, false);
    SubLegMarks(b1, traceBlock, a.traceBlockOk);
    MarksAdd(b, b1, ApplyReplayLegs(b, req, a), replays ==> a.replaysOk, replays && !a.replaysOk, false,
             traceBlock ==> a.traceBlockOk, traceBlock && !a.traceBlockOk, false);
  }

  lemma TraceMarks(b: RawBlock, req: DataRequest, a: RoundAnswer)
    requires WellMarked(b)
    ensures Marked(b, ApplyTraces(b, req, a), TracesLanded(b, req, a), !TracesLanded(b, req, a), false)
  {
    hide ApplyDebugLegs, ApplyReplayLegs;
    if b.number != 0 {
      var b1 := ApplyDebugLegs(b, req, a);
      DebugLegMarks(b, req, a);
      ReplayLegMarks(b1, req, a);
    }
  }

  lemma NoTracesWanted(b: RawBlock, req: DataRequest, a: RoundAnswer)
    requires !req.traces && !req.stateDiffs
    ensures TracesLanded(b, req, a)
  {
  }

  /** The verdict of a round on an unmarked block is that of its answers: unmarked exactly when every
      leg wanted landed, incoherent exactly when one contradicts, and otherwise lagging, its header
      contested exactly when the receipts were of another block. */
  lemma RoundVerdict(b: RawBlock, req: DataRequest, a: RoundAnswer)
    requires Unmarked(b)
    ensures var r := FetchAndApply(b, req, a);
      && (!r.isInvalid <==> AllLanded(b, req, a)) && (Unmarked(r) <==> AllLanded(b, req, a))
      && (r.Incoherent() <==> SomeContradict(b, req, a))
      && (r.headerContested <==> req.receipts && a.receipts == Contested && !SomeContradict(b, req, a))
  {
    hide ApplyLogs, ApplyReceipts, ApplyTraces, TracesLanded;
    var b1 := if req.logs then ApplyLogs(b, a.logs) else b;
    var b2 := if req.receipts then ApplyReceipts(b1, a.receipts) else b1;
    LegMarks(b, req.logs, a.logs);
    LegMarks(b1, req.receipts, a.receipts);
    TracesFollowNumber(b, b2, req, a);
    if req.traces || req.stateDiffs {
      TraceMarks(b2, req, a);
    } else {
      NoTracesWanted(b, req, a);
    }
  }

  lemma TracesFollowNumber(b: RawBlock, c: RawBlock, req: DataRequest, a: RoundAnswer)
    requires b.number == c.number
    ensures TracesLanded(b, req, a) <==> TracesLanded(c, req, a)
  {
  }

  /** A leg is in hand after a round exactly when it was before, or was wanted and answered as landed. */
  lemma LegsAreAnswered(b: RawBlock, req: DataRequest, a: RoundAnswer)
    ensures var r := FetchAndApply(b, req, a);
      && (r.logs <==> b.logs || (req.logs && a.logs == Landed))
      && (r.receipts <==> b.receipts || (req.receipts && a.receipts == Landed))
      && (r.debugFrames <==> b.debugFrames || (b.number != 0 && WantsDebugFrames(req) && a.framesOk))
      && (r.debugStateDiffs <==> b.debugStateDiffs || (b.number != 0 && WantsDebugDiffs(req) && a.diffsOk))
      && (r.traceReplays <==> b.traceReplays || (b.number != 0 && ReplaysAnswered(req, a)))
  {
    hide ApplyLogs, ApplyReceipts, ApplyTraces;
    var b1 := if req.logs then ApplyLogs(b, a.logs) else b;
    var b2 := if req.receipts then ApplyReceipts(b1, a.receipts) else b1;
    LegHands(b, a.logs);
    LegHands(b1, a.receipts);
    TraceHands(b2, req, a);
  }

  /** Replays land with the state diffs or, where no replay runs for those, with `trace_block`. */
  predicate ReplaysAnswered(req: DataRequest, a: RoundAnswer) {
    (WantsReplayDiffs(req) && a.replaysOk) || (WantsTraceBlock(req) && a.traceBlockOk)
  }

  predicate SameTraces(b: RawBlock, c: RawBlock) {
    && c.number == b.number && c.debugFrames == b.debugFrames
    && c.debugStateDiffs == b.debugStateDiffs && c.traceReplays == b.traceReplays
  }

  lemma LegHands(b: RawBlock, a: LegAnswer)
    ensures var r := ApplyLogs(b, a);
      SameTraces(b, r) && r.receipts == b.receipts && (r.logs <==> b.logs || a == Landed)
    ensures var r := ApplyReceipts(b, a);
      SameTraces(b, r) && r.logs == b.logs && (r.receipts <==> b.receipts || a == Landed)
  {
  }

  lemma TraceHands(b: RawBlock, req: DataRequest, a: RoundAnswer)
    ensures var r := ApplyTraces(b, req, a);
      && r.logs == b.logs && r.receipts == b.receipts
      && (r.debugFrames <==> b.debugFrames || (b.number != 0 && WantsDebugFrames(req) && a.framesOk))
      && (r.debugStateDiffs <==> b.debugStateDiffs || (b.number != 0 && WantsDebugDiffs(req) && a.diffsOk))
      && (r.traceReplays <==> b.traceReplays || (b.number != 0 && ReplaysAnswered(req, a)))
  {
    hide ApplyDebugLegs, ApplyReplayLegs, WantsDebugFrames, WantsDebugDiffs, ReplaysAnswered;
    DebugHands(b, req, a);
    ReplayHands(ApplyDebugLegs(b, req, a), req, a);
  }

  lemma DebugHands(b: RawBlock, req: DataRequest, a: RoundAnswer)
    ensures var r := ApplyDebugLegs(b, req, a);
      && r.logs == b.logs && r.receipts == b.receipts && r.traceReplays == b.traceReplays && r.number == b.number
      && (r.debugFrames <==> b.debugFrames || (WantsDebugFrames(req) && a.framesOk))
      && (r.debugStateDiffs <==> b.debugStateDiffs || (WantsDebugDiffs(req) && a.diffsOk))
  {
    hide WantsDebugFrames, WantsDebugDiffs, ApplyDebugFrames, ApplyDebugDiffs;
    SubLegHands(b, a.framesOk);
    SubLegHands(if WantsDebugFrames(req) then ApplyDebugFrames(b, a.framesOk) else b, a.diffsOk);
  }

  lemma ReplayHands(b: RawBlock, req: DataRequest, a: RoundAnswer)
    ensures var r := ApplyReplayLegs(b, req, a);
      && r.logs == b.logs && r.receipts == b.receipts
      && r.debugFrames == b.debugFrames && r.debugStateDiffs == b.debugStateDiffs
      && (r.traceReplays <==> b.traceReplays || ReplaysAnswered(req, a))
  {
    hide WantsReplayDiffs, WantsTraceBlock, ApplyReplays;
    SubLegHands(b, a.replaysOk);
    SubLegHands(if WantsReplayDiffs(req) then ApplyReplays(b, a.replaysOk) else b, a.traceBlockOk);
  }

  predicate SameButFor(b: RawBlock, c: RawBlock, frames: bool, diffs: bool, replays: bool) {
    && c.number == b.number && c.logs == b.logs && c.receipts == b.receipts
    && (c.debugFrames <==> b.debugFrames || frames) && (c.debugStateDiffs <==> b.debugStateDiffs || diffs)
    && (c.traceReplays <==> b.traceReplays || replays)
  }

  lemma SubLegHands(b: RawBlock, ok: bool)
    ensures SameButFor(b, ApplyDebugFrames(b, ok), ok, false, false)
    ensures SameButFor(b, ApplyDebugDiffs(b, ok), false, ok, false)
    ensures SameButFor(b, ApplyReplays(b, ok), false, false, ok)
  {
  }

  // ----- the retry ladder ---------------------------------------------------------

  datatype Header = Header(number: Height, hash: string, parentHash: string, checksPass: bool)

  /** A fetched header under the sanity gate: the requested number, and the enabled checks. */
  function FromHeader(requested: Height, h: Header): (b: RawBlock)
    ensures HeaderHonest(requested, b)
  {
    var b := RawBlock(h.number, h.hash, h.parentHash, h.checksPass,
                      false, false, false, false, false, false, false, false);
    if h.number != requested || !h.checksPass then b.MarkInvalid() else b
  }

  /** The header is the requested one and passed its checks, or the block is marked incoherent. */
  predicate HeaderHonest(requested: Height, b: RawBlock) {
    (b.number == requested && b.headerOk) || b.Incoherent()
  }

  /** What the upstream does with one retry: whether the not-ready deadline fell first, whether the
      transport failed, and what the legs and, for a whole re-acquisition, the header said. */
  datatype Retry = Retry(deadlinePassed: bool, transportFailed: bool, header: Option<Header>, round: RoundAnswer)

  datatype RetryKind = LegsOnly | WholeNotReady | WholeIncoherent

  function CountIncoherent(kinds: seq<RetryKind>): nat {
    if kinds == [] then 0
    else CountIncoherent(kinds[..|kinds| - 1]) + if kinds[|kinds| - 1] == WholeIncoherent then 1 else 0
  }

  /** Of the retries from `i` on, one of the first few was not legs-only. */
  ghost predicate BrokenSoon(kinds: seq<RetryKind>, i: nat) {
    exists j :: i <= j <= i + LEGS_ONLY_RETRIES && j < |kinds| && kinds[j] != LegsOnly
  }

  /** No more than `LEGS_ONLY_RETRIES` legs-only retries in a row. */
  ghost predicate StreaksBounded(kinds: seq<RetryKind>) {
    forall i: nat :: i + LEGS_ONLY_RETRIES < |kinds| ==> BrokenSoon(kinds, i)
  }

  /** The last `streak` retries, and no more, were legs-only. */
  ghost predicate TrailingStreak(kinds: seq<RetryKind>, streak: nat) {
    && streak <= |kinds|
    && (forall j :: |kinds| - streak <= j < |kinds| ==> kinds[j] == LegsOnly)
    && (streak < |kinds| ==> kinds[|kinds| - streak - 1] != LegsOnly)
  }

  lemma RetryCounted(kinds: seq<RetryKind>, streak: nat, kind: RetryKind)
    requires StreaksBounded(kinds) && TrailingStreak(kinds, streak)
    requires kind == LegsOnly ==> streak < LEGS_ONLY_RETRIES
    ensures StreaksBounded(kinds + [kind])
    ensures TrailingStreak(kinds + [kind], if kind == LegsOnly then streak + 1 else 0)
    ensures CountIncoherent(kinds + [kind]) == CountIncoherent(kinds) + if kind == WholeIncoherent then 1 else 0
  {
    var more := kinds + [kind];
    assert more[..|kinds|] == kinds;
    forall i: nat | i + LEGS_ONLY_RETRIES < |more|
      ensures BrokenSoon(more, i)
    {
      if i + LEGS_ONLY_RETRIES < |kinds| {
        assert BrokenSoon(kinds, i);
        var j :| i <= j <= i + LEGS_ONLY_RETRIES && j < |kinds| && kinds[j] != LegsOnly;
        assert more[j] != LegsOnly;
      } else if kind == LegsOnly {
        assert more[|kinds| - streak - 1] != LegsOnly;
      } else {
        assert more[|kinds|] != LegsOnly;
      }
    }
  }

  /** What the ladder may return: the requested block, valid, with every selected leg in hand. */
  ghost predicate Enriched(requested: Height, req: DataRequest, b: RawBlock) {
    b.number == requested && b.headerOk && !b.isInvalid && Complete(b, req)
  }

  /** What the ladder holds between rounds: nothing, or a block whose header is honest and which,
      if it is valid, is finished. */
  ghost predicate InLadder(requested: Height, req: DataRequest, block: Option<RawBlock>) {
    block.Some? ==> HeaderHonest(requested, block.value) && (block.value.isInvalid || Complete(block.value, req))
  }

  predicate Unfinished(block: Option<RawBlock>) {
    block.None? || block.value.isInvalid
  }

  /** Waiting may heal it: no block at all, or one whose data lags. */
  predicate Waits(block: Option<RawBlock>) {
    block.None? || block.value.isNotReady
  }

  /** How many of the last retries in a row were legs-only. */
  function Streak(kinds: seq<RetryKind>): nat {
    if kinds != [] && kinds[|kinds| - 1] == LegsOnly then Streak(kinds[..|kinds| - 1]) + 1 else 0
  }

  /** The retry an unfinished block is due: its missing legs while they lag an uncontested header
      and not too often in a row, and otherwise all of it. */
  function DueRetry(req: DataRequest, block: Option<RawBlock>, streak: nat): RetryKind {
    if !Waits(block) then WholeIncoherent
    else if block.Some? && !block.value.headerContested && streak < LEGS_ONLY_RETRIES
      && Selects(MissingLegs(block.value, req)) then LegsOnly
    else WholeNotReady
  }

  /** Lagging data may be retried until the deadline, a contradiction until the count is spent. */
  predicate MayRetry(kinds: seq<RetryKind>, block: Option<RawBlock>, retry: Retry) {
    if Waits(block) then !retry.deadlinePassed else CountIncoherent(kinds) < ENRICH_RETRIES
  }

  /** The block in hand after a retry. */
  function NextBlock(requested: Height, req: DataRequest, block: Option<RawBlock>, kind: RetryKind, retry: Retry)
      : Option<RawBlock>
  {
    if retry.transportFailed then None
    else if kind == LegsOnly && block.Some? then
      Some(FetchAndApply(block.value.ClearInvalid(), MissingLegs(block.value, req), retry.round))
    else if retry.header.None? then None
    else Some(FetchAndApply(FromHeader(requested, retry.header.value), req, retry.round))
  }

  lemma NextInLadder(requested: Height, req: DataRequest, block: Option<RawBlock>, streak: nat, retry: Retry)
    requires InLadder(requested, req, block) && Unfinished(block)
    ensures InLadder(requested, req, NextBlock(requested, req, block, DueRetry(req, block, streak), retry))
  {
    if block.Some? {
      ResidualRoundCompletes(block.value, req, retry.round);
    }
  }

  // ----- a climb, retry by retry ---------------------------------------------------------

  /** Retry `i` was made of the block then in hand, which was unfinished and had budget left; it was
      of the kind that block was due, and it left the next block in hand. */
  ghost predicate RetriedAt(requested: Height, req: DataRequest, retries: seq<Retry>, kinds: seq<RetryKind>,
      blocks: seq<Option<RawBlock>>, i: nat)
    requires i < |kinds| <= |retries| && |blocks| == |kinds| + 1
  {
    && Unfinished(blocks[i]) && MayRetry(kinds[..i], blocks[i], retries[i])
    && (i > 0 ==> !retries[i - 1].transportFailed)
    && kinds[i] == DueRetry(req, blocks[i], Streak(kinds[..i]))
    && blocks[i + 1] == NextBlock(requested, req, blocks[i], kinds[i], retries[i])
  }

  /** The blocks in hand around each retry, from the first round's on. */
  ghost predicate Laddered(body: RawBlock, req: DataRequest, first: RoundAnswer, retries: seq<Retry>,
      kinds: seq<RetryKind>, blocks: seq<Option<RawBlock>>)
  {
    && |blocks| == |kinds| + 1 && |kinds| <= |retries|
    && blocks[0] == Some(FetchAndApply(body, req, first))
    && forall i :: 0 <= i < |kinds| ==> RetriedAt(body.number, req, retries, kinds, blocks, i)
  }

  /** The climb ends at a finished block, or where no retry may follow. */
  predicate Stops(retries: seq<Retry>, kinds: seq<RetryKind>, last: Option<RawBlock>)
    requires |kinds| <= |retries|
  {
    || !Unfinished(last)
    || |kinds| == |retries|
    || (kinds != [] && retries[|kinds| - 1].transportFailed)
    || !MayRetry(kinds, last, retries[|kinds|])
  }

  /** The whole climb: `kinds` are all the retries made, `blocks` what they worked on, `r` the answer. */
  ghost predicate Climbed(body: RawBlock, req: DataRequest, first: Option<RoundAnswer>, retries: seq<Retry>,
      kinds: seq<RetryKind>, blocks: seq<Option<RawBlock>>, r: Option<RawBlock>)
  {
    if !Selects(req) then kinds == [] && r == Some(body)
    else if first.None? then kinds == [] && r == None
    else
      && Laddered(body, req, first.value, retries, kinds, blocks)
      && Stops(retries, kinds, blocks[|kinds|])
      && r == if Unfinished(blocks[|kinds|]) then None else blocks[|kinds|]
  }

  /** Where a climb ends up that has made these retries and holds this block. */
  function Ladder(requested: Height, req: DataRequest, retries: seq<Retry>, kinds: seq<RetryKind>,
      block: Option<RawBlock>): Option<RawBlock>
    requires |kinds| <= |retries|
    decreases |retries| - |kinds|
  {
    if Stops(retries, kinds, block) then if Unfinished(block) then None else block
    else
      var kind := DueRetry(req, block, Streak(kinds));
      Ladder(requested, req, retries, kinds + [kind], NextBlock(requested, req, block, kind, retries[|kinds|]))
  }

  /** What enriching `body` comes to, as the upstream's answers determine. */
  function EnrichedBy(body: RawBlock, req: DataRequest, first: Option<RoundAnswer>, retries: seq<Retry>)
      : Option<RawBlock>
  {
    if !Selects(req) then Some(body)
    else if first.None? then None
    else Ladder(body.number, req, retries, [], Some(FetchAndApply(body, req, first.value)))
  }

  lemma {:induction false} LadderOfClimb(body: RawBlock, req: DataRequest, first: RoundAnswer, retries: seq<Retry>,
      kinds: seq<RetryKind>, blocks: seq<Option<RawBlock>>, n: nat)
    requires Laddered(body, req, first, retries, kinds, blocks) && n <= |kinds|
    ensures Ladder(body.number, req, retries, kinds[..n], blocks[n])
         == Ladder(body.number, req, retries, kinds, blocks[|kinds|])
    decreases |kinds| - n
  {
    hide DueRetry, NextBlock, Unfinished, MayRetry, Streak, FetchAndApply;
    if n < |kinds| {
      assert RetriedAt(body.number, req, retries, kinds, blocks, n);
      TakeOneMore(kinds, n);
      LadderOfClimb(body, req, first, retries, kinds, blocks, n + 1);
    } else {
      TakeAll(kinds);
    }
  }

  /** Every climb over the same answers ends the same way. */
  lemma ClimbIsLadder(body: RawBlock, req: DataRequest, first: Option<RoundAnswer>, retries: seq<Retry>,
      kinds: seq<RetryKind>, blocks: seq<Option<RawBlock>>, r: Option<RawBlock>)
    requires Climbed(body, req, first, retries, kinds, blocks, r)
    ensures r == EnrichedBy(body, req, first, retries)
  {
    hide Laddered, Ladder, Stops;
    if Selects(req) && first.Some? {
      LadderOfClimb(body, req, first.value, retries, kinds, blocks, 0);
      LadderEnds(body, req, first.value, retries, kinds, blocks);
    }
  }

  lemma LadderEnds(body: RawBlock, req: DataRequest, first: RoundAnswer, retries: seq<Retry>,
      kinds: seq<RetryKind>, blocks: seq<Option<RawBlock>>)
    requires Laddered(body, req, first, retries, kinds, blocks)
    ensures kinds[..0] == [] && blocks[0] == Some(FetchAndApply(body, req, first))
    ensures Stops(retries, kinds, blocks[|kinds|]) ==>
      Ladder(body.number, req, retries, kinds, blocks[|kinds|])
        == if Unfinished(blocks[|kinds|]) then None else blocks[|kinds|]
  {
  }

  /** Later retries do not change earlier ones. */
  lemma RetriedBefore(requested: Height, req: DataRequest, retries: seq<Retry>, kinds: seq<RetryKind>,
      blocks: seq<Option<RawBlock>>, i: nat, kind: RetryKind, next: Option<RawBlock>)
    requires i < |kinds| < |retries| && |blocks| == |kinds| + 1 && RetriedAt(requested, req, retries, kinds, blocks, i)
    ensures RetriedAt(requested, req, retries, kinds + [kind], blocks + [next], i)
  {
    hide DueRetry, NextBlock, Unfinished, MayRetry, Streak;
    assert (kinds + [kind])[..i] == kinds[..i];
  }

  /** `kind` is due to the block in hand, and `next` is what it leaves. */
  ghost predicate NextRetry(requested: Height, req: DataRequest, retries: seq<Retry>, kinds: seq<RetryKind>,
      last: Option<RawBlock>, kind: RetryKind, next: Option<RawBlock>)
  {
    && |kinds| < |retries| && !Stops(retries, kinds, last)
    && kind == DueRetry(req, last, Streak(kinds))
    && next == NextBlock(requested, req, last, kind, retries[|kinds|])
  }

  lemma RetriedLast(requested: Height, req: DataRequest, retries: seq<Retry>, kinds: seq<RetryKind>,
      blocks: seq<Option<RawBlock>>, kind: RetryKind, next: Option<RawBlock>)
    requires |blocks| == |kinds| + 1 && NextRetry(requested, req, retries, kinds, blocks[|kinds|], kind, next)
    ensures RetriedAt(requested, req, retries, kinds + [kind], blocks + [next], |kinds|)
  {
    hide DueRetry, NextBlock, Unfinished, MayRetry, Streak;
    SnocFront(kinds, kind);
  }

  lemma LadderGrows(body: RawBlock, req: DataRequest, first: RoundAnswer, retries: seq<Retry>,
      kinds: seq<RetryKind>, blocks: seq<Option<RawBlock>>, kind: RetryKind, next: Option<RawBlock>)
    requires Laddered(body, req, first, retries, kinds, blocks)
    requires NextRetry(body.number, req, retries, kinds, blocks[|kinds|], kind, next)
    ensures Laddered(body, req, first, retries, kinds + [kind], blocks + [next])
  {
    hide DueRetry, NextBlock, Stops, Streak, RetriedAt, FetchAndApply;
    forall i | 0 <= i < |kinds|
      ensures RetriedAt(body.number, req, retries, kinds + [kind], blocks + [next], i)
    {
      RetriedBefore(body.number, req, retries, kinds, blocks, i, kind, next);
    }
    RetriedLast(body.number, req, retries, kinds, blocks, kind, next);
  }

  /** What each retry was of, and what it did. It was made of an unfinished block, after no failure in
      transport, and of lagging data only before the deadline. It counts against the incoherence budget exactly when
      the block it was made of was incoherent. It fetches legs alone exactly of a block whose data
      lagged under an uncontested header, that lacks legs, unless the last three did; it then keeps
      header and legs, and any other takes the header that the upstream answered it. */
  lemma KindsFollowBlocks(body: RawBlock, req: DataRequest, first: RoundAnswer, retries: seq<Retry>,
      kinds: seq<RetryKind>, blocks: seq<Option<RawBlock>>, i: nat)
    requires Laddered(body, req, first, retries, kinds, blocks) && i < |kinds|
    ensures blocks[i].None? || blocks[i].value.isInvalid
    ensures kinds[i] == WholeIncoherent <==> blocks[i].Some? && blocks[i].value.Incoherent()
    ensures kinds[i] == LegsOnly <==>
      && blocks[i].Some? && blocks[i].value.isNotReady && !blocks[i].value.headerContested
      && Selects(MissingLegs(blocks[i].value, req)) && !LegsOnlyBefore(kinds, i)
    ensures kinds[i] != WholeIncoherent ==> !retries[i].deadlinePassed
    ensures i > 0 ==> !retries[i - 1].transportFailed
    ensures kinds[i] == LegsOnly && !retries[i].transportFailed ==>
      blocks[i + 1].Some? && KeepsHeader(blocks[i].value, blocks[i + 1].value)
    ensures kinds[i] != LegsOnly && !retries[i].transportFailed ==>
      if retries[i].header.None? then blocks[i + 1].None?
      else blocks[i + 1].Some? && FromUpstream(retries[i].header.value, blocks[i + 1].value)
  {
    hide FetchAndApply, MissingLegs, Streak;
    assert RetriedAt(body.number, req, retries, kinds, blocks, i);
    StreakTrails(kinds[..i]);
    ThreeBefore(kinds, i);
    if kinds[i] == LegsOnly {
      GrowsFrom(blocks[i].value.ClearInvalid(), MissingLegs(blocks[i].value, req), retries[i].round);
    } else if retries[i].header.Some? {
      GrowsFrom(FromHeader(body.number, retries[i].header.value), req, retries[i].round);
    }
  }

  /** The three retries before the i-th fetched legs alone. */
  ghost predicate LegsOnlyBefore(kinds: seq<RetryKind>, i: nat) {
    LEGS_ONLY_RETRIES <= i <= |kinds| && forall j :: i - LEGS_ONLY_RETRIES <= j < i ==> kinds[j] == LegsOnly
  }

  lemma ThreeBefore(kinds: seq<RetryKind>, i: nat)
    requires i <= |kinds| && TrailingStreak(kinds[..i], Streak(kinds[..i]))
    ensures LegsOnlyBefore(kinds, i) <==> Streak(kinds[..i]) >= LEGS_ONLY_RETRIES
  {
    hide Streak;
    var k, streak := kinds[..i], Streak(kinds[..i]);
    assert streak < i ==> k[i - streak - 1] == kinds[i - streak - 1];
    if streak >= LEGS_ONLY_RETRIES {
      forall j | i - LEGS_ONLY_RETRIES <= j < i
        ensures kinds[j] == LegsOnly
      {
        assert k[j] == kinds[j];
      }
    }
  }

  predicate KeepsHeader(b: RawBlock, c: RawBlock) {
    && c.number == b.number && c.hash == b.hash && c.parentHash == b.parentHash && c.headerOk == b.headerOk
    && (b.logs ==> c.logs) && (b.receipts ==> c.receipts) && (b.debugFrames ==> c.debugFrames)
    && (b.debugStateDiffs ==> c.debugStateDiffs) && (b.traceReplays ==> c.traceReplays)
  }

  predicate FromUpstream(h: Header, b: RawBlock) {
    b.number == h.number && b.hash == h.hash && b.parentHash == h.parentHash && b.headerOk == h.checksPass
  }

  lemma GrowsFrom(b: RawBlock, req: DataRequest, a: RoundAnswer)
    ensures Grows(b, FetchAndApply(b, req, a))
  {
  }

  lemma {:induction false} StreakTrails(kinds: seq<RetryKind>)
    ensures TrailingStreak(kinds, Streak(kinds))
  {
    if kinds != [] && kinds[|kinds| - 1] == LegsOnly {
      StreakTrails(kinds[..|kinds| - 1]);
    }
  }

  /** So of the retries of any climb, at most ten were of incoherent blocks, however many not-ready
      answers came between, and at most three in a row were legs-only. */
  lemma {:induction false} LadderBudget(body: RawBlock, req: DataRequest, first: RoundAnswer, retries: seq<Retry>,
      kinds: seq<RetryKind>, blocks: seq<Option<RawBlock>>, n: nat)
    requires Laddered(body, req, first, retries, kinds, blocks) && n <= |kinds|
    ensures CountIncoherent(kinds[..n]) <= ENRICH_RETRIES && StreaksBounded(kinds[..n])
    decreases n
  {
    hide Streak, Unfinished, NextBlock, StreaksBounded, TrailingStreak;
    if n > 0 {
      var before := kinds[..n - 1];
      LadderBudget(body, req, first, retries, kinds, blocks, n - 1);
      assert RetriedAt(body.number, req, retries, kinds, blocks, n - 1);
      StreakTrails(before);
      RetryCounted(before, Streak(before), kinds[n - 1]);
      TakeOneMore(kinds, n - 1);
    } else {
      NothingRetried();
      assert kinds[..n] == [];
    }
  }

  /** A first round in which every leg lands is all it takes. */
  lemma LandedAtOnce(body: RawBlock, req: DataRequest, a: RoundAnswer, retries: seq<Retry>)
    requires Unmarked(body) && AllLanded(body, req, a)
    ensures EnrichedBy(body, req, Some(a), retries)
         == Some(if Selects(req) then FetchAndApply(body, req, a) else body)
  {
    hide FetchAndApply, AllLanded;
    RoundVerdict(body, req, a);
  }

  lemma ClimbsNoFurther(body: RawBlock, req: DataRequest, a: RoundAnswer, retries: seq<Retry>,
      kinds: seq<RetryKind>, blocks: seq<Option<RawBlock>>, r: Option<RawBlock>)
    requires Climbed(body, req, Some(a), retries, kinds, blocks, r) && Unmarked(body) && AllLanded(body, req, a)
    ensures kinds == []
  {
    hide FetchAndApply, AllLanded, RetriedAt, Unmarked;
    if Selects(req) {
      FirstRetryIsOfUnfinished(body, req, a, retries, kinds, blocks);
    }
    RoundVerdict(body, req, a);
  }

  lemma FirstRetryIsOfUnfinished(body: RawBlock, req: DataRequest, a: RoundAnswer, retries: seq<Retry>,
      kinds: seq<RetryKind>, blocks: seq<Option<RawBlock>>)
    requires Laddered(body, req, a, retries, kinds, blocks)
    ensures kinds != [] ==> FetchAndApply(body, req, a).isInvalid
  {
    hide FetchAndApply;
    assert kinds != [] ==> RetriedAt(body.number, req, retries, kinds, blocks, 0);
  }

  /** Why a climb gives up: the first round or the last retry failed in transport; it has no more
      answers to go by; the data lagged when the deadline fell; or the block was incoherent with all
      ten re-acquisitions of that kind made. */
  ghost predicate GaveUp(first: Option<RoundAnswer>, retries: seq<Retry>, kinds: seq<RetryKind>,
      blocks: seq<Option<RawBlock>>)
  {
    || first.None?
    || (&& |blocks| == |kinds| + 1
        && (var last := blocks[|kinds|];
            || |kinds| >= |retries|
            || (kinds != [] && retries[|kinds| - 1].transportFailed)
            || ((last.None? || last.value.isNotReady) && retries[|kinds|].deadlinePassed)
            || (last.Some? && last.value.Incoherent() && CountIncoherent(kinds) == ENRICH_RETRIES)))
  }

  lemma GivesUpOnlyThen(body: RawBlock, req: DataRequest, first: Option<RoundAnswer>, retries: seq<Retry>,
      kinds: seq<RetryKind>, blocks: seq<Option<RawBlock>>, r: Option<RawBlock>)
    requires Climbed(body, req, first, retries, kinds, blocks, r) && r.None?
    ensures GaveUp(first, retries, kinds, blocks)
  {
    hide DueRetry, NextBlock, FetchAndApply, StreaksBounded, RetriedAt;
    if first.Some? {
      LadderBudget(body, req, first.value, retries, kinds, blocks, |kinds|);
      TakeAll(kinds);
    }
  }

  lemma NothingRetried()
    ensures StreaksBounded([])
  {
  }

  /** The block's header is the polled one, or one a retry fetched. */
  ghost predicate HeaderSeen(body: RawBlock, retries: seq<Retry>, b: RawBlock) {
    || (b.hash == body.hash && b.parentHash == body.parentHash)
    || exists k :: 0 <= k < |retries| && retries[k].header.Some?
         && b.hash == retries[k].header.value.hash && b.parentHash == retries[k].header.value.parentHash
  }

  lemma NextHeaderSeen(body: RawBlock, req: DataRequest, retries: seq<Retry>, block: Option<RawBlock>, kind: RetryKind,
      i: nat)
    requires i < |retries| && (block.Some? ==> HeaderSeen(body, retries, block.value))
    ensures var next := NextBlock(body.number, req, block, kind, retries[i]);
      next.Some? ==> HeaderSeen(body, retries, next.value)
  {
  }

  /** Every block held on the way is in the ladder, and its header came from the upstream. */
  lemma {:induction false} LadderIsHonest(body: RawBlock, req: DataRequest, first: RoundAnswer, retries: seq<Retry>,
      kinds: seq<RetryKind>, blocks: seq<Option<RawBlock>>, i: nat)
    requires Laddered(body, req, first, retries, kinds, blocks) && i < |blocks| && HeaderHonest(body.number, body)
    ensures InLadder(body.number, req, blocks[i])
    ensures blocks[i].Some? ==> HeaderSeen(body, retries, blocks[i].value)
    decreases i
  {
    hide DueRetry, NextBlock, InLadder, HeaderSeen, HeaderHonest;
    if i > 0 {
      LadderIsHonest(body, req, first, retries, kinds, blocks, i - 1);
      assert RetriedAt(body.number, req, retries, kinds, blocks, i - 1);
      NextInLadder(body.number, req, blocks[i - 1], Streak(kinds[..i - 1]), retries[i - 1]);
      NextHeaderSeen(body, req, retries, blocks[i - 1], kinds[i - 1], i - 1);
    } else {
      FirstInLadder(body, req, first, retries);
    }
  }

  lemma FirstInLadder(body: RawBlock, req: DataRequest, first: RoundAnswer, retries: seq<Retry>)
    requires HeaderHonest(body.number, body)
    ensures InLadder(body.number, req, Some(FetchAndApply(body, req, first)))
    ensures HeaderSeen(body, retries, FetchAndApply(body, req, first))
  {
  }

  /** What the ladder ends up with is the requested block, finished, under a header the upstream gave. */
  lemma {:induction false} LadderDelivers(body: RawBlock, req: DataRequest, retries: seq<Retry>, kinds: seq<RetryKind>,
      block: Option<RawBlock>)
    requires |kinds| <= |retries| && InLadder(body.number, req, block)
    requires block.Some? ==> HeaderSeen(body, retries, block.value)
    ensures var r := Ladder(body.number, req, retries, kinds, block);
      r.Some? ==> Enriched(body.number, req, r.value) && HeaderSeen(body, retries, r.value)
    decreases |retries| - |kinds|
  {
    hide DueRetry, NextBlock, MayRetry, Streak, HeaderSeen, Complete;
    if !Stops(retries, kinds, block) {
      var kind := DueRetry(req, block, Streak(kinds));
      NextInLadder(body.number, req, block, Streak(kinds), retries[|kinds|]);
      NextHeaderSeen(body, req, retries, block, kind, |kinds|);
      LadderDelivers(body, req, retries, kinds + [kind],
                     NextBlock(body.number, req, block, kind, retries[|kinds|]));
    }
  }

  lemma EnrichedByDelivers(body: RawBlock, req: DataRequest, first: Option<RoundAnswer>, retries: seq<Retry>)
    requires HeaderHonest(body.number, body) && !body.isInvalid
    ensures var r := EnrichedBy(body, req, first, retries);
      r.Some? ==>
        && r.value.number == body.number && !r.value.isInvalid && HeaderSeen(body, retries, r.value)
        && (Selects(req) ==> Enriched(body.number, req, r.value))
  {
    hide Ladder, InLadder, FetchAndApply;
    if Selects(req) && first.Some? {
      FirstInLadder(body, req, first.value, retries);
      LadderDelivers(body, req, retries, [], Some(FetchAndApply(body, req, first.value)));
    }
  }

  /** What a climb returns is the requested block, finished, under a header the upstream gave. */
  lemma ClimbEnriches(body: RawBlock, req: DataRequest, first: Option<RoundAnswer>, retries: seq<Retry>,
      kinds: seq<RetryKind>, blocks: seq<Option<RawBlock>>, r: Option<RawBlock>)
    requires Climbed(body, req, first, retries, kinds, blocks, r)
    ensures CountIncoherent(kinds) <= ENRICH_RETRIES && StreaksBounded(kinds)
    ensures HeaderHonest(body.number, body) && r.Some? ==>
      HeaderSeen(body, retries, r.value) && (Selects(req) ==> Enriched(body.number, req, r.value))
  {
    if Selects(req) && first.Some? {
      LadderBudget(body, req, first.value, retries, kinds, blocks, |kinds|);
      TakeAll(kinds);
      if HeaderHonest(body.number, body) {
        LadderIsHonest(body, req, first.value, retries, kinds, blocks, |kinds|);
      }
    }
  }

  /** Enrich a block, retrying as its verdicts allow: missing legs while data lags an uncontested
      header, the whole block otherwise; lagging under a deadline, incoherence under a count that
      not-ready answers do not reset. None when a budget is spent or the transport fails. `kinds`
      and `blocks` are the retries made and the blocks they were made of. */
  method EnrichBlockWithRetry(body: RawBlock, req: DataRequest, first: Option<RoundAnswer>, retries: seq<Retry>)
    returns (r: Option<RawBlock>, ghost kinds: seq<RetryKind>, ghost blocks: seq<Option<RawBlock>>)
    ensures Climbed(body, req, first, retries, kinds, blocks, r)
    ensures r == EnrichedBy(body, req, first, retries)
    ensures CountIncoherent(kinds) <= ENRICH_RETRIES && StreaksBounded(kinds)
    ensures HeaderHonest(body.number, body) && r.Some? && Selects(req) ==> Enriched(body.number, req, r.value)
    ensures first.Some? && Unmarked(body) && AllLanded(body, req, first.value) ==> r.Some? && kinds == []
    ensures r.None? ==> GaveUp(first, retries, kinds, blocks)
    ensures r.Some? && !Selects(req) ==> r.value == body
  {
    r, kinds, blocks := Climb(body, req, first, retries);
    hide Climbed, EnrichedBy, Enriched, StreaksBounded, GaveUp, AllLanded;
    ClimbIsLadder(body, req, first, retries, kinds, blocks, r);
    ClimbEnriches(body, req, first, retries, kinds, blocks, r);
    if first.Some? && Unmarked(body) && AllLanded(body, req, first.value) {
      LandedAtOnce(body, req, first.value, retries);
      ClimbsNoFurther(body, req, first.value, retries, kinds, blocks, r);
    }
    if r.None? {
      GivesUpOnlyThen(body, req, first, retries, kinds, blocks, r);
    }
  }

  /** The loop itself. */
  method Climb(body: RawBlock, req: DataRequest, first: Option<RoundAnswer>, retries: seq<Retry>)
    returns (r: Option<RawBlock>, ghost kinds: seq<RetryKind>, ghost blocks: seq<Option<RawBlock>>)
    ensures Climbed(body, req, first, retries, kinds, blocks, r)
  {
    kinds, blocks := [], [];
    if !Selects(req) {
      return Some(body), kinds, blocks;
    }
    var incoherentRetries, legsOnlyStreak: nat := 0, 0;
    if first.None? {
      return None, kinds, blocks;
    }
    var block := Some(FetchAndApply(body, req, first.value));
    blocks := [block];

    for k := 0 to |retries|
      invariant Laddered(body, req, first.value, retries, kinds, blocks) && |kinds| == k && block == blocks[k]
      invariant k > 0 ==> !retries[k - 1].transportFailed
      invariant incoherentRetries == CountIncoherent(kinds) && legsOnlyStreak == Streak(kinds)
    {
      if block.Some? && !block.value.isInvalid {
        return block, kinds, blocks;
      }
      var notReady := block.None? || block.value.isNotReady;
      var retry := retries[k];
      if notReady {
        if retry.deadlinePassed {
          return None, kinds, blocks;
        }
      } else {
        if incoherentRetries >= ENRICH_RETRIES {
          return None, kinds, blocks;
        }
        incoherentRetries := incoherentRetries + 1;
      }
      var contested := block.Some? && block.value.headerContested;
      var legsOnly := notReady && !contested && legsOnlyStreak < LEGS_ONLY_RETRIES
        && block.Some? && Selects(MissingLegs(block.value, req));
      ghost var kind := DueRetry(req, block, legsOnlyStreak);
      ghost var next := NextBlock(body.number, req, block, kind, retry);
      LadderGrows(body, req, first.value, retries, kinds, blocks, kind, next);
      SnocFront(kinds, kind);
      legsOnlyStreak := if legsOnly then legsOnlyStreak + 1 else 0;
      kinds, blocks := kinds + [kind], blocks + [next];
      if retry.transportFailed {
        return None, kinds, blocks;
      }
      block := if legsOnly then
          Some(FetchAndApply(block.value.ClearInvalid(), MissingLegs(block.value, req), retry.round))
        else if retry.header.None? then None
        else Some(FetchAndApply(FromHeader(body.number, retry.header.value), req, retry.round));
    }
    r := if block.Some? && !block.value.isInvalid then block else None;
  }
}
