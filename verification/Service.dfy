/** The ingestion service: seeding, one atomic step per batch, the session loop, and the run loop
    with its restart ladder and fork rebase. */
module Service {
  import opened Sequences
  import opened Types
  import opened Window
  import opened ChainBuffer
  import opened Refinement
  import opened Finality
  import Forks
  import Model

  // ----- the run as a function of what the source answers -------------------------

  /** What the source answers a re-seed: its finalized head, then the stream's first item. */
  datatype InitAnswer = InitAnswer(head: Option<BlockRef>, seed: Option<Batch>)

  datatype InitError = DivergentReseed | Refused

  datatype SessionEnd = Ended | ForkedAt(previous: seq<BlockRef>) | Failed

  /** One turn of the run loop: the answers to a re-seed, should one be due, then the stream. */
  datatype Script = Script(init: InitAnswer, items: seq<StreamItem>)

  datatype RunState = RunState(state: Model.State, base: BlockRef, stacked: nat, started: bool)

  datatype RunEnd = Stopped | StartupFailure | Terminal

  datatype Progress = Running(run: RunState) | Done(end: RunEnd, run: RunState)

  const STALL_REINIT := 5

  /** Streams open one above the base, saturating at the top of the height range. */
  function StreamFrom(base: BlockRef): Height {
    if base.number < HEIGHT_MAX then base.number + 1 else HEIGHT_MAX
  }

  /** The seed the source delivered is the block it named, well shaped. */
  predicate SeedUsable(a: InitAnswer) {
    && a.head.Some? && UsableHash(a.head.value.hash)
    && a.seed.Some? && Model.Admissible(a.seed.value) && |a.seed.value.blocks| == 1
    && a.seed.value.blocks[0].parentNumber <= a.seed.value.blocks[0].number
    && a.seed.value.blocks[0].Ref() == a.head.value
  }

  /** The seed contradicts a block held at its height, by ref or by parent link. */
  predicate SeedDiverges(b: Buffer, seed: Block) {
    exists i :: 0 <= i < |b.blocks| && b.blocks[i].number == seed.number && b.blocks[i] != seed
  }

  function SeedVerdict(b: Buffer, a: InitAnswer): Result<Block, InitError> {
    if !SeedUsable(a) then Err(Refused)
    else if SeedDiverges(b, a.seed.value.blocks[0]) then Err(DivergentReseed)
    else Ok(a.seed.value.blocks[0])
  }

  predicate HasNew(b: Buffer, xs: seq<Block>) {
    exists i :: 0 <= i < |xs| && xs[i] !in b.blocks
  }

  /** Consume a stream: batches until one is rejected, a fork signal, an error, or the end. */
  function Session(s: Model.State, started: bool, items: seq<StreamItem>, cfg: Model.Config)
      : (r: (SessionEnd, Model.State, bool))
    requires s.buffer.Valid() && cfg.cacheSize > 0
    ensures r.1.buffer.Valid()
    ensures r.0.ForkedAt? ==> r.0.previous != []
    decreases items
  {
    if items == [] then (Ended, s, started)
    else
      match items[0]
      case Broken => (Failed, s, started)
      case Forked(previous) => (if previous == [] then Failed else ForkedAt(previous), s, started)
      case Arrived(batch) =>
        var (outcome, s') := Model.ApplyBatch(s, batch, cfg);
        if outcome != Model.Applied then (Failed, s, started)
        else Session(s', started || HasNew(s.buffer, batch.blocks), items[1..], cfg)
  }

  /** A stream that ended or failed tears the session down: the maximum is dropped, and the next
      stream opens above the head. Before the first block it ends the run. */
  function Ladder(r: RunState): (p: Progress)
    requires r.state.buffer.Valid()
    ensures p.run.state.buffer.Valid()
  {
    var idle := r.(state := r.state.(finMax := None));
    var head := r.state.buffer.Last().Ref();
    var stacked := if head.number == r.base.number then r.stacked + 1 else 0;
    if !r.started then Done(StartupFailure, idle) else Running(idle.(base := head, stacked := stacked))
  }

  /** A fork keeps the session's maximum and moves the base; none at or above finality is terminal. */
  function Rebase(r: RunState, previous: seq<BlockRef>): (p: Progress)
    requires r.state.buffer.Valid()
    ensures p.run.state.buffer.Valid()
  {
    var base := Forks.ForkBase(r.state.buffer, previous);
    if base.Some? then Running(r.(base := base.value, stacked := 0)) else Done(Terminal, r)
  }

  function AfterSession(r: RunState, end: SessionEnd): (p: Progress)
    requires r.state.buffer.Valid()
    ensures p.run.state.buffer.Valid()
  {
    if end.ForkedAt? then Rebase(r, end.previous) else Ladder(r)
  }

  function Stream(r: RunState, items: seq<StreamItem>, cfg: Model.Config): (p: Progress)
    requires r.state.buffer.Valid() && cfg.cacheSize > 0
    ensures p.run.state.buffer.Valid()
  {
    var (end, s, started) := Session(r.state, r.started, items, cfg);
    AfterSession(r.(state := s, started := started), end)
  }

  /** One turn of the run loop. */
  function Turn(r: RunState, script: Script, cfg: Model.Config): (p: Progress)
    requires r.state.buffer.Valid() && cfg.cacheSize > 0
    ensures p.run.state.buffer.Valid()
  {
    if r.stacked <= STALL_REINIT then Stream(r, script.items, cfg)
    else
      match SeedVerdict(r.state.buffer, script.init)
      case Err(DivergentReseed) => Done(Terminal, r)
      case Err(Refused) => Ladder(r)
      case Ok(seed) =>
        Stream(r.(state := Model.State(Buffer([seed], 0), None), base := seed.Ref()), script.items, cfg)
  }

  /** A run starts above the head of the buffer it is given, with no report held. */
  function Started(b: Buffer): (r: RunState)
    requires b.Valid()
    ensures r.base == b.Last().Ref() && r.stacked == 0 && !r.started
  {
    RunState(Model.State(b, None), b.Last().Ref(), 0, false)
  }

  /** A whole run: turns until one ends it, or until the service is stopped. */
  function Run(r: RunState, scripts: seq<Script>, cfg: Model.Config): (o: (RunEnd, RunState))
    requires r.state.buffer.Valid() && cfg.cacheSize > 0
    decreases scripts
  {
    if scripts == [] then (Stopped, r)
    else
      match Turn(r, scripts[0], cfg)
      case Done(end, run) => (end, run)
      case Running(run) => Run(run, scripts[1..], cfg)
  }

  /** The base names a buffered block at or above the finalized head. */
  ghost predicate Based(r: RunState) {
    && r.state.buffer.Valid()
    && exists i :: r.state.buffer.fin <= i < |r.state.buffer.blocks| && r.state.buffer.blocks[i].Ref() == r.base
  }

  /** Every turn that goes on leaves a chain, and a base that names an unfinalized block of it or
      the finalized head: streams are always opened above a ref the service holds. */
  lemma TurnKeepsBase(r: RunState, script: Script, cfg: Model.Config)
    requires Based(r) && cfg.cacheSize > 0
    ensures var p := Turn(r, script, cfg); p.Running? ==> Based(p.run)
  {
    hide Session, SeedVerdict, Forks.StopsAt;
    var p := Turn(r, script, cfg);
    if p.Running? {
      var b := p.run.state.buffer;
      if p.run.base == b.Last().Ref() {
        assert b.blocks[|b.blocks| - 1].Ref() == p.run.base;
      }
    }
  }

  /** Within a stream, every later state extends every earlier one. */
  lemma {:induction false} SessionExtends(s: Model.State, started: bool, items: seq<StreamItem>, cfg: Model.Config)
    requires s.buffer.Valid() && cfg.cacheSize > 0
    ensures Extends(s.buffer, Session(s, started, items, cfg).1.buffer)
    decreases items
  {
    SamePrefixExtends(s.buffer, s.buffer);
    if items != [] && items[0].Arrived? {
      var batch := items[0].batch;
      var (outcome, s') := Model.ApplyBatch(s, batch, cfg);
      if outcome == Model.Applied {
        BatchExtends(s, batch, cfg);
        SessionExtends(s', started || HasNew(s.buffer, batch.blocks), items[1..], cfg);
        ExtendsTransitive(s.buffer, s'.buffer, Session(s, started, items, cfg).1.buffer);
      }
    }
  }

  /** So it is across every turn of the run, through failures and forks and the turn that ends it,
      until a re-seed; and a re-seed never puts another block at a height the discarded buffer held. */
  lemma TurnExtends(r: RunState, script: Script, cfg: Model.Config)
    requires r.state.buffer.Valid() && cfg.cacheSize > 0
    ensures r.stacked <= STALL_REINIT || SeedVerdict(r.state.buffer, script.init).Err? ==>
      Extends(r.state.buffer, Turn(r, script, cfg).run.state.buffer)
    ensures r.stacked > STALL_REINIT && SeedVerdict(r.state.buffer, script.init).Ok? ==>
      var seed := SeedVerdict(r.state.buffer, script.init).value;
      && (forall x :: x in r.state.buffer.blocks && x.number == seed.number ==> x == seed)
      && Extends(Buffer([seed], 0), Turn(r, script, cfg).run.state.buffer)
  {
    SamePrefixExtends(r.state.buffer, r.state.buffer);
    if r.stacked <= STALL_REINIT {
      SessionExtends(r.state, r.started, script.items, cfg);
    } else if SeedVerdict(r.state.buffer, script.init).Ok? {
      var seed := SeedVerdict(r.state.buffer, script.init).value;
      SessionExtends(Model.State(Buffer([seed], 0), None), r.started, script.items, cfg);
    }
  }

  // ----- what a run commits -------------------------------------------------------------

  /** A buffer the service made visible: by seeding afresh, or by committing a batch. */
  datatype Commit = Seeded(buffer: Buffer) | Committed(buffer: Buffer)

  function SessionCommits(s: Model.State, items: seq<StreamItem>, cfg: Model.Config): seq<Commit>
    requires s.buffer.Valid() && cfg.cacheSize > 0
    decreases items
  {
    if items == [] || !items[0].Arrived? then []
    else
      var (outcome, s') := Model.ApplyBatch(s, items[0].batch, cfg);
      if outcome != Model.Applied then []
      else [Committed(s'.buffer)] + SessionCommits(s', items[1..], cfg)
  }

  function TurnCommits(r: RunState, script: Script, cfg: Model.Config): seq<Commit>
    requires r.state.buffer.Valid() && cfg.cacheSize > 0
  {
    if r.stacked <= STALL_REINIT then SessionCommits(r.state, script.items, cfg)
    else
      match SeedVerdict(r.state.buffer, script.init)
      case Err(_) => []
      case Ok(seed) =>
        [Seeded(Buffer([seed], 0))] + SessionCommits(Model.State(Buffer([seed], 0), None), script.items, cfg)
  }

  /** Everything a run commits, in order, up to and including the turn that ends it. */
  function History(r: RunState, scripts: seq<Script>, cfg: Model.Config): seq<Commit>
    requires r.state.buffer.Valid() && cfg.cacheSize > 0
    decreases scripts
  {
    if scripts == [] then []
    else
      TurnCommits(r, scripts[0], cfg) +
      match Turn(r, scripts[0], cfg)
      case Done(_, _) => []
      case Running(next) => History(next, scripts[1..], cfg)
  }

  /** The buffer visible before the k-th commit. */
  function VisibleBefore(start: Buffer, commits: seq<Commit>, k: nat): Buffer
    requires k <= |commits|
  {
    if k == 0 then start else commits[k - 1].buffer
  }

  function LastVisible(start: Buffer, commits: seq<Commit>): Buffer {
    VisibleBefore(start, commits, |commits|)
  }

  /** A commit is a legal later state of what it follows, or a seed that contradicts none of it. */
  ghost predicate LawfulAt(start: Buffer, commits: seq<Commit>, k: nat)
    requires k < |commits|
  {
    var before, now := VisibleBefore(start, commits, k), commits[k].buffer;
    && before.Valid() && now.Valid()
    && (commits[k].Committed? ==> Extends(before, now))
    && (commits[k].Seeded? ==> forall x :: x in before.blocks && x.number == now.blocks[0].number ==> x == now.blocks[0])
  }

  ghost predicate Lawful(start: Buffer, commits: seq<Commit>) {
    forall k :: 0 <= k < |commits| ==> LawfulAt(start, commits, k)
  }

  lemma LawfulConcat(start: Buffer, a: seq<Commit>, b: seq<Commit>)
    requires Lawful(start, a) && Lawful(LastVisible(start, a), b)
    ensures Lawful(start, a + b) && LastVisible(start, a + b) == LastVisible(LastVisible(start, a), b)
  {
    hide Extends;
    forall k | 0 <= k < |a + b|
      ensures LawfulAt(start, a + b, k)
    {
      if k < |a| {
        assert LawfulAt(start, a, k);
      } else {
        assert LawfulAt(LastVisible(start, a), b, k - |a|);
      }
    }
  }

  lemma {:induction false} SessionIsLawful(s: Model.State, started: bool, items: seq<StreamItem>, cfg: Model.Config)
    requires s.buffer.Valid() && cfg.cacheSize > 0
    ensures Lawful(s.buffer, SessionCommits(s, items, cfg))
    ensures LastVisible(s.buffer, SessionCommits(s, items, cfg)) == Session(s, started, items, cfg).1.buffer
    decreases items
  {
    hide Extends, Model.ApplyBatch;
    if items != [] && items[0].Arrived? {
      var (outcome, s') := Model.ApplyBatch(s, items[0].batch, cfg);
      if outcome == Model.Applied {
        BatchExtends(s, items[0].batch, cfg);
        SessionIsLawful(s', started || HasNew(s.buffer, items[0].batch.blocks), items[1..], cfg);
        LawfulConcat(s.buffer, [Committed(s'.buffer)], SessionCommits(s', items[1..], cfg));
      }
    }
  }

  lemma TurnIsLawful(r: RunState, script: Script, cfg: Model.Config)
    requires r.state.buffer.Valid() && cfg.cacheSize > 0
    ensures Lawful(r.state.buffer, TurnCommits(r, script, cfg))
    ensures LastVisible(r.state.buffer, TurnCommits(r, script, cfg)) == Turn(r, script, cfg).run.state.buffer
  {
    hide Extends, Session, SessionCommits;
    if r.stacked <= STALL_REINIT {
      SessionIsLawful(r.state, r.started, script.items, cfg);
    } else if SeedVerdict(r.state.buffer, script.init).Ok? {
      var seed := SeedVerdict(r.state.buffer, script.init).value;
      var s := Model.State(Buffer([seed], 0), None);
      SessionIsLawful(s, r.started, script.items, cfg);
      LawfulConcat(r.state.buffer, [Seeded(s.buffer)], SessionCommits(s, script.items, cfg));
    }
  }

  lemma {:induction false} RunIsLawful(r: RunState, scripts: seq<Script>, cfg: Model.Config)
    requires r.state.buffer.Valid() && cfg.cacheSize > 0
    ensures Lawful(r.state.buffer, History(r, scripts, cfg))
    ensures LastVisible(r.state.buffer, History(r, scripts, cfg)) == Run(r, scripts, cfg).1.state.buffer
    decreases scripts
  {
    hide Turn, TurnCommits, LawfulAt;
    if scripts != [] {
      var turn := Turn(r, scripts[0], cfg);
      TurnIsLawful(r, scripts[0], cfg);
      if turn.Running? {
        RunIsLawful(turn.run, scripts[1..], cfg);
        LawfulConcat(r.state.buffer, TurnCommits(r, scripts[0], cfg), History(turn.run, scripts[1..], cfg));
      } else {
        assert TurnCommits(r, scripts[0], cfg) + [] == TurnCommits(r, scripts[0], cfg);
      }
    }
  }

  lemma {:induction false} LaterExtends(start: Buffer, commits: seq<Commit>, i: nat, j: nat)
    requires Lawful(start, commits) && i <= j < |commits|
    requires forall k :: i < k <= j ==> commits[k].Committed?
    ensures commits[i].buffer.Valid() && commits[j].buffer.Valid() && Extends(commits[i].buffer, commits[j].buffer)
    decreases j
  {
    hide Extends;
    assert LawfulAt(start, commits, j);
    if i < j {
      LaterExtends(start, commits, i, j - 1);
      ExtendsTransitive(commits[i].buffer, commits[j - 1].buffer, commits[j].buffer);
    } else {
      SamePrefixExtends(commits[j].buffer, commits[j].buffer);
    }
  }

  /** The commits of a run of the service, the buffer it starts with first. */
  function RunCommits(b: Buffer, scripts: seq<Script>, cfg: Model.Config): seq<Commit>
    requires b.Valid() && cfg.cacheSize > 0
  {
    [Seeded(b)] + History(Started(b), scripts, cfg)
  }

  lemma StartIsLawful(b: Buffer)
    requires b.Valid()
    ensures Lawful(b, [Seeded(b)])
  {
    ChainedAscends(b.blocks);
  }

  /** Over a whole run, whatever the source answers: of any two buffers made visible with no seeding
      between, the later extends the earlier, so finality never falls and no finalized block is
      replaced; a seeding contradicts no block held at its height; and the last buffer made visible
      is the one the run ends with. */
  lemma RunSafety(b: Buffer, scripts: seq<Script>, cfg: Model.Config, i: nat, j: nat)
    requires b.Valid() && cfg.cacheSize > 0 && i <= j < |RunCommits(b, scripts, cfg)|
    requires forall k :: i < k <= j ==> RunCommits(b, scripts, cfg)[k].Committed?
    ensures var commits := RunCommits(b, scripts, cfg);
      && commits[i].buffer.Valid() && commits[j].buffer.Valid() && Extends(commits[i].buffer, commits[j].buffer)
      && Lawful(b, commits)
      && LastVisible(b, commits) == Run(Started(b), scripts, cfg).1.state.buffer
  {
    hide Extends, Run, History;
    RunIsLawful(Started(b), scripts, cfg);
    StartIsLawful(b);
    LawfulConcat(b, [Seeded(b)], History(Started(b), scripts, cfg));
    LaterExtends(b, RunCommits(b, scripts, cfg), i, j);
  }

  // ----- where a run goes on ---------------------------------------------------------------

  /** Batches applied one after another, each to the state the one before left. */
  ghost predicate AppliedInTurn(states: seq<Model.State>, items: seq<StreamItem>, cfg: Model.Config) {
    && cfg.cacheSize > 0 && 0 < |states| <= |items| + 1
    && forall k :: 0 <= k < |states| - 1 ==>
         states[k].buffer.Valid() && items[k].Arrived?
         && Model.ApplyBatch(states[k], items[k].batch, cfg) == (Model.Applied, states[k + 1])
  }

  /** Why a session ended at an item: a batch that was not applied, a signal, or an error; a signal
      that names nothing is an error. */
  ghost predicate EndsAt(s: Model.State, item: StreamItem, end: SessionEnd, cfg: Model.Config)
    requires s.buffer.Valid() && cfg.cacheSize > 0
  {
    match item
    case Arrived(batch) => Model.ApplyBatch(s, batch, cfg).0 != Model.Applied && end == Failed
    case Forked(previous) => if previous == [] then end == Failed else end == ForkedAt(previous)
    case Broken => end == Failed
  }

  ghost predicate BroughtNew(states: seq<Model.State>, items: seq<StreamItem>) {
    exists k :: 0 <= k < |states| - 1 && k < |items| && items[k].Arrived? && HasNew(states[k].buffer, items[k].batch.blocks)
  }

  /** A session applies its batches in turn up to the first item that ends it, and then has taken in
      a first block if it had one before or some batch brought something new. */
  lemma {:induction false} SessionAppliesInTurn(s: Model.State, started: bool, items: seq<StreamItem>, cfg: Model.Config)
      returns (states: seq<Model.State>)
    requires s.buffer.Valid() && cfg.cacheSize > 0
    ensures AppliedInTurn(states, items, cfg) && states[0] == s
    ensures var (end, last, begun) := Session(s, started, items, cfg);
      && last == states[|states| - 1] && (begun <==> started || BroughtNew(states, items))
      && if |states| == |items| + 1 then end == Ended else EndsAt(last, items[|states| - 1], end, cfg)
    decreases items
  {
    hide Model.ApplyBatch, HasNew;
    states := [s];
    if items != [] && items[0].Arrived? {
      var (outcome, s') := Model.ApplyBatch(s, items[0].batch, cfg);
      if outcome == Model.Applied {
        var later := SessionAppliesInTurn(s', started || HasNew(s.buffer, items[0].batch.blocks), items[1..], cfg);
        states := [s] + later;
        LaterBrought(s, later, items);
      }
    }
  }

  lemma LaterBrought(s: Model.State, later: seq<Model.State>, items: seq<StreamItem>)
    requires items != [] && items[0].Arrived? && 0 < |later| <= |items|
    ensures BroughtNew([s] + later, items) <==>
      HasNew(s.buffer, items[0].batch.blocks) || BroughtNew(later, items[1..])
  {
    hide HasNew;
    var states := [s] + later;
    if BroughtNew(later, items[1..]) {
      var k :| 0 <= k < |later| - 1 && k < |items[1..]| && items[1..][k].Arrived?
        && HasNew(later[k].buffer, items[1..][k].batch.blocks);
      assert states[k + 1] == later[k] && items[k + 1] == items[1..][k];
    }
    if BroughtNew(states, items) {
      var k :| 0 <= k < |states| - 1 && k < |items| && items[k].Arrived? && HasNew(states[k].buffer, items[k].batch.blocks);
      if k > 0 {
        assert states[k] == later[k - 1] && items[k] == items[1..][k - 1];
      }
    }
    if HasNew(s.buffer, items[0].batch.blocks) {
      assert states[0] == s;
    }
  }

  /** The run reopens above the head of `b`, all reports forgotten; the stall count is one more
      exactly when the head stands where the base did, and else starts over. */
  ghost predicate Reopens(r: RunState, b: Buffer, p: Progress)
    requires b.Valid()
  {
    && p.Running? && p.run.started
    && p.run.state == Model.State(b, None) && p.run.base == b.Last().Ref()
    && p.run.stacked == if b.Last().number == r.base.number then r.stacked + 1 else 0
  }

  /** A stream that ends or fails reopens above the head, once a first block has been taken in; before
      that it ends the run. A stream that forks keeps the session's reports. */
  lemma StreamReopens(r: RunState, script: Script, cfg: Model.Config)
    requires r.state.buffer.Valid() && cfg.cacheSize > 0 && r.stacked <= STALL_REINIT
    ensures var (end, s, started) := Session(r.state, r.started, script.items, cfg);
      var p := Turn(r, script, cfg);
      && (!end.ForkedAt? && started ==> Reopens(r, s.buffer, p))
      && (!end.ForkedAt? && !started ==> p.Done? && p.end == StartupFailure && p.run.state.buffer == s.buffer)
      && (end.ForkedAt? ==>
            && p.run.state == s && p.run.started == started
            && (p.Running? ==> p.run.stacked == 0) && (p.Done? ==> p.end == Terminal))
    ensures forall c :: c in TurnCommits(r, script, cfg) ==> c.Committed?
  {
    hide Session, Forks.ForkBase;
    SessionOnlyCommits(r.state, script.items, cfg);
  }

  lemma {:induction false} SessionOnlyCommits(s: Model.State, items: seq<StreamItem>, cfg: Model.Config)
    requires s.buffer.Valid() && cfg.cacheSize > 0
    ensures forall c :: c in SessionCommits(s, items, cfg) ==> c.Committed?
    decreases items
  {
    hide Model.ApplyBatch;
    if items != [] && items[0].Arrived? {
      var (outcome, s') := Model.ApplyBatch(s, items[0].batch, cfg);
      if outcome == Model.Applied {
        SessionOnlyCommits(s', items[1..], cfg);
      }
    }
  }

  /** A re-seed that is due: one that contradicts a held block ends the run; a refused one counts as
      one more failure above the same head, and ends the run only if no block was ever taken in; any
      other discards the buffer for the seed, and streams above it. */
  lemma ReseedDecides(r: RunState, script: Script, cfg: Model.Config)
    requires r.state.buffer.Valid() && cfg.cacheSize > 0 && r.stacked > STALL_REINIT
    ensures var p := Turn(r, script, cfg);
      match SeedVerdict(r.state.buffer, script.init)
      case Err(DivergentReseed) => p == Done(Terminal, r)
      case Err(Refused) =>
        if r.started then Reopens(r, r.state.buffer, p)
        else p.Done? && p.end == StartupFailure && p.run.state.buffer == r.state.buffer
      case Ok(seed) =>
        var (end, s, started) := Session(Model.State(Buffer([seed], 0), None), r.started, script.items, cfg);
        && TurnCommits(r, script, cfg) != [] && TurnCommits(r, script, cfg)[0] == Seeded(Buffer([seed], 0))
        && (!end.ForkedAt? && started ==> Reopens(r.(base := seed.Ref()), s.buffer, p))
  {
    hide Session, SessionCommits, SeedUsable, SeedDiverges;
  }

  /** What the source must answer for a re-seed, and what it must not contradict. */
  lemma SeedMeans(b: Buffer, a: InitAnswer)
    ensures SeedVerdict(b, a).Ok? <==>
      SeedUsable(a) && forall x :: x in b.blocks && x.number == a.head.value.number ==> x == a.seed.value.blocks[0]
    ensures SeedVerdict(b, a).Ok? ==> [SeedVerdict(b, a).value] == a.seed.value.blocks && SeedVerdict(b, a).value.Ref() == a.head.value
    ensures SeedVerdict(b, a) == Err(DivergentReseed) ==> SeedUsable(a)
  {
    hide Model.Admissible, UsableHash;
    if SeedUsable(a) {
      var seed := a.seed.value.blocks[0];
      if SeedDiverges(b, seed) {
        var i :| 0 <= i < |b.blocks| && b.blocks[i].number == seed.number && b.blocks[i] != seed;
        assert b.blocks[i] in b.blocks;
      }
    }
  }

  /** A session without progress: it ends or fails with the head where the base was. */
  ghost predicate Stalls(r: RunState, script: Script, cfg: Model.Config)
    requires r.state.buffer.Valid() && cfg.cacheSize > 0
  {
    var (end, s, started) := Session(r.state, r.started, script.items, cfg);
    r.stacked <= STALL_REINIT && !end.ForkedAt? && started && s.buffer.Last().number == r.base.number
  }

  /** One after another. */
  ghost predicate StallsOn(r: RunState, scripts: seq<Script>, cfg: Model.Config)
    requires r.state.buffer.Valid() && cfg.cacheSize > 0
    decreases scripts
  {
    scripts == [] || (Stalls(r, scripts[0], cfg) && StallsOn(Turn(r, scripts[0], cfg).run, scripts[1..], cfg))
  }

  lemma {:induction false} StallsAdd(r: RunState, scripts: seq<Script>, cfg: Model.Config)
    requires r.state.buffer.Valid() && cfg.cacheSize > 0 && StallsOn(r, scripts, cfg)
    ensures var (end, last) := Run(r, scripts, cfg);
      && end == Stopped && last.stacked == r.stacked + |scripts|
      && (scripts != [] ==> last.started && last.state.buffer.Valid() && last.base == last.state.buffer.Last().Ref())
    ensures forall c :: c in History(r, scripts, cfg) ==> c.Committed?
    decreases scripts
  {
    hide Session, Turn, TurnCommits;
    if scripts != [] {
      StreamReopens(r, scripts[0], cfg);
      StallsAdd(Turn(r, scripts[0], cfg).run, scripts[1..], cfg);
    }
  }

  /** Six sessions in a row without progress are followed by a re-seed, and none comes before: the
      next turn seeds afresh if it can, and if the source refuses goes on above the same head. */
  lemma SixStallsReseed(r: RunState, scripts: seq<Script>, next: Script, cfg: Model.Config)
    requires r.state.buffer.Valid() && cfg.cacheSize > 0 && r.stacked == 0
    requires |scripts| == STALL_REINIT + 1 && StallsOn(r, scripts, cfg)
    ensures forall c :: c in History(r, scripts, cfg) ==> c.Committed?
    ensures var last := Run(r, scripts, cfg).1;
      && Run(r, scripts, cfg).0 == Stopped && last.state.buffer.Valid()
      && (SeedVerdict(last.state.buffer, next.init).Ok? ==>
            && TurnCommits(last, next, cfg) != []
            && TurnCommits(last, next, cfg)[0] == Seeded(Buffer([SeedVerdict(last.state.buffer, next.init).value], 0)))
      && (SeedVerdict(last.state.buffer, next.init) == Err(Refused) ==>
            Turn(last, next, cfg).Running? && Turn(last, next, cfg).run.base == last.base)
  {
    hide Session, Turn, TurnCommits, Run, History, SeedVerdict, StallsOn;
    StallsAdd(r, scripts, cfg);
    ReseedDecides(Run(r, scripts, cfg).1, next, cfg);
  }
}
