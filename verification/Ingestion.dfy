/** The service itself: one writer over one chain, proved against the run's functions. */
module Ingestion {
  import opened Sequences
  import opened Types
  import opened Window
  import opened ChainBuffer
  import opened Refinement
  import opened Finality
  import opened Service
  import Forks
  import Model

  /** `Admissible`, decided in two passes over the blocks. */
  method ValidateIngestBatch(batch: Batch) returns (ok: bool)
    ensures ok <==> Model.Admissible(batch)
  {
    if batch.blocks == [] {
      return false;
    }
    for i := 0 to |batch.blocks|
      invariant forall j :: 0 <= j < i ==>
        UsableHash(batch.blocks[j].hash) && UsableHash(batch.blocks[j].parentHash)
    {
      if !UsableHash(batch.blocks[i].hash) || !UsableHash(batch.blocks[i].parentHash) {
        return false;
      }
    }
    if batch.finalized.Some? && !UsableHash(batch.finalized.value.hash) {
      return false;
    }
    for i := 0 to |batch.blocks| - 1
      invariant forall j :: 0 <= j < i ==> Follows(batch.blocks[j], batch.blocks[j + 1])
    {
      var a, b := batch.blocks[i], batch.blocks[i + 1];
      if b.number <= a.number || !Linked(a, b) {
        assert !Follows(batch.blocks[i], batch.blocks[i + 1]);
        return false;
      }
    }
    return true;
  }

  /** Discharge the session's obligation against the chain. */
  method SettleObligation(chain: Chain, fh: BlockRef) returns (r: Result<bool, BatchError>)
    requires chain.Valid()
    modifies chain`finalizedHead
    ensures chain.Valid()
    ensures chain.undo.Some? ==> chain.Checkpoint() == old(chain.Checkpoint())
    ensures var d := Discharge(Model.State(old(chain.Now()), Some(fh)));
      && (r.Ok? <==> d.Ok?)
      && (d.Ok? ==> chain.Now() == d.value.buffer)
      && (d.Err? ==> r.error == d.error)
  {
    var v := chain.Finalize(fh);
    r := if v.Ok? then Ok(v.value) else Err(Contradiction(v.error));
  }

  /** Push the batch's blocks in order; answers the positions of those inserted. */
  method PushBatch(chain: Chain, xs: seq<Block>) returns (r: Result<seq<nat>, BatchError>)
    requires chain.Valid() && Chained(xs)
    modifies chain`blocks, chain`undo
    ensures chain.Valid() && chain.undo.Some? == old(chain.undo).Some?
    ensures chain.undo.Some? ==> chain.Checkpoint() == old(chain.Checkpoint())
    ensures r.Ok? ==> PushedSoFar(old(chain.Now()), xs, |xs|, chain.Now(), r.value)
    ensures r.Err? ==> PushEach(old(chain.Now()), xs).Err?
    ensures r.Err? ==> r.error == Contradiction(PushEach(old(chain.Now()), xs).error)
  {
    hide PushedSoFar, PushEach, PushVerdict, PushEffect;
    ghost var start := chain.Now();
    var inserted: seq<nat> := [];
    NothingPushed(start, xs);
    for i := 0 to |xs|
      invariant chain.Valid() && chain.undo.Some? == old(chain.undo).Some?
      invariant chain.undo.Some? ==> chain.Checkpoint() == old(chain.Checkpoint())
      invariant PushedSoFar(start, xs, i, chain.Now(), inserted)
    {
      PushedOneMore(start, xs, i, chain.Now(), inserted);
      var outcome := chain.Push(xs[i]);
      if outcome.Err? {
        return Err(Contradiction(outcome.error));
      }
      if outcome.value == Inserted {
        inserted := inserted + [i];
      }
    }
    r := Ok(inserted);
  }

  /** Exactly the positions from the first block the buffer did not hold. */
  ghost predicate InsertedFrom(start: Buffer, xs: seq<Block>, inserted: seq<nat>) {
    var k := LeadingHeld(start.blocks, xs);
    |inserted| == |xs| - k && forall j :: 0 <= j < |inserted| ==> inserted[j] == k + j
  }

  /** `ServiceBody`, run on a chain whose checkpoint is the buffer it starts from. On an error the
      checkpoint is all that is promised of the chain, and the maximum may have been raised. */
  method ApplyBatchLocked(chain: Chain, batch: Batch, finalizedMax: Option<BlockRef>)
    returns (r: Result<seq<nat>, BatchError>, newMax: Option<BlockRef>)
    requires chain.Valid() && Model.Admissible(batch)
    modifies chain
    ensures chain.Valid() && chain.undo.Some? == old(chain.undo).Some?
    ensures chain.undo.Some? ==> chain.Checkpoint() == old(chain.Checkpoint())
    ensures r.Ok? ==>
      && ServiceBody(Model.State(old(chain.Now()), finalizedMax), batch) == Ok(Model.State(chain.Now(), newMax))
      && InsertedFrom(old(chain.Now()), batch.blocks, r.value)
    ensures r.Err? ==> ServiceBody(Model.State(old(chain.Now()), finalizedMax), batch) == Err(r.error)
  {
    newMax := finalizedMax;
    if ContradictsMaximum(Model.State(Buffer(chain.blocks, chain.finalizedHead), newMax), batch.finalized) {
      return Err(ConflictingReports), newMax;
    }
    r := PushBatch(chain, batch.blocks);
    if r.Err? {
      return;
    }
    if newMax.Some? {
      var settled := SettleObligation(chain, newMax.value);
      if settled.Err? {
        return Err(settled.error), newMax;
      }
    }
    if RaisesMaximum(Model.State(Buffer(chain.blocks, chain.finalizedHead), newMax), batch.finalized) {
      newMax := batch.finalized;
      var settled := SettleObligation(chain, newMax.value);
      if settled.Err? {
        return Err(settled.error), newMax;
      }
    }
  }

  /** What the service commits is what the model commits. */
  lemma CommittedIsModelStep(s: Model.State, batch: Batch, after: Model.State, cfg: Model.Config)
    requires s.buffer.Valid() && cfg.cacheSize > 0 && Model.Admissible(batch)
    requires ServiceBody(s, batch) == Ok(after)
    ensures Model.ApplyBatch(s, batch, cfg) ==
      (Model.Applied, after.(buffer := Compacted(after.buffer, cfg.cacheSize, cfg.autoAdjust)))
    ensures Extends(s.buffer, Compacted(after.buffer, cfg.cacheSize, cfg.autoAdjust))
  {
    ServiceRefinesModel(s, batch);
    BatchExtends(s, batch, cfg);
  }

  lemma RejectedIsModelRejection(s: Model.State, batch: Batch, cfg: Model.Config)
    requires s.buffer.Valid() && cfg.cacheSize > 0
    requires Model.Admissible(batch) ==> ServiceBody(s, batch).Err?
    ensures Model.ApplyBatch(s, batch, cfg).0 != Model.Applied && Model.ApplyBatch(s, batch, cfg).1 == s
  {
    ServiceRefinesModel(s, batch);
  }

  lemma NewIffInserted(start: Buffer, xs: seq<Block>, inserted: seq<nat>)
    requires InsertedFrom(start, xs, inserted)
    ensures inserted != [] <==> HasNew(start, xs)
  {
    var k := LeadingHeld(start.blocks, xs);
    if k < |xs| {
      assert xs[k] !in start.blocks;
    }
  }

  /** The locked section of the session loop: validate, begin, apply, then commit and compact, or
      roll back. Answers whether anything was inserted. */
  method StepChain(chain: Chain, batch: Batch, finalizedMax: Option<BlockRef>, ghost cfg: Model.Config)
    returns (r: Result<bool, BatchError>, newMax: Option<BlockRef>)
    requires chain.Valid() && chain.undo.None?
    requires cfg == Model.Config(chain.maxSize, chain.autoAdjustFinalizedHead)
    modifies chain
    ensures chain.Valid() && chain.undo.None?
    ensures var step := Model.ApplyBatch(Model.State(old(chain.Now()), finalizedMax), batch, cfg);
      && (r.Ok? <==> step.0 == Model.Applied)
      && chain.Now() == step.1.buffer
      && (r.Ok? ==> newMax == step.1.finMax)
    ensures r.Ok? ==>
      && batch.blocks != []
      && Commits(Model.State(old(chain.Now()), finalizedMax), batch, Model.State(chain.Now(), newMax), cfg)
    ensures r.Ok? ==> (r.value <==> HasNew(old(chain.Now()), batch.blocks))
  {
    hide Commits;
    ghost var s := Model.State(chain.Now(), finalizedMax);
    newMax := finalizedMax;
    var shaped := ValidateIngestBatch(batch);
    if !shaped {
      RejectedIsModelRejection(s, batch, cfg);
      return Err(Malformed), newMax;
    }
    chain.BeginBatch();
    var applied;
    applied, newMax := ApplyBatchLocked(chain, batch, finalizedMax);
    if applied.Err? {
      chain.RollbackBatch();
      RejectedIsModelRejection(s, batch, cfg);
      return Err(applied.error), newMax;
    }
    CommittedIsModelStep(s, batch, Model.State(chain.Now(), newMax), cfg);
    AppliedCommits(s, batch, cfg);
    NewIffInserted(s.buffer, batch.blocks, applied.value);
    chain.CommitBatch();
    var compaction := chain.Compact();
    return Ok(applied.value != []), newMax;
  }

  /** The committed windows since the last seeding, after these commits more. */
  function EpochAfter(epoch: seq<Buffer>, commits: seq<Commit>): seq<Buffer>
    decreases commits
  {
    if commits == [] then epoch
    else
      var b := commits[0].buffer;
      EpochAfter(if commits[0].Seeded? then [b] else epoch + [b], commits[1..])
  }

  lemma {:induction false} EpochConcat(epoch: seq<Buffer>, a: seq<Commit>, b: seq<Commit>)
    ensures EpochAfter(epoch, a + b) == EpochAfter(EpochAfter(epoch, a), b)
    decreases a
  {
    if a == [] {
      assert a + b == b;
    } else {
      var first := a[0].buffer;
      EpochConcat(if a[0].Seeded? then [first] else epoch + [first], a[1..], b);
      assert (a + b)[0] == a[0] && (a + b)[1..] == a[1..] + b;
    }
  }

  /** What the commits of the rest of a session make of the epoch, item by item. */
  lemma SessionEpoch(epoch: seq<Buffer>, s: Model.State, items: seq<StreamItem>, k: nat, cfg: Model.Config)
    requires s.buffer.Valid() && cfg.cacheSize > 0 && k < |items|
    ensures !items[k].Arrived? ==> EpochAfter(epoch, SessionCommits(s, items[k..], cfg)) == epoch
    ensures items[k].Arrived? ==>
      var (outcome, s') := Model.ApplyBatch(s, items[k].batch, cfg);
      EpochAfter(epoch, SessionCommits(s, items[k..], cfg)) ==
      if outcome == Model.Applied then EpochAfter(epoch + [s'.buffer], SessionCommits(s', items[k + 1..], cfg))
      else epoch
  {
    hide Model.ApplyBatch;
    SkipOneMore(items, k);
  }

  /** What a turn's commits make of the epoch. */
  lemma TurnEpoch(epoch: seq<Buffer>, r: RunState, script: Script, cfg: Model.Config)
    requires r.state.buffer.Valid() && cfg.cacheSize > 0
    ensures r.stacked <= STALL_REINIT ==>
      TurnCommits(r, script, cfg) == SessionCommits(r.state, script.items, cfg)
    ensures r.stacked > STALL_REINIT && SeedVerdict(r.state.buffer, script.init).Err? ==>
      EpochAfter(epoch, TurnCommits(r, script, cfg)) == epoch
    ensures r.stacked > STALL_REINIT && SeedVerdict(r.state.buffer, script.init).Ok? ==>
      var b := Buffer([SeedVerdict(r.state.buffer, script.init).value], 0);
      EpochAfter(epoch, TurnCommits(r, script, cfg)) ==
        EpochAfter([b], SessionCommits(Model.State(b, None), script.items, cfg))
  {
    hide SeedVerdict, SessionCommits;
  }

  /** What a turn makes of the rest of a run. */
  lemma OneMoreTurn(epoch: seq<Buffer>, r: RunState, scripts: seq<Script>, k: nat, cfg: Model.Config)
    requires r.state.buffer.Valid() && cfg.cacheSize > 0 && k < |scripts|
    ensures var now := EpochAfter(epoch, TurnCommits(r, scripts[k], cfg));
      match Turn(r, scripts[k], cfg)
      case Done(end, run) =>
        && Run(r, scripts[k..], cfg) == (end, run)
        && EpochAfter(epoch, History(r, scripts[k..], cfg)) == now
      case Running(run) =>
        && Run(r, scripts[k..], cfg) == Run(run, scripts[k + 1..], cfg)
        && EpochAfter(epoch, History(r, scripts[k..], cfg)) == EpochAfter(now, History(run, scripts[k + 1..], cfg))
  {
    hide Turn, TurnCommits, EpochAfter;
    SkipOneMore(scripts, k);
    var turn, commits := Turn(r, scripts[k], cfg), TurnCommits(r, scripts[k], cfg);
    if turn.Running? {
      EpochConcat(epoch, commits, History(turn.run, scripts[k + 1..], cfg));
    } else {
      assert commits + [] == commits;
    }
  }

  lemma NoTurnsLeft(epoch: seq<Buffer>, r: RunState, cfg: Model.Config)
    requires r.state.buffer.Valid() && cfg.cacheSize > 0
    ensures Run(r, [], cfg) == (Stopped, r) && EpochAfter(epoch, History(r, [], cfg)) == epoch
  {
  }

  lemma NoItemsLeft(epoch: seq<Buffer>, s: Model.State, cfg: Model.Config)
    requires s.buffer.Valid() && cfg.cacheSize > 0
    ensures EpochAfter(epoch, SessionCommits(s, [], cfg)) == epoch
  {
  }

  class DataService {
    const cfg: Model.Config
    var chain: Chain?
    /** The committed windows since the last successful seeding, oldest first. */
    ghost var epoch: seq<Buffer>

    ghost predicate Valid()
      reads this, chain
    {
      && cfg.cacheSize > 0
      && (chain != null ==>
            && chain.Valid() && chain.undo.None?
            && chain.maxSize == cfg.cacheSize && chain.autoAdjustFinalizedHead == cfg.autoAdjust
            && Epoch(epoch, chain.Now()))
    }

    constructor (size: nat, auto: bool)
      requires size > 0
      ensures Valid() && chain == null && cfg == Model.Config(size, auto)
    {
      cfg := Model.Config(size, auto);
      chain := null;
      epoch := [];
    }

    /** Seed a fresh chain with the source's finalized head, unless the seed is unusable or
        contradicts a block held at its height; a refused seed discards nothing. */
    method Init(answer: InitAnswer) returns (r: Result<Block, InitError>)
      requires Valid()
      modifies this`chain, this`epoch
      ensures Valid()
      ensures r == if old(chain) == null
        then (if SeedUsable(answer) then Ok(answer.seed.value.blocks[0]) else Err(Refused))
        else SeedVerdict(old(chain.Now()), answer)
      ensures r.Ok? ==> chain != null && fresh(chain) && chain.Now() == Buffer([r.value], 0)
      ensures r.Ok? ==> epoch == [Buffer([r.value], 0)]
      ensures r.Err? ==> chain == old(chain) && epoch == old(epoch)
    {
      if answer.head.None? {
        return Err(Refused);
      }
      var head := answer.head.value;
      if !UsableHash(head.hash) || answer.seed.None? {
        return Err(Refused);
      }
      var batch := answer.seed.value;
      if |batch.blocks| != 1 {
        return Err(Refused);
      }
      var shaped := ValidateIngestBatch(batch);
      if !shaped {
        return Err(Refused);
      }
      var seed := batch.blocks[0];
      if seed.parentNumber > seed.number || seed.number != head.number || seed.hash != head.hash {
        return Err(Refused);
      }
      if chain != null {
        var held := chain.BlockAt(seed.number);
        if held.Some? && held.value != seed {
          return Err(DivergentReseed);
        }
      }
      chain := new Chain(seed, cfg.cacheSize, cfg.autoAdjust);
      epoch := [chain.Now()];
      return Ok(seed);
    }

    /** One batch under the write lock: validated, applied, then committed and compacted, or
        rolled back. Answers whether it inserted anything. */
    method IngestBatch(batch: Batch, finalizedMax: Option<BlockRef>)
      returns (r: Result<bool, BatchError>, newMax: Option<BlockRef>)
      requires Valid() && chain != null
      modifies this`epoch, chain
      ensures Valid() && chain == old(chain)
      ensures var step := Model.ApplyBatch(Model.State(old(chain.Now()), finalizedMax), batch, cfg);
        && (r.Ok? <==> step.0 == Model.Applied)
        && chain.Now() == step.1.buffer
        && (r.Ok? ==> newMax == step.1.finMax)
      ensures r.Ok? ==>
        && batch.blocks != []
        && Commits(Model.State(old(chain.Now()), finalizedMax), batch, Model.State(chain.Now(), newMax), cfg)
      ensures r.Ok? ==> (r.value <==> HasNew(old(chain.Now()), batch.blocks))
      ensures epoch == if r.Ok? then old(epoch) + [chain.Now()] else old(epoch)
    {
      ghost var s := Model.State(chain.Now(), finalizedMax);
      r, newMax := StepChain(chain, batch, finalizedMax, cfg);
      if r.Ok? {
        BatchExtends(s, batch, cfg);
        EpochGrows(epoch, s.buffer, chain.Now());
        epoch := epoch + [chain.Now()];
      }
    }

    /** One session: consume the stream until a batch is rejected, it signals a fork, fails or ends. */
    method IngestSession(items: seq<StreamItem>, firstIngested: bool, finalizedMax: Option<BlockRef>)
      returns (end: SessionEnd, started: bool, newMax: Option<BlockRef>)
      requires Valid() && chain != null
      modifies this`epoch, chain
      ensures Valid() && chain == old(chain)
      ensures epoch == EpochAfter(old(epoch), SessionCommits(Model.State(old(chain.Now()), finalizedMax), items, cfg))
      ensures var s := Session(Model.State(old(chain.Now()), finalizedMax), firstIngested, items, cfg);
        && end == s.0 && chain.Now() == s.1.buffer && started == s.2
        && (end != Failed ==> newMax == s.1.finMax)
    {
      started, newMax := firstIngested, finalizedMax;
      hide EpochAfter, SessionCommits;
      ghost var commits := EpochAfter(epoch, SessionCommits(Model.State(chain.Now(), newMax), items, cfg));
      ghost var whole := Session(Model.State(chain.Now(), newMax), started, items, cfg);
      for k := 0 to |items|
        invariant Valid() && chain == old(chain)
        invariant commits == EpochAfter(epoch, SessionCommits(Model.State(chain.Now(), newMax), items[k..], cfg))
        invariant whole == Session(Model.State(chain.Now(), newMax), started, items[k..], cfg)
      {
        SkipOneMore(items, k);
        SessionEpoch(epoch, Model.State(chain.Now(), newMax), items, k, cfg);
        match items[k]
        case Broken =>
          return Failed, started, newMax;
        case Forked(previous) =>
          return if previous == [] then Failed else ForkedAt(previous), started, newMax;
        case Arrived(batch) =>
          var r;
          r, newMax := IngestBatch(batch, newMax);
          if r.Err? {
            return Failed, started, newMax;
          }
          started := started || r.value;
      }
      NoItemsLeft(epoch, Model.State(chain.Now(), newMax), cfg);
      return Ended, started, newMax;
    }

    /** Open the turn's session, re-seeding first once enough sessions have stalled. None when the
        seed diverges from the buffer. */
    method OpenSession(script: Script, base: BlockRef, stacked: nat, firstIngested: bool, finalizedMax: Option<BlockRef>)
      returns (end: Option<SessionEnd>, newBase: BlockRef, started: bool, newMax: Option<BlockRef>)
      requires Valid() && chain != null
      modifies this, chain
      ensures Valid() && chain != null && (chain == old(chain) || fresh(chain))
      ensures var turn := Turn(RunState(Model.State(old(chain.Now()), finalizedMax), base, stacked, firstIngested), script, cfg);
        if end.None? then turn.Done? && turn.end == Terminal && chain.Now() == turn.run.state.buffer
        else turn == AfterSession(RunState(Model.State(chain.Now(), newMax), newBase, stacked, started), end.value)
      ensures epoch == EpochAfter(old(epoch),
        TurnCommits(RunState(Model.State(old(chain.Now()), finalizedMax), base, stacked, firstIngested), script, cfg))
    {
      hide Session, SeedVerdict, Rebase, EpochAfter, SessionCommits;
      TurnEpoch(epoch, RunState(Model.State(chain.Now(), finalizedMax), base, stacked, firstIngested), script, cfg);
      newBase, started, newMax := base, firstIngested, finalizedMax;
      var result;
      if stacked > STALL_REINIT {
        newMax := None;
        var seeded := Init(script.init);
        if seeded == Err(DivergentReseed) {
          return None, newBase, started, newMax;
        }
        if seeded.Err? {
          return Some(Failed), newBase, started, newMax;
        }
        newBase := seeded.value.Ref();
      }
      result, started, newMax := IngestSession(script.items, started, newMax);
      end := Some(result);
    }

    /** What a session's end means for the next turn; answers how the run ended, if it did. */
    method CloseSession(end: SessionEnd, base: BlockRef, stacked: nat, started: bool, finalizedMax: Option<BlockRef>)
      returns (over: Option<RunEnd>, newBase: BlockRef, newStacked: nat, newMax: Option<BlockRef>)
      requires Valid() && chain != null
      ensures AfterSession(RunState(Model.State(chain.Now(), finalizedMax), base, stacked, started), end) ==
        var run := RunState(Model.State(chain.Now(), newMax), newBase, newStacked, started);
        if over.Some? then Done(over.value, run) else Running(run)
    {
      over, newBase, newStacked, newMax := None, base, stacked, finalizedMax;
      if end.ForkedAt? {
        var forkBase := chain.GetForkBase(end.previous);
        if forkBase.Some? {
          newBase, newStacked := forkBase.value, 0;
        } else {
          over := Some(Terminal);
        }
      } else {
        newMax := None;
        if started {
          newBase := chain.blocks[|chain.blocks| - 1].Ref();
          newStacked := if newBase.number == base.number then stacked + 1 else 0;
        } else {
          over := Some(StartupFailure);
        }
      }
    }

    /** The run loop: a session per turn, until one ends the run or the service is stopped. */
    method RunLoop(scripts: seq<Script>) returns (end: RunEnd)
      requires Valid() && chain != null
      modifies this, chain
      ensures Valid() && chain != null && (chain == old(chain) || fresh(chain))
      ensures var o := Run(Started(old(chain.Now())), scripts, cfg);
        end == o.0 && chain.Now() == o.1.state.buffer
      ensures epoch == EpochAfter(old(epoch), History(Started(old(chain.Now())), scripts, cfg))
    {
      var base := chain.blocks[|chain.blocks| - 1].Ref();
      var stacked: nat, started, finalizedMax := 0, false, None;
      hide Run, EpochAfter, History, TurnCommits, Turn, Epoch, Extends, Session, AfterSession, SeedVerdict;
      ghost var commits := EpochAfter(epoch, History(Started(chain.Now()), scripts, cfg));
      ghost var whole := Run(Started(chain.Now()), scripts, cfg);
      for k := 0 to |scripts|
        invariant Valid() && chain != null && (chain == old(chain) || fresh(chain))
        invariant whole ==
          Run(RunState(Model.State(chain.Now(), finalizedMax), base, stacked, started), scripts[k..], cfg)
        invariant commits == EpochAfter(epoch,
          History(RunState(Model.State(chain.Now(), finalizedMax), base, stacked, started), scripts[k..], cfg))
      {
        OneMoreTurn(epoch, RunState(Model.State(chain.Now(), finalizedMax), base, stacked, started), scripts, k, cfg);
        var result;
        result, base, started, finalizedMax := OpenSession(scripts[k], base, stacked, started, finalizedMax);
        if result.None? {
          return Terminal;
        }
        var over;
        over, base, stacked, finalizedMax := CloseSession(result.value, base, stacked, started, finalizedMax);
        if over.Some? {
          return over.value;
        }
      }
      NoTurnsLeft(epoch, RunState(Model.State(chain.Now(), finalizedMax), base, stacked, started), cfg);
      return Stopped;
    }
  }
}
