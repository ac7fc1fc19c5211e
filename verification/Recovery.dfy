/** Fork recovery across source, buffer and run loop: one-ref signals walk the base down the
    buffer, one block a session, to the newest block the upstream agrees with. */
module Recovery {
  import opened Types
  import opened Window
  import opened Service
  import opened Source
  import Forks
  import Model

  /** A signal from the first block of a stream opened above `blocks[i]` that does not follow on. */
  function FirstSignal(base: BlockRef, parentHash: string): seq<BlockRef> {
    [BlockRef(Below(StreamFrom(base)), parentHash)]
  }

  /** Such a signal never answers the base it was opened above, nor anything newer. */
  lemma SignalPassesBase(b: Buffer, i: nat, h: string, j: nat)
    requires b.Valid() && i <= j < |b.blocks| && h != b.blocks[i].hash
    ensures !Forks.StopsAt(FirstSignal(b.blocks[i].Ref(), h), b.blocks[j])
  {
    ChainedAscends(b.blocks);
    var signal := FirstSignal(b.blocks[i].Ref(), h);
    assert signal[0].number <= b.blocks[j].number;
    assert Forks.KeptAt(signal, b.blocks[j].number) == 1;
  }

  /** Every fork strictly lowers the base; at the finalized head it is terminal. */
  lemma SignalDescends(b: Buffer, i: nat, h: string)
    requires b.Valid() && b.fin <= i < |b.blocks| && h != b.blocks[i].hash
    ensures var base := Forks.ForkBase(b, FirstSignal(b.blocks[i].Ref(), h));
      base.Some? ==> exists j :: b.fin <= j < i && b.blocks[j].Ref() == base.value
    ensures i == b.fin ==> Forks.ForkBase(b, FirstSignal(b.blocks[i].Ref(), h)) == None
  {
    var signal := FirstSignal(b.blocks[i].Ref(), h);
    forall j | i <= j < |b.blocks|
      ensures !Forks.StopsAt(signal, b.blocks[j])
    {
      SignalPassesBase(b, i, h, j);
    }
  }

  /** Below the top of the height range it lowers it by exactly one buffered block. */
  lemma SignalDescendsByOne(b: Buffer, i: nat, h: string)
    requires b.Valid() && b.fin < i < |b.blocks| && h != b.blocks[i].hash
    requires b.blocks[i].number < HEIGHT_MAX
    ensures Forks.ForkBase(b, FirstSignal(b.blocks[i].Ref(), h)) == Some(b.blocks[i - 1].Ref())
  {
    var signal := FirstSignal(b.blocks[i].Ref(), h);
    forall j | i <= j < |b.blocks|
      ensures !Forks.StopsAt(signal, b.blocks[j])
    {
      SignalPassesBase(b, i, h, j);
    }
    assert Follows(b.blocks[i - 1], b.blocks[i]) && b.blocks[i].number == signal[0].number;
    assert Forks.KeptAt(signal, b.blocks[i - 1].number) == 0;
    Forks.HighestIs(b.blocks, b.fin, x => Forks.StopsAt(signal, x), i - 1);
  }

  /** One session whose stream the gate cut at its very first block. */
  datatype Attempt = Attempt(script: Script, acquired: seq<Block>)

  ghost predicate CutAtFirst(base: BlockRef, a: Attempt) {
    && Consecutive(a.acquired, StreamFrom(base))
    && CutAtBreak(Some(base.hash), a.acquired, a.script.items)
    && Delivered(a.script.items) == []
  }

  lemma ManyItemsDeliver(items: seq<StreamItem>)
    requires BatchesThenEnd(items)
    ensures |items| > 1 ==> Delivered(items) != []
  {
    if |items| > 1 {
      var front := items[..|items| - 1];
      assert front[|front| - 1].Arrived? && front[|front| - 1].batch.blocks != [];
      assert Delivered(front) != [];
    }
  }

  lemma CutAtFirstSignals(base: BlockRef, a: Attempt)
    requires CutAtFirst(base, a)
    ensures a.acquired != [] && a.acquired[0].parentHash != base.hash
    ensures a.script.items == [Forked(FirstSignal(base, a.acquired[0].parentHash))]
  {
    ManyItemsDeliver(a.script.items);
  }

  /** Sessions one after another, each cut at its first block, with nothing committed between.
      `parentOf` is the upstream's answer: the parent hash of its block at each height. */
  ghost predicate ForkRun(r: RunState, attempts: seq<Attempt>, parentOf: Height -> string, cfg: Model.Config)
    requires r.state.buffer.Valid() && cfg.cacheSize > 0
    decreases attempts
  {
    attempts == [] ||
    (&& r.stacked <= STALL_REINIT
     && CutAtFirst(r.base, attempts[0])
     && attempts[0].acquired != []
     && attempts[0].acquired[0].parentHash == parentOf(attempts[0].acquired[0].number)
     && match Turn(r, attempts[0].script, cfg)
        case Done(_, _) => attempts[1..] == []
        case Running(next) => ForkRun(next, attempts[1..], parentOf, cfg))
  }

  function Scripts(attempts: seq<Attempt>): (s: seq<Script>)
    ensures |s| == |attempts|
  {
    if attempts == [] then [] else [attempts[0].script] + Scripts(attempts[1..])
  }

  /** Such a turn changes nothing but the base, and keeps the session's finality maximum. */
  lemma TurnOnFirstCut(r: RunState, a: Attempt, cfg: Model.Config)
    requires r.state.buffer.Valid() && cfg.cacheSize > 0 && r.stacked <= STALL_REINIT
    requires CutAtFirst(r.base, a)
    ensures a.acquired != []
    ensures Turn(r, a.script, cfg) == Rebase(r, FirstSignal(r.base, a.acquired[0].parentHash))
  {
    CutAtFirstSignals(r.base, a);
  }

  /** Such sessions one after another, whatever each of them found upstream. */
  ghost predicate ForkStreak(r: RunState, attempts: seq<Attempt>, cfg: Model.Config)
    requires r.state.buffer.Valid() && cfg.cacheSize > 0
    decreases attempts
  {
    attempts == [] ||
    (&& r.stacked <= STALL_REINIT
     && CutAtFirst(r.base, attempts[0])
     && match Turn(r, attempts[0].script, cfg)
        case Done(_, _) => attempts[1..] == []
        case Running(next) => ForkStreak(next, attempts[1..], cfg))
  }

  /** Only boundedly many forks happen in a row before a batch commits or the run ends terminal at
      finality, even against an upstream that changes its mind at every attempt: one for each block
      from the base down to the finalized head. */
  lemma {:induction false} ForkRunIsBounded(r: RunState, i: nat, attempts: seq<Attempt>, cfg: Model.Config)
    requires r.state.buffer.Valid() && cfg.cacheSize > 0
    requires r.state.buffer.fin <= i < |r.state.buffer.blocks| && r.state.buffer.blocks[i].Ref() == r.base
    requires ForkStreak(r, attempts, cfg)
    ensures |attempts| <= i - r.state.buffer.fin + 1
    decreases attempts
  {
    if attempts != [] {
      var b := r.state.buffer;
      TurnOnFirstCut(r, attempts[0], cfg);
      CutAtFirstSignals(r.base, attempts[0]);
      SignalDescends(b, i, attempts[0].acquired[0].parentHash);
      var turn := Turn(r, attempts[0].script, cfg);
      if turn.Running? {
        var j :| b.fin <= j < i && b.blocks[j].Ref() == turn.run.base;
        ForkRunIsBounded(turn.run, j, attempts[1..], cfg);
      }
    }
  }

  /** The run's base is the i-th block of its buffer, at or above finality. */
  ghost predicate AtBase(r: RunState, i: nat, cfg: Model.Config) {
    && r.state.buffer.Valid() && cfg.cacheSize > 0 && r.base.number < HEIGHT_MAX
    && r.state.buffer.fin <= i < |r.state.buffer.blocks| && r.state.buffer.blocks[i].Ref() == r.base
  }

  /** The run rebased one block down from the i-th. */
  function Lowered(r: RunState, i: nat): RunState
    requires 0 < i <= |r.state.buffer.blocks|
  {
    r.(base := r.state.buffer.blocks[i - 1].Ref(), stacked := 0)
  }

  lemma LoweredIsAtBase(r: RunState, i: nat, cfg: Model.Config)
    requires AtBase(r, i, cfg) && i > r.state.buffer.fin
    ensures AtBase(Lowered(r, i), i - 1, cfg)
  {
    assert Follows(r.state.buffer.blocks[i - 1], r.state.buffer.blocks[i]);
  }

  /** A first-block cut lowers the base to the block below it, or at the finalized head ends the run. */
  lemma FirstCutStep(r: RunState, i: nat, a: Attempt, cfg: Model.Config)
    requires AtBase(r, i, cfg) && r.stacked <= STALL_REINIT && CutAtFirst(r.base, a)
    ensures i == r.state.buffer.fin ==> Turn(r, a.script, cfg) == Done(Terminal, r)
    ensures i > r.state.buffer.fin ==> Turn(r, a.script, cfg) == Running(Lowered(r, i))
  {
    TurnOnFirstCut(r, a, cfg);
    CutAtFirstSignals(r.base, a);
    if i == r.state.buffer.fin {
      SignalDescends(r.state.buffer, i, a.acquired[0].parentHash);
    } else {
      SignalDescendsByOne(r.state.buffer, i, a.acquired[0].parentHash);
    }
  }

  /** The upstream's next block names another parent than `x`. */
  predicate Disagrees(parentOf: Height -> string, x: Block) {
    parentOf(StreamFrom(x.Ref())) != x.hash
  }

  /** One step of a run of forks: the upstream disagreed at the base, and either the run ended
      there, at the finalized head, or it goes on from the block below. */
  lemma ForkRunStep(r: RunState, i: nat, attempts: seq<Attempt>, parentOf: Height -> string, cfg: Model.Config)
    requires AtBase(r, i, cfg) && attempts != [] && ForkRun(r, attempts, parentOf, cfg)
    ensures Disagrees(parentOf, r.state.buffer.blocks[i])
    ensures i == r.state.buffer.fin ==>
      |attempts| == 1 && Run(r, Scripts(attempts), cfg) == (Terminal, r)
    ensures i > r.state.buffer.fin ==>
      && AtBase(Lowered(r, i), i - 1, cfg)
      && ForkRun(Lowered(r, i), attempts[1..], parentOf, cfg)
      && Run(r, Scripts(attempts), cfg) == Run(Lowered(r, i), Scripts(attempts[1..]), cfg)
  {
    FirstCutStep(r, i, attempts[0], cfg);
    FirstCutDisagrees(r, i, attempts[0], parentOf, cfg);
    ScriptsUnfold(attempts);
    if i > r.state.buffer.fin {
      LoweredIsAtBase(r, i, cfg);
    } else {
      assert attempts[1..] == [];
    }
  }

  lemma FirstCutDisagrees(r: RunState, i: nat, a: Attempt, parentOf: Height -> string, cfg: Model.Config)
    requires AtBase(r, i, cfg) && CutAtFirst(r.base, a)
    requires a.acquired != [] && a.acquired[0].parentHash == parentOf(a.acquired[0].number)
    ensures Disagrees(parentOf, r.state.buffer.blocks[i])
  {
    CutAtFirstSignals(r.base, a);
    assert a.acquired[0].number == StreamFrom(r.base);
  }

  lemma ScriptsUnfold(attempts: seq<Attempt>)
    requires attempts != []
    ensures Scripts(attempts) != [] && Scripts(attempts)[0] == attempts[0].script
    ensures Scripts(attempts)[1..] == Scripts(attempts[1..])
  {
  }

  /** Where `n` forks from `blocks[i]` lead: the base `n` blocks down and nothing else changed, or
      past the finalized head the end of the run. */
  ghost predicate ForksLeadTo(r: RunState, i: nat, n: nat, end: RunEnd, last: RunState)
    requires i < |r.state.buffer.blocks|
  {
    && last.state == r.state
    && (n <= i - r.state.buffer.fin ==>
          end == Stopped && last.base == r.state.buffer.blocks[i - n].Ref())
    && (n > i - r.state.buffer.fin ==>
          end == Terminal && n == i - r.state.buffer.fin + 1)
  }

  lemma RunOfNothing(r: RunState, cfg: Model.Config)
    requires r.state.buffer.Valid() && cfg.cacheSize > 0
    ensures Run(r, Scripts([]), cfg) == (Stopped, r)
  {
  }

  lemma {:induction false} ForkRunDescends(r: RunState, i: nat, attempts: seq<Attempt>,
      parentOf: Height -> string, cfg: Model.Config)
    requires AtBase(r, i, cfg) && ForkRun(r, attempts, parentOf, cfg)
    ensures var o := Run(r, Scripts(attempts), cfg); ForksLeadTo(r, i, |attempts|, o.0, o.1)
    decreases attempts
  {
    hide Turn, Run, CutAtFirst, Disagrees;
    if attempts == [] {
      RunOfNothing(r, cfg);
    } else {
      ForkRunStep(r, i, attempts, parentOf, cfg);
      if i > r.state.buffer.fin {
        ForkRunDescends(Lowered(r, i), i - 1, attempts[1..], parentOf, cfg);
        var o := Run(r, Scripts(attempts), cfg);
        LedFromBelow(r, i, |attempts| - 1, o.0, o.1);
      }
    }
  }

  lemma LedFromBelow(r: RunState, i: nat, n: nat, end: RunEnd, last: RunState)
    requires r.state.buffer.fin < i < |r.state.buffer.blocks| && ForksLeadTo(Lowered(r, i), i - 1, n, end, last)
    ensures ForksLeadTo(r, i, n + 1, end, last)
  {
  }

  /** At every block a run of forks left behind, the upstream disagreed. */
  lemma {:induction false} ForkRunDisagrees(r: RunState, i: nat, attempts: seq<Attempt>,
      parentOf: Height -> string, cfg: Model.Config, j: nat)
    requires AtBase(r, i, cfg) && ForkRun(r, attempts, parentOf, cfg)
    requires i - |attempts| < j <= i
    ensures Disagrees(parentOf, r.state.buffer.blocks[j])
    decreases attempts
  {
    hide Turn, Run, CutAtFirst, Disagrees;
    ForkRunStep(r, i, attempts, parentOf, cfg);
    if j < i {
      assert i > r.state.buffer.fin;
      ForkRunDisagrees(Lowered(r, i), i - 1, attempts[1..], parentOf, cfg, j);
    }
  }

  /** So recovery rolls back to the newest block the upstream agrees with and no further: while
      such a block stands at or above finality, it stops there and never ends terminal. */
  lemma RecoveryStopsAtCommonBlock(r: RunState, i: nat, common: nat, attempts: seq<Attempt>,
      parentOf: Height -> string, cfg: Model.Config)
    requires AtBase(r, i, cfg) && r.state.buffer.fin <= common <= i
    requires !Disagrees(parentOf, r.state.buffer.blocks[common])
    requires ForkRun(r, attempts, parentOf, cfg)
    ensures |attempts| <= i - common
    ensures var (end, last) := Run(r, Scripts(attempts), cfg);
      end == Stopped && last.base == r.state.buffer.blocks[i - |attempts|].Ref()
  {
    if |attempts| > i - common {
      ForkRunDisagrees(r, i, attempts, parentOf, cfg, common);
    }
    ForkRunDescends(r, i, attempts, parentOf, cfg);
    var o := Run(r, Scripts(attempts), cfg);
    assert ForksLeadTo(r, i, |attempts|, o.0, o.1);
  }
}
