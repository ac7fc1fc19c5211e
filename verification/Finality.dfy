/** Finality over a run: what every later state of an epoch keeps of an earlier one. */
module Finality {
  import opened Types
  import opened Window
  import Model
  import Refinement

  /** `b` is a legal later state of `a`: the finalized height has not dropped, the window has only
      moved up, and at or below `a`'s finalized head `b` holds exactly what `a` held, less what
      the window has left behind. So no finalized block is ever replaced, nor one inserted. */
  ghost predicate Extends(a: Buffer, b: Buffer)
    requires a.Valid() && b.Valid()
  {
    && a.Finalized().number <= b.Finalized().number
    && a.blocks[0].number <= b.blocks[0].number
    && forall x: Block :: x.number <= a.Finalized().number ==>
         (x in b.blocks <==> x in a.blocks && b.blocks[0].number <= x.number)
  }

  lemma ExtendsTransitive(a: Buffer, b: Buffer, c: Buffer)
    requires a.Valid() && b.Valid() && c.Valid()
    requires Extends(a, b) && Extends(b, c)
    ensures Extends(a, c)
  {
  }

  /** Two states of one epoch that hold blocks at a height finalized in the earlier hold the same block. */
  lemma FinalizedNeverReplaced(a: Buffer, b: Buffer, x: Block, y: Block)
    requires a.Valid() && b.Valid() && Extends(a, b)
    requires x in a.blocks && y in b.blocks
    requires x.number == y.number <= a.Finalized().number
    ensures x == y
  {
    ChainedAscends(a.blocks);
    assert y in a.blocks;
  }

  /** What one chain holds up to a common prefix's last height, the other holds too. */
  lemma PrefixHolds(a: seq<Block>, b: seq<Block>, n: nat, x: Block)
    requires Chained(a) && n < |a| && n < |b| && a[..n + 1] == b[..n + 1]
    requires x in a && x.number <= a[n].number
    ensures x in b && b[0].number <= x.number
  {
    var i :| 0 <= i < |a| && a[i] == x;
    ChainOrder(a, i, n);
    ChainOrder(a, 0, i);
    assert a[..n + 1][i] == b[..n + 1][i] == b[i];
    assert a[..n + 1][0] == b[..n + 1][0] == b[0];
  }

  /** Keeping the blocks up to the finalized head, and never lowering it, is enough. */
  lemma SamePrefixExtends(a: Buffer, b: Buffer)
    requires a.Valid() && b.Valid() && a.fin <= b.fin
    requires b.blocks[..a.fin + 1] == a.blocks[..a.fin + 1]
    ensures Extends(a, b)
  {
    var kept := a.blocks[..a.fin + 1];
    assert b.blocks[0] == kept[0] == a.blocks[0];
    assert b.blocks[a.fin] == kept[a.fin] == a.blocks[a.fin];
    ChainOrder(b.blocks, a.fin, b.fin);
    forall x: Block | x.number <= a.Finalized().number
      ensures x in b.blocks <==> x in a.blocks && b.blocks[0].number <= x.number
    {
      if x in a.blocks {
        PrefixHolds(a.blocks, b.blocks, a.fin, x);
      }
      if x in b.blocks {
        PrefixHolds(b.blocks, a.blocks, a.fin, x);
      }
    }
  }

  /** A chain's suffix holds what the chain holds from the suffix's first height on. */
  lemma SuffixHolds(blocks: seq<Block>, n: nat, x: Block)
    requires Chained(blocks) && n < |blocks|
    ensures x in blocks[n..] <==> x in blocks && blocks[n].number <= x.number
  {
    if x in blocks {
      var i :| 0 <= i < |blocks| && blocks[i] == x;
      ChainOrder(blocks, n, i);
      assert i >= n ==> blocks[n..][i - n] == x;
    }
    if x in blocks[n..] {
      var i :| 0 <= i < |blocks[n..]| && blocks[n..][i] == x;
      ChainOrder(blocks, n, n + i);
    }
  }

  /** Compaction removes blocks strictly below the finalized head only, oldest first. */
  lemma CompactionExtends(b: Buffer, maxSize: nat, autoAdjust: bool)
    requires b.Valid() && maxSize > 0
    ensures Extends(b, Compacted(b, maxSize, autoAdjust))
    ensures var c := Compacted(b, maxSize, autoAdjust);
      |c.blocks| <= |b.blocks| && c.blocks == b.blocks[|b.blocks| - |c.blocks|..]
      && c.Finalized().number >= b.Finalized().number
  {
    var c := Compacted(b, maxSize, autoAdjust);
    var trim := |b.blocks| - |c.blocks|;
    ChainOrder(b.blocks, b.fin, c.fin + trim);
    ChainOrder(b.blocks, 0, trim);
    forall x: Block | x.number <= b.Finalized().number
      ensures x in c.blocks <==> x in b.blocks && c.blocks[0].number <= x.number
    {
      SuffixHolds(b.blocks, trim, x);
    }
  }

  /** The window bound: compaction reaches it unless finality lags and may not be forced. */
  lemma CompactionBound(b: Buffer, maxSize: nat, autoAdjust: bool)
    requires b.Valid() && maxSize > 0
    ensures |Compacted(b, maxSize, autoAdjust).blocks| <= maxSize <==>
      autoAdjust || |b.blocks| <= maxSize + b.fin
    ensures Compacted(Compacted(b, maxSize, autoAdjust), maxSize, autoAdjust)
      == Compacted(b, maxSize, autoAdjust)
  {
  }

  /** `c` is `b` compacted: untouched while it fits; else no shorter than the bound, and longer only
      where no finalized block is left to trim; and its finalized head is the old one, unless that was
      itself in the way, and then it is the lowest block kept. */
  ghost predicate CompactsTo(b: Buffer, c: Buffer, maxSize: nat, autoAdjust: bool)
    requires b.Valid() && c.Valid()
  {
    && |c.blocks| <= |b.blocks| && c.blocks == b.blocks[|b.blocks| - |c.blocks|..]
    && (|b.blocks| <= maxSize ==> c == b)
    && (|b.blocks| > maxSize ==> |c.blocks| >= maxSize && (|c.blocks| > maxSize ==> c.fin == 0))
    && (|c.blocks| <= maxSize <==> autoAdjust || |b.blocks| <= maxSize + b.fin)
    && if autoAdjust && |b.blocks| > maxSize + b.fin then c.fin == 0 else c.Finalized() == b.Finalized()
  }

  lemma CompactionKeeps(b: Buffer, maxSize: nat, autoAdjust: bool)
    requires b.Valid() && maxSize > 0
    ensures CompactsTo(b, Compacted(b, maxSize, autoAdjust), maxSize, autoAdjust)
  {
    hide WellFormed;
    var c := Compacted(b, maxSize, autoAdjust);
    CompactedIs(b, maxSize, autoAdjust);
    var trim := |b.blocks| - |c.blocks|;
    assert b.blocks[0..] == b.blocks;
    assert c.blocks[c.fin] == b.blocks[trim + c.fin];
  }

  lemma CompactedIs(b: Buffer, maxSize: nat, autoAdjust: bool)
    requires b.Valid() && maxSize > 0
    ensures var c := Compacted(b, maxSize, autoAdjust);
      var (trim, fin) := Trim(|b.blocks|, b.fin, maxSize, autoAdjust);
      trim < |b.blocks| && c == Buffer(b.blocks[trim..], fin)
  {
    hide WellFormed;
  }

  /** How many blocks go, and where that leaves the finalized head, as counts. */
  function Trim(n: nat, fin: nat, maxSize: nat, autoAdjust: bool): (nat, nat)
    requires fin < n && maxSize > 0
  {
    var extra := if n > maxSize then n - maxSize else 0;
    var head := if fin < extra && autoAdjust then extra else fin;
    var trim := if extra < head then extra else head;
    (trim, head - trim)
  }

  lemma TrimIsDetermined(n: nat, fin: nat, m: nat, cfin: nat, maxSize: nat, autoAdjust: bool)
    requires fin < n && cfin < m <= n && maxSize > 0
    requires n <= maxSize ==> m == n && cfin == fin
    requires n > maxSize ==> m >= maxSize && (m > maxSize ==> cfin == 0)
    requires m <= maxSize <==> autoAdjust || n <= maxSize + fin
    requires if autoAdjust && n > maxSize + fin then cfin == 0 else n - m + cfin == fin
    ensures Trim(n, fin, maxSize, autoAdjust) == (n - m, cfin)
  {
  }

  lemma FinalizedMoves(b: Buffer, c: Buffer, trim: nat)
    requires b.Valid() && c.Valid() && trim <= |b.blocks| && c.blocks == b.blocks[trim..]
    ensures c.Finalized() == b.Finalized() ==> trim + c.fin == b.fin
  {
    ChainOrder(b.blocks, trim + c.fin, b.fin);
    ChainOrder(b.blocks, b.fin, trim + c.fin);
  }

  /** There is only one such buffer. */
  lemma CompactionIsDetermined(b: Buffer, c: Buffer, maxSize: nat, autoAdjust: bool)
    requires b.Valid() && c.Valid() && maxSize > 0 && CompactsTo(b, c, maxSize, autoAdjust)
    ensures c == Compacted(b, maxSize, autoAdjust)
  {
    hide WellFormed, Compacted, Trim;
    FinalizedMoves(b, c, |b.blocks| - |c.blocks|);
    TrimIsDetermined(|b.blocks|, b.fin, |c.blocks|, c.fin, maxSize, autoAdjust);
    CompactedIs(b, maxSize, autoAdjust);
  }

  lemma PushesExtend(b: Buffer, xs: seq<Block>)
    requires b.Valid() && Refinement.PushEach(b, xs).Ok?
    ensures Extends(b, Refinement.PushEach(b, xs).value)
  {
    Refinement.PushesKeepFinalized(b, xs);
    SamePrefixExtends(b, Refinement.PushEach(b, xs).value);
  }

  lemma SettlingExtends(s: Model.State)
    requires s.buffer.Valid()
    ensures Extends(s.buffer, Model.SettleReport(s).1.buffer)
  {
    SamePrefixExtends(s.buffer, Model.SettleReport(s).1.buffer);
  }

  lemma PushAllExtends(b: Buffer, xs: seq<Block>)
    requires b.Valid() && Model.PushAll(b, xs).0 == Model.Applied
    ensures Extends(b, Model.PushAll(b, xs).1)
  {
    Refinement.PushesAgree(b, xs);
    PushesExtend(b, xs);
  }

  lemma BodyExtends(s: Model.State, batch: Batch)
    requires s.buffer.Valid() && Model.Body(s, batch).0 == Model.Applied
    ensures Extends(s.buffer, Model.Body(s, batch).1.buffer)
  {
    var b := Model.PushAll(s.buffer, batch.blocks).1;
    PushAllExtends(s.buffer, batch.blocks);
    SettlingExtends(s.(buffer := b));
    var s1 := Model.SettleReport(s.(buffer := b)).1;
    ExtendsTransitive(s.buffer, b, s1.buffer);
    if batch.finalized.Some? {
      var noted := Model.NoteReport(s1, batch.finalized.value).1;
      SettlingExtends(noted);
      ExtendsTransitive(s.buffer, s1.buffer, Model.SettleReport(noted).1.buffer);
    }
  }

  /** Every batch, accepted or not, leads to a legal later state. */
  lemma BatchExtends(s: Model.State, batch: Batch, cfg: Model.Config)
    requires s.buffer.Valid() && cfg.cacheSize > 0
    ensures Extends(s.buffer, Model.ApplyBatch(s, batch, cfg).1.buffer)
  {
    if Model.ApplyBatch(s, batch, cfg).0 == Model.Applied {
      var b := Model.Body(s, batch).1.buffer;
      BodyExtends(s, batch);
      CompactionExtends(b, cfg.cacheSize, cfg.autoAdjust);
      ExtendsTransitive(s.buffer, b, Compacted(b, cfg.cacheSize, cfg.autoAdjust));
    } else {
      SamePrefixExtends(s.buffer, s.buffer);
    }
  }

  // ----- what an applied batch leaves ------------------------------------------------------

  /** What a report asks for: finality up to its height, or all that is buffered below it. */
  function Owed(b: Buffer, r: BlockRef): Height
    requires b.Valid()
  {
    if r.number < b.Last().number then r.number else b.Last().number
  }

  /** A report is taken exactly when it is stale, lies above the head, or names a buffered block; then
      the finalized height is the higher of the old one and what the report asks for. */
  lemma ReportAdvances(b: Buffer, r: BlockRef)
    requires b.Valid()
    ensures var v := FinalizeVerdict(b, r);
      && (v.Ok? <==> r.number < b.Finalized().number || r.number > b.Last().number || HoldsRef(b.blocks, r))
      && (v.Ok? ==>
            && v.value.blocks == b.blocks
            && v.value.Finalized().number == Max(b.Finalized().number, Owed(b, r)))
  {
    ChainedAscends(b.blocks);
    if HoldsRef(b.blocks, r) {
      var i :| 0 <= i < |b.blocks| && b.blocks[i].Ref() == r;
      assert Position(b.blocks, r.number) == i;
    }
  }

  lemma SettlingAdvances(s: Model.State)
    requires s.buffer.Valid() && s.finMax.Some? && Model.SettleReport(s).0 == Model.Applied
    ensures var b := Model.SettleReport(s).1.buffer;
      b.blocks == s.buffer.blocks && b.Finalized().number == Max(s.buffer.Finalized().number, Owed(s.buffer, s.finMax.value))
  {
    Refinement.DischargeAgrees(s);
    ReportAdvances(s.buffer, s.finMax.value);
  }

  /** The batch's report, if it is not stale, is at or below the maximum held, which is it or the one
      held before, whichever is higher. */
  ghost predicate Raised(was: Option<BlockRef>, report: Option<BlockRef>, now: Option<BlockRef>) {
    if report.Some? && (was.None? || report.value.number > was.value.number) then now == report else now == was
  }

  /** A batch held to be new ends at the head of what it leaves; any other leaves the head alone. */
  ghost predicate HeadAfter(b: Buffer, xs: seq<Block>, now: Buffer)
    requires b.Valid() && now.Valid() && xs != []
  {
    now.Last() == if exists i :: 0 <= i < |xs| && xs[i] !in b.blocks then xs[|xs| - 1] else b.Last()
  }

  lemma PushesSetHead(b: Buffer, xs: seq<Block>)
    requires b.Valid() && Chained(xs) && xs != [] && Refinement.PushEach(b, xs).Ok?
    ensures HeadAfter(b, xs, Refinement.PushEach(b, xs).value)
  {
    Refinement.BatchShape(b, xs);
    var k := Refinement.LeadingHeld(b.blocks, xs);
    if k < |xs| {
      assert xs[k..][|xs[k..]| - 1] == xs[|xs| - 1];
    }
  }

  /** What an applied batch does: the head is its last block if it brought anything new; whatever has
      been reported is finalized as far as the buffer reaches; the maximum is the higher of the one
      held and the batch's own, a stale one aside; and finality never falls. */
  ghost predicate Leaves(s: Model.State, batch: Batch, after: Model.State)
    requires s.buffer.Valid() && after.buffer.Valid() && batch.blocks != []
  {
    && HeadAfter(s.buffer, batch.blocks, after.buffer)
    && (after.finMax.Some? ==> after.buffer.Finalized().number >= Owed(after.buffer, after.finMax.value))
    && (after.finMax.None? ==> after.buffer.Finalized() == s.buffer.Finalized())
    && (batch.finalized.Some? && batch.finalized.value.number >= after.buffer.Finalized().number ==>
          Raised(s.finMax, batch.finalized, after.finMax))
    && (batch.finalized.None? ==> after.finMax == s.finMax)
    && (after.finMax == s.finMax || after.finMax == batch.finalized)
    && !(&& batch.finalized.Some? && after.finMax.Some? && batch.finalized != after.finMax
         && batch.finalized.value.number == after.finMax.value.number
         && batch.finalized.value.number >= after.buffer.Finalized().number)
  }

  lemma BodyLeaves(s: Model.State, batch: Batch)
    requires s.buffer.Valid() && Model.Admissible(batch) && Model.Body(s, batch).0 == Model.Applied
    ensures Leaves(s, batch, Model.Body(s, batch).1)
  {
    hide Model.SettleReport, Model.PushAll, Refinement.PushEach, FinalizeVerdict;
    var b := Model.PushAll(s.buffer, batch.blocks).1;
    Refinement.PushesAgree(s.buffer, batch.blocks);
    PushesSetHead(s.buffer, batch.blocks);
    Refinement.PushesKeepFinalized(s.buffer, batch.blocks);
    SameFinalized(s.buffer, b);
    var s0 := s.(buffer := b);
    SettlesOnce(s0);
    var s1 := Model.SettleReport(s0).1;
    if batch.finalized.Some? {
      SettlesOnce(Model.NoteReport(s1, batch.finalized.value).1);
    }
  }

  /** The buffer can take a report: it is stale, lies above the head, or names a buffered block. */
  predicate Takes(b: Buffer, r: BlockRef)
    requires b.Valid()
  {
    r.number < b.Finalized().number || r.number > b.Last().number || HoldsRef(b.blocks, r)
  }

  /** The finalized height once a report held has been settled. */
  function SettledHeight(b: Buffer, finMax: Option<BlockRef>): Height
    requires b.Valid()
  {
    if finMax.None? then b.Finalized().number else Max(b.Finalized().number, Owed(b, finMax.value))
  }

  /** A well-shaped batch is applied exactly when its blocks can be pushed, the report held can be
      taken on what they leave, and its own report, unless that is stale by then, neither contradicts
      the one held nor, being higher, cannot be taken. */
  lemma AppliedIff(s: Model.State, batch: Batch)
    requires s.buffer.Valid() && Model.Admissible(batch)
    ensures Model.Body(s, batch).0 == Model.Applied <==>
      && Refinement.PushEach(s.buffer, batch.blocks).Ok?
      && var b := Refinement.PushEach(s.buffer, batch.blocks).value;
         && (s.finMax.Some? ==> Takes(b, s.finMax.value))
         && (batch.finalized.Some? && batch.finalized.value.number >= SettledHeight(b, s.finMax) ==>
               var r := batch.finalized.value;
               && (s.finMax.Some? && r.number == s.finMax.value.number ==> r.hash == s.finMax.value.hash)
               && (s.finMax.None? || r.number > s.finMax.value.number ==> r.number > b.Last().number || HoldsRef(b.blocks, r)))
  {
    hide Model.SettleReport, Model.PushAll, Refinement.PushEach, FinalizeVerdict;
    Refinement.PushesAgree(s.buffer, batch.blocks);
    if Refinement.PushEach(s.buffer, batch.blocks).Ok? {
      var s0 := s.(buffer := Model.PushAll(s.buffer, batch.blocks).1);
      SettlesIff(s0);
      SettlesOnce(s0);
      if Model.SettleReport(s0).0 == Model.Applied && batch.finalized.Some? {
        var s1 := Model.SettleReport(s0).1;
        var s2 := Model.NoteReport(s1, batch.finalized.value).1;
        SettlesIff(s2);
        if s2.finMax == s.finMax {
          Refinement.SettleIsIdempotent(s0);
        }
      }
    }
  }

  lemma SettlesIff(s: Model.State)
    requires s.buffer.Valid()
    ensures Model.SettleReport(s).0 == Model.Applied <==> (s.finMax.Some? ==> Takes(s.buffer, s.finMax.value))
  {
    Refinement.DischargeAgrees(s);
    if s.finMax.Some? {
      ReportAdvances(s.buffer, s.finMax.value);
    }
  }

  lemma SameFinalized(a: Buffer, b: Buffer)
    requires a.Valid() && b.Valid() && a.fin == b.fin && b.blocks[..a.fin + 1] == a.blocks[..a.fin + 1]
    ensures a.Finalized() == b.Finalized()
  {
    assert b.blocks[..a.fin + 1][a.fin] == a.blocks[..a.fin + 1][a.fin];
  }

  lemma SettlesOnce(s: Model.State)
    requires s.buffer.Valid()
    ensures s.finMax.None? ==> Model.SettleReport(s) == (Model.Applied, s)
    ensures Model.SettleReport(s).0 == Model.Applied && s.finMax.Some? ==>
      var b := Model.SettleReport(s).1.buffer;
      b.blocks == s.buffer.blocks && b.Finalized().number == Max(s.buffer.Finalized().number, Owed(s.buffer, s.finMax.value))
  {
    if s.finMax.Some? && Model.SettleReport(s).0 == Model.Applied {
      SettlingAdvances(s);
    }
  }

  /** An applied batch leaves such a state, compacted. */
  ghost predicate Commits(s: Model.State, batch: Batch, after: Model.State, cfg: Model.Config)
    requires s.buffer.Valid() && after.buffer.Valid() && batch.blocks != []
  {
    exists body: Model.State :: body.buffer.Valid() && Leaves(s, batch, body)
      && CompactsTo(body.buffer, after.buffer, cfg.cacheSize, cfg.autoAdjust) && after.finMax == body.finMax
  }

  lemma AppliedCommits(s: Model.State, batch: Batch, cfg: Model.Config)
    requires s.buffer.Valid() && cfg.cacheSize > 0 && Model.ApplyBatch(s, batch, cfg).0 == Model.Applied
    ensures batch.blocks != [] && Commits(s, batch, Model.ApplyBatch(s, batch, cfg).1, cfg)
  {
    hide Leaves, CompactsTo, Model.Body, Compacted;
    BodyLeaves(s, batch);
    CompactionKeeps(Model.Body(s, batch).1.buffer, cfg.cacheSize, cfg.autoAdjust);
  }

  /** The committed states of one epoch, oldest first, up to `now`: each extends the one before. */
  ghost predicate Epoch(states: seq<Buffer>, now: Buffer) {
    && states != [] && states[|states| - 1] == now && now.Valid()
    && (|states| > 1 ==>
          Epoch(states[..|states| - 1], states[|states| - 2]) && Extends(states[|states| - 2], now))
  }

  lemma EpochGrows(states: seq<Buffer>, now: Buffer, next: Buffer)
    requires Epoch(states, now) && next.Valid() && Extends(now, next)
    ensures Epoch(states + [next], next)
  {
    assert (states + [next])[..|states|] == states;
  }

  /** Any two committed states of an epoch, however far apart: the later one is a legal later state
      of the earlier. */
  lemma {:induction false} EpochSafety(states: seq<Buffer>, now: Buffer, i: nat, j: nat)
    requires Epoch(states, now) && i <= j < |states|
    ensures states[i].Valid() && states[j].Valid() && Extends(states[i], states[j])
  {
    var front := states[..|states| - 1];
    if j < |states| - 1 {
      EpochSafety(front, states[|states| - 2], i, j);
    } else if i < j {
      EpochSafety(front, states[|states| - 2], i, j - 1);
      ExtendsTransitive(states[i], states[j - 1], now);
    } else {
      SamePrefixExtends(now, now);
    }
  }
}
