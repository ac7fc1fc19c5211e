/** The service's order of checks, and the proof that it accepts the batches the reference model
    accepts and leaves the same state. */
module Refinement {
  import opened Sequences
  import opened Types
  import opened Window
  import Model
  import ChainBuffer

  datatype BatchError = Malformed | ConflictingReports | Contradiction(violation: Violation)

  // ----- the service's batch, as a function -------------------------------------

  /** Push the blocks in order; the first violation rejects the batch. */
  ghost function PushEach(b: Buffer, xs: seq<Block>): (r: Result<Buffer, Violation>)
    requires b.Valid()
    ensures r.Ok? ==> r.value.Valid() && r.value.fin == b.fin
    decreases xs
  {
    if xs == [] then Ok(b)
    else
      var verdict := PushVerdict(b, xs[0]);
      if verdict.Err? then Err(verdict.error) else PushEach(PushEffect(b, xs[0]), xs[1..])
  }

  /** The report names the running maximum's height under another hash and is not stale. */
  predicate ContradictsMaximum(s: Model.State, report: Option<BlockRef>)
    requires s.buffer.Valid()
  {
    && report.Some? && s.finMax.Some?
    && report.value.number >= s.buffer.Finalized().number
    && report.value.number == s.finMax.value.number
    && report.value.hash != s.finMax.value.hash
  }

  predicate RaisesMaximum(s: Model.State, report: Option<BlockRef>)
    requires s.buffer.Valid()
  {
    && report.Some?
    && report.value.number >= s.buffer.Finalized().number
    && (s.finMax.None? || report.value.number > s.finMax.value.number)
  }

  ghost function Discharge(s: Model.State): (r: Result<Model.State, BatchError>)
    requires s.buffer.Valid()
    ensures r.Ok? ==> r.value.buffer.Valid() && r.value.finMax == s.finMax
  {
    if s.finMax.None? then Ok(s)
    else
      var verdict := FinalizeVerdict(s.buffer, s.finMax.value);
      if verdict.Err? then Err(Contradiction(verdict.error)) else Ok(s.(buffer := verdict.value))
  }

  /** A contradiction between reports is rejected before any push; the maximum is settled, then
      raised, then settled again only if it was raised. */
  ghost function ServiceBody(s: Model.State, batch: Batch): (r: Result<Model.State, BatchError>)
    requires s.buffer.Valid()
    ensures r.Ok? ==> r.value.buffer.Valid()
  {
    if ContradictsMaximum(s, batch.finalized) then Err(ConflictingReports)
    else
      var pushed := PushEach(s.buffer, batch.blocks);
      if pushed.Err? then Err(Contradiction(pushed.error))
      else
        var settled := Discharge(s.(buffer := pushed.value));
        if settled.Err? || !RaisesMaximum(settled.value, batch.finalized) then settled
        else Discharge(settled.value.(finMax := batch.finalized))
  }

  // ----- agreement, operation by operation ---------------------------------------

  function FaultOf(v: Violation): Model.Fault {
    match v
    case RefEquivocation(_, _) => Model.Equivocation
    case DescendingHeight(_, _) => Model.Descending
    case ParentNotBuffered(_, _) => Model.Gap
    case WriteBelowFinality(_) => Model.BelowFinality
    case ParentHashMismatch(_, _, _) => Model.ParentMismatch
    case UnbufferedFinality(_) => Model.UnbufferedReport
    case FinalityHashMismatch(_, _, _) => Model.ReportMismatch
  }

  /** The model's push read off the same two positions bisection would find. */
  lemma ModelPushBySearch(b: Buffer, x: Block)
    requires b.Valid()
    ensures var at := FirstAtOrAbove(b.blocks, x.number);
      var pos := FirstAtOrAbove(b.blocks, x.parentNumber);
      Model.Push(b, x) ==
      if at < |b.blocks| && b.blocks[at].Ref() == x.Ref() then
        (if b.blocks[at] == x then Model.Applied else Model.IntegrityViolation(Model.Equivocation), b)
      else if x.parentNumber >= x.number then (Model.IntegrityViolation(Model.Descending), b)
      else if pos == |b.blocks| || b.blocks[pos].number != x.parentNumber then
        (Model.IntegrityViolation(Model.Gap), b)
      else if pos < b.fin then (Model.IntegrityViolation(Model.BelowFinality), b)
      else if b.blocks[pos].hash != x.parentHash then (Model.IntegrityViolation(Model.ParentMismatch), b)
      else (Model.Applied, b.(blocks := b.blocks[..pos + 1] + [x]))
  {
    ChainBuffer.HeldRefAt(b.blocks, x);
    PositionBySearch(b, x.parentNumber);
    ChainBuffer.LastIsAt(b.blocks);
    assert b.blocks[..|b.blocks|] == b.blocks;
  }

  lemma PositionBySearch(b: Buffer, number: nat)
    requires b.Valid()
    ensures var pos := FirstAtOrAbove(b.blocks, number);
      Position(b.blocks, number) ==
      if pos < |b.blocks| && b.blocks[pos].number == number then pos else |b.blocks|
  {
    ChainBuffer.HeightAt(b, number);
    assert HoldsHeight(b.blocks, number) <==> Position(b.blocks, number) < |b.blocks|;
  }

  /** A new block that claims to ascend from a parent below the finalized head, at a height where
      nothing is buffered. */
  predicate GapBelowFinality(b: Buffer, x: Block)
    requires b.Valid()
  {
    && !HoldsRef(b.blocks, x.Ref()) && x.parentNumber < x.number
    && b.fin > 0 && x.parentNumber <= b.blocks[b.fin - 1].number
    && !HoldsHeight(b.blocks, x.parentNumber)
  }

  /** A push inserts exactly a block of a new ref that ascends from a held block at or above the
      finalized head; it then takes the place of everything above that block. It absorbs exactly a
      block held already, and nothing else changes the buffer. */
  lemma PushInserts(b: Buffer, x: Block)
    requires b.Valid()
    ensures PushVerdict(b, x) == Ok(Inserted) <==>
      !HoldsRef(b.blocks, x.Ref()) && x.parentNumber < x.number && exists i :: b.fin <= i < |b.blocks| && Linked(b.blocks[i], x)
    ensures PushVerdict(b, x) == Ok(Inserted) ==>
      exists i :: b.fin <= i < |b.blocks| && Linked(b.blocks[i], x) && PushEffect(b, x).blocks == b.blocks[..i + 1] + [x]
    ensures PushVerdict(b, x) == Ok(Absorbed) <==> x in b.blocks
    ensures PushVerdict(b, x) != Ok(Inserted) ==> PushEffect(b, x) == b
  {
    HeldIsRefHeld(b, x);
    ParentIsHeld(b.blocks, x);
    ChainedAscends(b.blocks);
    var i := ParentIndex(b.blocks, x);
    assert forall j :: 0 <= j < |b.blocks| && Linked(b.blocks[j], x) ==> j == i;
  }

  /** Buffer and model accept the same pushes with the same effect, and name the same fault for
      every rejected block except, exactly, one with a gap below the finalized head. */
  lemma PushAgrees(b: Buffer, x: Block)
    requires b.Valid()
    ensures Model.Push(b, x).0 == Model.Applied <==> PushVerdict(b, x).Ok?
    ensures Model.Push(b, x).1 == PushEffect(b, x)
    ensures PushVerdict(b, x).Err? ==>
      (Model.Push(b, x).0 == Model.IntegrityViolation(FaultOf(PushVerdict(b, x).error)) <==>
       !GapBelowFinality(b, x))
  {
    ChainBuffer.PushBySearch(b, x);
    ModelPushBySearch(b, x);
    ChainBuffer.HeightAt(b, x.parentNumber);
    HeldIsRefHeld(b, x);
  }

  lemma HeldIsRefHeld(b: Buffer, x: Block)
    ensures x in b.blocks ==> HoldsRef(b.blocks, x.Ref())
  {
    if x in b.blocks {
      var i :| 0 <= i < |b.blocks| && b.blocks[i] == x;
      assert b.blocks[i].Ref() == x.Ref();
    }
  }

  /** There are such blocks: the buffer then reports a write below finality, the model a gap. */
  lemma FaultsDiffer() returns (b: Buffer, x: Block)
    ensures b.Valid() && GapBelowFinality(b, x)
    ensures PushVerdict(b, x) == Err(WriteBelowFinality(x.number))
    ensures Model.Push(b, x).0 == Model.IntegrityViolation(Model.Gap)
  {
    b := Buffer([Block(5, "a", 4, "z"), Block(6, "c", 5, "a")], 1);
    x := Block(9, "x", 3, "q");
    ChainBuffer.PushBySearch(b, x);
    ModelPushBySearch(b, x);
  }

  lemma FinalizeAgrees(b: Buffer, r: BlockRef)
    requires b.Valid()
    ensures Model.Finalize(b, r).0 == Model.Applied <==> FinalizeVerdict(b, r).Ok?
    ensures FinalizeVerdict(b, r).Ok? ==> Model.Finalize(b, r).1 == FinalizeVerdict(b, r).value
    ensures FinalizeVerdict(b, r).Err? ==>
      Model.Finalize(b, r).0 == Model.IntegrityViolation(FaultOf(FinalizeVerdict(b, r).error))
  {
    FirstIsLowest(b);
    if b.Finalized().number <= r.number <= b.Last().number {
      ChainBuffer.FinalizeBySearch(b, r);
      PositionBySearch(b, r.number);
    }
  }

  lemma FirstIsLowest(b: Buffer)
    requires b.Valid()
    ensures b.blocks[0].number <= b.Finalized().number <= b.Last().number
  {
    ChainedAscends(b.blocks);
  }

  lemma {:induction false} PushesAgree(b: Buffer, xs: seq<Block>)
    requires b.Valid()
    ensures Model.PushAll(b, xs).0 == Model.Applied <==> PushEach(b, xs).Ok?
    ensures PushEach(b, xs).Ok? ==> Model.PushAll(b, xs).1 == PushEach(b, xs).value
    decreases xs
  {
    if xs != [] {
      PushAgrees(b, xs[0]);
      if PushVerdict(b, xs[0]).Ok? {
        PushesAgree(PushEffect(b, xs[0]), xs[1..]);
      }
    }
  }

  lemma DischargeAgrees(s: Model.State)
    requires s.buffer.Valid()
    ensures Model.SettleReport(s).0 == Model.Applied <==> Discharge(s).Ok?
    ensures Discharge(s).Ok? ==> Model.SettleReport(s).1 == Discharge(s).value
  {
    if s.finMax.Some? {
      FinalizeAgrees(s.buffer, s.finMax.value);
      ChainedAscends(s.buffer.blocks);
    }
  }

  /** Settling an obligation twice is settling it once. */
  lemma SettleIsIdempotent(s: Model.State)
    requires s.buffer.Valid() && Model.SettleReport(s).0 == Model.Applied
    ensures Model.SettleReport(Model.SettleReport(s).1) == (Model.Applied, Model.SettleReport(s).1)
  {
    ChainedAscends(s.buffer.blocks);
  }

  /** Pushes never touch a block at or below the finalized head. */
  lemma {:induction false} PushesKeepFinalized(b: Buffer, xs: seq<Block>)
    requires b.Valid() && PushEach(b, xs).Ok?
    ensures var b' := PushEach(b, xs).value; b'.blocks[..b.fin + 1] == b.blocks[..b.fin + 1]
    decreases xs
  {
    if xs != [] {
      PushKeepsFinalized(b, xs[0]);
      PushesKeepFinalized(PushEffect(b, xs[0]), xs[1..]);
    }
  }

  lemma PushKeepsFinalized(b: Buffer, x: Block)
    requires b.Valid()
    ensures PushEffect(b, x).blocks[..b.fin + 1] == b.blocks[..b.fin + 1]
  {
    ChainBuffer.PushBySearch(b, x);
  }

  /** A report that contradicts the maximum before the pushes still does after them, unless the
      batch was going to be rejected anyway: the early check changes no verdict. */
  lemma EarlyRejectionAgrees(s: Model.State, batch: Batch)
    requires s.buffer.Valid() && ContradictsMaximum(s, batch.finalized)
    ensures Model.Body(s, batch).0 != Model.Applied
  {
    PushesAgree(s.buffer, batch.blocks);
    if PushEach(s.buffer, batch.blocks).Ok? {
      PushesKeepFinalized(s.buffer, batch.blocks);
      var b := PushEach(s.buffer, batch.blocks).value;
      assert b.Finalized() == s.buffer.blocks[..s.buffer.fin + 1][s.buffer.fin].Ref();
      ChainedAscends(b.blocks);
    }
  }

  /** Conversely, a contradiction the model finds after settling was there before the pushes. */
  lemma LateContradictionWasEarly(s: Model.State, b: Buffer, report: Option<BlockRef>)
    requires s.buffer.Valid() && b.Valid() && b.fin == s.buffer.fin
    requires b.Finalized() == s.buffer.Finalized()
    requires Model.SettleReport(s.(buffer := b)).0 == Model.Applied
    requires ContradictsMaximum(Model.SettleReport(s.(buffer := b)).1, report)
    ensures ContradictsMaximum(s, report)
  {
    var s1 := Model.SettleReport(s.(buffer := b)).1;
    ChainedAscends(b.blocks);
    assert b.blocks[b.fin].number <= s1.buffer.blocks[s1.buffer.fin].number;
  }

  /** The service accepts a batch exactly when the model does, and then to the same buffer and
      the same running maximum. */
  lemma ServiceRefinesModel(s: Model.State, batch: Batch)
    requires s.buffer.Valid()
    ensures ServiceBody(s, batch).Ok? <==> Model.Body(s, batch).0 == Model.Applied
    ensures ServiceBody(s, batch).Ok? ==> ServiceBody(s, batch).value == Model.Body(s, batch).1
  {
    PushesAgree(s.buffer, batch.blocks);
    if ContradictsMaximum(s, batch.finalized) {
      EarlyRejectionAgrees(s, batch);
    } else if PushEach(s.buffer, batch.blocks).Ok? {
      var b := PushEach(s.buffer, batch.blocks).value;
      var s' := s.(buffer := b);
      PushesKeepFinalized(s.buffer, batch.blocks);
      assert b.Finalized() == s.buffer.blocks[..s.buffer.fin + 1][s.buffer.fin].Ref();
      DischargeAgrees(s');
      if Discharge(s').Ok? && batch.finalized.Some? {
        var s1 := Discharge(s').value;
        if ContradictsMaximum(s1, batch.finalized) {
          LateContradictionWasEarly(s, b, batch.finalized);
        }
        SettleIsIdempotent(s');
        if RaisesMaximum(s1, batch.finalized) {
          DischargeAgrees(s1.(finMax := batch.finalized));
        }
      }
    }
  }

  // ----- the closed form of a batch ------------------------------------------------

  /** The number of leading blocks of a batch the buffer already holds. */
  function LeadingHeld(blocks: seq<Block>, xs: seq<Block>): (k: nat)
    ensures k <= |xs|
    ensures forall i :: 0 <= i < k ==> xs[i] in blocks
    ensures k < |xs| ==> xs[k] !in blocks
  {
    LeadingHeldFrom(blocks, xs, 0)
  }

  function LeadingHeldFrom(blocks: seq<Block>, xs: seq<Block>, from: nat): (k: nat)
    requires from <= |xs|
    ensures from <= k <= |xs|
    ensures forall i :: from <= i < k ==> xs[i] in blocks
    ensures k < |xs| ==> xs[k] !in blocks
    decreases |xs| - from
  {
    if from == |xs| || xs[from] !in blocks then from else LeadingHeldFrom(blocks, xs, from + 1)
  }

  /** Nothing in the buffer stands in the way of a block that continues its last one. */
  lemma AppendIsAdmitted(b: Buffer, x: Block)
    requires b.Valid() && Linked(b.Last(), x) && b.Last().number < x.number
    ensures PushVerdict(b, x) == Ok(Inserted)
    ensures PushEffect(b, x) == b.(blocks := b.blocks + [x])
  {
    PushBySearchAtEnd(b, x);
    ChainBuffer.PushBySearch(b, x);
    assert b.blocks[..|b.blocks|] == b.blocks;
  }

  lemma PushBySearchAtEnd(b: Buffer, x: Block)
    requires b.Valid() && Linked(b.Last(), x) && b.Last().number < x.number
    ensures FirstAtOrAbove(b.blocks, x.number) == |b.blocks|
    ensures FirstAtOrAbove(b.blocks, x.parentNumber) == |b.blocks| - 1
  {
    ChainedAscends(b.blocks);
    ChainBuffer.LastIsAt(b.blocks);
    assert b.blocks[|b.blocks| - 1] == b.Last();
  }

  lemma {:induction false} AppendRun(b: Buffer, xs: seq<Block>)
    requires b.Valid() && Chained(xs)
    requires xs != [] ==> Linked(b.Last(), xs[0]) && b.Last().number < xs[0].number
    ensures PushEach(b, xs) == Ok(b.(blocks := b.blocks + xs))
    decreases xs
  {
    if xs == [] {
      assert b.blocks + xs == b.blocks;
    } else {
      var b' := PushEffect(b, xs[0]);
      AppendIsAdmitted(b, xs[0]);
      ChainedTail(xs);
      AppendRun(b', xs[1..]);
      HeadThenRest(b.blocks, xs);
    }
  }

  lemma ChainedTail(xs: seq<Block>)
    requires Chained(xs) && xs != []
    ensures Chained(xs[1..])
    ensures xs[1..] != [] ==> Linked(xs[0], xs[1..][0]) && xs[0].number < xs[1..][0].number
  {
    ChainedSlice(xs, 1, |xs|);
    assert xs[1..|xs|] == xs[1..];
    assert |xs| > 1 ==> Follows(xs[0], xs[1]);
  }

  lemma {:induction false} HeldRun(b: Buffer, xs: seq<Block>, k: nat)
    requires b.Valid() && k <= |xs|
    requires forall i :: 0 <= i < k ==> xs[i] in b.blocks
    ensures PushEach(b, xs) == PushEach(b, xs[k..])
    decreases k
  {
    if k == 0 {
      assert xs[0..] == xs;
    } else {
      HeldRun(b, xs[1..], k - 1);
      assert xs[1..][k - 1..] == xs[k..];
    }
  }

  /** The new part of a batch in place of everything above the parent its first block names. */
  function Spliced(b: Buffer, xs: seq<Block>): Buffer
    requires xs != [] && ParentIndex(b.blocks, xs[0]) < |b.blocks|
  {
    b.(blocks := b.blocks[..ParentIndex(b.blocks, xs[0]) + 1] + xs)
  }

  lemma NewRun(b: Buffer, xs: seq<Block>)
    requires b.Valid() && Chained(xs) && xs != [] && xs[0] !in b.blocks
    ensures PushEach(b, xs).Ok? <==> PushVerdict(b, xs[0]) == Ok(Inserted)
    ensures PushEach(b, xs).Ok? ==>
      ParentIndex(b.blocks, xs[0]) < |b.blocks| && PushEach(b, xs) == Ok(Spliced(b, xs))
  {
    if PushVerdict(b, xs[0]).Ok? {
      ParentIsHeld(b.blocks, xs[0]);
      var b' := PushEffect(b, xs[0]);
      ChainedTail(xs);
      AppendRun(b', xs[1..]);
      HeadThenRest(b.blocks[..ParentIndex(b.blocks, xs[0]) + 1], xs);
    }
  }

  /** An accepted batch is a redelivered part that changes nothing, then a new part spliced in
      whole; it is accepted exactly when its first new block is. */
  lemma BatchShape(b: Buffer, xs: seq<Block>)
    requires b.Valid() && Chained(xs)
    ensures var k := LeadingHeld(b.blocks, xs);
      PushEach(b, xs).Ok? <==> k == |xs| || PushVerdict(b, xs[k]) == Ok(Inserted)
    ensures var k := LeadingHeld(b.blocks, xs);
      PushEach(b, xs).Ok? && k < |xs| ==>
        ParentIndex(b.blocks, xs[k]) < |b.blocks| && PushEach(b, xs) == Ok(Spliced(b, xs[k..]))
    ensures LeadingHeld(b.blocks, xs) == |xs| ==> PushEach(b, xs) == Ok(b)
  {
    var k := LeadingHeld(b.blocks, xs);
    HeldRun(b, xs, k);
    if k < |xs| {
      assert xs[k..][0] == xs[k];
      NewRun(b, xs[k..]);
    }
  }

  /** After `i` pushes: what is left leads to the same end, and exactly the positions from the
      first new block on have been inserted. */
  ghost predicate PushedSoFar(start: Buffer, xs: seq<Block>, i: nat, now: Buffer, inserted: seq<nat>)
    requires start.Valid() && i <= |xs|
  {
    var k := LeadingHeld(start.blocks, xs);
    && now.Valid()
    && PushEach(start, xs) == PushEach(now, xs[i..])
    && |inserted| == (if i <= k then 0 else i - k)
    && (forall j :: 0 <= j < |inserted| ==> inserted[j] == k + j)
    && (i <= k ==> now == start)
    && (i > k ==> now.Last() == xs[i - 1])
  }

  lemma NothingPushed(start: Buffer, xs: seq<Block>)
    requires start.Valid()
    ensures PushedSoFar(start, xs, 0, start, [])
  {
    assert xs[0..] == xs;
  }

  lemma PushEachUnfolds(b: Buffer, xs: seq<Block>, i: nat)
    requires b.Valid() && i < |xs|
    ensures PushVerdict(b, xs[i]).Err? ==> PushEach(b, xs[i..]) == Err(PushVerdict(b, xs[i]).error)
    ensures PushVerdict(b, xs[i]).Ok? ==> PushEach(b, xs[i..]) == PushEach(PushEffect(b, xs[i]), xs[i + 1..])
  {
    assert xs[i..][0] == xs[i] && xs[i..][1..] == xs[i + 1..];
  }

  /** One push of such a run: absorbed before the first new block, and from there on, if accepted,
      inserted at the head. */
  lemma OnePush(start: Buffer, xs: seq<Block>, i: nat, now: Buffer, inserted: seq<nat>)
    requires start.Valid() && Chained(xs) && i < |xs| && PushedSoFar(start, xs, i, now, inserted)
    ensures var k, v := LeadingHeld(start.blocks, xs), PushVerdict(now, xs[i]);
      && (i < k ==> v == Ok(Absorbed) && PushEffect(now, xs[i]) == now)
      && (i >= k && v.Ok? ==> v.value == Inserted && PushEffect(now, xs[i]).Last() == xs[i])
  {
    if i > LeadingHeld(start.blocks, xs) {
      assert Follows(xs[i - 1], xs[i]);
      AppendIsAdmitted(now, xs[i]);
    }
  }

  lemma PushedOneMore(start: Buffer, xs: seq<Block>, i: nat, now: Buffer, inserted: seq<nat>)
    requires start.Valid() && Chained(xs) && i < |xs| && PushedSoFar(start, xs, i, now, inserted)
    ensures var v := PushVerdict(now, xs[i]);
      && (v.Err? ==> PushEach(start, xs) == Err(v.error))
      && (v.Ok? ==> PushedSoFar(start, xs, i + 1, PushEffect(now, xs[i]),
                                if v.value == Inserted then inserted + [i] else inserted))
  {
    PushEachUnfolds(now, xs, i);
    OnePush(start, xs, i, now, inserted);
  }
}
