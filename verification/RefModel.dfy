/** The executable reference model: linear scans and a whole-state checkpoint. Its transitions
    are given first as functions on values, then as the class whose methods update a state. */
module Model {
  import opened Types
  import opened Window
  import Forks
  import Queries

  datatype Fault =
    | Equivocation
    | Descending
    | Gap
    | BelowFinality
    | ParentMismatch
    | UnbufferedReport
    | ReportMismatch
    | ConflictingReports

  datatype Outcome = Applied | IntegrityViolation(fault: Fault) | SessionError

  /** A buffer, and the highest finality report the session has seen. */
  datatype State = State(buffer: Buffer, finMax: Option<BlockRef>)

  datatype Config = Config(cacheSize: nat, autoAdjust: bool)

  // ----- transitions: each keeps the buffer a chain with a finality index inside it ------------

  function Push(b: Buffer, x: Block): (r: (Outcome, Buffer))
    requires b.Valid()
    ensures r.1.Valid() && r.1.fin == b.fin
    ensures r.0 != Applied ==> r.1 == b
  {
    if x in b.blocks then (Applied, b)
    else if HoldsRef(b.blocks, x.Ref()) then (IntegrityViolation(Equivocation), b)
    else if x.parentNumber >= x.number then (IntegrityViolation(Descending), b)
    else if Linked(b.Last(), x) then (Applied, b.(blocks := b.blocks + [x]))
    else
      var i := Position(b.blocks, x.parentNumber);
      if i == |b.blocks| then (IntegrityViolation(Gap), b)
      else if i < b.fin then (IntegrityViolation(BelowFinality), b)
      else if !Linked(b.blocks[i], x) then (IntegrityViolation(ParentMismatch), b)
      else
        WellFormedCut(b.blocks, i + 1, x);
        (Applied, b.(blocks := b.blocks[..i + 1] + [x]))
  }

  /** Push the blocks in order, stopping at the first that is rejected. */
  function PushAll(b: Buffer, xs: seq<Block>): (r: (Outcome, Buffer))
    requires b.Valid()
    ensures r.1.Valid() && r.1.fin == b.fin
    decreases xs
  {
    if xs == [] then (Applied, b)
    else
      var (outcome, b') := Push(b, xs[0]);
      if outcome == Applied then PushAll(b', xs[1..]) else (outcome, b')
  }

  function Finalize(b: Buffer, r: BlockRef): (o: (Outcome, Buffer))
    requires b.Valid()
    ensures o.1.Valid() && o.1.blocks == b.blocks && o.1.fin >= b.fin
    ensures o.0 != Applied ==> o.1 == b
  {
    if r.number < b.Finalized().number then (Applied, b)
    else if r.number < b.blocks[0].number then (Applied, b)
    else if r.number > b.Last().number then (Applied, b.(fin := |b.blocks| - 1))
    else
      var i := Position(b.blocks, r.number);
      if i == |b.blocks| then (IntegrityViolation(UnbufferedReport), b)
      else if b.blocks[i].hash != r.hash then (IntegrityViolation(ReportMismatch), b)
      else (Applied, b.(fin := Max(b.fin, i)))
  }

  /** Finalize up to the held report if the buffer reaches its height, and all of the buffer if it
      does not; blocks and report stay. */
  function SettleReport(s: State): (r: (Outcome, State))
    requires s.buffer.Valid()
    ensures r.1.buffer.Valid() && r.1.buffer.blocks == s.buffer.blocks && r.1.buffer.fin >= s.buffer.fin
    ensures r.1.finMax == s.finMax
  {
    if s.finMax.None? then (Applied, s)
    else if s.finMax.value.number <= s.buffer.Last().number then
      var (outcome, b) := Finalize(s.buffer, s.finMax.value);
      (outcome, s.(buffer := b))
    else (Applied, s.(buffer := s.buffer.(fin := |s.buffer.blocks| - 1)))
  }

  /** Hold a report that is higher than the one held; a stale one changes nothing, and one that names
      another hash at the height held is a violation. */
  function NoteReport(s: State, r: BlockRef): (o: (Outcome, State))
    requires s.buffer.Valid()
    ensures o.1.buffer == s.buffer
    ensures s.finMax.Some? ==> o.1.finMax.Some? && o.1.finMax.value.number >= s.finMax.value.number
  {
    if r.number < s.buffer.Finalized().number then (Applied, s)
    else if s.finMax.Some? && r.number == s.finMax.value.number && r.hash != s.finMax.value.hash then
      (IntegrityViolation(ConflictingReports), s)
    else if s.finMax.None? || r.number > s.finMax.value.number then (Applied, s.(finMax := Some(r)))
    else (Applied, s)
  }

  /** A batch is non-empty, ascending, pairwise linked, and carries usable hashes only. */
  predicate Admissible(batch: Batch) {
    && batch.blocks != []
    && Chained(batch.blocks)
    && (forall i :: 0 <= i < |batch.blocks| ==>
          UsableHash(batch.blocks[i].hash) && UsableHash(batch.blocks[i].parentHash))
    && (batch.finalized.Some? ==> UsableHash(batch.finalized.value.hash))
  }

  /** The blocks are pushed, then the report held is settled, then the batch's own is noted and settled. */
  function Body(s: State, batch: Batch): (r: (Outcome, State))
    requires s.buffer.Valid()
    ensures r.1.buffer.Valid()
  {
    var (pushed, b) := PushAll(s.buffer, batch.blocks);
    if pushed != Applied then (pushed, s.(buffer := b))
    else
      var (settled, s1) := SettleReport(s.(buffer := b));
      if settled != Applied || batch.finalized.None? then (settled, s1)
      else
        var (noted, s2) := NoteReport(s1, batch.finalized.value);
        if noted != Applied then (noted, s2) else SettleReport(s2)
  }

  /** One input batch as one atomic step: applied whole and compacted, or rejected whole. */
  function ApplyBatch(s: State, batch: Batch, cfg: Config): (r: (Outcome, State))
    requires s.buffer.Valid() && cfg.cacheSize > 0
    ensures r.1.buffer.Valid()
    ensures r.0 != Applied ==> r.1 == s
  {
    if !Admissible(batch) then (SessionError, s)
    else
      var (outcome, s') := Body(s, batch);
      if outcome != Applied then (outcome, s)
      else (Applied, s'.(buffer := Compacted(s'.buffer, cfg.cacheSize, cfg.autoAdjust)))
  }

  // ----- the model as a state that its methods update -----------------------------------------

  datatype InitError =
    | ZeroCacheSize
    | EmptyBlockHash
    | EmptyParentHash
    | HeaderUnsafeBlockHash
    | HeaderUnsafeParentHash
    | ParentAboveBlock

  /** `Position` by a scan, or None when nothing stands at the height. */
  method Scan(blocks: seq<Block>, number: nat) returns (r: Option<nat>)
    ensures r == if HoldsHeight(blocks, number) then Some(Position(blocks, number)) else None
  {
    for i := 0 to |blocks|
      invariant forall j :: 0 <= j < i ==> blocks[j].number != number
    {
      if blocks[i].number == number {
        return Some(i);
      }
    }
    return None;
  }

  class RefModel {
    var blocks: seq<Block>
    var f: nat
    const cacheSize: nat
    const autoAdjust: bool
    var finMax: Option<BlockRef>

    ghost function Now(): State
      reads this
    {
      State(Buffer(blocks, f), finMax)
    }

    ghost predicate Valid()
      reads this
    {
      Now().buffer.Valid() && cacheSize > 0
    }

    constructor (seed: Block, size: nat, auto: bool)
      requires size > 0 && seed.parentNumber <= seed.number
      ensures Valid() && Now() == State(Buffer([seed], 0), None)
      ensures cacheSize == size && autoAdjust == auto
    {
      blocks := [seed];
      f := 0;
      cacheSize := size;
      autoAdjust := auto;
      finMax := None;
    }

    /** A model that holds just the seed; refused exactly for a bad size, hash or parent height. */
    static method Init(seed: Block, size: nat, auto: bool) returns (r: Result<RefModel, InitError>)
      ensures r.Ok? <==>
        size > 0 && UsableHash(seed.hash) && UsableHash(seed.parentHash) && seed.parentNumber <= seed.number
      ensures r.Ok? ==> fresh(r.value) && r.value.Valid() && r.value.Now() == State(Buffer([seed], 0), None)
      ensures r.Ok? ==> r.value.cacheSize == size && r.value.autoAdjust == auto
    {
      if size == 0 {
        return Err(ZeroCacheSize);
      }
      if seed.hash == "" {
        return Err(EmptyBlockHash);
      }
      if seed.parentHash == "" {
        return Err(EmptyParentHash);
      }
      if !HeaderSafe(seed.hash) {
        return Err(HeaderUnsafeBlockHash);
      }
      if !HeaderSafe(seed.parentHash) {
        return Err(HeaderUnsafeParentHash);
      }
      if seed.parentNumber > seed.number {
        return Err(ParentAboveBlock);
      }
      var m := new RefModel(seed, size, auto);
      r := Ok(m);
    }

    method PushBlock(x: Block) returns (outcome: Outcome)
      requires Valid()
      modifies this`blocks
      ensures Valid()
      ensures (outcome, Now().buffer) == Push(old(Now()).buffer, x)
    {
      if x in blocks {
        return Applied;
      }
      var known := false;
      for i := 0 to |blocks|
        invariant known <==> HoldsRef(blocks[..i], x.Ref())
      {
        assert blocks[..i + 1] == blocks[..i] + [blocks[i]];
        if blocks[i].number == x.number && blocks[i].hash == x.hash {
          assert blocks[..i + 1][i].Ref() == x.Ref();
          known := true;
        }
      }
      assert blocks[..|blocks|] == blocks;
      if known {
        return IntegrityViolation(Equivocation);
      }
      if x.parentNumber >= x.number {
        return IntegrityViolation(Descending);
      }
      if Linked(blocks[|blocks| - 1], x) {
        blocks := blocks + [x];
        return Applied;
      }
      var found := Scan(blocks, x.parentNumber);
      if found.None? {
        return IntegrityViolation(Gap);
      }
      var i := found.value;
      if i < f {
        return IntegrityViolation(BelowFinality);
      }
      if !Linked(blocks[i], x) {
        return IntegrityViolation(ParentMismatch);
      }
      WellFormedCut(blocks, i + 1, x);
      blocks := blocks[..i + 1];
      blocks := blocks + [x];
      return Applied;
    }

    method FinalizeTo(r: BlockRef) returns (outcome: Outcome)
      requires Valid()
      modifies this`f
      ensures Valid()
      ensures (outcome, Now().buffer) == Finalize(old(Now()).buffer, r)
    {
      if r.number < blocks[f].number {
        return Applied;
      }
      if r.number < blocks[0].number {
        return Applied;
      }
      if r.number > blocks[|blocks| - 1].number {
        f := |blocks| - 1;
        return Applied;
      }
      var found := Scan(blocks, r.number);
      if found.None? {
        return IntegrityViolation(UnbufferedReport);
      }
      if blocks[found.value].hash != r.hash {
        return IntegrityViolation(ReportMismatch);
      }
      f := Max(f, found.value);
      return Applied;
    }

    method Settle() returns (outcome: Outcome)
      requires Valid()
      modifies this`f
      ensures Valid()
      ensures (outcome, Now()) == SettleReport(old(Now()))
    {
      outcome := Applied;
      if finMax.Some? {
        if finMax.value.number <= blocks[|blocks| - 1].number {
          outcome := FinalizeTo(finMax.value);
        } else {
          f := |blocks| - 1;
        }
      }
    }

    method Note(r: BlockRef) returns (outcome: Outcome)
      requires Valid()
      modifies this`finMax
      ensures Valid()
      ensures (outcome, Now()) == NoteReport(old(Now()), r)
    {
      if r.number < blocks[f].number {
        return Applied;
      }
      if finMax.Some? && r.number == finMax.value.number && r.hash != finMax.value.hash {
        return IntegrityViolation(ConflictingReports);
      }
      if finMax.None? || r.number > finMax.value.number {
        finMax := Some(r);
      }
      return Applied;
    }

    method Compact()
      requires Valid()
      modifies this`blocks, this`f
      ensures Valid()
      ensures Now().buffer == Compacted(old(Now()).buffer, cacheSize, autoAdjust)
    {
      var excess := if |blocks| > cacheSize then |blocks| - cacheSize else 0;
      if excess > f && autoAdjust {
        f := excess;
      }
      var k := if excess < f then excess else f;
      ghost var was := blocks;
      WellFormedCut(was, |was| - k, was[0]);
      if k > 0 {
        blocks := blocks[k..];
        f := f - k;
      }
      assert blocks == was[k..];
    }

    method Step(batch: Batch) returns (outcome: Outcome)
      requires Valid()
      modifies this`blocks, this`f, this`finMax
      ensures Valid()
      ensures outcome == Body(old(Now()), batch).0
      ensures outcome == Applied ==> Now() == Body(old(Now()), batch).1
    {
      ghost var start := Now();
      for i := 0 to |batch.blocks|
        invariant Valid() && finMax == start.finMax
        invariant PushAll(start.buffer, batch.blocks) == PushAll(Now().buffer, batch.blocks[i..])
      {
        outcome := PushBlock(batch.blocks[i]);
        if outcome != Applied {
          return;
        }
      }
      outcome := Settle();
      if outcome != Applied || batch.finalized.None? {
        return;
      }
      outcome := Note(batch.finalized.value);
      if outcome != Applied {
        return;
      }
      outcome := Settle();
    }

    /** One input batch: applied whole, or rejected whole and the checkpoint restored. */
    method Apply(batch: Batch) returns (outcome: Outcome)
      requires Valid()
      modifies this`blocks, this`f, this`finMax
      ensures Valid()
      ensures (outcome, Now()) == ApplyBatch(old(Now()), batch, Config(cacheSize, autoAdjust))
    {
      if !Admissible(batch) {
        return SessionError;
      }
      var savedBlocks, savedF, savedMax := blocks, f, finMax;
      outcome := Step(batch);
      if outcome != Applied {
        blocks, f, finMax := savedBlocks, savedF, savedMax;
        return;
      }
      Compact();
    }

    /** The running maximum belongs to one session. */
    method BeginSession()
      requires Valid()
      modifies this`finMax
      ensures Valid() && finMax == None
    {
      finMax := None;
    }

    /** `ForkTarget`, by a scan from the head down to the finalized block. */
    method ForkSignal(prev: seq<BlockRef>) returns (r: Option<BlockRef>)
      requires Valid() && prev != []
      ensures r == Forks.ForkTarget(Now().buffer, prev)
    {
      var lowest := prev[0].number;
      for i := 0 to |prev|
        invariant lowest <= prev[0].number
        invariant exists j :: 0 <= j < |prev| && prev[j].number == lowest
        invariant forall j :: 0 <= j < i ==> lowest <= prev[j].number
      {
        if prev[i].number < lowest {
          lowest := prev[i].number;
        }
      }
      var i := |blocks|;
      assert blocks[..i] == blocks;
      while i > f
        invariant f <= i <= |blocks|
        invariant Forks.Highest(blocks, f, x => Forks.Resumable(prev, x)) ==
          Forks.Highest(blocks[..i], f, x => Forks.Resumable(prev, x))
      {
        i := i - 1;
        var b := blocks[i];
        assert blocks[..i + 1][..i] == blocks[..i];
        if b.Ref() in prev || b.number < lowest {
          return Some(b.Ref());
        }
        assert !Forks.Resumable(prev, b);
      }
      return None;
    }

    method Query(from: Height, parentHash: Option<string>) returns (v: Queries.Verdict)
      requires Valid()
      ensures v == Queries.QueryVerdict(Now().buffer, from, parentHash)
    {
      var first, last := blocks[0], blocks[|blocks| - 1];
      if first.parentNumber != first.number && from <= first.parentNumber {
        return Queries.Backfill;
      }
      if from > last.number {
        var above: Height := last.number + 1;
        if from == above && parentHash.Some? && parentHash.value != last.hash {
          return Queries.ConflictDue;
        }
        return Queries.Empty(last.Ref(), blocks[f].Ref());
      }
      var pos := 0;
      while blocks[pos].number < from
        invariant 0 <= pos < |blocks|
        invariant forall i :: 0 <= i < pos ==> blocks[i].number < from
        decreases |blocks| - pos
      {
        pos := pos + 1;
      }
      ChainedAscends(blocks);
      assert pos == FirstAtOrAbove(blocks, from);
      if parentHash.Some? && blocks[pos].parentHash != parentHash.value {
        return Queries.ConflictDue;
      }
      return Queries.Data(blocks[pos..], blocks[f].Ref());
    }

    method IsKnownRef(r: BlockRef) returns (known: bool)
      requires Valid()
      ensures known <==> Queries.KnownRef(Now().buffer, r)
    {
      for i := 0 to |blocks|
        invariant forall j :: 0 <= j < i ==>
          blocks[j].Ref() != r && (blocks[j].IsRoot() || blocks[j].ParentRef() != r)
      {
        if blocks[i].Ref() == r || (!blocks[i].IsRoot() && blocks[i].ParentRef() == r) {
          return true;
        }
      }
      return false;
    }
  }
}
