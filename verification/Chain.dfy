/** The in-memory chain buffer: binary searches over a vector, and an undo log instead of a copy. */
module ChainBuffer {
  import opened Types
  import opened Window
  import Forks
  import Queries

  /** What undoes the open batch: how long a prefix of the blocks is untouched, what followed it when
      the batch was opened, and the finality index then. */
  datatype BatchUndo = BatchUndo(intact: nat, removed: seq<Block>, finalizedHead: nat)

  datatype Compaction = Compaction(excess: nat, forceAdvancedPast: Option<Height>)

  /** Bisection of an ascending chain: lands where the linear search does. */
  method Bisect(blocks: seq<Block>, target: nat) returns (lo: nat)
    requires Chained(blocks)
    ensures lo == FirstAtOrAbove(blocks, target)
  {
    ChainedAscends(blocks);
    lo := 0;
    var hi := |blocks|;
    while lo < hi
      invariant lo <= hi <= |blocks|
      invariant forall i :: 0 <= i < lo ==> blocks[i].number < target
      invariant forall i :: hi <= i < |blocks| ==> blocks[i].number >= target
    {
      var mid := lo + (hi - lo) / 2;
      if blocks[mid].number < target {
        lo := mid + 1;
      } else {
        hi := mid;
      }
    }
    assert lo < |blocks| ==> blocks[lo].number >= target;
  }

  /** What pushing `x` answers, read off the two positions bisection finds, and how many blocks an
      insertion keeps. */
  function Searched(b: Buffer, x: Block): (Result<Pushed, Violation>, nat)
    requires b.Valid()
  {
    var at := FirstAtOrAbove(b.blocks, x.number);
    var pos := FirstAtOrAbove(b.blocks, x.parentNumber);
    if at < |b.blocks| && b.blocks[at].Ref() == x.Ref() then
      (if b.blocks[at] == x then Ok(Absorbed) else Err(RefEquivocation(x.number, x.hash)), 0)
    else if x.parentNumber >= x.number then (Err(DescendingHeight(x.number, x.parentNumber)), 0)
    else if pos < b.fin then (Err(WriteBelowFinality(x.number)), 0)
    else if pos == |b.blocks| || b.blocks[pos].number != x.parentNumber then
      (Err(ParentNotBuffered(x.number, x.parentNumber)), 0)
    else if b.blocks[pos].hash != x.parentHash then
      (Err(ParentHashMismatch(x.number, b.blocks[pos].hash, x.parentHash)), 0)
    else (Ok(Inserted), pos + 1)
  }

  /** Decide what pushing `x` does and, for an insertion, how many blocks it keeps. A block that
      continues the last one needs no second search. */
  method Admit(b: Buffer, x: Block) returns (r: Result<Pushed, Violation>, keep: nat)
    requires b.Valid()
    ensures (r, keep) == Searched(b, x)
  {
    keep := 0;
    var at := Bisect(b.blocks, x.number);
    if at < |b.blocks| {
      var held := b.blocks[at];
      if held.number == x.number && held.hash == x.hash {
        if held.parentNumber == x.parentNumber && held.parentHash == x.parentHash {
          return Ok(Absorbed), keep;
        }
        return Err(RefEquivocation(x.number, x.hash)), keep;
      }
    }

    if x.parentNumber >= x.number {
      return Err(DescendingHeight(x.number, x.parentNumber)), keep;
    }

    var last := b.blocks[|b.blocks| - 1];
    if last.number == x.parentNumber {
      LastIsAt(b.blocks);
      if !Linked(last, x) {
        return Err(ParentHashMismatch(x.number, last.hash, x.parentHash)), keep;
      }
      return Ok(Inserted), |b.blocks|;
    }

    var pos := Bisect(b.blocks, x.parentNumber);
    if pos < b.fin {
      return Err(WriteBelowFinality(x.number)), keep;
    }
    if pos == |b.blocks| || b.blocks[pos].number != x.parentNumber {
      return Err(ParentNotBuffered(x.number, x.parentNumber)), keep;
    }
    if b.blocks[pos].hash != x.parentHash {
      return Err(ParentHashMismatch(x.number, b.blocks[pos].hash, x.parentHash)), keep;
    }
    return Ok(Inserted), pos + 1;
  }

  /** Pop refs above `number` off the end of what is kept. */
  method PopAbove(prev: seq<BlockRef>, kept: nat, number: Height) returns (k: nat)
    requires kept <= |prev| && forall i :: kept <= i < |prev| ==> prev[i].number > number
    ensures k <= kept && k == Forks.KeptAt(prev, number)
    ensures forall i :: k <= i < |prev| ==> prev[i].number > number
  {
    k := kept;
    while k > 0 && prev[k - 1].number > number
      invariant k <= kept
      invariant forall i :: k <= i < |prev| ==> prev[i].number > number
    {
      k := k - 1;
    }
    Forks.KeptIs(prev, number, k);
  }

  method WalkDown(blocks: seq<Block>, fin: nat, prev: seq<BlockRef>) returns (r: Option<BlockRef>)
    requires Chained(blocks) && fin < |blocks|
    ensures r == Forks.ForkBase(Buffer(blocks, fin), prev)
  {
    var kept: nat := |prev|;
    var top: nat := |blocks|;
    while top > fin
      invariant fin <= top <= |blocks| && kept <= |prev|
      invariant top == |blocks| ==> kept == |prev|
      invariant top < |blocks| ==> forall i :: kept <= i < |prev| ==> prev[i].number > blocks[top].number
      invariant forall j :: top <= j < |blocks| ==> !Forks.StopsAt(prev, blocks[j])
    {
      var head := blocks[top - 1];
      assert top < |blocks| ==> Follows(blocks[top - 1], blocks[top]);
      kept := PopAbove(prev, kept, head.number);
      if kept == 0 || prev[kept - 1] == head.Ref() {
        assert Forks.StopsAt(prev, blocks[top - 1]);
        Forks.ForkBaseIs(Buffer(blocks, fin), prev, top - 1);
        return Some(head.Ref());
      }
      top := top - 1;
    }
    assert forall j :: fin <= j < |blocks| ==> !Forks.StopsAt(prev, blocks[j]);
    return None;
  }

  class Chain {
    var blocks: seq<Block>
    var finalizedHead: nat
    const maxSize: nat
    const autoAdjustFinalizedHead: bool
    var undo: Option<BatchUndo>

    ghost function Now(): Buffer
      reads this
    {
      Buffer(blocks, finalizedHead)
    }

    /** The buffer a rollback would restore. */
    ghost function Checkpoint(): Buffer
      requires undo.Some? && undo.value.intact <= |blocks|
      reads this
    {
      Buffer(blocks[..undo.value.intact] + undo.value.removed, undo.value.finalizedHead)
    }

    ghost predicate Valid()
      reads this
    {
      && Now().Valid()
      && maxSize > 0
      && (undo.Some? ==> undo.value.intact <= |blocks| && Checkpoint().Valid())
    }

    constructor (base: Block, size: nat, autoAdjust: bool)
      requires size > 0 && base.parentNumber <= base.number
      ensures Valid() && fresh(this)
      ensures Now() == Buffer([base], 0) && undo.None?
      ensures maxSize == size && autoAdjustFinalizedHead == autoAdjust
    {
      blocks := [base];
      finalizedHead := 0;
      maxSize := size;
      autoAdjustFinalizedHead := autoAdjust;
      undo := None;
    }

    /** Make the buffer as it stands the checkpoint, whatever checkpoint there was. */
    method BeginBatch()
      requires Valid()
      modifies this`undo
      ensures Valid() && undo.Some? && Checkpoint() == Now()
    {
      undo := Some(BatchUndo(|blocks|, [], finalizedHead));
      assert blocks[..|blocks|] + [] == blocks;
    }

    method CommitBatch()
      requires Valid()
      modifies this`undo
      ensures Valid() && undo.None?
    {
      undo := None;
    }

    /** Go back to the checkpoint, if there is one, and forget it. */
    method RollbackBatch()
      requires Valid()
      modifies this
      ensures Valid() && undo.None?
      ensures Now() == if old(undo).Some? then old(Checkpoint()) else old(Now())
    {
      if undo.None? {
        return;
      }
      var log := undo.value;
      undo := None;
      blocks := blocks[..log.intact];
      blocks := blocks + log.removed;
      finalizedHead := log.finalizedHead;
    }

    /** Move the blocks from `from` on that the checkpoint needs into the log, so that they may go: the
        checkpoint stays what it was and no longer depends on them. */
    method RecordRemoval(from: nat)
      requires Valid() && from <= |blocks|
      modifies this`undo
      ensures Valid() && undo.Some? == old(undo).Some?
      ensures undo.Some? ==> Checkpoint() == old(Checkpoint()) && undo.value.intact <= from
    {
      if undo.None? || from >= undo.value.intact {
        return;
      }
      var log := undo.value;
      var originals := blocks[from..log.intact] + log.removed;
      undo := Some(BatchUndo(from, originals, log.finalizedHead));
      assert blocks[..from] + originals == blocks[..log.intact] + log.removed;
    }

    /** Push a block, possibly reorganising the chain. */
    method Push(x: Block) returns (r: Result<Pushed, Violation>)
      requires Valid()
      modifies this`blocks, this`undo
      ensures Valid()
      ensures r == PushVerdict(old(Now()), x) && Now() == PushEffect(old(Now()), x)
      ensures undo.Some? == old(undo).Some?
      ensures undo.Some? ==> Checkpoint() == old(Checkpoint())
    {
      var keep;
      r, keep := Admit(Buffer(blocks, finalizedHead), x);
      PushBySearch(Now(), x);
      if r == Ok(Inserted) {
        if keep < |blocks| {
          RecordRemoval(keep);
        }
        Grow(keep, x);
      }
    }

    /** Keep `keep` blocks and append `x`; the log must already hold what is dropped. */
    method Grow(keep: nat, x: Block)
      requires Valid() && finalizedHead < keep <= |blocks|
      requires Linked(blocks[keep - 1], x) && x.parentNumber < x.number
      requires undo.Some? ==> undo.value.intact <= keep
      modifies this`blocks
      ensures Valid()
      ensures blocks == old(blocks)[..keep] + [x]
      ensures undo.Some? ==> Checkpoint() == old(Checkpoint())
    {
      WellFormedCut(blocks, keep, x);
      ghost var was := blocks;
      blocks := blocks[..keep];
      blocks := blocks + [x];
      if undo.Some? {
        assert blocks[..undo.value.intact] == was[..undo.value.intact];
      }
    }

    /** Advance the finalized head to `head`; answers whether it moved. */
    method Finalize(head: BlockRef) returns (r: Result<bool, Violation>)
      requires Valid()
      modifies this`finalizedHead
      ensures Valid()
      ensures r.Ok? <==> FinalizeVerdict(old(Now()), head).Ok?
      ensures r.Ok? ==> Now() == FinalizeVerdict(old(Now()), head).value
      ensures r.Ok? ==> (r.value <==> finalizedHead > old(finalizedHead))
      ensures r.Err? ==> r.error == FinalizeVerdict(old(Now()), head).error && Now() == old(Now())
      ensures undo.Some? ==> Checkpoint() == old(Checkpoint())
    {
      if head.number < blocks[finalizedHead].number {
        return Ok(false);
      }
      var current := finalizedHead;
      var last := blocks[|blocks| - 1];
      if head.number > last.number {
        finalizedHead := |blocks| - 1;
        return Ok(finalizedHead > current);
      }
      FinalizeBySearch(Now(), head);
      var pos;
      if head.number == last.number {
        pos := |blocks| - 1;
      } else {
        pos := Bisect(blocks, head.number);
      }
      if blocks[pos].number != head.number {
        return Err(UnbufferedFinality(head.number));
      }
      if blocks[pos].hash != head.hash {
        return Err(FinalityHashMismatch(head.number, blocks[pos].hash, head.hash));
      }
      finalizedHead := Max(finalizedHead, pos);
      return Ok(finalizedHead > current);
    }

    /** Become `Compacted`, and tell by how much the window is still too long and which height finality
        was forced past. */
    method Compact() returns (c: Compaction)
      requires Valid() && undo.None?
      modifies this`blocks, this`finalizedHead
      ensures Valid()
      ensures Now() == Compacted(old(Now()), maxSize, autoAdjustFinalizedHead)
      ensures c.excess == if |blocks| > maxSize then |blocks| - maxSize else 0
      ensures c.forceAdvancedPast.Some? <==> autoAdjustFinalizedHead && old(|blocks| - maxSize > finalizedHead)
      ensures c.forceAdvancedPast.Some? ==>
        c.forceAdvancedPast.value == old(blocks)[|old(blocks)| - maxSize - 1].number
    {
      var extra := if |blocks| > maxSize then |blocks| - maxSize else 0;
      if extra == 0 {
        return Compaction(0, None);
      }
      var forceAdvancedPast := None;
      if finalizedHead < extra && autoAdjustFinalizedHead {
        forceAdvancedPast := Some(blocks[extra - 1].number);
        finalizedHead := extra;
      }
      var trim := if extra < finalizedHead then extra else finalizedHead;
      WellFormedCut(blocks, |blocks| - trim, blocks[0]);
      blocks := blocks[trim..];
      finalizedHead := finalizedHead - trim;
      c := Compaction(if |blocks| > maxSize then |blocks| - maxSize else 0, forceAdvancedPast);
    }

    /** Serve a range query from the window, or refuse the base it claims. */
    method Query(from: Height, baseBlockHash: Option<string>) returns (a: Queries.Answer)
      requires Valid()
      ensures Queries.Agrees(a, Queries.QueryVerdict(Now(), from, baseBlockHash))
      ensures a.Conflict? ==> baseBlockHash.Some? && a.prev == Queries.ConflictRefs(Now(), from)
      ensures a.Conflict? ==> Queries.HonestConflict(Now(), from, baseBlockHash.value, a.prev)
      ensures a.Conflict? ==> Queries.BelowFrom(Now(), from, a.prev)
    {
      hide Queries.HonestConflict, Queries.BelowFrom, Queries.WindowConflict, Queries.HeadConflict;
      var first := blocks[0];
      if first.parentNumber != first.number && from <= first.parentNumber {
        return Queries.Below;
      }
      var finalized := blocks[finalizedHead].Ref();
      var last := blocks[|blocks| - 1];
      ChainedAscends(blocks);
      var pos := Bisect(blocks, from);
      if pos < |blocks| {
        if baseBlockHash.Some? && blocks[pos].parentHash != baseBlockHash.value {
          Queries.WindowConflictIsHonest(Now(), from, baseBlockHash.value, pos);
          return Queries.Conflict(Queries.WindowConflict(blocks, pos));
        }
        return Queries.Window(finalized, blocks[pos..]);
      }
      var above: Height := last.number + 1;
      if baseBlockHash.Some? && from == above && baseBlockHash.value != last.hash {
        Queries.HeadConflictIsHonest(Now(), from, baseBlockHash.value);
        return Queries.Conflict(Queries.HeadConflict(blocks));
      }
      return Queries.Nothing(finalized);
    }

    /** The one block held at a height, if any is. */
    method BlockAt(number: Height) returns (r: Option<Block>)
      requires Valid()
      ensures r.Some? <==> HoldsHeight(blocks, number)
      ensures r.Some? ==> r.value in blocks && r.value.number == number
      ensures r.Some? ==> forall i :: 0 <= i < |blocks| && blocks[i].number == number ==> blocks[i] == r.value
    {
      for i := 0 to |blocks|
        invariant forall j :: 0 <= j < i ==> blocks[j].number != number
      {
        if blocks[i].number == number {
          ChainedAscends(blocks);
          return Some(blocks[i]);
        }
      }
      return None;
    }

    /** `ForkBase`, found from the head of the chain down in one pass over both lists. */
    method GetForkBase(prev: seq<BlockRef>) returns (r: Option<BlockRef>)
      requires Valid()
      ensures r == Forks.ForkBase(Now(), prev)
    {
      r := WalkDown(blocks, finalizedHead, prev);
    }
  }

  /** The one candidate bisection names decides whether a ref, or a block, is held. */
  lemma HeldRefAt(blocks: seq<Block>, x: Block)
    requires Chained(blocks)
    ensures var at := FirstAtOrAbove(blocks, x.number);
      && (HoldsRef(blocks, x.Ref()) <==> at < |blocks| && blocks[at].Ref() == x.Ref())
      && (x in blocks <==> at < |blocks| && blocks[at] == x)
  {
    ChainedAscends(blocks);
    forall i | 0 <= i < |blocks| && blocks[i].number == x.number
      ensures FirstAtOrAbove(blocks, x.number) == i
    {
      SearchesAgree(blocks, x.number, i);
    }
  }

  /** So it is with any height: bisection names the only block that can hold it, and lands
      below the finalized head exactly when the height does. */
  lemma HeightAt(b: Buffer, number: nat)
    requires b.Valid()
    ensures var pos := FirstAtOrAbove(b.blocks, number);
      && (pos < b.fin <==> b.fin > 0 && number <= b.blocks[b.fin - 1].number)
      && (HoldsHeight(b.blocks, number) <==> pos < |b.blocks| && b.blocks[pos].number == number)
      && (HoldsHeight(b.blocks, number) ==> Position(b.blocks, number) == pos)
      && (forall r: BlockRef :: r.number == number ==>
            (HoldsRef(b.blocks, r) <==> pos < |b.blocks| && b.blocks[pos].Ref() == r))
  {
    ChainedAscends(b.blocks);
    forall i | 0 <= i < |b.blocks| && b.blocks[i].number == number
      ensures FirstAtOrAbove(b.blocks, number) == i == Position(b.blocks, number)
    {
      SearchesAgree(b.blocks, number, i);
    }
  }

  lemma LastIsAt(blocks: seq<Block>)
    requires Chained(blocks) && blocks != []
    ensures FirstAtOrAbove(blocks, blocks[|blocks| - 1].number) == |blocks| - 1
  {
    ChainedAscends(blocks);
    SearchesAgree(blocks, blocks[|blocks| - 1].number, |blocks| - 1);
  }

  /** A push read off the two positions bisection finds. */
  lemma PushBySearch(b: Buffer, x: Block)
    requires b.Valid()
    ensures PushVerdict(b, x) == Searched(b, x).0
    ensures PushVerdict(b, x) != Ok(Inserted) ==> PushEffect(b, x) == b
    ensures var keep := Searched(b, x).1;
      PushVerdict(b, x) == Ok(Inserted) ==>
        && b.fin < keep <= |b.blocks|
        && Linked(b.blocks[keep - 1], x) && x.parentNumber < x.number
        && PushEffect(b, x) == b.(blocks := b.blocks[..keep] + [x])
  {
    HeldRefAt(b.blocks, x);
    HeightAt(b, x.parentNumber);
    var pos := FirstAtOrAbove(b.blocks, x.parentNumber);
    if HoldsRef(b.blocks, x.ParentRef()) {
      var i := ParentIndex(b.blocks, x);
      ParentIsHeld(b.blocks, x);
      LinkedAt(b.blocks, x, i);
    }
  }

  lemma LinkedAt(blocks: seq<Block>, x: Block, i: nat)
    requires Chained(blocks) && i < |blocks| && Linked(blocks[i], x)
    ensures FirstAtOrAbove(blocks, x.parentNumber) == i
  {
    ChainedAscends(blocks);
    SearchesAgree(blocks, x.parentNumber, i);
  }

  /** A report at or above the finalized head and within the buffer, likewise. */
  lemma FinalizeBySearch(b: Buffer, r: BlockRef)
    requires b.Valid()
    requires b.Finalized().number <= r.number <= b.Last().number
    ensures var pos := FirstAtOrAbove(b.blocks, r.number);
      && b.fin <= pos < |b.blocks|
      && (r.number == b.Last().number ==> pos == |b.blocks| - 1)
      && FinalizeVerdict(b, r) ==
         if b.blocks[pos].number != r.number then Err(UnbufferedFinality(r.number))
         else if b.blocks[pos].hash != r.hash then
           Err(FinalityHashMismatch(r.number, b.blocks[pos].hash, r.hash))
         else Ok(b.(fin := pos))
  {
    HeightAt(b, r.number);
    ChainedAscends(b.blocks);
    LastIsAt(b.blocks);
    var pos := FirstAtOrAbove(b.blocks, r.number);
    assert b.blocks[b.fin].number <= r.number <= b.blocks[|b.blocks| - 1].number;
  }
}
