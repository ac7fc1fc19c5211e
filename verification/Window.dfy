/** The buffered window as a value: what a chain of blocks is, and what each buffer operation
    means. Positions are found by linear search here; the classes that implement the window
    are proved against these definitions. */
module Window {
  import opened Types

  // ----- shape --------------------------------------------------------------

  /** `b` is the direct child of `a`, and above it. */
  predicate Follows(a: Block, b: Block) {
    Linked(a, b) && a.number < b.number
  }

  /** Every block follows the one before it. */
  predicate Chained(blocks: seq<Block>) {
    forall i, j {:trigger Follows(blocks[i], blocks[j])} ::
      0 <= i < |blocks| && 0 <= j < |blocks| && j == i + 1 ==> Follows(blocks[i], blocks[j])
  }

  /** A non-empty chain whose first block is linked to a parent below it, or is a root. */
  predicate WellFormed(blocks: seq<Block>) {
    && blocks != []
    && blocks[0].parentNumber <= blocks[0].number
    && Chained(blocks)
  }

  ghost predicate Ascending(blocks: seq<Block>) {
    forall i, j :: 0 <= i < j < |blocks| ==> blocks[i].number < blocks[j].number
  }

  lemma {:induction false} ChainedAscends(blocks: seq<Block>)
    requires Chained(blocks)
    ensures Ascending(blocks)
  {
    if |blocks| > 1 {
      var front, last := blocks[..|blocks| - 1], blocks[|blocks| - 1];
      ChainedSlice(blocks, 0, |blocks| - 1);
      ChainedAscends(front);
      assert Follows(blocks[|blocks| - 2], blocks[|blocks| - 1]);
      forall i | 0 <= i < |front|
        ensures blocks[i].number < last.number
      {
        assert i < |front| - 1 ==> front[i].number < front[|front| - 1].number;
      }
      assert forall i, j :: 0 <= i < j < |front| ==> blocks[i].number < blocks[j].number;
    }
  }

  /** In a chain, order of position is order of height. */
  lemma ChainOrder(blocks: seq<Block>, i: nat, j: nat)
    requires Chained(blocks) && i < |blocks| && j < |blocks|
    ensures i <= j <==> blocks[i].number <= blocks[j].number
  {
    ChainedAscends(blocks);
  }

  lemma ChainedSlice(blocks: seq<Block>, lo: nat, hi: nat)
    requires Chained(blocks) && lo <= hi <= |blocks|
    ensures Chained(blocks[lo..hi])
  {
    var part := blocks[lo..hi];
    forall i | 0 <= i < |part| - 1
      ensures Follows(part[i], part[i + 1])
    {
      assert Follows(blocks[lo + i], blocks[lo + i + 1]);
    }
  }

  lemma ChainedSnoc(blocks: seq<Block>, x: Block)
    requires Chained(blocks)
    requires blocks != [] ==> Linked(blocks[|blocks| - 1], x) && blocks[|blocks| - 1].number < x.number
    ensures Chained(blocks + [x])
  {
    var all := blocks + [x];
    forall i | 0 <= i < |all| - 1
      ensures Follows(all[i], all[i + 1])
    {
      if i < |blocks| - 1 {
        assert Follows(blocks[i], blocks[i + 1]);
      }
    }
  }

  /** A well-formed chain cut anywhere, and continued by a linked block, is well formed. */
  lemma WellFormedCut(blocks: seq<Block>, keep: nat, x: Block)
    requires WellFormed(blocks) && 0 < keep <= |blocks|
    ensures WellFormed(blocks[..keep])
    ensures WellFormed(blocks[|blocks| - keep..])
    ensures Linked(blocks[keep - 1], x) && x.parentNumber < x.number ==> WellFormed(blocks[..keep] + [x])
  {
    var drop := |blocks| - keep;
    ChainedSlice(blocks, 0, keep);
    ChainedSlice(blocks, drop, |blocks|);
    if drop > 0 {
      assert Follows(blocks[drop - 1], blocks[drop]);
    }
    if Linked(blocks[keep - 1], x) && x.parentNumber < x.number {
      ChainedSnoc(blocks[..keep], x);
    }
  }

  // ----- searches -----------------------------------------------------------

  /** The number of leading blocks below `target`: the index of the first block at or above it. */
  function FirstAtOrAbove(blocks: seq<Block>, target: nat): (r: nat)
    ensures r <= |blocks|
    ensures forall i :: 0 <= i < r ==> blocks[i].number < target
    ensures r < |blocks| ==> blocks[r].number >= target
  {
    FirstAtOrAboveFrom(blocks, target, 0)
  }

  function FirstAtOrAboveFrom(blocks: seq<Block>, target: nat, from: nat): (r: nat)
    requires from <= |blocks|
    ensures from <= r <= |blocks|
    ensures forall i :: from <= i < r ==> blocks[i].number < target
    ensures r < |blocks| ==> blocks[r].number >= target
    decreases |blocks| - from
  {
    if from == |blocks| || blocks[from].number >= target then from
    else FirstAtOrAboveFrom(blocks, target, from + 1)
  }

  /** The index of the first block at exactly `number`, or `|blocks|`. */
  function Position(blocks: seq<Block>, number: nat): (r: nat)
    ensures r <= |blocks|
    ensures forall i :: 0 <= i < r ==> blocks[i].number != number
    ensures r < |blocks| ==> blocks[r].number == number
  {
    PositionFrom(blocks, number, 0)
  }

  function PositionFrom(blocks: seq<Block>, number: nat, from: nat): (r: nat)
    requires from <= |blocks|
    ensures from <= r <= |blocks|
    ensures forall i :: from <= i < r ==> blocks[i].number != number
    ensures r < |blocks| ==> blocks[r].number == number
    decreases |blocks| - from
  {
    if from == |blocks| || blocks[from].number == number then from else PositionFrom(blocks, number, from + 1)
  }

  /** The index of the block `x` names as its parent, or `|blocks|`. */
  function ParentIndex(blocks: seq<Block>, x: Block): (r: nat)
    ensures r <= |blocks|
    ensures r < |blocks| ==> Linked(blocks[r], x)
    ensures r == |blocks| ==> forall i :: 0 <= i < |blocks| ==> !Linked(blocks[i], x)
  {
    ParentIndexFrom(blocks, x, 0)
  }

  function ParentIndexFrom(blocks: seq<Block>, x: Block, from: nat): (r: nat)
    requires from <= |blocks|
    ensures from <= r <= |blocks|
    ensures r < |blocks| ==> Linked(blocks[r], x)
    ensures r == |blocks| ==> forall i :: from <= i < |blocks| ==> !Linked(blocks[i], x)
    decreases |blocks| - from
  {
    if from == |blocks| || Linked(blocks[from], x) then from else ParentIndexFrom(blocks, x, from + 1)
  }

  predicate HoldsRef(blocks: seq<Block>, r: BlockRef) {
    exists i :: 0 <= i < |blocks| && blocks[i].Ref() == r
  }

  predicate HoldsHeight(blocks: seq<Block>, number: nat) {
    exists i :: 0 <= i < |blocks| && blocks[i].number == number
  }

  lemma ParentIsHeld(blocks: seq<Block>, x: Block)
    ensures HoldsRef(blocks, x.ParentRef()) <==> ParentIndex(blocks, x) < |blocks|
  {
    var i := ParentIndex(blocks, x);
    if i < |blocks| {
      assert blocks[i].Ref() == x.ParentRef();
    } else {
      forall j | 0 <= j < |blocks|
        ensures blocks[j].Ref() != x.ParentRef()
      {
        assert !Linked(blocks[j], x);
      }
    }
  }

  /** Two searches that name the same height agree wherever heights ascend. */
  lemma SearchesAgree(blocks: seq<Block>, number: nat, i: nat)
    requires Ascending(blocks) && i < |blocks| && blocks[i].number == number
    ensures FirstAtOrAbove(blocks, number) == i == Position(blocks, number)
  {
  }

  // ----- the window and its operations ---------------------------------------

  /** Buffered blocks and the index of the finalized head within them. */
  datatype Buffer = Buffer(blocks: seq<Block>, fin: nat) {
    predicate Valid() {
      WellFormed(blocks) && fin < |blocks|
    }

    function Last(): Block
      requires blocks != []
    {
      blocks[|blocks| - 1]
    }

    function Finalized(): BlockRef
      requires fin < |blocks|
    {
      blocks[fin].Ref()
    }
  }

  datatype Pushed = Inserted | Absorbed

  /** Input the buffer contradicts. */
  datatype Violation =
    | RefEquivocation(number: Height, hash: string)
    | DescendingHeight(number: Height, parentNumber: Height)
    | ParentNotBuffered(number: Height, parentNumber: Height)
    | WriteBelowFinality(number: Height)
    | ParentHashMismatch(number: Height, buffered: string, claimed: string)
    | UnbufferedFinality(number: Height)
    | FinalityHashMismatch(number: Height, buffered: string, reported: string)

  /** What pushing `x` answers. Every verdict is a fact about the buffer as a whole; no search
      order enters it. */
  ghost function PushVerdict(b: Buffer, x: Block): Result<Pushed, Violation>
    requires b.Valid()
  {
    if x in b.blocks then Ok(Absorbed)
    else if HoldsRef(b.blocks, x.Ref()) then Err(RefEquivocation(x.number, x.hash))
    else if x.parentNumber >= x.number then Err(DescendingHeight(x.number, x.parentNumber))
    else if b.fin > 0 && x.parentNumber <= b.blocks[b.fin - 1].number then Err(WriteBelowFinality(x.number))
    else if HoldsRef(b.blocks, x.ParentRef()) then Ok(Inserted)
    else if HoldsHeight(b.blocks, x.parentNumber) then
      Err(ParentHashMismatch(x.number, b.blocks[Position(b.blocks, x.parentNumber)].hash, x.parentHash))
    else Err(ParentNotBuffered(x.number, x.parentNumber))
  }

  /** The buffer a push leaves: everything up to the named parent, then `x`. */
  ghost function PushEffect(b: Buffer, x: Block): (r: Buffer)
    requires b.Valid()
    ensures r.Valid() && r.fin == b.fin
  {
    if PushVerdict(b, x) == Ok(Inserted) then
      ParentIsHeld(b.blocks, x);
      ChainedAscends(b.blocks);
      var keep := ParentIndex(b.blocks, x) + 1;
      WellFormedCut(b.blocks, keep, x);
      b.(blocks := b.blocks[..keep] + [x])
    else b
  }

  /** Advance finality to `r`; a stale report changes nothing, one above the head finalizes
      the whole buffer, and any other must name a buffered block exactly. */
  ghost function FinalizeVerdict(b: Buffer, r: BlockRef): (v: Result<Buffer, Violation>)
    requires b.Valid()
    ensures v.Ok? ==> v.value.Valid() && v.value.blocks == b.blocks
  {
    if r.number < b.Finalized().number then Ok(b)
    else if r.number > b.Last().number then Ok(b.(fin := |b.blocks| - 1))
    else if HoldsRef(b.blocks, r) then Ok(b.(fin := Position(b.blocks, r.number)))
    else if HoldsHeight(b.blocks, r.number) then
      Err(FinalityHashMismatch(r.number, b.blocks[Position(b.blocks, r.number)].hash, r.hash))
    else Err(UnbufferedFinality(r.number))
  }

  /** Trim the oldest finalized blocks down to `maxSize`, force-advancing finality first when
      `autoAdjust` allows it. */
  function Compacted(b: Buffer, maxSize: nat, autoAdjust: bool): (r: Buffer)
    requires b.Valid() && maxSize > 0
    ensures r.Valid()
  {
    var extra := if |b.blocks| > maxSize then |b.blocks| - maxSize else 0;
    var fin := if b.fin < extra && autoAdjust then extra else b.fin;
    var trim := if extra < fin then extra else fin;
    WellFormedCut(b.blocks, |b.blocks| - trim, b.blocks[0]);
    Buffer(b.blocks[trim..], fin - trim)
  }
}
