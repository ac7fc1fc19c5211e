/** Range queries against the window, the conflict lists they answer with, and the client's
    recovery loop over those lists. */
module Queries {
  import opened Types
  import opened Window

  const FORK_REFS: nat := 100

  /** The answer of the buffer. `Below` asks the caller for a backfill query. */
  datatype Answer =
    | Below
    | Window(finalized: BlockRef, tail: seq<Block>)
    | Nothing(finalized: BlockRef)
    | Conflict(prev: seq<BlockRef>)

  /** The verdict of the reference model; it leaves the choice of conflict refs open. */
  datatype Verdict =
    | Data(blocks: seq<Block>, finalized: BlockRef)
    | Empty(head: BlockRef, finalized: BlockRef)
    | ConflictDue
    | Backfill

  function QueryVerdict(b: Buffer, from: Height, parentHash: Option<string>): Verdict
    requires b.Valid()
  {
    if !b.blocks[0].IsRoot() && from <= b.blocks[0].parentNumber then Backfill
    else if from > b.Last().number then
      if from == b.Last().number + 1 && parentHash.Some? && parentHash.value != b.Last().hash
      then ConflictDue
      else Empty(b.Last().Ref(), b.Finalized())
    else
      ChainedAscends(b.blocks);
      var pos := FirstAtOrAbove(b.blocks, from);
      if parentHash.Some? && b.blocks[pos].parentHash != parentHash.value
      then ConflictDue
      else Data(b.blocks[pos..], b.Finalized())
  }

  /** Answer and verdict are the same outcome with the same content. */
  predicate Agrees(a: Answer, v: Verdict) {
    match v
    case Backfill => a.Below?
    case Data(blocks, finalized) => a == Window(finalized, blocks)
    case Empty(_, finalized) => a == Nothing(finalized)
    case ConflictDue => a.Conflict?
  }

  /** A ref of the chain held: a block, or the parent of one; a root's parent names no block. */
  predicate KnownRef(b: Buffer, r: BlockRef) {
    exists i :: 0 <= i < |b.blocks| &&
      (b.blocks[i].Ref() == r || (!b.blocks[i].IsRoot() && b.blocks[i].ParentRef() == r))
  }

  /** What every conflict list owes the client whose base was refused: something to roll back to,
      in ascending order, of bounded size, on the chain held, and never the refused base itself. */
  ghost predicate HonestConflict(b: Buffer, from: Height, claimed: string, prev: seq<BlockRef>) {
    && prev != [] && |prev| <= FORK_REFS + 1
    && (forall i, j :: 0 <= i < j < |prev| ==> prev[i].number < prev[j].number)
    && (forall i :: 0 <= i < |prev| ==> KnownRef(b, prev[i]))
    && (forall i :: 0 <= i < |prev| ==> !(prev[i].number + 1 == from && prev[i].hash == claimed))
  }

  /** Every listed ref lies below `from`, unless the list is the root's own ref. */
  ghost predicate BelowFrom(b: Buffer, from: Height, prev: seq<BlockRef>) {
    (forall i :: 0 <= i < |prev| ==> prev[i].number < from) ||
    (b.blocks != [] && b.blocks[0].IsRoot() && prev == [b.blocks[0].Ref()])
  }

  function OwnParent(x: Block): seq<BlockRef> {
    if x.IsRoot() then [] else [x.ParentRef()]
  }

  /** The parents the blocks name, roots skipped. */
  function ParentRefs(blocks: seq<Block>): seq<BlockRef> {
    if blocks == [] then [] else ParentRefs(blocks[..|blocks| - 1]) + OwnParent(blocks[|blocks| - 1])
  }

  function Refs(blocks: seq<Block>): (r: seq<BlockRef>)
    ensures |r| == |blocks| && forall i :: 0 <= i < |r| ==> r[i] == blocks[i].Ref()
  {
    seq(|blocks|, i requires 0 <= i < |blocks| => blocks[i].Ref())
  }

  /** The refs listed when the block at `pos` refuses the claimed base. */
  function WindowConflict(blocks: seq<Block>, pos: nat): seq<BlockRef>
    requires pos < |blocks|
  {
    var start := if pos > FORK_REFS then pos - FORK_REFS else 0;
    var prev := ParentRefs(blocks[start..pos + 1]);
    if prev == [] then [blocks[0].Ref()] else prev
  }

  /** The refs listed when the head refuses the base claimed just above it. */
  function HeadConflict(blocks: seq<Block>): seq<BlockRef> {
    var start := if |blocks| > FORK_REFS then |blocks| - FORK_REFS else 0;
    Refs(blocks[start..])
  }

  /** Only the first block of a chain can be a root, so only it can be skipped. */
  lemma {:induction false} ParentRefsOf(blocks: seq<Block>)
    requires forall i :: 1 <= i < |blocks| ==> !blocks[i].IsRoot()
    ensures var skip := if blocks != [] && blocks[0].IsRoot() then 1 else 0;
      && |ParentRefs(blocks)| == |blocks| - skip
      && forall i :: 0 <= i < |ParentRefs(blocks)| ==> ParentRefs(blocks)[i] == blocks[i + skip].ParentRef()
  {
    if blocks != [] {
      var front := blocks[..|blocks| - 1];
      assert forall i :: 0 <= i < |front| ==> front[i] == blocks[i];
      ParentRefsOf(front);
    }
  }

  /** Parent heights ascend strictly with position, roots aside, and from the second block on a
      parent is the block before. */
  lemma ParentsAscend(b: Buffer, i: nat, j: nat)
    requires b.Valid() && i < j < |b.blocks|
    ensures b.blocks[i].number <= b.blocks[j].parentNumber < b.blocks[j].number
    ensures b.blocks[j].parentNumber == b.blocks[j - 1].number
    ensures !b.blocks[i].IsRoot() ==> b.blocks[i].parentNumber < b.blocks[j].parentNumber
  {
    ChainedAscends(b.blocks);
    assert Follows(b.blocks[j - 1], b.blocks[j]);
    if i > 0 {
      assert Follows(b.blocks[i - 1], b.blocks[i]);
    }
  }

  /** The list drawn from the window, position by position. */
  lemma WindowConflictRefs(b: Buffer, pos: nat)
    requires b.Valid() && pos < |b.blocks|
    ensures var prev := WindowConflict(b.blocks, pos);
      var start := if pos > FORK_REFS then pos - FORK_REFS else 0;
      var first := if start == 0 && b.blocks[0].IsRoot() then 1 else start;
      && (pos < first ==> prev == [b.blocks[0].Ref()] && pos == 0)
      && (pos >= first ==> |prev| == pos + 1 - first)
      && (pos >= first ==> forall i :: 0 <= i < |prev| ==>
            prev[i] == b.blocks[first + i].ParentRef() && !b.blocks[first + i].IsRoot())
  {
    var start := if pos > FORK_REFS then pos - FORK_REFS else 0;
    var listed := b.blocks[start..pos + 1];
    forall i | 0 < i < |b.blocks|
      ensures !b.blocks[i].IsRoot()
    {
      ParentsAscend(b, 0, i);
    }
    assert forall i :: 0 <= i < |listed| ==> listed[i] == b.blocks[start + i];
    ParentRefsOf(listed);
  }

  /** One listed parent: below `from`, and not the refused base. */
  lemma ListedParent(b: Buffer, from: Height, claimed: string, pos: nat, k: nat)
    requires b.Valid() && k <= pos < |b.blocks| && pos == FirstAtOrAbove(b.blocks, from)
    requires b.blocks[0].IsRoot() || from > b.blocks[0].parentNumber
    requires b.blocks[pos].parentHash != claimed && !b.blocks[k].IsRoot()
    ensures b.blocks[k].parentNumber < from
    ensures !(b.blocks[k].parentNumber + 1 == from && b.blocks[k].parentHash == claimed)
  {
    if k > 0 {
      ParentsAscend(b, k - 1, k);
      assert b.blocks[k - 1].number < from;
    }
    if k < pos {
      ParentsAscend(b, k, pos);
      assert b.blocks[pos - 1].number < from;
    }
  }

  lemma BlockIsKnown(b: Buffer, i: nat)
    requires i < |b.blocks|
    ensures KnownRef(b, b.blocks[i].Ref())
    ensures !b.blocks[i].IsRoot() ==> KnownRef(b, b.blocks[i].ParentRef())
  {
  }

  /** One ref of a conflict list, as it should be. */
  ghost predicate HonestRef(b: Buffer, from: Height, claimed: string, r: BlockRef) {
    KnownRef(b, r) && r.number < from && !(r.number + 1 == from && r.hash == claimed)
  }

  lemma HonestThroughout(b: Buffer, from: Height, claimed: string, prev: seq<BlockRef>)
    requires prev != [] && |prev| <= FORK_REFS + 1
    requires forall i :: 0 <= i < |prev| ==> HonestRef(b, from, claimed, prev[i])
    requires forall i, j :: 0 <= i < j < |prev| ==> prev[i].number < prev[j].number
    ensures HonestConflict(b, from, claimed, prev) && BelowFrom(b, from, prev)
  {
  }

  lemma ParentIsHonest(b: Buffer, from: Height, claimed: string, pos: nat, k: nat)
    requires b.Valid() && k <= pos < |b.blocks| && pos == FirstAtOrAbove(b.blocks, from)
    requires b.blocks[0].IsRoot() || from > b.blocks[0].parentNumber
    requires b.blocks[pos].parentHash != claimed && !b.blocks[k].IsRoot()
    ensures HonestRef(b, from, claimed, b.blocks[k].ParentRef())
  {
    ListedParent(b, from, claimed, pos, k);
    BlockIsKnown(b, k);
  }

  lemma ParentsListedAscend(b: Buffer, prev: seq<BlockRef>, first: nat)
    requires b.Valid() && first + |prev| <= |b.blocks|
    requires forall i :: 0 <= i < |prev| ==>
      prev[i] == b.blocks[first + i].ParentRef() && !b.blocks[first + i].IsRoot()
    ensures forall i, j :: 0 <= i < j < |prev| ==> prev[i].number < prev[j].number
  {
    forall i, j | 0 <= i < j < |prev|
      ensures prev[i].number < prev[j].number
    {
      ParentsAscend(b, first + i, first + j);
    }
  }

  /** The in-window conflict list keeps its promise. */
  lemma WindowConflictIsHonest(b: Buffer, from: Height, claimed: string, pos: nat)
    requires b.Valid() && pos < |b.blocks| && pos == FirstAtOrAbove(b.blocks, from)
    requires b.blocks[0].IsRoot() || from > b.blocks[0].parentNumber
    requires b.blocks[pos].parentHash != claimed
    ensures HonestConflict(b, from, claimed, WindowConflict(b.blocks, pos))
    ensures BelowFrom(b, from, WindowConflict(b.blocks, pos))
  {
    var prev := WindowConflict(b.blocks, pos);
    var start := if pos > FORK_REFS then pos - FORK_REFS else 0;
    var first := if start == 0 && b.blocks[0].IsRoot() then 1 else start;
    if pos < first {
      RootConflict(b, from, claimed);
    } else {
      WindowConflictRefs(b, pos);
      forall i | 0 <= i < |prev|
        ensures HonestRef(b, from, claimed, prev[i])
      {
        assert prev[i] == b.blocks[first + i].ParentRef();
        ParentIsHonest(b, from, claimed, pos, first + i);
      }
      ParentsListedAscend(b, prev, first);
      HonestThroughout(b, from, claimed, prev);
    }
  }

  /** A root refused has nothing below it to list, and lists itself. */
  lemma RootConflict(b: Buffer, from: Height, claimed: string)
    requires b.Valid() && b.blocks[0].IsRoot() && 0 == FirstAtOrAbove(b.blocks, from)
    ensures HonestConflict(b, from, claimed, WindowConflict(b.blocks, 0))
    ensures BelowFrom(b, from, WindowConflict(b.blocks, 0))
  {
    WindowConflictRefs(b, 0);
    BlockIsKnown(b, 0);
  }

  lemma HeightsAscend(b: Buffer, i: nat, j: nat)
    requires b.Valid() && i < j < |b.blocks|
    ensures b.blocks[i].number < b.blocks[j].number
  {
    ChainedAscends(b.blocks);
  }

  lemma BlocksListedAscend(b: Buffer, prev: seq<BlockRef>, start: nat)
    requires b.Valid() && start + |prev| <= |b.blocks|
    requires forall i :: 0 <= i < |prev| ==> prev[i] == b.blocks[start + i].Ref()
    ensures forall i, j :: 0 <= i < j < |prev| ==> prev[i].number < prev[j].number
  {
    forall i, j | 0 <= i < j < |prev|
      ensures prev[i].number < prev[j].number
    {
      HeightsAscend(b, start + i, start + j);
    }
  }

  lemma HeldIsHonest(b: Buffer, from: Height, claimed: string, k: nat)
    requires b.Valid() && from == b.Last().number + 1 && claimed != b.Last().hash && k < |b.blocks|
    ensures HonestRef(b, from, claimed, b.blocks[k].Ref())
  {
    BlockIsKnown(b, k);
    if k < |b.blocks| - 1 {
      HeightsAscend(b, k, |b.blocks| - 1);
    }
  }

  /** So does the one drawn from the head. */
  lemma HeadConflictIsHonest(b: Buffer, from: Height, claimed: string)
    requires b.Valid() && from == b.Last().number + 1 && claimed != b.Last().hash
    ensures HonestConflict(b, from, claimed, HeadConflict(b.blocks))
    ensures BelowFrom(b, from, HeadConflict(b.blocks))
  {
    var prev := HeadConflict(b.blocks);
    var start := if |b.blocks| > FORK_REFS then |b.blocks| - FORK_REFS else 0;
    forall i | 0 <= i < |prev|
      ensures HonestRef(b, from, claimed, prev[i])
    {
      HeldIsHonest(b, from, claimed, start + i);
    }
    BlocksListedAscend(b, prev, start);
    HonestThroughout(b, from, claimed, prev);
  }

  /** The list drawn from the head holds the last hundred blocks, or all there are. */
  lemma HeadConflictRefs(blocks: seq<Block>, i: nat)
    ensures |HeadConflict(blocks)| == if |blocks| > FORK_REFS then FORK_REFS else |blocks|
    ensures i < |HeadConflict(blocks)| ==>
      HeadConflict(blocks)[i] == blocks[|blocks| - |HeadConflict(blocks)| + i].Ref()
  {
    var start := if |blocks| > FORK_REFS then |blocks| - FORK_REFS else 0;
    var listed := blocks[start..];
    if i < |listed| {
      assert Refs(listed)[i] == listed[i].Ref();
    }
  }

  /** The refs a conflict at this height is answered with. */
  function ConflictRefs(b: Buffer, from: Height): seq<BlockRef>
    requires b.Valid()
  {
    var pos := FirstAtOrAbove(b.blocks, from);
    if pos < |b.blocks| then WindowConflict(b.blocks, pos) else HeadConflict(b.blocks)
  }

  lemma SuffixIsChained(b: Buffer, from: Height)
    requires b.Valid() && from <= b.Last().number
    ensures var pos := FirstAtOrAbove(b.blocks, from);
      pos < |b.blocks| && Chained(b.blocks[pos..]) && b.blocks[pos..][|b.blocks| - pos - 1] == b.Last()
  {
    var pos := FirstAtOrAbove(b.blocks, from);
    ChainedSlice(b.blocks, pos, |b.blocks|);
    assert b.blocks[pos..|b.blocks|] == b.blocks[pos..];
  }

  /** Data is exactly the buffered blocks at or above `from`, in order. */
  lemma DataIsTheSuffix(b: Buffer, from: Height, parentHash: Option<string>)
    requires b.Valid() && QueryVerdict(b, from, parentHash).Data?
    ensures var blocks := QueryVerdict(b, from, parentHash).blocks;
      && blocks != [] && Chained(blocks) && blocks[|blocks| - 1] == b.Last()
      && (parentHash.Some? ==> blocks[0].parentHash == parentHash.value)
    ensures forall x: Block :: x in QueryVerdict(b, from, parentHash).blocks <==> x in b.blocks && x.number >= from
  {
    SuffixIsChained(b, from);
    SuffixMembers(b.blocks, from);
  }

  lemma SuffixMembers(blocks: seq<Block>, from: nat)
    requires Chained(blocks)
    ensures forall x: Block :: x in blocks[FirstAtOrAbove(blocks, from)..] <==> x in blocks && x.number >= from
  {
    ChainedAscends(blocks);
    var pos := FirstAtOrAbove(blocks, from);
    forall x: Block
      ensures x in blocks[pos..] <==> x in blocks && x.number >= from
    {
      if x in blocks && x.number >= from {
        var i :| 0 <= i < |blocks| && blocks[i] == x;
        assert blocks[pos..][i - pos] == x;
      }
    }
  }

  /** `x` is the lowest block held at or above `from`. */
  ghost predicate LowestFrom(b: Buffer, from: Height, x: Block) {
    x in b.blocks && x.number >= from && forall y :: y in b.blocks && y.number >= from ==> x.number <= y.number
  }

  /** A window that does not start at a root leaves to a backfill exactly the heights at or below its
      first parent's. Right above the head another hash than the head's conflicts, and the head's own,
      or none, is up to date; further above nothing conflicts. Within the window the lowest block at
      or above the height decides: a conflict exactly when it names another parent. */
  lemma VerdictMeans(b: Buffer, from: Height, parentHash: Option<string>)
    requires b.Valid()
    ensures var v := QueryVerdict(b, from, parentHash);
      && (v == Backfill <==> b.blocks[0].parentNumber != b.blocks[0].number && from <= b.blocks[0].parentNumber)
      && (from == b.Last().number + 1 ==>
            v == if parentHash.Some? && parentHash.value != b.Last().hash then ConflictDue
                 else Empty(b.Last().Ref(), b.Finalized()))
      && (from > b.Last().number + 1 ==> v == Empty(b.Last().Ref(), b.Finalized()))
    ensures from <= b.Last().number ==> exists x :: LowestFrom(b, from, x)
    ensures forall x :: LowestFrom(b, from, x) && QueryVerdict(b, from, parentHash) != Backfill ==>
      var v := QueryVerdict(b, from, parentHash);
      && (v == ConflictDue <==> parentHash.Some? && parentHash.value != x.parentHash)
      && (v != ConflictDue ==> v.Data? && v.blocks != [] && v.blocks[0] == x && v.finalized == b.Finalized())
  {
    hide LowestFrom, Chained;
    FirstIsBelowLast(b);
    if from <= b.Last().number {
      var pos := LowestAt(b, from);
      assert LowestFrom(b, from, b.blocks[pos]);
    } else {
      NoneFrom(b, from);
    }
  }

  lemma FirstIsBelowLast(b: Buffer)
    requires b.Valid()
    ensures b.blocks[0].parentNumber <= b.blocks[0].number <= b.Last().number
  {
    ChainedAscends(b.blocks);
  }

  lemma LowestAt(b: Buffer, from: Height) returns (pos: nat)
    requires b.Valid() && from <= b.Last().number
    ensures pos == FirstAtOrAbove(b.blocks, from) && pos < |b.blocks|
    ensures forall x :: LowestFrom(b, from, x) <==> x == b.blocks[pos]
  {
    pos := FirstAtOrAbove(b.blocks, from);
    ChainedAscends(b.blocks);
    assert b.blocks[pos] in b.blocks;
    forall x
      ensures LowestFrom(b, from, x) <==> x == b.blocks[pos]
    {
      if LowestFrom(b, from, x) {
        var i :| 0 <= i < |b.blocks| && b.blocks[i] == x;
      }
    }
  }

  lemma NoneFrom(b: Buffer, from: Height)
    requires b.Valid() && from > b.Last().number
    ensures forall x :: !LowestFrom(b, from, x)
  {
    ChainedAscends(b.blocks);
  }

  // ----- the client's recovery loop ------------------------------------------------

  /** The position in the client's own chain of the newest listed ref it holds, or None. */
  function CommonBlock(client: seq<Block>, prev: seq<BlockRef>): (r: Option<nat>)
    ensures r.Some? ==> r.value < |client| && client[r.value].Ref() in prev
    ensures r.None? ==> forall i :: 0 <= i < |prev| ==> !HoldsRef(client, prev[i])
    decreases prev
  {
    if prev == [] then None
    else
      var newest := prev[|prev| - 1];
      if HoldsRef(client, newest) then
        var i := RefPosition(client, newest);
        Some(i)
      else CommonBlock(client, prev[..|prev| - 1])
  }

  function RefPosition(blocks: seq<Block>, r: BlockRef): (i: nat)
    requires HoldsRef(blocks, r)
    ensures i < |blocks| && blocks[i].Ref() == r
  {
    if blocks[0].Ref() == r then 0
    else
      assert HoldsRef(blocks[1..], r) by {
        var k :| 0 <= k < |blocks| && blocks[k].Ref() == r;
        assert blocks[1..][k - 1].Ref() == r;
      }
      1 + RefPosition(blocks[1..], r)
  }

  /** A client that polls above its last block, is refused, and rolls back to the newest listed
      ref it holds, loses at least that last block: the same conflict cannot repeat. */
  lemma ConflictRoundProgresses(b: Buffer, client: seq<Block>, prev: seq<BlockRef>)
    requires client != [] && client[|client| - 1].number < HEIGHT_MAX
    requires var last := client[|client| - 1]; HonestConflict(b, last.number + 1, last.hash, prev)
    ensures CommonBlock(client, prev).Some? ==> CommonBlock(client, prev).value < |client| - 1
  {
    var last := client[|client| - 1];
    assert forall i :: 0 <= i < |prev| ==> prev[i] != last.Ref();
  }

  /** A client that finds nothing in common drops the base check, and is never refused again. */
  lemma UncheckedQueryNeverConflicts(b: Buffer, from: Height)
    requires b.Valid()
    ensures !QueryVerdict(b, from, None).ConflictDue?
  {
  }

  /** One refusal: the buffer the client met and the list it was given. */
  datatype Refusal = Refusal(buffer: Buffer, prev: seq<BlockRef>)

  /** Refusals one after another, the client rolling back after each; buffers may differ freely. */
  ghost predicate RefusedInTurn(client: seq<Block>, refusals: seq<Refusal>)
    decreases refusals
  {
    refusals == [] ||
    (&& client != [] && client[|client| - 1].number < HEIGHT_MAX
     && (var last := client[|client| - 1];
         HonestConflict(refusals[0].buffer, last.number + 1, last.hash, refusals[0].prev))
     && var common := CommonBlock(client, refusals[0].prev);
        if common.Some? then RefusedInTurn(client[..common.value + 1], refusals[1..])
        else refusals[1..] == [])
  }

  /** So the recovery loop ends, whatever the service's buffer does meanwhile: at most one refusal
      for each block the client holds. */
  lemma {:induction false} RecoveryLoopEnds(client: seq<Block>, refusals: seq<Refusal>)
    requires RefusedInTurn(client, refusals)
    ensures |refusals| <= |client|
    decreases refusals
  {
    if refusals != [] {
      var common := CommonBlock(client, refusals[0].prev);
      ConflictRoundProgresses(refusals[0].buffer, client, refusals[0].prev);
      if common.Some? {
        RecoveryLoopEnds(client[..common.value + 1], refusals[1..]);
      }
    }
  }
}
