/** Acquiring a finalized range: one batched fetch, then bounded re-acquisition block by block. */
module Acquisition {
  import opened Sequences
  import opened Types
  import opened Enrichment

  /** What the upstream answers to successive batch fetches; None is a transport error. When the
      answers run out, so has the transport. */
  type Answers = seq<Option<seq<RawBlock>>>

  datatype Issue = NotAvailable | WrongNumber | IncoherentBlock | ParentMismatch

  /** What rules a candidate out as the block at `number` that follows `parentHash`, if anything does. */
  function RangeCandidateIssue(candidate: Option<RawBlock>, number: Height, parentHash: Option<string>)
      : Option<Issue>
  {
    if candidate.None? then Some(NotAvailable)
    else if candidate.value.number != number then Some(WrongNumber)
    else if candidate.value.isInvalid then Some(IncoherentBlock)
    else if parentHash.Some? && !EqIgnoreAsciiCase(parentHash.value, candidate.value.parentHash) then
      Some(ParentMismatch)
    else None
  }

  /** Blocks answering the leading numbers: each valid, with its number, linked to the one before. */
  ghost predicate CoherentPrefix(blocks: seq<RawBlock>, numbers: seq<Height>) {
    && |blocks| <= |numbers|
    && (forall i :: 0 <= i < |blocks| ==> blocks[i].number == numbers[i] && !blocks[i].isInvalid)
    && (forall i :: 0 <= i < |blocks| - 1 ==> EqIgnoreAsciiCase(blocks[i].hash, blocks[i + 1].parentHash))
  }

  /** One acquired range; `failed` when it stopped short, with what lies below the fault. */
  datatype RangeAcquisition = RangeAcquisition(blocks: seq<RawBlock>, failed: bool)

  ghost predicate Acquires(a: RangeAcquisition, numbers: seq<Height>) {
    CoherentPrefix(a.blocks, numbers) && (a.failed <==> |a.blocks| < |numbers|)
  }

  // ----- what the answers determine ---------------------------------------------------

  /** The upstream returned `raw` in one of its answers. */
  ghost predicate WasAnswered(answers: Answers, raw: RawBlock) {
    exists i :: 0 <= i < |answers| && answers[i].Some? && raw in answers[i].value
  }

  function FirstOf(blocks: seq<RawBlock>): Option<RawBlock> {
    if blocks == [] then None else Some(blocks[0])
  }

  /** The block that `number` ends up with, given a candidate and a budget of fetches, and how many
      fetches it took. */
  function OneOf(answers: Answers, number: Height, parentHash: Option<string>, candidate: Option<RawBlock>, budget: nat)
      : (r: (Option<RawBlock>, nat))
    ensures r.0.Some? ==> RangeCandidateIssue(r.0, number, parentHash).None?
    ensures r.1 <= budget
    decreases budget
  {
    if RangeCandidateIssue(candidate, number, parentHash).None? then (candidate, 0)
    else if budget == 0 then (None, 0)
    else if answers == [] || answers[0].None? then (None, 1)
    else
      var later := OneOf(answers[1..], number, parentHash, FirstOf(answers[0].value), budget - 1);
      (later.0, later.1 + 1)
  }

  function ParentOf(complete: seq<RawBlock>): Option<string> {
    if complete == [] then None else Some(complete[|complete| - 1].hash)
  }

  function CandidateAt(initial: seq<RawBlock>, i: nat): Option<RawBlock> {
    if i < |initial| then Some(initial[i]) else None
  }

  /** The range as acquired once `complete` is in hand, and the fetches that takes. */
  function StrideFrom(answers: Answers, numbers: seq<Height>, initial: seq<RawBlock>, complete: seq<RawBlock>)
      : (RangeAcquisition, nat)
    decreases |numbers| - |complete|
  {
    if |complete| >= |numbers| then (RangeAcquisition(complete, false), 0)
    else
      var i := |complete|;
      var one := OneOf(answers, numbers[i], ParentOf(complete), CandidateAt(initial, i), ENRICH_RETRIES);
      if one.0.None? then (RangeAcquisition(complete, true), one.1)
      else
        var more := StrideFrom(Dropped(answers, one.1), numbers, initial, complete + [one.0.value]);
        (more.0, one.1 + more.1)
  }

  /** The range the answers determine: one fetch of it whole, then single ones where that falls short. */
  function Stride(answers: Answers, numbers: seq<Height>): (RangeAcquisition, nat) {
    if answers == [] || answers[0].None? then (RangeAcquisition([], true), 1)
    else
      var s := StrideFrom(answers[1..], numbers, answers[0].value, []);
      (s.0, 1 + s.1)
  }

  lemma OneMoreFetch(answers: Answers, number: Height, parentHash: Option<string>, candidate: Option<RawBlock>,
      budget: nat)
    requires RangeCandidateIssue(candidate, number, parentHash).Some?
    ensures budget == 0 ==> OneOf(answers, number, parentHash, candidate, budget) == (None, 0)
    ensures budget > 0 && (answers == [] || answers[0].None?) ==>
      OneOf(answers, number, parentHash, candidate, budget) == (None, 1)
    ensures budget > 0 && answers != [] && answers[0].Some? ==>
      var later := OneOf(answers[1..], number, parentHash, FirstOf(answers[0].value), budget - 1);
      OneOf(answers, number, parentHash, candidate, budget) == (later.0, later.1 + 1)
  {
  }

  lemma NoMoreFetches(answers: Answers, number: Height, parentHash: Option<string>, candidate: Option<RawBlock>,
      budget: nat)
    requires RangeCandidateIssue(candidate, number, parentHash).None?
    ensures OneOf(answers, number, parentHash, candidate, budget) == (candidate, 0)
  {
  }

  lemma {:induction false} OneWasAnswered(answers: Answers, number: Height, parentHash: Option<string>,
      candidate: Option<RawBlock>, budget: nat)
    ensures var r := OneOf(answers, number, parentHash, candidate, budget).0;
      r.Some? ==> r == candidate || WasAnswered(answers, r.value)
    decreases budget
  {
    if RangeCandidateIssue(candidate, number, parentHash).Some? && budget > 0 && answers != [] && answers[0].Some? {
      var rest := answers[1..];
      OneWasAnswered(rest, number, parentHash, FirstOf(answers[0].value), budget - 1);
      var r := OneOf(rest, number, parentHash, FirstOf(answers[0].value), budget - 1).0;
      if r.Some? && WasAnswered(rest, r.value) {
        var i :| 0 <= i < |rest| && rest[i].Some? && r.value in rest[i].value;
        assert answers[i + 1] == rest[i];
      }
    }
  }

  /** A block is given up only when the budget is spent, the answers run out, or the transport fails. */
  ghost predicate GivenUp(answers: Answers, fetches: nat, budget: nat) {
    fetches == budget || fetches > |answers| || exists k :: 0 <= k < fetches && answers[k].None?
  }

  lemma {:induction false} OneIsGivenUp(answers: Answers, number: Height, parentHash: Option<string>,
      candidate: Option<RawBlock>, budget: nat)
    ensures var r := OneOf(answers, number, parentHash, candidate, budget);
      r.0.None? ==> GivenUp(answers, r.1, budget)
    decreases budget
  {
    if RangeCandidateIssue(candidate, number, parentHash).Some? && budget > 0 && answers != [] && answers[0].Some? {
      var rest := answers[1..];
      OneIsGivenUp(rest, number, parentHash, FirstOf(answers[0].value), budget - 1);
      var r := OneOf(rest, number, parentHash, FirstOf(answers[0].value), budget - 1);
      if k :| 0 <= k < r.1 && k < |rest| && rest[k].None? {
        assert answers[k + 1].None?;
      }
    }
  }

  /** The answers so far were `answers` less what has been dropped, and the first one held `initial`. */
  ghost predicate LeftOf(whole: Answers, answers: Answers, initial: seq<RawBlock>) {
    && (forall raw :: WasAnswered(answers, raw) ==> WasAnswered(whole, raw))
    && (forall raw :: raw in initial ==> WasAnswered(whole, raw))
  }

  lemma DroppedWasAnswered(answers: Answers, n: nat, raw: RawBlock)
    requires WasAnswered(Dropped(answers, n), raw)
    ensures WasAnswered(answers, raw)
  {
    var left := Dropped(answers, n);
    var i :| 0 <= i < |left| && left[i].Some? && raw in left[i].value;
    assert answers[n + i] == left[i];
  }

  lemma CoherentSnoc(complete: seq<RawBlock>, numbers: seq<Height>, x: RawBlock)
    requires CoherentPrefix(complete, numbers) && |complete| < |numbers|
    requires RangeCandidateIssue(Some(x), numbers[|complete|], ParentOf(complete)).None?
    ensures CoherentPrefix(complete + [x], numbers)
  {
  }

  /** Whatever the answers: the range is a coherent prefix of what was asked, short exactly on
      failure, made only of blocks the upstream returned, and bounded in its fetches. */
  lemma {:induction false} StrideFromAcquires(whole: Answers, answers: Answers, numbers: seq<Height>,
      initial: seq<RawBlock>, complete: seq<RawBlock>)
    requires CoherentPrefix(complete, numbers) && LeftOf(whole, answers, initial)
    requires forall raw :: raw in complete ==> WasAnswered(whole, raw)
    ensures var s := StrideFrom(answers, numbers, initial, complete);
      && Acquires(s.0, numbers) && s.1 <= ENRICH_RETRIES * (|numbers| - |complete|)
      && forall raw :: raw in s.0.blocks ==> WasAnswered(whole, raw)
    decreases |numbers| - |complete|
  {
    if |complete| < |numbers| {
      var i := |complete|;
      var one := OneOf(answers, numbers[i], ParentOf(complete), CandidateAt(initial, i), ENRICH_RETRIES);
      if one.0.Some? {
        OneWasAnswered(answers, numbers[i], ParentOf(complete), CandidateAt(initial, i), ENRICH_RETRIES);
        CoherentSnoc(complete, numbers, one.0.value);
        forall raw | WasAnswered(Dropped(answers, one.1), raw)
          ensures WasAnswered(whole, raw)
        {
          DroppedWasAnswered(answers, one.1, raw);
        }
        StrideFromAcquires(whole, Dropped(answers, one.1), numbers, initial, complete + [one.0.value]);
      }
    }
  }

  lemma OneMoreBlock(answers: Answers, numbers: seq<Height>, initial: seq<RawBlock>, complete: seq<RawBlock>)
    requires |complete| < |numbers|
    ensures var i := |complete|;
      var one := OneOf(answers, numbers[i], ParentOf(complete), CandidateAt(initial, i), ENRICH_RETRIES);
      if one.0.None? then StrideFrom(answers, numbers, initial, complete) == (RangeAcquisition(complete, true), one.1)
      else
        var more := StrideFrom(Dropped(answers, one.1), numbers, initial, complete + [one.0.value]);
        StrideFrom(answers, numbers, initial, complete) == (more.0, one.1 + more.1)
  {
    hide OneOf, ParentOf, CandidateAt, Dropped;
  }

  lemma AllBlocks(answers: Answers, numbers: seq<Height>, initial: seq<RawBlock>, complete: seq<RawBlock>)
    requires |complete| == |numbers|
    ensures StrideFrom(answers, numbers, initial, complete) == (RangeAcquisition(complete, false), 0)
  {
  }

  lemma StrideAcquires(answers: Answers, numbers: seq<Height>)
    requires numbers != []
    ensures var s := Stride(answers, numbers);
      && Acquires(s.0, numbers) && 1 <= s.1 <= 1 + ENRICH_RETRIES * |numbers|
      && forall raw :: raw in s.0.blocks ==> WasAnswered(answers, raw)
  {
    if answers != [] && answers[0].Some? {
      forall raw | WasAnswered(answers[1..], raw)
        ensures WasAnswered(answers, raw)
      {
        DroppedWasAnswered(answers, 1, raw);
      }
      StrideFromAcquires(answers, answers[1..], numbers, answers[0].value, []);
    }
  }

  /** A coherent answer is used: as much of the first answer as answers the numbers asked for, each
      block valid and linked to the one before, begins the range, without a fetch of its own. */
  lemma {:induction false} CoherentIsUsed(answers: Answers, numbers: seq<Height>, initial: seq<RawBlock>, n: nat, k: nat)
    requires n <= k <= |numbers| && k <= |initial| && CoherentPrefix(initial[..k], numbers)
    ensures StrideFrom(answers, numbers, initial, initial[..n]) == StrideFrom(answers, numbers, initial, initial[..k])
    decreases k - n
  {
    hide OneOf;
    if n < k {
      assert initial[..k][n] == initial[n];
      assert n > 0 ==> initial[..k][n - 1] == initial[n - 1] && initial[..n][n - 1] == initial[n - 1];
      NoMoreFetches(answers, numbers[n], ParentOf(initial[..n]), Some(initial[n]), ENRICH_RETRIES);
      OneMoreBlock(answers, numbers, initial, initial[..n]);
      TakeOneMore(initial, n);
      CoherentIsUsed(answers, numbers, initial, n + 1, k);
    }
  }

  lemma {:induction false} CompleteIsKept(answers: Answers, numbers: seq<Height>, initial: seq<RawBlock>,
      complete: seq<RawBlock>)
    requires |complete| <= |numbers|
    ensures complete <= StrideFrom(answers, numbers, initial, complete).0.blocks
    decreases |numbers| - |complete|
  {
    hide OneOf;
    if |complete| < |numbers| {
      var i := |complete|;
      var one := OneOf(answers, numbers[i], ParentOf(complete), CandidateAt(initial, i), ENRICH_RETRIES);
      if one.0.Some? {
        var more := complete + [one.0.value];
        CompleteIsKept(Dropped(answers, one.1), numbers, initial, more);
        var all := StrideFrom(Dropped(answers, one.1), numbers, initial, more).0.blocks;
        assert all[..|complete|] == all[..|more|][..|complete|] == complete;
      }
    }
  }

  /** So the range is never shorter than the coherent front of its first answer; and one that answers
      every number is returned whole, after a single fetch. */
  lemma FirstAnswerIsUsed(answers: Answers, numbers: seq<Height>, k: nat)
    requires answers != [] && answers[0].Some? && k <= |numbers| && k <= |answers[0].value|
    requires CoherentPrefix(answers[0].value[..k], numbers)
    ensures answers[0].value[..k] <= Stride(answers, numbers).0.blocks
    ensures k == |numbers| ==> Stride(answers, numbers) == (RangeAcquisition(answers[0].value[..k], false), 1)
  {
    hide StrideFrom, CoherentPrefix;
    var initial := answers[0].value;
    CoherentIsUsed(answers[1..], numbers, initial, 0, k);
    CompleteIsKept(answers[1..], numbers, initial, initial[..k]);
    assert initial[..0] == [];
    if k == |numbers| {
      AllBlocks(answers[1..], numbers, initial, initial[..k]);
    }
  }

  /** A block that cannot stand is fetched again, and the first fetch that brings one that can is the
      last: with `n` fetches in vain before it, it takes `n + 1`. */
  lemma {:induction false} RefetchedUntilCoherent(answers: Answers, number: Height, parentHash: Option<string>,
      candidate: Option<RawBlock>, budget: nat, n: nat)
    requires RangeCandidateIssue(candidate, number, parentHash).Some? && n < |answers| && n < budget
    requires forall i :: 0 <= i <= n ==> answers[i].Some?
    requires forall i :: 0 <= i < n ==> RangeCandidateIssue(FirstOf(answers[i].value), number, parentHash).Some?
    requires RangeCandidateIssue(FirstOf(answers[n].value), number, parentHash).None?
    ensures OneOf(answers, number, parentHash, candidate, budget) == (FirstOf(answers[n].value), n + 1)
    decreases n
  {
    hide RangeCandidateIssue;
    var next := FirstOf(answers[0].value);
    if n == 0 {
      NoMoreFetches(answers[1..], number, parentHash, next, budget - 1);
    } else {
      RefetchedUntilCoherent(answers[1..], number, parentHash, next, budget - 1, n - 1);
    }
  }

  // ----- the loops ------------------------------------------------------------------------

  /** `OneOf`, fetch by fetch. */
  method AcquireOne(answers: Answers, number: Height, parentHash: Option<string>, initial: Option<RawBlock>)
    returns (r: Option<RawBlock>, rest: Answers, fetches: nat)
    ensures (r, fetches) == OneOf(answers, number, parentHash, initial, ENRICH_RETRIES)
    ensures r.Some? ==> RangeCandidateIssue(r, number, parentHash).None?
    ensures fetches <= ENRICH_RETRIES && rest == Dropped(answers, fetches)
    ensures r.None? ==> GivenUp(answers, fetches, ENRICH_RETRIES)
  {
    hide RangeCandidateIssue, GivenUp, OneOf;
    OneIsGivenUp(answers, number, parentHash, initial, ENRICH_RETRIES);
    var candidate := initial;
    rest, fetches := answers, 0;
    ghost var whole := OneOf(answers, number, parentHash, initial, ENRICH_RETRIES);
    while RangeCandidateIssue(candidate, number, parentHash).Some?
      invariant fetches <= ENRICH_RETRIES && fetches <= |answers| && rest == answers[fetches..]
      invariant var later := OneOf(rest, number, parentHash, candidate, ENRICH_RETRIES - fetches);
        whole.0 == later.0 && whole.1 == later.1 + fetches
      decreases ENRICH_RETRIES - fetches
    {
      OneMoreFetch(rest, number, parentHash, candidate, ENRICH_RETRIES - fetches);
      if fetches >= ENRICH_RETRIES {
        return None, rest, fetches;
      }
      fetches := fetches + 1;
      if rest == [] {
        return None, [], fetches;
      }
      SkipOneMore(answers, fetches - 1);
      var answer := rest[0];
      rest := rest[1..];
      if answer.None? {
        return None, rest, fetches;
      }
      candidate := if answer.value == [] then None else Some(answer.value[0]);
    }
    NoMoreFetches(rest, number, parentHash, candidate, ENRICH_RETRIES - fetches);
    r := candidate;
  }

  /** Acquire `numbers`: always a coherent prefix of what was asked, short exactly on failure, at
      the cost of one batch fetch and a bounded number of single ones per block. */
  method AcquireRangeStride(answers: Answers, numbers: seq<Height>)
    returns (a: RangeAcquisition, rest: Answers, fetches: nat)
    requires numbers != []
    ensures (a, fetches) == Stride(answers, numbers)
    ensures Acquires(a, numbers) && forall raw :: raw in a.blocks ==> WasAnswered(answers, raw)
    ensures 1 <= fetches <= 1 + ENRICH_RETRIES * |numbers| && rest == Dropped(answers, fetches)
  {
    hide OneOf, Acquires, WasAnswered, RangeCandidateIssue, StrideFrom;
    StrideAcquires(answers, numbers);
    fetches := 1;
    if answers == [] || answers[0].None? {
      return RangeAcquisition([], true), Dropped(answers, 1), fetches;
    }
    var initial := answers[0].value;
    rest := answers[1..];
    var complete: seq<RawBlock> := [];
    for i := 0 to |numbers|
      invariant |complete| == i && rest == Dropped(answers, fetches) && fetches >= 1
      invariant var more := StrideFrom(rest, numbers, initial, complete);
        Stride(answers, numbers) == (more.0, fetches + more.1)
    {
      var candidate := if i < |initial| then Some(initial[i]) else None;
      var parentHash := if complete == [] then None else Some(complete[|complete| - 1].hash);
      OneMoreBlock(rest, numbers, initial, complete);
      var found, spent;
      found, rest, spent := AcquireOne(rest, numbers[i], parentHash, candidate);
      DroppedTwice(answers, fetches, spent);
      fetches := fetches + spent;
      if found.None? {
        return RangeAcquisition(complete, true), rest, fetches;
      }
      complete := complete + [found.value];
    }
    AllBlocks(rest, numbers, initial, complete);
    a := RangeAcquisition(complete, false);
  }
}
