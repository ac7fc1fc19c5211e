/** Matching trace replays to the transactions of a block: a counting map that accepts exactly one
    replay for each transaction and none for any other. */
module Replays {
  import opened Sequences
  import opened Types

  /** A replay: the transaction its entry names, the transactions its frames name, and whether it
      carries a state diff. An absent and an empty frame list are told apart. */
  datatype Replay = Replay(entryHash: Option<string>, frames: Option<seq<Option<string>>>, hasStateDiff: bool)

  /** The tracers asked for. */
  datatype Tracers = Tracers(trace: bool, stateDiff: bool)

  function FirstNamed(frames: seq<Option<string>>): Option<string> {
    if frames == [] then None else if frames[0].Some? then frames[0] else FirstNamed(frames[1..])
  }

  function FramesOf(r: Replay): seq<Option<string>> {
    if r.frames.Some? then r.frames.value else []
  }

  /** The transaction a replay belongs to: its own label, or else its first labelled frame's. */
  function HashOf(r: Replay): Option<string> {
    if r.entryHash.Some? then r.entryHash else FirstNamed(FramesOf(r))
  }

  /** A frame labelled with another transaction would be filed under this one. */
  predicate NoForeignFrame(r: Replay, hash: string) {
    forall i :: 0 <= i < |FramesOf(r)| && FramesOf(r)[i].Some? ==> EqIgnoreAsciiCase(FramesOf(r)[i].value, hash)
  }

  /** A replay can be attributed, holds no other transaction's frame, and has every tracer's answer. */
  predicate Complete(r: Replay, tracers: Tracers) {
    && HashOf(r).Some? && NoForeignFrame(r, HashOf(r).value)
    && (tracers.trace ==> FramesOf(r) != [])
    && (tracers.stateDiff ==> r.hasStateDiff)
  }

  function Hashes(replays: seq<Replay>): (r: seq<string>)
    requires forall i :: 0 <= i < |replays| ==> HashOf(replays[i]).Some?
    ensures |r| == |replays| && forall i :: 0 <= i < |r| ==> r[i] == HashOf(replays[i]).value
  {
    seq(|replays|, i requires 0 <= i < |replays| => HashOf(replays[i]).value)
  }

  /** Each transaction has exactly one replay, and no replay is of anything else. */
  ghost predicate OneEach(replays: seq<Replay>, transactions: seq<string>)
    requires forall i :: 0 <= i < |replays| ==> HashOf(replays[i]).Some?
  {
    Distinct(transactions) && multiset(Hashes(replays)) == multiset(transactions)
  }

  /** The map counts the occurrences of each hash. */
  ghost predicate Counts(counts: map<string, nat>, hashes: seq<string>) {
    forall h :: (h in counts <==> h in hashes) && (h in counts ==> counts[h] == multiset(hashes)[h])
  }

  lemma CountOneMore(counts: map<string, nat>, hashes: seq<string>, h: string)
    requires Counts(counts, hashes)
    ensures Counts(counts[h := (if h in counts then counts[h] else 0) + 1], hashes + [h])
  {
    assert multiset(hashes + [h]) == multiset(hashes) + multiset{h};
    assert h !in hashes ==> multiset(hashes)[h] == 0;
  }

  /** Count the replays of each transaction, if every one is complete. */
  method CountReplays(replays: seq<Replay>, tracers: Tracers) returns (counts: Option<map<string, nat>>)
    ensures counts.Some? <==> forall i :: 0 <= i < |replays| ==> Complete(replays[i], tracers)
    ensures counts.Some? ==> Counts(counts.value, Hashes(replays))
  {
    var tally: map<string, nat> := map[];
    for i := 0 to |replays|
      invariant forall j :: 0 <= j < i ==> Complete(replays[j], tracers)
      invariant Counts(tally, Hashes(replays[..i]))
    {
      var r := replays[i];
      if !Complete(r, tracers) {
        return None;
      }
      var hash := HashOf(r).value;
      CountOneMore(tally, Hashes(replays[..i]), hash);
      assert Hashes(replays[..i + 1]) == Hashes(replays[..i]) + [hash];
      tally := tally[hash := (if hash in tally then tally[hash] else 0) + 1];
    }
    TakeAll(replays);
    counts := Some(tally);
  }

  /** What taking the first `k` transactions out of the counts leaves. */
  ghost predicate TakenOut(left: map<string, nat>, counts: map<string, nat>, transactions: seq<string>, k: nat)
    requires k <= |transactions|
  {
    && Distinct(transactions[..k])
    && (forall i :: 0 <= i < k ==> transactions[i] in counts && counts[transactions[i]] == 1)
    && (forall h :: h in left <==> h in counts && h !in transactions[..k])
    && (forall h :: h in left ==> left[h] == counts[h])
  }

  /** Exactly one each, decided by removing every transaction's count. */
  method MatchCounts(counts: map<string, nat>, transactions: seq<string>) returns (ok: bool)
    ensures ok <==>
      && Distinct(transactions)
      && (forall i :: 0 <= i < |transactions| ==> transactions[i] in counts && counts[transactions[i]] == 1)
      && forall h :: h in counts ==> h in transactions
  {
    var left := counts;
    for k := 0 to |transactions|
      invariant TakenOut(left, counts, transactions, k)
    {
      var tx := transactions[k];
      TakeOneMore(transactions, k);
      if tx !in left {
        RepeatedOrMissing(left, counts, transactions, k);
        return false;
      }
      if left[tx] != 1 {
        return false;
      }
      left := left - {tx};
    }
    TakeAll(transactions);
    ok := left.Keys == {};
    assert ok <==> forall h :: h !in left;
  }

  lemma RepeatedOrMissing(left: map<string, nat>, counts: map<string, nat>, transactions: seq<string>, k: nat)
    requires k < |transactions| && TakenOut(left, counts, transactions, k) && transactions[k] !in left
    ensures transactions[k] !in counts || !Distinct(transactions)
  {
    if transactions[k] in counts {
      var i :| 0 <= i < k && transactions[..k][i] == transactions[k];
      assert transactions[i] == transactions[k];
    }
  }

  lemma MatchedIsOneEach(counts: map<string, nat>, hashes: seq<string>, transactions: seq<string>)
    requires Counts(counts, hashes) && Distinct(transactions)
    ensures multiset(hashes) == multiset(transactions) <==>
      && (forall i :: 0 <= i < |transactions| ==> transactions[i] in counts && counts[transactions[i]] == 1)
      && forall h :: h in counts ==> h in transactions
  {
    if multiset(hashes) == multiset(transactions) {
      forall i | 0 <= i < |transactions|
        ensures transactions[i] in counts && counts[transactions[i]] == 1
      {
        DistinctOnce(transactions, transactions[i]);
        assert transactions[i] in multiset(hashes);
      }
      forall h | h in counts
        ensures h in transactions
      {
        assert h in multiset(hashes);
      }
    }
    if
      && (forall i :: 0 <= i < |transactions| ==> transactions[i] in counts && counts[transactions[i]] == 1)
      && forall h :: h in counts ==> h in transactions
    {
      forall h
        ensures multiset(hashes)[h] == multiset(transactions)[h]
      {
        DistinctOnce(transactions, h);
        if h in transactions {
          var i :| 0 <= i < |transactions| && transactions[i] == h;
        }
      }
      assert multiset(hashes) == multiset(transactions);
    }
  }

  /** The replays of a block are accepted exactly when all are complete and there is one for each
      of its transactions and none besides. */
  method ReplaysOf(replays: seq<Replay>, tracers: Tracers, transactions: seq<string>) returns (ok: bool)
    ensures ok <==>
      && (forall i :: 0 <= i < |replays| ==> Complete(replays[i], tracers))
      && OneEach(replays, transactions)
  {
    var counts := CountReplays(replays, tracers);
    if counts.None? {
      return false;
    }
    ok := MatchCounts(counts.value, transactions);
    if forall i, j :: 0 <= i < j < |transactions| ==> transactions[i] != transactions[j] {
      MatchedIsOneEach(counts.value, Hashes(replays), transactions);
    }
  }
}
