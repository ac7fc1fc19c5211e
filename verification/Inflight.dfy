/** Tasks in flight behind an in-order queue: they complete in any order, and the front one is
    waited for. */
module Inflight {
  import opened Sequences
  import opened Types

  /** One task has completed: which of those in flight, and what came of it. A completion that names
      one already complete changes nothing. */
  datatype Completion<+T> = Completion(which: nat, task: T)

  /** One job of the queue, and its completion once it has one. */
  datatype Slot<+J, +T> = Slot(job: J, done: Option<Completion<T>>)

  /** The queue with one more completion noted. */
  function Noted<J, T>(slots: seq<Slot<J, T>>, done: Completion<T>): (r: seq<Slot<J, T>>)
    requires slots != []
    ensures SameJobs(r, slots)
  {
    var k := done.which % |slots|;
    if slots[k].done.Some? then slots else slots[k := Slot(slots[k].job, Some(done))]
  }

  ghost predicate SameJobs<J, T>(a: seq<Slot<J, T>>, b: seq<Slot<J, T>>) {
    |a| == |b| && forall k :: 0 <= k < |a| ==> a[k].job == b[k].job
  }

  /** The completions left, and the queue, once the front job is complete or none are left. */
  function Settled<J, T>(dones: seq<Completion<T>>, slots: seq<Slot<J, T>>)
      : (r: (seq<Completion<T>>, seq<Slot<J, T>>))
    requires slots != []
    ensures SameJobs(r.1, slots) && (r.1[0].done.None? ==> r.0 == [])
  {
    if slots[0].done.Some? || dones == [] then (dones, slots) else Settled(dones[1..], Noted(slots, dones[0]))
  }

  /** Every completion noted is one of these. */
  ghost predicate Filled<J, T>(slots: seq<Slot<J, T>>, seen: seq<Completion<T>>) {
    forall k :: 0 <= k < |slots| && slots[k].done.Some? ==> slots[k].done.value in seen
  }

  lemma {:induction false} SettledLeaves<J, T>(dones: seq<Completion<T>>, slots: seq<Slot<J, T>>)
    requires slots != []
    ensures IsSuffix(Settled(dones, slots).0, dones)
  {
    if slots[0].done.None? && dones != [] {
      SettledLeaves(dones[1..], Noted(slots, dones[0]));
      RestIsSuffix(dones);
      SuffixOfSuffix(Settled(dones, slots).0, dones[1..], dones);
    }
  }

  /** A completion noted while settling is one that was read. */
  lemma {:induction false} SettledIsRead<J, T>(dones: seq<Completion<T>>, slots: seq<Slot<J, T>>,
      seen: seq<Completion<T>>)
    requires slots != [] && Filled(slots, seen) && Reading(seen, dones, Settled(dones, slots).0)
    ensures Filled(Settled(dones, slots).1, seen)
  {
    hide Reading;
    if slots[0].done.None? && dones != [] {
      SettledLeaves(dones[1..], Noted(slots, dones[0]));
      ReadFirst(seen, dones, Settled(dones, slots).0);
      SettledIsRead(dones[1..], Noted(slots, dones[0]), seen);
    }
  }

  /** The completion is addressed to the k-th job of the queue. */
  predicate For<T>(done: Completion<T>, k: nat, n: nat)
    requires n > 0
  {
    done.which % n == k
  }

  /** A front job still in flight is waited for: the first completion for it is the last one read. */
  lemma {:induction false} FrontIsAwaited<J, T>(dones: seq<Completion<T>>, slots: seq<Slot<J, T>>, i: nat)
    requires slots != [] && slots[0].done.None? && i < |dones| && For(dones[i], 0, |slots|)
    requires forall j :: 0 <= j < i ==> !For(dones[j], 0, |slots|)
    ensures var (left, settled) := Settled(dones, slots);
      left == dones[i + 1..] && settled[0].done == Some(dones[i])
    decreases i
  {
    if i > 0 {
      var rest := dones[1..];
      assert rest[i - 1] == dones[i] && rest[i..] == dones[i + 1..];
      assert forall j :: 0 <= j < i - 1 ==> rest[j] == dones[j + 1];
      FrontIsAwaited(rest, Noted(slots, dones[0]), i - 1);
    }
  }

  /** Of what is read meanwhile, every other job in flight has the first completion for it. */
  lemma {:induction false} OthersAreNoted<J, T>(dones: seq<Completion<T>>, slots: seq<Slot<J, T>>, k: nat, i: nat)
    requires slots != [] && k < |slots| && slots[k].done.None? && i < |dones| && For(dones[i], k, |slots|)
    requires forall j :: 0 <= j < i ==> !For(dones[j], k, |slots|)
    requires |Settled(dones, slots).0| + i < |dones|
    ensures Settled(dones, slots).1[k].done == Some(dones[i])
    decreases i
  {
    if slots[0].done.None? {
      var rest, noted := dones[1..], Noted(slots, dones[0]);
      if i > 0 {
        assert rest[i - 1] == dones[i];
        assert forall j :: 0 <= j < i - 1 ==> rest[j] == dones[j + 1];
        OthersAreNoted(rest, noted, k, i - 1);
      } else {
        NotedStays(rest, noted, k);
      }
    }
  }

  lemma {:induction false} NotedStays<J, T>(dones: seq<Completion<T>>, slots: seq<Slot<J, T>>, k: nat)
    requires k < |slots| && slots[k].done.Some?
    ensures Settled(dones, slots).1[k].done == slots[k].done
    decreases |dones|
  {
    if slots[0].done.None? && dones != [] {
      NotedStays(dones[1..], Noted(slots, dones[0]), k);
    }
  }

  /** Let tasks complete, in whatever order, until the front one has. */
  method AwaitFront<J, T>(dones: seq<Completion<T>>, slots: seq<Slot<J, T>>)
    returns (left: seq<Completion<T>>, settled: seq<Slot<J, T>>)
    requires slots != []
    ensures (left, settled) == Settled(dones, slots)
  {
    left, settled := dones, slots;
    while settled[0].done.None? && left != []
      invariant settled != [] && Settled(left, settled) == Settled(dones, slots)
      decreases |left|
    {
      var k := left[0].which % |settled|;
      if settled[k].done.None? {
        settled := settled[k := Slot(settled[k].job, Some(left[0]))];
      }
      left := left[1..];
    }
  }
}
