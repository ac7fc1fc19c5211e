/** The finality prober: a bounded queue of delivered refs, confirmed in rounds against what the
    upstream reports finalized, and the stream loop that feeds it and attaches its results. */
module Prober {
  import opened Sequences
  import opened Types
  import opened Source

  const PROBE_BATCH: nat := 5
  const PROBE_QUEUE_CAP: nat := 50

  datatype ProbeMsg = Candidate(block: BlockRef) | Settled(block: BlockRef)

  /** The upstream as one round sees it: its finalized height, and the hash of its block at each
      height, if it has one. Every round may see another. */
  datatype Reply = Reply(finalized: Height, blockAt: Height -> Option<string>)

  // ----- shape ----------------------------------------------------------------------

  predicate Rising(refs: seq<BlockRef>) {
    forall i, j :: 0 <= i < j < |refs| ==> refs[i].number < refs[j].number
  }

  predicate Reaches(confirmed: Option<BlockRef>, r: BlockRef) {
    confirmed.Some? && confirmed.value.number >= r.number
  }

  predicate AllAbove(confirmed: Option<BlockRef>, refs: seq<BlockRef>) {
    forall i :: 0 <= i < |refs| ==> !Reaches(confirmed, refs[i])
  }

  /** The queue ascends, fits its bound, and lies wholly above the confirmed ref. */
  predicate WellKept(queue: seq<BlockRef>, confirmed: Option<BlockRef>) {
    Rising(queue) && |queue| <= PROBE_QUEUE_CAP && AllAbove(confirmed, queue)
  }

  // ----- one round's questions ----------------------------------------------------------

  /** The numbers asked about: those at or below the finalized height. */
  function Eligible(refs: seq<BlockRef>, finalized: Height): (r: seq<Height>)
    ensures |r| <= |refs|
  {
    if refs == [] then []
    else (if refs[0].number <= finalized then [refs[0].number] else []) + Eligible(refs[1..], finalized)
  }

  /** An ascending queue is answered for a prefix, in order. */
  lemma {:induction false} EligibleIsPrefix(refs: seq<BlockRef>, finalized: Height)
    requires Rising(refs)
    ensures forall i :: 0 <= i < |Eligible(refs, finalized)| ==>
      Eligible(refs, finalized)[i] == refs[i].number && refs[i].number <= finalized
    ensures forall i :: |Eligible(refs, finalized)| <= i < |refs| ==> refs[i].number > finalized
  {
    if refs != [] {
      EligibleIsPrefix(refs[1..], finalized);
      var below := Eligible(refs[1..], finalized);
      assert below != [] ==> refs[0].number < refs[1..][0].number <= finalized;
      forall i | |Eligible(refs, finalized)| <= i < |refs|
        ensures refs[i].number > finalized
      {
        if i > 0 {
          assert refs[i] == refs[1..][i - 1];
        }
      }
    }
  }

  /** The answers to a round: one for each number asked about. */
  function GetFinalizedBlockBatch(refs: seq<BlockRef>, reply: Reply): (hashes: seq<Option<string>>)
    ensures |hashes| == |Eligible(refs, reply.finalized)|
    ensures forall i :: 0 <= i < |hashes| ==> hashes[i] == reply.blockAt(Eligible(refs, reply.finalized)[i])
  {
    var numbers := Eligible(refs, reply.finalized);
    seq(|numbers|, i requires 0 <= i < |numbers| => reply.blockAt(numbers[i]))
  }

  // ----- one round's walk ---------------------------------------------------------------

  /** The upstream's answer for the i-th probe is its own hash. */
  predicate Confirms(probes: seq<BlockRef>, hashes: seq<Option<string>>, i: nat)
    requires i < |hashes| <= |probes|
  {
    hashes[i] == Some(probes[i].hash)
  }

  /** The upstream answered another block at the i-th probe's height. */
  predicate Replaced(probes: seq<BlockRef>, hashes: seq<Option<string>>, i: nat)
    requires i < |probes|
  {
    i < |hashes| && hashes[i].Some? && hashes[i].value != probes[i].hash
  }

  /** The probes from `k` on that the upstream does not contradict. */
  function Open(probes: seq<BlockRef>, hashes: seq<Option<string>>, k: nat): (r: seq<BlockRef>)
    requires k <= |probes|
    decreases |probes| - k
  {
    if k == |probes| then []
    else (if Replaced(probes, hashes, k) then [] else [probes[k]]) + Open(probes, hashes, k + 1)
  }

  lemma {:induction false} OpenMembers(probes: seq<BlockRef>, hashes: seq<Option<string>>, k: nat)
    requires k <= |probes| && Rising(probes)
    ensures Rising(Open(probes, hashes, k)) && |Open(probes, hashes, k)| <= |probes| - k
    ensures forall r :: r in Open(probes, hashes, k) <==>
      exists i :: k <= i < |probes| && probes[i] == r && !Replaced(probes, hashes, i)
    decreases |probes| - k
  {
    if k < |probes| {
      OpenMembers(probes, hashes, k + 1);
      var rest := Open(probes, hashes, k + 1);
      forall j | 0 <= j < |rest|
        ensures probes[k].number < rest[j].number
      {
        assert rest[j] in rest;
      }
    }
  }

  lemma {:induction false} OpenBeyondAnswers(probes: seq<BlockRef>, hashes: seq<Option<string>>, k: nat)
    requires |hashes| <= k <= |probes|
    ensures Open(probes, hashes, k) == probes[k..]
    decreases |probes| - k
  {
    if k < |probes| {
      OpenBeyondAnswers(probes, hashes, k + 1);
    }
  }

  /** The result of a walk: the highest probe the upstream confirms, and the uncontradicted ones
      above it; or none confirmed, and all the uncontradicted ones. */
  ghost predicate Walked(probes: seq<BlockRef>, hashes: seq<Option<string>>, hit: Option<nat>, open: seq<BlockRef>)
    requires |hashes| <= |probes|
  {
    match hit
    case None => open == Open(probes, hashes, 0) && forall i :: 0 <= i < |hashes| ==> !Confirms(probes, hashes, i)
    case Some(i) =>
      && i < |hashes| && Confirms(probes, hashes, i) && open == Open(probes, hashes, i + 1)
      && forall j :: i < j < |hashes| ==> !Confirms(probes, hashes, j)
  }

  /** The highest probe below `k` the upstream confirms. */
  function TopConfirmed(probes: seq<BlockRef>, hashes: seq<Option<string>>, k: nat): (hit: Option<nat>)
    requires k <= |hashes| <= |probes|
    ensures hit.Some? ==> hit.value < k && Confirms(probes, hashes, hit.value)
    ensures forall j :: (if hit.Some? then hit.value + 1 else 0) <= j < k ==> !Confirms(probes, hashes, j)
  {
    if k == 0 then None
    else if Confirms(probes, hashes, k - 1) then Some(k - 1)
    else TopConfirmed(probes, hashes, k - 1)
  }

  /** There is only one such result. */
  lemma WalkedIsTop(probes: seq<BlockRef>, hashes: seq<Option<string>>, hit: Option<nat>, open: seq<BlockRef>)
    requires |hashes| <= |probes| && Walked(probes, hashes, hit, open)
    ensures hit == TopConfirmed(probes, hashes, |hashes|)
  {
    var top := TopConfirmed(probes, hashes, |hashes|);
    assert hit.Some? ==> Confirms(probes, hashes, hit.value);
    assert top.Some? ==> Confirms(probes, hashes, top.value);
  }

  lemma OpenUnfolds(probes: seq<BlockRef>, hashes: seq<Option<string>>, k: nat)
    requires k < |probes|
    ensures Open(probes, hashes, k) == (if Replaced(probes, hashes, k) then [] else [probes[k]]) + Open(probes, hashes, k + 1)
  {
  }

  lemma OneLower(probes: seq<BlockRef>, hashes: seq<Option<string>>, kept: seq<BlockRef>, idx: nat)
    requires idx < |hashes| <= |probes| && kept == probes[..idx + 1] + Open(probes, hashes, idx + 1)
    ensures kept[idx] == probes[idx] && kept[idx + 1..] == Open(probes, hashes, idx + 1)
    ensures Replaced(probes, hashes, idx) ==>
      kept[..idx] + kept[idx + 1..] == probes[..idx] + Open(probes, hashes, idx)
    ensures !Replaced(probes, hashes, idx) ==> kept == probes[..idx] + Open(probes, hashes, idx)
  {
    hide Open, Replaced;
    OpenUnfolds(probes, hashes, idx);
    TakeOneMore(probes, idx);
    Associates(probes[..idx], [probes[idx]], Open(probes, hashes, idx + 1));
  }

  /** The walk runs from the top down, and everything below the ref it settles is settled with it. */
  method Walk(probes: seq<BlockRef>, hashes: seq<Option<string>>, confirmed: Option<BlockRef>)
    returns (hit: Option<nat>, open: seq<BlockRef>)
    requires |hashes| <= |probes| && AllAbove(confirmed, probes)
    ensures Walked(probes, hashes, hit, open)
  {
    hide Open;
    hit := None;
    var kept := probes;
    var idx := |hashes| - 1;
    OpenBeyondAnswers(probes, hashes, |hashes|);
    while idx >= 0
      invariant -1 <= idx < |hashes| && hit.None?
      invariant kept == probes[..idx + 1] + Open(probes, hashes, idx + 1)
      invariant forall j :: idx < j < |hashes| ==> !Confirms(probes, hashes, j)
    {
      OneLower(probes, hashes, kept, idx);
      if Reaches(confirmed, kept[idx]) {
        break;
      }
      if hashes[idx].Some? {
        if hashes[idx].value == kept[idx].hash {
          hit := Some(idx);
          break;
        }
        kept := kept[..idx] + kept[idx + 1..];
      }
      idx := idx - 1;
    }
    open := kept[idx + 1..];
  }

  // ----- the books: where every offered ref went ------------------------------------------

  /** Everything the prober was offered and told. `heard` holds what the upstream answered, by
      height asked; `finalized` is the highest finalized height any round worked with. */
  datatype Books = Books(offered: seq<BlockRef>, displaced: set<BlockRef>, heard: set<BlockRef>, finalized: Height)

  ghost predicate FoundReplaced(heard: set<BlockRef>, r: BlockRef) {
    exists other :: other in heard && other.number == r.number && other.hash != r.hash
  }

  /** Nothing leaves the queue but by being settled, found replaced, or displaced; and nothing but
      offered refs is in it. */
  ghost predicate Accounted(queue: seq<BlockRef>, confirmed: Option<BlockRef>, books: Books) {
    && (forall r :: r in queue ==> r in books.offered)
    && forall r :: r in books.offered ==>
         r in queue || Reaches(confirmed, r) || FoundReplaced(books.heard, r) || r in books.displaced
  }

  /** What a reply adds to what was heard. */
  function Answers(probes: seq<BlockRef>, hashes: seq<Option<string>>): (r: set<BlockRef>)
    requires |hashes| <= |probes|
    ensures forall i :: 0 <= i < |hashes| && hashes[i].Some? ==> BlockRef(probes[i].number, hashes[i].value) in r
  {
    set i | 0 <= i < |hashes| && hashes[i].Some? :: BlockRef(probes[i].number, hashes[i].value)
  }

  function Confirmed(confirmed: Option<BlockRef>, probes: seq<BlockRef>, hit: Option<nat>): Option<BlockRef>
    requires hit.Some? ==> hit.value < |probes|
  {
    if hit.Some? then Some(probes[hit.value]) else confirmed
  }

  lemma RisingSplit(refs: seq<BlockRef>, n: nat)
    requires Rising(refs) && n <= |refs|
    ensures Rising(refs[..n]) && Rising(refs[n..])
    ensures forall r, x :: r in refs[..n] && x in refs[n..] ==> r.number < x.number
  {
  }

  /** One round on a well kept queue: its first `n` refs were asked about. */
  ghost predicate Round(queue: seq<BlockRef>, n: nat, confirmed: Option<BlockRef>, hashes: seq<Option<string>>,
      hit: Option<nat>, open: seq<BlockRef>)
  {
    && WellKept(queue, confirmed) && n <= |queue| && |hashes| <= n && Walked(queue[..n], hashes, hit, open)
  }

  function FirstOpen(hit: Option<nat>): nat {
    if hit.Some? then hit.value + 1 else 0
  }

  /** What stays open of a round is part of what lay above the hit, still ascending. */
  lemma OpenOfRound(queue: seq<BlockRef>, n: nat, confirmed: Option<BlockRef>, hashes: seq<Option<string>>,
      hit: Option<nat>, open: seq<BlockRef>)
    requires Round(queue, n, confirmed, hashes, hit, open)
    ensures FirstOpen(hit) <= n && Rising(open) && |open| <= n - FirstOpen(hit)
    ensures forall r :: r in open ==> r in queue[FirstOpen(hit)..n]
  {
    RisingSplit(queue, n);
    OpenMembers(queue[..n], hashes, FirstOpen(hit));
    forall r | r in open
      ensures r in queue[FirstOpen(hit)..n]
    {
      var i :| FirstOpen(hit) <= i < n && queue[..n][i] == r;
      assert queue[FirstOpen(hit)..n][i - FirstOpen(hit)] == r;
    }
  }

  lemma JoinRising(a: seq<BlockRef>, b: seq<BlockRef>, confirmed: Option<BlockRef>)
    requires Rising(a) && Rising(b) && |a| + |b| <= PROBE_QUEUE_CAP
    requires forall r, x :: r in a && x in b ==> r.number < x.number
    requires forall r :: r in a || r in b ==> !Reaches(confirmed, r)
    ensures WellKept(a + b, confirmed)
  {
  }

  lemma RestIsAbove(queue: seq<BlockRef>, n: nat, confirmed: Option<BlockRef>, hit: Option<nat>)
    requires WellKept(queue, confirmed) && n <= |queue| && (hit.Some? ==> hit.value < n)
    ensures forall r :: r in queue[FirstOpen(hit)..n] || r in queue[n..] ==>
      !Reaches(Confirmed(confirmed, queue[..n], hit), r)
    ensures forall r, x :: r in queue[FirstOpen(hit)..n] && x in queue[n..] ==> r.number < x.number
    ensures Rising(queue[n..])
  {
    assert hit.Some? ==> queue[..n][hit.value] == queue[hit.value];
  }

  /** What a round puts back keeps the queue's shape above the ref it confirmed. */
  lemma RoundShape(queue: seq<BlockRef>, n: nat, confirmed: Option<BlockRef>, hashes: seq<Option<string>>,
      hit: Option<nat>, open: seq<BlockRef>)
    requires Round(queue, n, confirmed, hashes, hit, open)
    ensures WellKept(open + queue[n..], Confirmed(confirmed, queue[..n], hit))
  {
    OpenOfRound(queue, n, confirmed, hashes, hit, open);
    RestIsAbove(queue, n, confirmed, hit);
    JoinRising(open, queue[n..], Confirmed(confirmed, queue[..n], hit));
  }

  /** A probe that a round takes off the queue was settled by it, or found replaced. */
  lemma ProbeAccounted(queue: seq<BlockRef>, n: nat, confirmed: Option<BlockRef>, hashes: seq<Option<string>>,
      hit: Option<nat>, open: seq<BlockRef>, i: nat)
    requires Round(queue, n, confirmed, hashes, hit, open) && i < n
    ensures queue[i] in open || Reaches(Confirmed(confirmed, queue[..n], hit), queue[i])
      || FoundReplaced(Answers(queue[..n], hashes), queue[i])
  {
    var probes := queue[..n];
    assert probes[i] == queue[i];
    if i < FirstOpen(hit) {
      assert i <= hit.value && probes[hit.value] == queue[hit.value];
    } else {
      OpenMembers(probes, hashes, FirstOpen(hit));
      if Replaced(probes, hashes, i) {
        assert BlockRef(probes[i].number, hashes[i].value) in Answers(probes, hashes);
      }
    }
  }

  lemma RoundBooks(queue: seq<BlockRef>, n: nat, confirmed: Option<BlockRef>, books: Books,
      hashes: seq<Option<string>>, hit: Option<nat>, open: seq<BlockRef>)
    requires Round(queue, n, confirmed, hashes, hit, open) && Accounted(queue, confirmed, books)
    ensures var told := books.(heard := books.heard + Answers(queue[..n], hashes));
      Accounted(open + queue[n..], Confirmed(confirmed, queue[..n], hit), told)
  {
    var now := Confirmed(confirmed, queue[..n], hit);
    var told := books.(heard := books.heard + Answers(queue[..n], hashes));
    OpenOfRound(queue, n, confirmed, hashes, hit, open);
    assert hit.Some? ==> now.value in queue;
    forall r | r in books.offered
      ensures r in open + queue[n..] || Reaches(now, r) || FoundReplaced(told.heard, r) || r in told.displaced
    {
      AccountsAfter(queue, n, confirmed, books, hashes, hit, open, r);
    }
  }

  lemma AccountsAfter(queue: seq<BlockRef>, n: nat, confirmed: Option<BlockRef>, books: Books,
      hashes: seq<Option<string>>, hit: Option<nat>, open: seq<BlockRef>, r: BlockRef)
    requires Round(queue, n, confirmed, hashes, hit, open) && Accounted(queue, confirmed, books)
    requires r in books.offered
    ensures r in open + queue[n..] || Reaches(Confirmed(confirmed, queue[..n], hit), r)
      || FoundReplaced(books.heard + Answers(queue[..n], hashes), r) || r in books.displaced
  {
    if r in queue[..n] {
      var i :| 0 <= i < n && queue[i] == r;
      ProbeAccounted(queue, n, confirmed, hashes, hit, open, i);
    } else if r in queue {
      assert queue == queue[..n] + queue[n..];
    } else {
      assert hit.Some? ==> queue[..n][hit.value] == queue[hit.value] && !Reaches(confirmed, queue[hit.value]);
    }
  }

  /** A round confirms only an offered ref above the one confirmed before, whose hash is what the
      upstream answered at its height. */
  lemma HitIsVouched(queue: seq<BlockRef>, n: nat, confirmed: Option<BlockRef>, books: Books,
      hashes: seq<Option<string>>, hit: Option<nat>, open: seq<BlockRef>)
    requires Round(queue, n, confirmed, hashes, hit, open) && Accounted(queue, confirmed, books) && hit.Some?
    ensures queue[hit.value] in Answers(queue[..n], hashes) && queue[hit.value] in books.offered
    ensures !Reaches(confirmed, queue[hit.value])
  {
    var probes, i := queue[..n], hit.value;
    assert probes[i] == queue[i] && queue[i] in queue;
    assert BlockRef(probes[i].number, hashes[i].value) in Answers(probes, hashes);
  }

  // ----- absorbing messages -----------------------------------------------------------------

  function DropSettled(queue: seq<BlockRef>, number: nat): seq<BlockRef> {
    if queue != [] && queue[0].number <= number then DropSettled(queue[1..], number) else queue
  }

  lemma {:induction false} DropsExactlySettled(queue: seq<BlockRef>, number: nat)
    requires Rising(queue)
    ensures Rising(DropSettled(queue, number)) && |DropSettled(queue, number)| <= |queue|
    ensures forall r :: r in DropSettled(queue, number) <==> r in queue && r.number > number
  {
    if queue != [] && queue[0].number <= number {
      DropsExactlySettled(queue[1..], number);
      assert forall r :: r in queue <==> r == queue[0] || r in queue[1..];
    }
  }

  function Later(confirmed: Option<BlockRef>, r: BlockRef): Option<BlockRef> {
    if confirmed.None? || r.number > confirmed.value.number then Some(r) else confirmed
  }

  lemma SettleKeeps(queue: seq<BlockRef>, confirmed: Option<BlockRef>, books: Books, settled: BlockRef)
    requires WellKept(queue, confirmed) && Accounted(queue, confirmed, books)
    ensures WellKept(DropSettled(queue, settled.number), Later(confirmed, settled))
    ensures Accounted(DropSettled(queue, settled.number), Later(confirmed, settled), books)
  {
    DropsExactlySettled(queue, settled.number);
    var left := DropSettled(queue, settled.number);
    forall i | 0 <= i < |left|
      ensures !Reaches(Later(confirmed, settled), left[i])
    {
      assert left[i] in left;
    }
  }

  /** A new candidate goes to the back, in place of the newest when the queue is full. */
  function Enqueued(queue: seq<BlockRef>, candidate: BlockRef): seq<BlockRef> {
    (if |queue| >= PROBE_QUEUE_CAP then queue[..|queue| - 1] else queue) + [candidate]
  }

  function Displacing(books: Books, queue: seq<BlockRef>, candidate: BlockRef): Books {
    books.(offered := books.offered + [candidate],
           displaced := books.displaced
             + if |queue| >= PROBE_QUEUE_CAP then {queue[|queue| - 1]} else {})
  }

  /** What stays of the queue, and the one ref a full queue gives up. */
  lemma EnqueuedMembers(queue: seq<BlockRef>, candidate: BlockRef)
    requires Rising(queue) && |queue| <= PROBE_QUEUE_CAP
    ensures |Enqueued(queue, candidate)| <= PROBE_QUEUE_CAP
    ensures forall r :: r in Enqueued(queue, candidate) ==> r in queue || r == candidate
    ensures forall r :: r in queue ==>
      r in Enqueued(queue, candidate) || (|queue| >= PROBE_QUEUE_CAP && r == queue[|queue| - 1])
    ensures candidate in Enqueued(queue, candidate)
  {
    if |queue| >= PROBE_QUEUE_CAP {
      FrontAndLast(queue);
    }
  }

  lemma EnqueuedRises(queue: seq<BlockRef>, confirmed: Option<BlockRef>, candidate: BlockRef)
    requires WellKept(queue, confirmed) && !Reaches(confirmed, candidate)
    requires forall r :: r in queue ==> r.number < candidate.number
    ensures WellKept(Enqueued(queue, candidate), confirmed)
  {
    var stay := if |queue| >= PROBE_QUEUE_CAP then queue[..|queue| - 1] else queue;
    forall i | 0 <= i < |stay|
      ensures stay[i].number < candidate.number
    {
      assert stay[i] == queue[i] && queue[i] in queue;
    }
  }

  lemma EnqueueKeeps(queue: seq<BlockRef>, confirmed: Option<BlockRef>, books: Books, candidate: BlockRef)
    requires WellKept(queue, confirmed) && Accounted(queue, confirmed, books) && !Reaches(confirmed, candidate)
    requires forall r :: r in books.offered ==> r.number < candidate.number
    ensures WellKept(Enqueued(queue, candidate), confirmed)
    ensures Accounted(Enqueued(queue, candidate), confirmed, Displacing(books, queue, candidate))
  {
    EnqueuedRises(queue, confirmed, candidate);
    EnqueuedMembers(queue, candidate);
  }

  /** How many refs a round takes: as many as fit a batch. */
  function Asked(queue: seq<BlockRef>): (n: nat)
    ensures n <= |queue| && n <= PROBE_BATCH && (n == |queue| || n == PROBE_BATCH)
  {
    if |queue| < PROBE_BATCH then |queue| else PROBE_BATCH
  }

  /** The prober's invariant: the queue is well kept, the books account for every ref offered, and
      whatever was heard was finalized. */
  ghost predicate Keeping(queue: seq<BlockRef>, confirmed: Option<BlockRef>, books: Books) {
    && WellKept(queue, confirmed) && Accounted(queue, confirmed, books)
    && forall h :: h in books.heard ==> h.number <= books.finalized
  }

  /** What the books say after a round. */
  function Told(books: Books, queue: seq<BlockRef>, reply: Reply): Books {
    var probes := queue[..Asked(queue)];
    books.(heard := books.heard + Answers(probes, GetFinalizedBlockBatch(probes, reply)),
           finalized := Max(books.finalized, reply.finalized))
  }

  /** A ref is vouched for: it was offered, and it is what the upstream answered at its height. */
  ghost predicate Vouched(books: Books, r: BlockRef) {
    r in books.offered && r in books.heard
  }

  lemma RoundKeeps(queue: seq<BlockRef>, n: nat, confirmed: Option<BlockRef>, books: Books,
      hashes: seq<Option<string>>, hit: Option<nat>, open: seq<BlockRef>, reply: Reply)
    requires Keeping(queue, confirmed, books) && Round(queue, n, confirmed, hashes, hit, open)
    requires n == Asked(queue) && hashes == GetFinalizedBlockBatch(queue[..n], reply)
    ensures Keeping(open + queue[n..], Confirmed(confirmed, queue, hit), Told(books, queue, reply))
    ensures hit.Some? ==> !Reaches(confirmed, queue[hit.value]) && Vouched(Told(books, queue, reply), queue[hit.value])
  {
    RoundShape(queue, n, confirmed, hashes, hit, open);
    RoundBooks(queue, n, confirmed, books, hashes, hit, open);
    if hit.Some? {
      HitIsVouched(queue, n, confirmed, books, hashes, hit, open);
    }
    EligibleIsPrefix(queue[..n], reply.finalized);
  }

  // ----- one step of the prober, as a function ----------------------------------------------

  /** What the prober's loop meets next: a message, or the reply to a round. */
  datatype Event = Heard(msg: ProbeMsg) | Replied(reply: Option<Reply>)

  datatype State = State(queue: seq<BlockRef>, confirmed: Option<BlockRef>, books: Books)

  const INITIAL := State([], None, Books([], {}, {}, 0))

  /** The probe of a round that is settled by its reply. */
  function HitOf(queue: seq<BlockRef>, reply: Reply): (hit: Option<nat>)
    ensures hit.Some? ==> hit.value < Asked(queue)
  {
    var probes := queue[..Asked(queue)];
    var hashes := GetFinalizedBlockBatch(probes, reply);
    TopConfirmed(probes, hashes, |hashes|)
  }

  function QueueAfter(queue: seq<BlockRef>, reply: Reply): seq<BlockRef> {
    var probes := queue[..Asked(queue)];
    Open(probes, GetFinalizedBlockBatch(probes, reply), FirstOpen(HitOf(queue, reply))) + queue[Asked(queue)..]
  }

  /** The upstream gives this very block at its height, which it reports finalized. */
  predicate ConfirmedBy(reply: Reply, r: BlockRef) {
    r.number <= reply.finalized && reply.blockAt(r.number) == Some(r.hash)
  }

  /** It gives another there. */
  predicate ReplacedBy(reply: Reply, r: BlockRef) {
    r.number <= reply.finalized && reply.blockAt(r.number).Some? && reply.blockAt(r.number).value != r.hash
  }

  lemma AnswersAre(refs: seq<BlockRef>, reply: Reply, i: nat)
    requires Rising(refs) && i < |refs|
    ensures var hashes := GetFinalizedBlockBatch(refs, reply);
      && |hashes| <= |refs|
      && (i < |hashes| && Confirms(refs, hashes, i) <==> ConfirmedBy(reply, refs[i]))
      && (Replaced(refs, hashes, i) <==> ReplacedBy(reply, refs[i]))
  {
    EligibleIsPrefix(refs, reply.finalized);
  }

  /** A round settles a ref exactly when the upstream confirms one of those it asks about, and then
      the highest; it leaves those it did not ask about, and of those above the one settled all that
      the upstream does not replace. */
  lemma RoundSettlesHighest(queue: seq<BlockRef>, reply: Reply, r: BlockRef)
    requires Rising(queue)
    ensures var n, hit := Asked(queue), HitOf(queue, reply);
      && (hit.Some? <==> exists i :: 0 <= i < n && ConfirmedBy(reply, queue[i]))
      && (hit.Some? ==>
            && ConfirmedBy(reply, queue[hit.value])
            && forall i :: hit.value < i < n ==> !ConfirmedBy(reply, queue[i]))
    ensures var n, open := Asked(queue), FirstOpen(HitOf(queue, reply));
      r in QueueAfter(queue, reply) <==>
        r in queue[n..] || exists i :: open <= i < n && queue[i] == r && !ReplacedBy(reply, r)
  {
    hide Confirms, Replaced, ConfirmedBy, ReplacedBy, GetFinalizedBlockBatch;
    var n := Asked(queue);
    var probes := queue[..n];
    var hashes := GetFinalizedBlockBatch(probes, reply);
    RisingSplit(queue, n);
    forall i | 0 <= i < n
      ensures i < |hashes| && Confirms(probes, hashes, i) <==> ConfirmedBy(reply, queue[i])
      ensures Replaced(probes, hashes, i) <==> ReplacedBy(reply, queue[i])
    {
      AnswersAre(probes, reply, i);
    }
    OpenMembers(probes, hashes, FirstOpen(HitOf(queue, reply)));
  }

  function AfterRound(s: State, reply: Reply): State {
    State(QueueAfter(s.queue, reply), Confirmed(s.confirmed, s.queue, HitOf(s.queue, reply)),
          Told(s.books, s.queue, reply))
  }

  function AfterMessage(s: State, msg: ProbeMsg): State {
    match msg
    case Settled(r) => s.(queue := DropSettled(s.queue, r.number), confirmed := Later(s.confirmed, r))
    case Candidate(r) =>
      if Reaches(s.confirmed, r) then s.(books := s.books.(offered := s.books.offered + [r]))
      else s.(queue := Enqueued(s.queue, r), books := Displacing(s.books, s.queue, r))
  }

  /** A round is made only when there is something to probe, and a failed one changes nothing. */
  predicate IsRound(s: State, event: Event) {
    event.Replied? && event.reply.Some? && s.queue != []
  }

  function After(s: State, event: Event): State {
    if event.Heard? then AfterMessage(s, event.msg)
    else if IsRound(s, event) then AfterRound(s, event.reply.value)
    else s
  }

  /** The ref a step sends, if any. */
  function SentBy(s: State, event: Event): seq<BlockRef> {
    if IsRound(s, event) && HitOf(s.queue, event.reply.value).Some?
    then [s.queue[HitOf(s.queue, event.reply.value).value]] else []
  }

  ghost predicate KeepingState(s: State) {
    Keeping(s.queue, s.confirmed, s.books)
  }

  lemma RoundOnState(s: State, reply: Reply)
    requires KeepingState(s)
    ensures KeepingState(AfterRound(s, reply))
    ensures var hit := HitOf(s.queue, reply);
      hit.Some? ==> !Reaches(s.confirmed, s.queue[hit.value]) && Vouched(AfterRound(s, reply).books, s.queue[hit.value])
  {
    var n := Asked(s.queue);
    var hashes := GetFinalizedBlockBatch(s.queue[..n], reply);
    var hit := HitOf(s.queue, reply);
    var open := Open(s.queue[..n], hashes, FirstOpen(hit));
    assert Round(s.queue, n, s.confirmed, hashes, hit, open);
    RoundKeeps(s.queue, n, s.confirmed, s.books, hashes, hit, open, reply);
  }

  lemma MessageOnState(s: State, msg: ProbeMsg)
    requires KeepingState(s)
    requires msg.Candidate? ==> forall r :: r in s.books.offered ==> r.number < msg.block.number
    ensures KeepingState(AfterMessage(s, msg))
  {
    match msg {
      case Settled(r) => SettleKeeps(s.queue, s.confirmed, s.books, r);
      case Candidate(r) =>
        if !Reaches(s.confirmed, r) {
          EnqueueKeeps(s.queue, s.confirmed, s.books, r);
        }
    }
  }

  // ----- the prober --------------------------------------------------------------------------

  class FinalityProber {
    var queue: seq<BlockRef>
    var confirmed: Option<BlockRef>
    ghost var books: Books

    ghost function Now(): State
      reads this
    {
      State(queue, confirmed, books)
    }

    ghost predicate Valid()
      reads this
    {
      KeepingState(Now())
    }

    constructor ()
      ensures Valid() && Now() == INITIAL
    {
      queue, confirmed, books := [], None, Books([], {}, {}, 0);
    }

    /** `AfterMessage`, in place. */
    method Absorb(msg: ProbeMsg)
      requires Valid()
      requires msg.Candidate? ==> forall r :: r in books.offered ==> r.number < msg.block.number
      modifies this
      ensures Valid() && Now() == AfterMessage(old(Now()), msg)
    {
      hide KeepingState;
      MessageOnState(Now(), msg);
      match msg {
        case Candidate(candidate) =>
          if Reaches(confirmed, candidate) {
            books := books.(offered := books.offered + [candidate]);
            return;
          }
          books := Displacing(books, queue, candidate);
          if |queue| >= PROBE_QUEUE_CAP {
            queue := queue[..|queue| - 1] + [candidate];
          } else {
            queue := queue + [candidate];
          }
        case Settled(settled) =>
          while queue != [] && queue[0].number <= settled.number
            invariant DropSettled(queue, settled.number) == DropSettled(old(queue), settled.number)
            invariant confirmed == old(confirmed) && books == old(books)
          {
            queue := queue[1..];
          }
          confirmed := Later(confirmed, settled);
      }
    }

    /** One step of a round, in place: what it sends is what it confirms. */
    method ProbeRound(reply: Option<Reply>) returns (sent: Option<BlockRef>)
      requires Valid() && queue != []
      modifies this
      ensures Valid() && Now() == After(old(Now()), Replied(reply))
      ensures (if sent.Some? then [sent.value] else []) == SentBy(old(Now()), Replied(reply))
      ensures sent.Some? ==> confirmed == sent && !Reaches(old(confirmed), sent.value) && Vouched(books, sent.value)
    {
      hide QueueAfter, HitOf;
      sent := None;
      if reply.Some? {
        RoundOnState(Now(), reply.value);
        var left, hit := Probe(queue, confirmed, reply.value);
        if hit.Some? {
          sent := Some(queue[hit.value]);
          confirmed := sent;
        }
        books, queue := Told(books, queue, reply.value), left;
      }
    }
  }

  /** One round on values: what the walk finds is what the reply determines. */
  method Probe(queue: seq<BlockRef>, confirmed: Option<BlockRef>, reply: Reply)
    returns (left: seq<BlockRef>, hit: Option<nat>)
    requires WellKept(queue, confirmed)
    ensures left == QueueAfter(queue, reply) && hit == HitOf(queue, reply)
  {
    hide Open, TopConfirmed, Rising, Confirms, GetFinalizedBlockBatch;
    var n := Asked(queue);
    RisingSplit(queue, n);
    var hashes := GetFinalizedBlockBatch(queue[..n], reply);
    var open;
    hit, open := Walk(queue[..n], hashes, confirmed);
    WalkedIsTop(queue[..n], hashes, hit, open);
    left := open + queue[n..];
  }

  // ----- runs -------------------------------------------------------------------------------

  function Offered(event: Event): seq<BlockRef> {
    if event.Heard? && event.msg.Candidate? then [event.msg.block] else []
  }

  /** The refs offered as candidates, in order. */
  function Candidates(events: seq<Event>): seq<BlockRef> {
    if events == [] then [] else Candidates(events[..|events| - 1]) + Offered(events[|events| - 1])
  }

  lemma {:induction false} CandidatesOfFront(events: seq<Event>, n: nat)
    requires n <= |events|
    ensures Candidates(events[..n]) <= Candidates(events)
  {
    if n < |events| {
      var front := events[..|events| - 1];
      assert front[..n] == events[..n];
      CandidatesOfFront(front, n);
    } else {
      assert events[..n] == events;
    }
  }

  lemma LastIsNewest(refs: seq<BlockRef>, x: BlockRef, all: seq<BlockRef>)
    requires Rising(all) && refs + [x] <= all
    ensures forall r :: r in refs ==> r.number < x.number
  {
    assert (refs + [x])[|refs|] == all[|refs|];
    forall i | 0 <= i < |refs|
      ensures refs[i].number < x.number
    {
      assert (refs + [x])[i] == all[i];
    }
  }

  lemma CandidatesOneMore(events: seq<Event>, k: nat)
    requires k < |events|
    ensures Candidates(events[..k + 1]) == Candidates(events[..k]) + Offered(events[k])
  {
    TakeOneMore(events, k);
  }

  lemma CandidatesAreNewest(events: seq<Event>, n: nat)
    requires n < |events| && Rising(Candidates(events))
    ensures forall r, x :: r in Candidates(events[..n]) && x in Offered(events[n]) ==> r.number < x.number
  {
    CandidatesOfFront(events, n + 1);
    CandidatesOneMore(events, n);
    if Offered(events[n]) != [] {
      LastIsNewest(Candidates(events[..n]), events[n].msg.block, Candidates(events));
    }
  }

  /** The refs sent ascend strictly, up to the confirmed one. */
  ghost predicate SentInOrder(sent: seq<BlockRef>, confirmed: Option<BlockRef>) {
    Rising(sent) && forall r :: r in sent ==> Reaches(confirmed, r)
  }

  lemma SendOne(sent: seq<BlockRef>, confirmed: Option<BlockRef>, r: BlockRef)
    requires SentInOrder(sent, confirmed) && !Reaches(confirmed, r)
    ensures SentInOrder(sent + [r], Some(r))
  {
    assert forall i :: 0 <= i < |sent| ==> sent[i] in sent;
  }

  /** The prober after a run of events, and the refs it sent on the way. */
  function StateAfter(events: seq<Event>): State {
    if events == [] then INITIAL else After(StateAfter(events[..|events| - 1]), events[|events| - 1])
  }

  function Sent(events: seq<Event>): seq<BlockRef> {
    if events == [] then []
    else (Sent(events[..|events| - 1]) + SentBy(StateAfter(events[..|events| - 1]), events[|events| - 1]))
  }

  lemma OneMoreEvent(events: seq<Event>, k: nat)
    requires k < |events|
    ensures StateAfter(events[..k + 1]) == After(StateAfter(events[..k]), events[k])
    ensures Sent(events[..k + 1]) == Sent(events[..k]) + SentBy(StateAfter(events[..k]), events[k])
    ensures Candidates(events[..k + 1]) == Candidates(events[..k]) + Offered(events[k])
  {
    TakeOneMore(events, k);
  }

  /** The upstream answered a round with `r`: its block at that height, no higher than what it then
      reported finalized. */
  ghost predicate AnsweredAt(events: seq<Event>, k: nat, r: BlockRef)
    requires k < |events|
  {
    && events[k].Replied? && events[k].reply.Some?
    && r.number <= events[k].reply.value.finalized
    && events[k].reply.value.blockAt(r.number) == Some(r.hash)
  }

  ghost predicate WasAnswered(events: seq<Event>, r: BlockRef) {
    exists k :: 0 <= k < |events| && AnsweredAt(events, k, r)
  }

  /** `r` was the newest ref of a full queue when a newer candidate arrived and took its place. */
  ghost predicate DisplacedAt(events: seq<Event>, k: nat, r: BlockRef)
    requires k < |events|
  {
    var before := StateAfter(events[..k]);
    && events[k].Heard? && events[k].msg.Candidate? && !Reaches(before.confirmed, events[k].msg.block)
    && |before.queue| >= PROBE_QUEUE_CAP && r == before.queue[|before.queue| - 1]
  }

  ghost predicate WasDisplaced(events: seq<Event>, r: BlockRef) {
    exists k :: 0 <= k < |events| && DisplacedAt(events, k, r)
  }

  /** The ref confirmed is one the prober sent, or one a batch settled. */
  ghost predicate WasSettled(events: seq<Event>, r: BlockRef) {
    r in Sent(events) || exists k :: 0 <= k < |events| && events[k] == Heard(Settled(r))
  }

  /** What the books say of a run happened in it. */
  ghost predicate BooksAreTrue(events: seq<Event>, s: State) {
    && s.books.offered == Candidates(events)
    && (forall h :: h in s.books.heard ==> WasAnswered(events, h))
    && (forall r :: r in s.books.displaced ==> WasDisplaced(events, r))
    && (s.confirmed.Some? ==> WasSettled(events, s.confirmed.value))
  }

  ghost predicate SentAreVouched(sent: seq<BlockRef>, s: State) {
    SentInOrder(sent, s.confirmed) && forall r :: r in sent ==> Vouched(s.books, r)
  }

  /** Every step keeps the invariant, and sends at most one ref, above all those sent before. */
  lemma StepKeeps(s: State, event: Event, sent: seq<BlockRef>)
    requires KeepingState(s) && SentAreVouched(sent, s)
    requires forall r, x :: r in s.books.offered && x in Offered(event) ==> r.number < x.number
    ensures KeepingState(After(s, event)) && SentAreVouched(sent + SentBy(s, event), After(s, event))
  {
    hide KeepingState, HitOf, QueueAfter, Enqueued, DropSettled;
    if event.Heard? {
      assert event.msg.Candidate? ==> event.msg.block in Offered(event);
      MessageOnState(s, event.msg);
      assert sent + [] == sent;
    } else if IsRound(s, event) {
      RoundOnState(s, event.reply.value);
      var hit := HitOf(s.queue, event.reply.value);
      if hit.Some? {
        SendOne(sent, s.confirmed, s.queue[hit.value]);
      } else {
        assert sent + [] == sent;
      }
    } else {
      assert sent + [] == sent;
    }
  }

  /** What a round adds to the books is what its reply said. */
  lemma ToldIsAnswered(s: State, reply: Reply, h: BlockRef)
    requires Rising(s.queue) && h in Told(s.books, s.queue, reply).heard && h !in s.books.heard
    ensures h.number <= reply.finalized && reply.blockAt(h.number) == Some(h.hash)
  {
    RisingSplit(s.queue, Asked(s.queue));
    EligibleIsPrefix(s.queue[..Asked(s.queue)], reply.finalized);
  }

  lemma AnswerStays(events: seq<Event>, k: nat, r: BlockRef)
    requires k < |events| && WasAnswered(events[..k], r)
    ensures WasAnswered(events[..k + 1], r)
  {
    var j :| 0 <= j < k && AnsweredAt(events[..k], j, r);
    assert AnsweredAt(events[..k + 1], j, r);
  }

  lemma DisplacementStays(events: seq<Event>, k: nat, r: BlockRef)
    requires k < |events| && WasDisplaced(events[..k], r)
    ensures WasDisplaced(events[..k + 1], r)
  {
    var j :| 0 <= j < k && DisplacedAt(events[..k], j, r);
    assert events[..k][..j] == events[..k + 1][..j];
    assert DisplacedAt(events[..k + 1], j, r);
  }

  lemma SettlementStays(events: seq<Event>, k: nat, r: BlockRef)
    requires k < |events| && WasSettled(events[..k], r)
    ensures WasSettled(events[..k + 1], r)
  {
    OneMoreEvent(events, k);
    if r !in Sent(events[..k]) {
      var j :| 0 <= j < k && events[..k][j] == Heard(Settled(r));
      assert events[..k + 1][j] == Heard(Settled(r));
    }
  }

  lemma HeardNow(events: seq<Event>, k: nat, h: BlockRef)
    requires k < |events| && Rising(StateAfter(events[..k]).queue)
    requires h in StateAfter(events[..k + 1]).books.heard && h !in StateAfter(events[..k]).books.heard
    ensures WasAnswered(events[..k + 1], h)
  {
    OneMoreEvent(events, k);
    ToldIsAnswered(StateAfter(events[..k]), events[k].reply.value, h);
    assert AnsweredAt(events[..k + 1], k, h);
  }

  lemma DisplacedNow(events: seq<Event>, k: nat, r: BlockRef)
    requires k < |events|
    requires r in StateAfter(events[..k + 1]).books.displaced && r !in StateAfter(events[..k]).books.displaced
    ensures WasDisplaced(events[..k + 1], r)
  {
    OneMoreEvent(events, k);
    TakeOneMore(events, k);
    assert DisplacedAt(events[..k + 1], k, r);
  }

  lemma SettledNow(events: seq<Event>, k: nat)
    requires k < |events|
    requires var now := StateAfter(events[..k + 1]).confirmed;
      now.Some? && now != StateAfter(events[..k]).confirmed
    ensures WasSettled(events[..k + 1], StateAfter(events[..k + 1]).confirmed.value)
  {
    OneMoreEvent(events, k);
    var now := StateAfter(events[..k + 1]).confirmed.value;
    if events[k].Heard? {
      assert events[..k + 1][k] == Heard(Settled(now));
    } else {
      assert SentBy(StateAfter(events[..k]), events[k]) == [now];
    }
  }

  lemma OfferedNow(events: seq<Event>, k: nat)
    requires k < |events| && StateAfter(events[..k]).books.offered == Candidates(events[..k])
    ensures StateAfter(events[..k + 1]).books.offered == Candidates(events[..k + 1])
  {
    OneMoreEvent(events, k);
  }

  /** Over every run the invariant holds, the refs sent ascend and are vouched for, and the books
      are true of the events. */
  lemma {:induction false} RunKeeps(events: seq<Event>, k: nat)
    requires Rising(Candidates(events)) && k <= |events|
    ensures KeepingState(StateAfter(events[..k])) && SentAreVouched(Sent(events[..k]), StateAfter(events[..k]))
    ensures BooksAreTrue(events[..k], StateAfter(events[..k]))
    decreases k
  {
    hide After, SentBy, WasAnswered, WasDisplaced, WasSettled, Accounted, SentAreVouched;
    if k == 0 {
      NothingRun();
      assert events[..0] == [];
    } else {
      var s := StateAfter(events[..k - 1]);
      RunKeeps(events, k - 1);
      CandidatesAreNewest(events, k - 1);
      OneMoreEvent(events, k - 1);
      StepKeeps(s, events[k - 1], Sent(events[..k - 1]));
      BooksStayTrue(events, k - 1);
    }
  }

  lemma NothingRun()
    ensures KeepingState(StateAfter([])) && SentAreVouched(Sent([]), StateAfter([])) && BooksAreTrue([], StateAfter([]))
  {
  }

  lemma BooksStayTrue(events: seq<Event>, k: nat)
    requires k < |events| && BooksAreTrue(events[..k], StateAfter(events[..k]))
    requires Rising(StateAfter(events[..k]).queue)
    ensures BooksAreTrue(events[..k + 1], StateAfter(events[..k + 1]))
  {
    hide After, SentBy, WasAnswered, WasDisplaced, WasSettled, StateAfter, Candidates;
    var s, now := StateAfter(events[..k]), StateAfter(events[..k + 1]);
    OfferedNow(events, k);
    forall h | h in now.books.heard
      ensures WasAnswered(events[..k + 1], h)
    {
      if h in s.books.heard {
        AnswerStays(events, k, h);
      } else {
        HeardNow(events, k, h);
      }
    }
    forall r | r in now.books.displaced
      ensures WasDisplaced(events[..k + 1], r)
    {
      if r in s.books.displaced {
        DisplacementStays(events, k, r);
      } else {
        DisplacedNow(events, k, r);
      }
    }
    if now.confirmed.Some? {
      if now.confirmed == s.confirmed {
        SettlementStays(events, k, now.confirmed.value);
      } else {
        SettledNow(events, k);
      }
    }
  }

  /** Where a candidate of the run stands: waiting, at or below a ref that was settled, replaced by
      another block the upstream answered at its height, or displaced at a full queue. */
  ghost predicate StandsAccounted(events: seq<Event>, r: BlockRef) {
    var s := StateAfter(events);
    || r in s.queue
    || (Reaches(s.confirmed, r) && WasSettled(events, s.confirmed.value))
    || (exists other :: WasAnswered(events, other) && other.number == r.number && other.hash != r.hash)
    || WasDisplaced(events, r)
  }

  /** Whatever the interleaving of messages and replies, and whatever each reply said: the refs sent
      ascend strictly; each was a candidate, and at some round was what the upstream answered at its
      height, no higher than the finalized height it then reported; and every candidate not sent is
      accounted for by the events. */
  lemma ProberIsHonest(events: seq<Event>)
    requires Rising(Candidates(events))
    ensures WellKept(StateAfter(events).queue, StateAfter(events).confirmed)
    ensures SentInOrder(Sent(events), StateAfter(events).confirmed)
    ensures forall r :: r in Sent(events) ==> r in Candidates(events) && WasAnswered(events, r)
    ensures forall r :: r in Candidates(events) ==> StandsAccounted(events, r)
  {
    hide WasAnswered, WasDisplaced, WasSettled, StateAfter, Candidates, Sent, WellKept;
    RunKeeps(events, |events|);
    TakeAll(events);
    var s := StateAfter(events);
    forall r | r in Candidates(events)
      ensures StandsAccounted(events, r)
    {
      if FoundReplaced(s.books.heard, r) {
        var other :| other in s.books.heard && other.number == r.number && other.hash != r.hash;
        assert WasAnswered(events, other);
      }
    }
  }

  /** One turn of the loop. */
  method Turn(p: FinalityProber, event: Event, sent: seq<BlockRef>) returns (after: seq<BlockRef>)
    requires p.Valid()
    requires forall r, x :: r in p.books.offered && x in Offered(event) ==> r.number < x.number
    modifies p
    ensures p.Valid() && p.Now() == After(old(p.Now()), event) && after == sent + SentBy(old(p.Now()), event)
  {
    hide KeepingState, HitOf, QueueAfter, Enqueued, DropSettled;
    after := sent;
    match event {
      case Heard(msg) =>
        assert msg.Candidate? ==> msg.block in Offered(event);
        p.Absorb(msg);
      case Replied(reply) =>
        if p.queue != [] {
          var one := p.ProbeRound(reply);
          if one.Some? {
            after := sent + [one.value];
          }
        }
    }
  }

  /** The prober's loop over a run of events: it ends in the state, and sends the refs, that the
      events determine. */
  method RunProber(events: seq<Event>) returns (p: FinalityProber, sent: seq<BlockRef>)
    requires Rising(Candidates(events))
    ensures p.Valid() && p.Now() == StateAfter(events) && sent == Sent(events)
    ensures SentInOrder(sent, p.confirmed)
    ensures forall r :: r in sent ==> r in Candidates(events) && WasAnswered(events, r)
    ensures forall r :: r in Candidates(events) ==> StandsAccounted(events, r)
  {
    hide WasAnswered, After, SentBy, StandsAccounted;
    p := new FinalityProber();
    sent := [];
    for k := 0 to |events|
      invariant fresh(p) && p.Valid() && p.Now() == StateAfter(events[..k]) && sent == Sent(events[..k])
    {
      RunKeeps(events, k);
      OneMoreEvent(events, k);
      CandidatesAreNewest(events, k);
      sent := Turn(p, events[k], sent);
    }
    TakeAll(events);
    ProberIsHonest(events);
  }

  // ----- the stream loop that feeds it -----------------------------------------------------

  /** What the stream loop meets next: an item of the gated stream, or a ref from the prober. */
  datatype Arrival = Passing(item: StreamItem) | Probed(block: BlockRef)

  /** A batch finalized as a whole settles its own last block. */
  predicate SettlesItself(item: StreamItem) {
    item.Arrived? && item.batch.finalized.Some? && item.batch.blocks != []
  }

  function SettledBy(a: Arrival): Option<BlockRef> {
    match a
    case Probed(r) => Some(r)
    case Passing(item) =>
      if SettlesItself(item) then Some(item.batch.blocks[|item.batch.blocks| - 1].Ref()) else None
  }

  function RefsOf(blocks: seq<Block>): (r: seq<BlockRef>)
    ensures |r| == |blocks| && forall i :: 0 <= i < |r| ==> r[i] == blocks[i].Ref()
  {
    seq(|blocks|, i requires 0 <= i < |blocks| => blocks[i].Ref())
  }

  function OfferedBy(item: StreamItem): seq<BlockRef> {
    if item.Arrived? && !SettlesItself(item) then RefsOf(item.batch.blocks) else []
  }

  function ItemIn(a: Arrival): seq<StreamItem> {
    if a.Passing? then [a.item] else []
  }

  /** The items of the gated stream among the arrivals. */
  function PassedIn(arrivals: seq<Arrival>): seq<StreamItem> {
    if arrivals == [] then [] else PassedIn(arrivals[..|arrivals| - 1]) + ItemIn(arrivals[|arrivals| - 1])
  }

  function Raised(current: Option<BlockRef>, a: Arrival): Option<BlockRef> {
    if SettledBy(a).Some? then Later(current, SettledBy(a).value) else current
  }

  /** The ref held after these arrivals. */
  function Held(arrivals: seq<Arrival>): Option<BlockRef> {
    if arrivals == [] then None else Raised(Held(arrivals[..|arrivals| - 1]), arrivals[|arrivals| - 1])
  }

  /** One item out for one item in: the same blocks, under the batch's own report, or else the
      ref held. */
  function Stamped(item: StreamItem, held: Option<BlockRef>): (out: StreamItem)
    ensures ArrivedIn(out) == ArrivedIn(item)
  {
    if item.Arrived? && item.batch.finalized.None? then Arrived(Batch(item.batch.blocks, held)) else item
  }

  function StampedIn(a: Arrival, held: Option<BlockRef>): seq<StreamItem> {
    if a.Passing? then [Stamped(a.item, held)] else []
  }

  function Outputs(arrivals: seq<Arrival>): seq<StreamItem> {
    if arrivals == [] then []
    else (Outputs(arrivals[..|arrivals| - 1]) + StampedIn(arrivals[|arrivals| - 1], Held(arrivals)))
  }

  function OfferedIn(arrivals: seq<Arrival>): seq<BlockRef> {
    if arrivals == [] then []
    else (OfferedIn(arrivals[..|arrivals| - 1])
          + if arrivals[|arrivals| - 1].Passing? then OfferedBy(arrivals[|arrivals| - 1].item) else [])
  }

  /** The ref held is the highest of those the prober or a batch has settled, if there is one: so
      it never falls, and every report attached is of a ref the stream or the prober settled. */
  lemma {:induction false} HeldIsHighest(arrivals: seq<Arrival>)
    ensures forall k :: 0 <= k < |arrivals| && SettledBy(arrivals[k]).Some? ==>
      Reaches(Held(arrivals), SettledBy(arrivals[k]).value)
    ensures Held(arrivals).Some? ==> exists k :: 0 <= k < |arrivals| && SettledBy(arrivals[k]) == Held(arrivals)
  {
    if arrivals != [] {
      var front, a := arrivals[..|arrivals| - 1], arrivals[|arrivals| - 1];
      HeldIsHighest(front);
      if Held(arrivals) == SettledBy(a) {
        assert arrivals[|arrivals| - 1] == a;
      } else if Held(arrivals).Some? {
        var k :| 0 <= k < |front| && SettledBy(front[k]) == Held(front);
        assert arrivals[k] == front[k];
      }
    }
  }

  /** What may be reported of these arrivals: nothing if none of them settled a ref, and else the
      highest that one did. */
  ghost predicate HighestSettled(arrivals: seq<Arrival>, r: Option<BlockRef>) {
    if r.None? then forall k :: 0 <= k < |arrivals| ==> SettledBy(arrivals[k]).None?
    else
      && (exists k :: 0 <= k < |arrivals| && SettledBy(arrivals[k]) == r)
      && forall k :: 0 <= k < |arrivals| && SettledBy(arrivals[k]).Some? ==> SettledBy(arrivals[k]).value.number <= r.value.number
  }

  lemma {:induction false} HeldIsReportable(arrivals: seq<Arrival>)
    ensures HighestSettled(arrivals, Held(arrivals))
  {
    HeldIsHighest(arrivals);
    NothingHeld(arrivals);
  }

  lemma {:induction false} NothingHeld(arrivals: seq<Arrival>)
    ensures Held(arrivals).None? ==> forall k :: 0 <= k < |arrivals| ==> SettledBy(arrivals[k]).None?
  {
    if arrivals != [] {
      NothingHeld(arrivals[..|arrivals| - 1]);
    }
  }

  /** A ref is settled by the prober's word, or by a batch that came with a report: that settles its
      own last block. */
  lemma SettledMeans(a: Arrival)
    ensures a.Probed? ==> SettledBy(a) == Some(a.block)
    ensures a.Passing? && a.item.Arrived? && a.item.batch.finalized.Some? && a.item.batch.blocks != [] ==>
      SettledBy(a) == Some(a.item.batch.blocks[|a.item.batch.blocks| - 1].Ref())
    ensures a.Passing? && !(a.item.Arrived? && a.item.batch.finalized.Some? && a.item.batch.blocks != []) ==>
      SettledBy(a).None?
  {
  }

  /** What becomes of one item among the arrivals up to it: a signal or an error passes as it is; a
      batch keeps its blocks, and its own report if it has one, or else takes the highest ref settled
      by then. */
  ghost predicate StampedBy(arrivals: seq<Arrival>, item: StreamItem, out: StreamItem) {
    if !item.Arrived? then out == item
    else
      && out.Arrived? && out.batch.blocks == item.batch.blocks
      && if item.batch.finalized.Some? then out.batch.finalized == item.batch.finalized
         else HighestSettled(arrivals, out.batch.finalized)
  }

  /** The item that arrived at `k` is among the outputs, after as many as items came before it. */
  ghost predicate GoesOut(arrivals: seq<Arrival>, k: nat, out: seq<StreamItem>)
    requires k < |arrivals| && arrivals[k].Passing?
  {
    var at := |PassedIn(arrivals[..k])|;
    at < |out| && StampedBy(arrivals[..k + 1], arrivals[k].item, out[at])
  }

  /** The item that arrives at `k` goes out in its turn, so stamped; and nothing else does. */
  lemma {:induction false} OutputsAreStamped(arrivals: seq<Arrival>, k: nat)
    requires k < |arrivals| && arrivals[k].Passing?
    ensures |Outputs(arrivals)| == |PassedIn(arrivals)|
    ensures GoesOut(arrivals, k, Outputs(arrivals))
    decreases |arrivals|
  {
    hide HighestSettled, Held, SettledBy;
    var front := arrivals[..|arrivals| - 1];
    OneForOne(front);
    if k < |front| {
      assert front[..k] == arrivals[..k] && front[..k + 1] == arrivals[..k + 1];
      OutputsAreStamped(front, k);
    } else {
      HeldIsReportable(arrivals);
      TakeAll(arrivals);
    }
  }

  lemma {:induction false} OneForOne(arrivals: seq<Arrival>)
    ensures |Outputs(arrivals)| == |PassedIn(arrivals)|
  {
    hide Held;
    if arrivals != [] {
      OneForOne(arrivals[..|arrivals| - 1]);
    }
  }

  /** The candidates are exactly the blocks delivered in batches that did not settle themselves. */
  lemma {:induction false} OfferedAreUnsettled(arrivals: seq<Arrival>, r: BlockRef)
    ensures r in OfferedIn(arrivals) <==>
      exists k :: 0 <= k < |arrivals| && OffersAt(arrivals[k], r)
  {
    if arrivals != [] {
      var front, a := arrivals[..|arrivals| - 1], arrivals[|arrivals| - 1];
      OfferedAreUnsettled(front, r);
      OffersRefs(a, r);
      if r in OfferedIn(front) {
        var k :| 0 <= k < |front| && OffersAt(front[k], r);
        assert arrivals[k] == front[k];
      }
      assert OffersAt(a, r) ==> OffersAt(arrivals[|arrivals| - 1], r);
    }
  }

  /** A batch that came without a report has this block among its own. */
  ghost predicate OffersAt(a: Arrival, r: BlockRef) {
    && a.Passing? && a.item.Arrived? && a.item.batch.finalized.None?
    && (exists x :: x in a.item.batch.blocks && x.Ref() == r)
  }

  lemma OffersRefs(a: Arrival, r: BlockRef)
    ensures a.Passing? ==> (r in OfferedBy(a.item) <==> OffersAt(a, r))
  {
    if a.Passing? && a.item.Arrived? {
      var blocks := a.item.batch.blocks;
      if x :| x in blocks && x.Ref() == r {
        var i :| 0 <= i < |blocks| && blocks[i] == x;
        assert RefsOf(blocks)[i] == r;
      }
      if r in RefsOf(blocks) {
        var i :| 0 <= i < |RefsOf(blocks)| && RefsOf(blocks)[i] == r;
        assert blocks[i] in blocks;
      }
    }
  }

  lemma RefsConcat(a: seq<Block>, b: seq<Block>)
    ensures RefsOf(a + b) == RefsOf(a) + RefsOf(b)
  {
  }

  /** Probing never holds a batch up or changes what it carries: the blocks delivered are those
      that came in, and only delivered blocks become candidates. */
  lemma {:induction false} OutputsDeliverInput(arrivals: seq<Arrival>)
    ensures Delivered(Outputs(arrivals)) == Delivered(PassedIn(arrivals))
    ensures forall r :: r in OfferedIn(arrivals) ==> r in RefsOf(Delivered(PassedIn(arrivals)))
  {
    if arrivals != [] {
      var front, a := arrivals[..|arrivals| - 1], arrivals[|arrivals| - 1];
      OutputsDeliverInput(front);
      if a.Passing? {
        DeliveredOneMore(Outputs(front), Stamped(a.item, Held(arrivals)));
        DeliveredOneMore(PassedIn(front), a.item);
        RefsConcat(Delivered(PassedIn(front)), ArrivedIn(a.item));
      } else {
        assert Outputs(arrivals) == Outputs(front) && PassedIn(arrivals) == PassedIn(front);
      }
    }
  }

  /** Candidates are offered in the order delivered, so over consecutive heights they ascend. */
  lemma {:induction false} OfferedAscend(arrivals: seq<Arrival>, from: nat)
    requires Consecutive(Delivered(PassedIn(arrivals)), from)
    ensures Rising(OfferedIn(arrivals))
  {
    if arrivals != [] {
      var front, a := arrivals[..|arrivals| - 1], arrivals[|arrivals| - 1];
      var before, all := Delivered(PassedIn(front)), Delivered(PassedIn(arrivals));
      OutputsDeliverInput(front);
      if a.Passing? {
        DeliveredOneMore(PassedIn(front), a.item);
        assert all == before + ArrivedIn(a.item);
        assert forall i :: 0 <= i < |before| ==> before[i] == all[i];
        OfferedAscend(front, from);
        NewerThanBefore(before, ArrivedIn(a.item), from, OfferedIn(front));
      } else {
        assert PassedIn(arrivals) == PassedIn(front) && OfferedIn(arrivals) == OfferedIn(front);
        OfferedAscend(front, from);
      }
    }
  }

  lemma NewerThanBefore(before: seq<Block>, now: seq<Block>, from: nat, refs: seq<BlockRef>)
    requires Consecutive(before + now, from) && Rising(refs)
    requires forall r :: r in refs ==> r in RefsOf(before)
    ensures Rising(refs + RefsOf(now)) && Rising(refs + [])
  {
    assert forall i :: 0 <= i < |now| ==> now[i] == (before + now)[|before| + i];
    assert forall i :: 0 <= i < |before| ==> before[i] == (before + now)[i];
    forall k | 0 <= k < |refs|
      ensures refs[k].number < from + |before|
    {
      assert refs[k] in refs;
      var i :| 0 <= i < |before| && RefsOf(before)[i] == refs[k];
    }
    assert refs + [] == refs;
  }

  lemma AllStamped(arrivals: seq<Arrival>, n: nat)
    requires n <= |arrivals|
    ensures |Outputs(arrivals[..n])| == |PassedIn(arrivals[..n])|
    ensures forall k :: 0 <= k < n && arrivals[k].Passing? ==> GoesOut(arrivals, k, Outputs(arrivals[..n]))
  {
    hide StampedBy, PassedIn, Outputs;
    var front := arrivals[..n];
    OneForOne(front);
    forall k | 0 <= k < n && arrivals[k].Passing?
      ensures GoesOut(arrivals, k, Outputs(front))
    {
      OutputsAreStamped(front, k);
      assert front[..k] == arrivals[..k] && front[..k + 1] == arrivals[..k + 1];
    }
  }

  /** The stream loop: every arrival in turn, up to the first fork signal or error. */
  method FinalizeStream(arrivals: seq<Arrival>) returns (out: seq<StreamItem>, candidates: seq<BlockRef>, n: nat)
    ensures n <= |arrivals| && out == Outputs(arrivals[..n]) && candidates == OfferedIn(arrivals[..n])
    ensures forall k :: 0 <= k < n - 1 && arrivals[k].Passing? ==> arrivals[k].item.Arrived?
    ensures n < |arrivals| ==> n > 0 && arrivals[n - 1].Passing? && !arrivals[n - 1].item.Arrived?
    ensures |out| == |PassedIn(arrivals[..n])|
    ensures forall k :: 0 <= k < n && arrivals[k].Passing? ==> GoesOut(arrivals, k, out)
  {
    hide GoesOut, Raised, StampedIn;
    var current: Option<BlockRef> := None;
    out, candidates, n := [], [], 0;
    while n < |arrivals|
      invariant n <= |arrivals| && current == Held(arrivals[..n])
      invariant out == Outputs(arrivals[..n]) && candidates == OfferedIn(arrivals[..n])
      invariant forall k :: 0 <= k < n && arrivals[k].Passing? ==> arrivals[k].item.Arrived?
    {
      var a := arrivals[n];
      assert arrivals[..n + 1][..n] == arrivals[..n];
      current := Raised(current, a);
      out := out + StampedIn(a, current);
      candidates := candidates + if a.Passing? then OfferedBy(a.item) else [];
      n := n + 1;
      if a.Passing? && !a.item.Arrived? {
        break;
      }
    }
    AllStamped(arrivals, n);
  }
}
