/** The cached view of the upstream's finalized head: a re-seed replaces it and opens an epoch; a
    fetch stores only under the epoch it began in, and within one the view only rises. */
module FinalizedHead {
  import opened Types

  const EPOCHS: nat := HEIGHT_MAX + 1

  datatype Observation = Observation(at: nat, head: BlockRef)

  /** The cache behind its lock. `epoch` is a 64-bit counter that wraps. */
  datatype View = View(epoch: Height, observed: Option<Observation>, refreshing: bool)

  function NextEpoch(epoch: Height): Height {
    (epoch + 1) % EPOCHS
  }

  /** The view after a fetch begun under `epoch` answered `head`: discarded if a newer epoch has
      opened since, and a lower answer only renews the view it finds. */
  function Stored(v: View, epoch: Height, head: BlockRef, now: nat): View {
    if v.epoch != epoch then v
    else if v.observed.Some? && v.observed.value.head.number >= head.number then
      v.(observed := Some(Observation(now, v.observed.value.head)))
    else v.(observed := Some(Observation(now, head)))
  }

  function Resynced(v: View, head: BlockRef, now: nat): View {
    v.(epoch := NextEpoch(v.epoch), observed := Some(Observation(now, head)))
  }

  predicate Fresh(v: View, now: nat, ttl: nat) {
    v.observed.Some? && now - v.observed.value.at < ttl
  }

  class Cache {
    var epoch: Height
    var observed: Option<Observation>
    var refreshing: bool

    function Seen(): View
      reads this
    {
      View(epoch, observed, refreshing)
    }

    constructor ()
      ensures Seen() == View(0, None, false)
    {
      epoch, observed, refreshing := 0, None, false;
    }

    /** The re-seed's read, once answered. A failed one changes nothing. */
    method Resync(answer: Option<BlockRef>, now: nat)
      modifies this
      ensures Seen() == if answer.Some? then Resynced(old(Seen()), answer.value, now) else old(Seen())
    {
      if answer.Some? {
        epoch := NextEpoch(epoch);
        observed := Some(Observation(now, answer.value));
      }
    }

    /** The last observed head, whatever its age. */
    method Hint() returns (head: Option<BlockRef>)
      ensures head == if observed.Some? then Some(observed.value.head) else None
    {
      head := if observed.Some? then Some(observed.value.head) else None;
    }

    /** A cached read: a fresh view answers at once, anything else begins a fetch under the
        present epoch. */
    method BeginCached(now: nat, ttl: nat) returns (hit: Option<BlockRef>, under: Height)
      ensures hit.Some? <==> Fresh(Seen(), now, ttl)
      ensures hit.Some? ==> hit.value == observed.value.head
      ensures under == epoch
    {
      under := epoch;
      hit := if observed.Some? && now - observed.value.at < ttl then Some(observed.value.head) else None;
    }

    /** Claim a background refresh, unless one is claimed already or the view is fresh. */
    method BeginRefresh(now: nat, ttl: nat) returns (under: Option<Height>)
      modifies this
      ensures under.Some? <==> !old(refreshing) && !Fresh(old(Seen()), now, ttl)
      ensures Seen() == old(Seen()).(refreshing := old(refreshing) || under.Some?)
      ensures under.Some? ==> under.value == epoch
    {
      under := None;
      if refreshing {
        return;
      }
      if observed.Some? && now - observed.value.at < ttl {
        return;
      }
      refreshing := true;
      under := Some(epoch);
    }

    /** A refresh's fetch has come back, answered or not: its claim is given up. */
    method ReleaseRefresh()
      modifies this
      ensures Seen() == old(Seen()).(refreshing := false)
    {
      refreshing := false;
    }

    method Store(under: Height, head: BlockRef, now: nat)
      modifies this
      ensures Seen() == Stored(old(Seen()), under, head, now)
    {
      if epoch != under {
        return;
      }
      if observed.Some? && observed.value.head.number >= head.number {
        observed := Some(observed.value.(at := now));
      } else {
        observed := Some(Observation(now, head));
      }
    }
  }

  // ----- every interleaving -----------------------------------------------------------

  /** A fetch under way: begun under `under`, the `began`-th epoch; a background one still holds
      its claim until its answer is back. */
  datatype Fetch = Fetch(under: Height, began: nat, claims: bool)

  /** The cache, how many epochs have opened, the fetches under way, and the heads that answers of
      the present epoch have brought. */
  datatype System = System(view: View, epochs: nat, fetches: seq<Fetch>, brought: seq<BlockRef>)

  /** A step of any task: a re-seed, a cached read that misses, a claim, a fetch that comes back
      with its claim, an answer that is stored, or a fetch that fails. */
  datatype Step =
    | Reseed(head: BlockRef, now: nat)
    | Miss
    | Claim(now: nat, ttl: nat)
    | Release(which: nat)
    | Answer(which: nat, head: BlockRef, now: nat)
    | Abandon(which: nat)

  function Without(fetches: seq<Fetch>, i: nat): seq<Fetch>
    requires i < |fetches|
  {
    fetches[..i] + fetches[i + 1..]
  }

  predicate Enabled(s: System, step: Step) {
    match step
    case Reseed(_, _) => true
    case Miss => true
    case Claim(now, ttl) => !s.view.refreshing && !Fresh(s.view, now, ttl)
    case Release(i) => i < |s.fetches| && s.fetches[i].claims
    case Answer(i, _, _) => i < |s.fetches| && !s.fetches[i].claims
    case Abandon(i) => i < |s.fetches| && !s.fetches[i].claims
  }

  function After(s: System, step: Step): System
    requires Enabled(s, step)
  {
    match step
    case Reseed(head, now) => System(Resynced(s.view, head, now), s.epochs + 1, s.fetches, [head])
    case Miss => s.(fetches := s.fetches + [Fetch(s.view.epoch, s.epochs, false)])
    case Claim(_, _) =>
      s.(view := s.view.(refreshing := true), fetches := s.fetches + [Fetch(s.view.epoch, s.epochs, true)])
    case Release(i) =>
      s.(view := s.view.(refreshing := false), fetches := s.fetches[i := s.fetches[i].(claims := false)])
    case Answer(i, head, now) =>
      var f := s.fetches[i];
      System(Stored(s.view, f.under, head, now), s.epochs, Without(s.fetches, i),
             s.brought + if s.epochs == f.began then [head] else [])
    case Abandon(i) => s.(fetches := Without(s.fetches, i))
  }

  const INITIAL := System(View(0, None, false), 0, [], [])

  predicate Runs(s: System, steps: seq<Step>)
    decreases steps
  {
    steps != [] ==> Enabled(s, steps[0]) && Runs(After(s, steps[0]), steps[1..])
  }

  function End(s: System, steps: seq<Step>): System
    requires Runs(s, steps)
    decreases steps
  {
    if steps == [] then s else End(After(s, steps[0]), steps[1..])
  }

  function Claims(fetches: seq<Fetch>): nat {
    if fetches == [] then 0 else Claims(fetches[..|fetches| - 1]) + if fetches[|fetches| - 1].claims then 1 else 0
  }

  /** The counter counts epochs, up to its width, and fetches began under past or present ones. */
  predicate Counted(s: System) {
    && s.view.epoch == s.epochs % EPOCHS
    && forall f :: f in s.fetches ==> f.began <= s.epochs && f.under == f.began % EPOCHS
  }

  /** A refresh is claimed exactly while one background fetch is out. */
  predicate Claimed(s: System) {
    Claims(s.fetches) == if s.view.refreshing then 1 else 0
  }

  predicate Sound(s: System) {
    Counted(s) && Claimed(s)
  }

  /** No fetch under way is as old as the counter is wide. */
  predicate NoneWrapped(s: System) {
    forall i :: 0 <= i < |s.fetches| ==> s.epochs - s.fetches[i].began < EPOCHS
  }

  lemma {:induction false} ClaimsConcat(a: seq<Fetch>, b: seq<Fetch>)
    ensures Claims(a + b) == Claims(a) + Claims(b)
  {
    if b == [] {
      assert a + b == a;
    } else {
      assert (a + b)[..|a + b| - 1] == a + b[..|b| - 1];
      ClaimsConcat(a, b[..|b| - 1]);
    }
  }

  lemma ClaimsAt(fetches: seq<Fetch>, i: nat)
    requires i < |fetches|
    ensures Claims(fetches) == Claims(Without(fetches, i)) + if fetches[i].claims then 1 else 0
    ensures Claims(fetches[i := fetches[i].(claims := false)]) == Claims(Without(fetches, i))
  {
    var released := fetches[i := fetches[i].(claims := false)];
    assert fetches == fetches[..i] + [fetches[i]] + fetches[i + 1..];
    assert released == fetches[..i] + [released[i]] + fetches[i + 1..];
    ClaimsConcat(fetches[..i], [fetches[i]]);
    ClaimsConcat(fetches[..i] + [fetches[i]], fetches[i + 1..]);
    ClaimsConcat(fetches[..i], [released[i]]);
    ClaimsConcat(fetches[..i] + [released[i]], fetches[i + 1..]);
    ClaimsConcat(fetches[..i], fetches[i + 1..]);
    assert Claims([fetches[i]]) == Claims([]) + if fetches[i].claims then 1 else 0;
    assert Claims([released[i]]) == Claims([]) + 0;
  }

  lemma NextEpochCounts(epochs: nat)
    ensures NextEpoch(epochs % EPOCHS) == (epochs + 1) % EPOCHS
  {
    assert epochs == EPOCHS * (epochs / EPOCHS) + epochs % EPOCHS;
  }

  lemma CountedStep(s: System, step: Step)
    requires Counted(s) && Enabled(s, step)
    ensures Counted(After(s, step))
  {
    if step.Reseed? {
      NextEpochCounts(s.epochs);
    }
  }

  lemma ClaimedStep(s: System, step: Step)
    requires Claimed(s) && Enabled(s, step)
    ensures Claimed(After(s, step))
  {
    match step {
      case Reseed(_, _) =>
      case Miss => AddedClaim(s.fetches, Fetch(s.view.epoch, s.epochs, false));
      case Claim(_, _) => AddedClaim(s.fetches, Fetch(s.view.epoch, s.epochs, true));
      case Release(i) => ClaimsAt(s.fetches, i);
      case Answer(i, _, _) => ClaimsAt(s.fetches, i);
      case Abandon(i) => ClaimsAt(s.fetches, i);
    }
  }

  lemma AddedClaim(fetches: seq<Fetch>, f: Fetch)
    ensures Claims(fetches + [f]) == Claims(fetches) + if f.claims then 1 else 0
  {
    assert (fetches + [f])[..|fetches|] == fetches;
  }

  lemma SoundStep(s: System, step: Step)
    requires Sound(s) && Enabled(s, step)
    ensures Sound(After(s, step))
  {
    CountedStep(s, step);
    ClaimedStep(s, step);
  }

  /** Over every interleaving at most one background refresh is out, and epochs are told apart up
      to the width of the counter. */
  lemma {:induction false} SoundAlways(steps: seq<Step>)
    requires Runs(INITIAL, steps)
    ensures Sound(End(INITIAL, steps))
  {
    SoundFrom(INITIAL, steps);
  }

  lemma {:induction false} SoundFrom(s: System, steps: seq<Step>)
    requires Sound(s) && Runs(s, steps)
    ensures Sound(End(s, steps))
    decreases steps
  {
    if steps != [] {
      SoundStep(s, steps[0]);
      SoundFrom(After(s, steps[0]), steps[1..]);
    }
  }

  lemma SameResidue(a: nat, b: nat)
    requires b <= a && a % EPOCHS == b % EPOCHS
    ensures a == b || a - b >= EPOCHS
  {
    assert a == EPOCHS * (a / EPOCHS) + a % EPOCHS;
    assert b == EPOCHS * (b / EPOCHS) + b % EPOCHS;
  }

  /** Nothing a fetch could answer, and at no instant, would change the view. */
  ghost predicate Ignored(v: View, under: Height) {
    forall head, now :: Stored(v, under, head, now) == v
  }

  /** What an answer to a fetch begun under an older epoch says is ignored exactly when the counter
      tells the two epochs apart, which it does until 2^64 of them have opened meanwhile. */
  lemma StaleAnswerIsDiscarded(s: System, i: nat)
    requires Sound(s) && i < |s.fetches| && s.fetches[i].began < s.epochs
    ensures Ignored(s.view, s.fetches[i].under) <==> s.view.epoch != s.fetches[i].under
    ensures s.view.epoch != s.fetches[i].under <==> s.epochs % EPOCHS != s.fetches[i].began % EPOCHS
    ensures s.epochs - s.fetches[i].began < EPOCHS ==> s.view.epoch != s.fetches[i].under
  {
    var f := s.fetches[i];
    assert f in s.fetches;
    if s.view.epoch == f.under {
      SameResidue(s.epochs, f.began);
      var later := if s.view.observed.Some? then s.view.observed.value.at + 1 else 0;
      assert Stored(s.view, f.under, BlockRef(0, ""), later) != s.view;
    }
  }

  /** `n` re-seeds in a row. */
  function Reseeds(n: nat): seq<Step> {
    if n == 0 then [] else [Reseed(BlockRef(0, ""), 0)] + Reseeds(n - 1)
  }

  lemma {:induction false} ReseedsOpenEpochs(s: System, n: nat)
    ensures Runs(s, Reseeds(n))
    ensures End(s, Reseeds(n)).epochs == s.epochs + n && End(s, Reseeds(n)).fetches == s.fetches
    decreases n
  {
    if n > 0 {
      var first := Reseed(BlockRef(0, ""), 0);
      assert Reseeds(n)[0] == first && Reseeds(n)[1..] == Reseeds(n - 1);
      ReseedsOpenEpochs(After(s, first), n - 1);
    }
  }

  /** The counter does wrap in a run: a cached read that misses and is then outlived by 2^64
      re-seeds would be stored as if it were of the present epoch. */
  lemma WrappedStateIsReachable() returns (steps: seq<Step>)
    ensures Runs(INITIAL, steps) && Sound(End(INITIAL, steps))
    ensures var s := End(INITIAL, steps);
      |s.fetches| == 1 && s.fetches[0].began < s.epochs && !Ignored(s.view, s.fetches[0].under)
  {
    steps := [Miss] + Reseeds(EPOCHS);
    assert steps[0] == Miss && steps[1..] == Reseeds(EPOCHS);
    ReseedsOpenEpochs(After(INITIAL, Miss), EPOCHS);
    SoundAlways(steps);
    StaleAnswerIsDiscarded(End(INITIAL, steps), 0);
  }

  /** The view holds the highest head that the present epoch's re-seed and fetches brought. */
  ghost predicate ShowsHighest(s: System) {
    && (s.view.observed.Some? <==> s.brought != [])
    && (s.view.observed.Some? ==>
          && s.view.observed.value.head in s.brought
          && forall h :: h in s.brought ==> h.number <= s.view.observed.value.head.number)
  }

  lemma HighestStep(s: System, step: Step)
    requires Sound(s) && NoneWrapped(s) && ShowsHighest(s) && Enabled(s, step)
    ensures ShowsHighest(After(s, step))
  {
    if step.Answer? {
      var f := s.fetches[step.which];
      if f.began < s.epochs {
        StaleAnswerIsDiscarded(s, step.which);
        assert s.brought + [] == s.brought;
      }
    }
  }

  predicate NeverFalls(before: View, after: View) {
    before.observed.Some? ==>
      && after.observed.Some?
      && (before.observed.value.head == after.observed.value.head
          || before.observed.value.head.number < after.observed.value.head.number)
  }

  /** Between two re-seeds the view never falls, whatever runs beside it. */
  lemma {:induction false} ViewNeverFallsBetweenReseeds(s: System, steps: seq<Step>)
    requires Runs(s, steps) && forall k :: 0 <= k < |steps| ==> !steps[k].Reseed?
    ensures NeverFalls(s.view, End(s, steps).view)
    decreases steps
  {
    if steps != [] {
      var s' := After(s, steps[0]);
      assert NeverFalls(s.view, s'.view);
      ViewNeverFallsBetweenReseeds(s', steps[1..]);
    }
  }

  /** At no point of a run has a fetch outlived the counter. */
  predicate Unwrapped(s: System, steps: seq<Step>)
    requires Runs(s, steps)
    decreases steps
  {
    NoneWrapped(s) && (steps != [] ==> Unwrapped(After(s, steps[0]), steps[1..]))
  }

  /** Throughout such a run the view shows exactly the highest head the present epoch brought:
      nothing that began under an older epoch is ever in it. */
  lemma {:induction false} ViewShowsEpochsHighest(s: System, steps: seq<Step>)
    requires Sound(s) && ShowsHighest(s) && Runs(s, steps) && Unwrapped(s, steps)
    ensures ShowsHighest(End(s, steps))
    decreases steps
  {
    if steps != [] {
      SoundStep(s, steps[0]);
      HighestStep(s, steps[0]);
      ViewShowsEpochsHighest(After(s, steps[0]), steps[1..]);
    }
  }
}
