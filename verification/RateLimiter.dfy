/** The client's rate limit: configuration checks, and reservations that check before they record. */
module RateLimit {
  import opened Types
  import opened Rate

  // ----- configuration ----------------------------------------------------------------

  datatype ConfigError = NoCapacity | BadRate | RateTooSmall | NoBatch | BatchExceedsWindow

  datatype Config = Config(capacity: nat, rateLimit: Option<real>, maxBatchCallSize: Option<nat>)

  datatype Budget = Budget(maxBatchCallSize: Option<nat>, slotTime: nat)

  function DefaultBatch(limit: real): (n: nat)
    requires limit > 0.0
    ensures n >= 1
  {
    Max((limit / 5.0).Floor, 1)
  }

  /** The request-budget checks of the fallible constructor; an absent batch size is unlimited. */
  function TryNew(c: Config): Result<Budget, ConfigError> {
    if c.capacity == 0 then Err(NoCapacity)
    else if c.rateLimit.Some? && c.rateLimit.value <= 0.0 then Err(BadRate)
    else if c.rateLimit.None? then
      if c.maxBatchCallSize == Some(0) then Err(NoBatch) else Ok(Budget(c.maxBatchCallSize, 100))
    else
      var limit := c.rateLimit.value;
      var slotTime := SlotTimeFor(RATE_WINDOW_SIZE, limit);
      var calls := CallsPerWindow(limit, RATE_WINDOW_SIZE, slotTime);
      if calls == 0 then Err(RateTooSmall)
      else
        var batch := if c.maxBatchCallSize.Some? then c.maxBatchCallSize.value else DefaultBatch(limit);
        if batch == 0 then Err(NoBatch)
        else if batch > calls then Err(BatchExceedsWindow)
        else Ok(Budget(Some(batch), slotTime))
  }

  lemma CallsAtLeast(limit: real, windowSize: nat, slotTime: nat, n: nat)
    requires windowSize > 0 && slotTime > 0 && limit > 0.0
    ensures n <= CallsPerWindow(limit, windowSize, slotTime) <==>
      1000.0 * n as real <= limit * (windowSize * slotTime) as real
  {
    var k := (windowSize * slotTime) as real;
    assert windowSize * slotTime > 0;
    assert limit / Contribution(1, windowSize, slotTime) == limit * k / 1000.0;
    FloorAtLeast(limit * k / 1000.0, n);
  }

  lemma FloorAtLeast(x: real, n: int)
    ensures n <= x.Floor <==> n as real <= x
  {
  }

  /** A rate limit alone is never refused: a window always admits one call, and the default batch
      always fits in it. */
  lemma DefaultsAreAccepted(capacity: nat, limit: real)
    requires capacity > 0 && limit > 0.0
    ensures TryNew(Config(capacity, Some(limit), None)).Ok?
  {
    var w := RATE_WINDOW_SIZE;
    var slotTime := SlotTimeFor(w, limit);
    CallsAtLeast(limit, w, slotTime, DefaultBatch(limit));
    CallsAtLeast(limit, w, slotTime, 1);
    if limit < 1.0 {
      var x := 1000.0 / (limit * w as real);
      assert x <= slotTime as real;
      assert limit * w as real * x == 1000.0;
      assert limit * w as real * slotTime as real >= limit * w as real * x;
    }
  }

  /** Whatever batch size an accepted configuration ends up with, an empty window has room for it:
      such a reservation is one that waiting is bound to admit. */
  lemma AcceptedBatchFits(c: Config, batch: nat, slotTime: nat)
    requires TryNew(c) == Ok(Budget(Some(batch), slotTime)) && c.rateLimit.Some?
    ensures c.rateLimit.value > 0.0 && slotTime > 0
    ensures 0 < batch <= CallsPerWindow(c.rateLimit.value, RATE_WINDOW_SIZE, slotTime)
  {
  }

  // ----- admissions ---------------------------------------------------------------------

  /** `count` items admitted at the instant `ms`. */
  datatype Admission = Admission(ms: nat, count: nat)

  ghost predicate InTimeOrder(adm: seq<Admission>) {
    forall i, j :: 0 <= i <= j < |adm| ==> adm[i].ms <= adm[j].ms
  }

  /** The meter's log is the admissions, each in the slot of its instant. */
  ghost predicate Logged(adm: seq<Admission>, log: seq<Event>, slotTime: nat)
    requires slotTime > 0
  {
    |log| == |adm| && forall i :: 0 <= i < |adm| ==> log[i] == Event(Slot(adm[i].ms, slotTime), adm[i].count)
  }

  /** When each reservation was recorded, the window that ends with it was within the limit. */
  ghost predicate CheckedFirst(log: seq<Event>, limit: real, windowSize: nat, slotTime: nat) {
    forall i :: 0 <= i < |log| ==>
      Fits(Items(log[..i + 1], log[i].slot - (windowSize + 1), log[i].slot), limit, windowSize, slotTime)
  }

  /** The items admitted between two instants, both included. */
  function Admitted(adm: seq<Admission>, a: nat, b: nat): nat {
    if adm == [] then 0
    else Admitted(adm[..|adm| - 1], a, b) + Within(adm[|adm| - 1], a, b)
  }

  function Within(x: Admission, a: nat, b: nat): nat {
    if a <= x.ms <= b then x.count else 0
  }

  /** Every admission of the interval falls in the slots counted, so it is counted. */
  lemma {:induction false} AdmittedAtMostItems(adm: seq<Admission>, log: seq<Event>, slotTime: nat,
      a: nat, b: nat, lo: int, hi: int)
    requires slotTime > 0 && Logged(adm, log, slotTime)
    requires forall i :: 0 <= i < |adm| && a <= adm[i].ms <= b ==> lo < log[i].slot <= hi
    ensures Admitted(adm, a, b) <= Items(log, lo, hi)
  {
    if adm != [] {
      AdmittedAtMostItems(adm[..|adm| - 1], log[..|log| - 1], slotTime, a, b, lo, hi);
    }
  }

  lemma FitsLess(items: nat, more: nat, limit: real, windowSize: nat, slotTime: nat)
    requires items <= more && Fits(more, limit, windowSize, slotTime)
    ensures Fits(items, limit, windowSize, slotTime)
  {
  }

  lemma CheckedFront(log: seq<Event>, n: nat, limit: real, windowSize: nat, slotTime: nat)
    requires CheckedFirst(log, limit, windowSize, slotTime) && n <= |log|
    ensures CheckedFirst(log[..n], limit, windowSize, slotTime)
  {
    var front := log[..n];
    forall i | 0 <= i < |front|
      ensures Fits(Items(front[..i + 1], front[i].slot - (windowSize + 1), front[i].slot), limit, windowSize, slotTime)
    {
      assert front[..i + 1] == log[..i + 1];
    }
  }

  /** When the interval reaches past the last admission, the window that ends with that admission
      counts everything admitted in the interval. */
  lemma LastWindowCovers(adm: seq<Admission>, log: seq<Event>, windowSize: nat, slotTime: nat, a: nat)
    requires windowSize > 0 && slotTime > 0 && adm != []
    requires InTimeOrder(adm) && Logged(adm, log, slotTime)
    requires adm[|adm| - 1].ms <= a + windowSize * slotTime
    ensures var hi := log[|log| - 1].slot;
      Admitted(adm, a, a + windowSize * slotTime) <= Items(log, hi - (windowSize + 1), hi)
  {
    var last := adm[|adm| - 1];
    var hi := log[|log| - 1].slot;
    SlotsApart(a, last.ms, slotTime, windowSize);
    forall i | 0 <= i < |adm| && a <= adm[i].ms
      ensures hi - (windowSize + 1) < log[i].slot <= hi
    {
      SlotsAdvance(a, adm[i].ms, slotTime, 0);
      SlotsAdvance(adm[i].ms, last.ms, slotTime, 0);
    }
    AdmittedAtMostItems(adm, log, slotTime, a, a + windowSize * slotTime, hi - (windowSize + 1), hi);
  }

  /** Every closed interval one window long admits at most what the limit allows a window. */
  lemma {:induction false} IntervalBound(adm: seq<Admission>, log: seq<Event>, limit: real, windowSize: nat,
      slotTime: nat, a: nat)
    requires windowSize > 0 && slotTime > 0 && limit > 0.0
    requires InTimeOrder(adm) && Logged(adm, log, slotTime) && CheckedFirst(log, limit, windowSize, slotTime)
    ensures Fits(Admitted(adm, a, a + windowSize * slotTime), limit, windowSize, slotTime)
  {
    var b := a + windowSize * slotTime;
    if adm == [] {
      NothingFits(limit, windowSize, slotTime);
    } else if adm[|adm| - 1].ms > b {
      CheckedFront(log, |log| - 1, limit, windowSize, slotTime);
      IntervalBound(adm[..|adm| - 1], log[..|log| - 1], limit, windowSize, slotTime, a);
    } else {
      var hi := log[|log| - 1].slot;
      LastWindowCovers(adm, log, windowSize, slotTime, a);
      assert log[..|log| - 1 + 1] == log;
      FitsLess(Admitted(adm, a, b), Items(log, hi - (windowSize + 1), hi), limit, windowSize, slotTime);
    }
  }

  lemma NothingFits(limit: real, windowSize: nat, slotTime: nat)
    requires limit > 0.0
    ensures Fits(0, limit, windowSize, slotTime)
  {
    assert limit * (windowSize * slotTime) as real >= 0.0;
  }

  lemma CheckedOneMore(log: seq<Event>, e: Event, limit: real, windowSize: nat, slotTime: nat)
    requires CheckedFirst(log, limit, windowSize, slotTime)
    requires Fits(Items(log + [e], e.slot - (windowSize + 1), e.slot), limit, windowSize, slotTime)
    ensures CheckedFirst(log + [e], limit, windowSize, slotTime)
  {
    var more := log + [e];
    forall i | 0 <= i < |more|
      ensures Fits(Items(more[..i + 1], more[i].slot - (windowSize + 1), more[i].slot), limit, windowSize, slotTime)
    {
      if i < |log| {
        assert more[..i + 1] == log[..i + 1];
      } else {
        assert more[..i + 1] == more;
      }
    }
  }

  /** Admissions and the meter's log in step, every admission checked, and the meter's current slot
      the one of the last admission. */
  ghost predicate Ledger(adm: seq<Admission>, log: seq<Event>, time: int, limit: real, windowSize: nat, slotTime: nat)
    requires slotTime > 0
  {
    && InTimeOrder(adm) && Logged(adm, log, slotTime) && CheckedFirst(log, limit, windowSize, slotTime)
    && time == if adm == [] then 0 else Slot(adm[|adm| - 1].ms, slotTime)
  }

  /** The clock has not gone back behind the last admission. */
  ghost predicate NotBefore(adm: seq<Admission>, ms: nat) {
    adm == [] || adm[|adm| - 1].ms <= ms
  }

  lemma LedgerClock(adm: seq<Admission>, log: seq<Event>, time: int, limit: real, windowSize: nat, slotTime: nat, ms: nat)
    requires slotTime > 0 && Ledger(adm, log, time, limit, windowSize, slotTime) && NotBefore(adm, ms)
    ensures time <= Slot(ms, slotTime)
  {
    if adm != [] {
      SlotsAdvance(adm[|adm| - 1].ms, ms, slotTime, 0);
    }
  }

  lemma LedgerGrows(adm: seq<Admission>, log: seq<Event>, time: int, limit: real, windowSize: nat, slotTime: nat,
      ms: nat, count: nat)
    requires slotTime > 0 && Ledger(adm, log, time, limit, windowSize, slotTime) && NotBefore(adm, ms)
    requires var now := Slot(ms, slotTime); Fits(Items(log, now - (windowSize + 1), now) + count, limit, windowSize, slotTime)
    ensures var now := Slot(ms, slotTime);
      Ledger(adm + [Admission(ms, count)], log + [Event(now, count)], now, limit, windowSize, slotTime)
  {
    var now := Slot(ms, slotTime);
    ItemsOneMore(log, Event(now, count), now - (windowSize + 1), now);
    CheckedOneMore(log, Event(now, count), limit, windowSize, slotTime);
  }

  /** Meter and limit, as one caller at a time holds them. */
  class RateState {
    const meter: RateMeter
    const limit: real
    ghost var admissions: seq<Admission>

    ghost predicate Valid()
      reads this, meter, meter.window
    {
      && limit > 0.0 && meter.Valid()
      && Ledger(admissions, meter.log, meter.time, limit, meter.windowSize, meter.slotTime)
    }

    constructor (size: nat, slot: nat, rate: real)
      requires size > 0 && slot > 0 && rate > 0.0
      ensures Valid() && admissions == [] && fresh(meter) && fresh(meter.window)
      ensures meter.windowSize == size && meter.slotTime == slot && limit == rate
    {
      meter := new RateMeter(size, slot);
      limit := rate;
      admissions := [];
    }

    /** Whatever has been reserved, no interval one window long has admitted more than the limit
        allows a window. */
    lemma NeverOverLimit(a: nat)
      requires Valid() && meter.windowSize > 0
      ensures Fits(Admitted(admissions, a, a + meter.windowSize * meter.slotTime), limit, meter.windowSize, meter.slotTime)
    {
      IntervalBound(admissions, meter.log, limit, meter.windowSize, meter.slotTime, a);
    }

    /** Check the window with `count` more items in it; reserve them if they fit. */
    method TryReserve(count: nat, nowMs: nat) returns (admitted: bool)
      requires Valid() && NotBefore(admissions, nowMs)
      modifies this`admissions, meter, meter.window
      ensures Valid()
      ensures admissions == if admitted then old(admissions) + [Admission(nowMs, count)] else old(admissions)
      ensures !admitted ==> meter.log == old(meter.log)
      ensures admitted <==>
        var now := Slot(nowMs, meter.slotTime);
        Fits(Items(old(meter.log), now - (meter.windowSize + 1), now) + count, limit, meter.windowSize, meter.slotTime)
    {
      LedgerClock(admissions, meter.log, meter.time, limit, meter.windowSize, meter.slotTime, nowMs);
      ghost var now := Slot(nowMs, meter.slotTime);
      ghost var held := Items(meter.log, now - (meter.windowSize + 1), now);
      var rate := meter.GetRate(nowMs);
      FitsScaled(held, count, limit, meter.windowSize, meter.slotTime);
      admitted := rate + Contribution(count, meter.windowSize, meter.slotTime) <= limit;
      assert admitted <==> Fits(held + count, limit, meter.windowSize, meter.slotTime);
      if admitted {
        LedgerGrows(admissions, meter.log, meter.time, limit, meter.windowSize, meter.slotTime, nowMs, count);
        meter.Inc(count, nowMs);
        admissions := admissions + [Admission(nowMs, count)];
      }
    }

    /** Try at each reading of the clock, a sleep between, until `count` items are reserved; answers
        how many sleeps it took. A reservation that an empty window can hold is admitted after at
        most `windowSize + 1` sleeps of a slot each. */
    method WaitForRate(count: nat, clock: seq<nat>) returns (sleeps: Option<nat>)
      requires Valid() && Ticking(clock, 0)
      requires clock != [] ==> NotBefore(admissions, clock[0])
      modifies this`admissions, meter, meter.window
      ensures Valid()
      ensures sleeps.Some? ==> sleeps.value < |clock|
      ensures sleeps.Some? ==> admissions == old(admissions) + [Admission(clock[sleeps.value], count)]
      ensures sleeps.None? ==> admissions == old(admissions)
      ensures BoundToFit(clock, count) && |clock| > meter.windowSize + 1 ==>
        sleeps.Some? && sleeps.value <= meter.windowSize + 1
    {
      for i := 0 to |clock|
        invariant Valid() && admissions == old(admissions) && meter.log == old(meter.log)
        invariant BoundToFit(clock, count) ==> i <= meter.windowSize + 1
      {
        TickingFrom(clock, 0, i);
        if BoundToFit(clock, count) && i == meter.windowSize + 1 {
          IdleWindowAdmits(admissions, meter.log, meter.time, limit, meter.windowSize, meter.slotTime, clock, i, count);
        }
        var admitted := TryReserve(count, clock[i]);
        if admitted {
          return Some(i);
        }
      }
      return None;
    }

    /** The clock advances a slot a sleep, and an empty window can hold `count` items. */
    ghost predicate BoundToFit(clock: seq<nat>, count: nat)
      requires Valid()
      reads this, meter, meter.window
    {
      Ticking(clock, meter.slotTime) && count <= CallsPerWindow(limit, meter.windowSize, meter.slotTime)
    }
  }

  /** Successive readings lie at least `gap` apart. */
  ghost predicate Ticking(clock: seq<nat>, gap: nat) {
    forall i {:trigger clock[i]} :: 0 < i < |clock| ==> clock[i - 1] + gap <= clock[i]
  }

  lemma {:induction false} TickingFrom(clock: seq<nat>, gap: nat, i: nat)
    requires Ticking(clock, gap) && i < |clock|
    ensures clock[0] + i * gap <= clock[i]
    decreases i
  {
    if i > 0 {
      TickingFrom(clock, gap, i - 1);
      assert i * gap == (i - 1) * gap + gap;
    }
  }

  /** Once a whole window has passed with nothing reserved, what an empty window can hold fits. */
  lemma IdleWindowAdmits(adm: seq<Admission>, log: seq<Event>, time: int, limit: real, windowSize: nat, slotTime: nat,
      clock: seq<nat>, i: nat, count: nat)
    requires windowSize > 0 && slotTime > 0 && limit > 0.0
    requires Ledger(adm, log, time, limit, windowSize, slotTime)
    requires forall k :: 0 <= k < |log| ==> log[k].slot <= time
    requires windowSize < i < |clock| && Ticking(clock, slotTime) && NotBefore(adm, clock[0])
    requires count <= CallsPerWindow(limit, windowSize, slotTime)
    ensures var now := Slot(clock[i], slotTime);
      Fits(Items(log, now - (windowSize + 1), now) + count, limit, windowSize, slotTime)
  {
    CallsAtLeast(limit, windowSize, slotTime, count);
    TickingFrom(clock, slotTime, i);
    MulMonotone(windowSize + 1, i, slotTime);
    SlotsAdvance(clock[0], clock[i], slotTime, windowSize + 1);
    LedgerClock(adm, log, time, limit, windowSize, slotTime, clock[0]);
    var now := Slot(clock[i], slotTime);
    NothingAhead(log, time, now - (windowSize + 1), now);
  }
}
