/** The sliding-window rate meter: a ring of slot counters that stands for a full event log, and the
    bound that checking before reserving puts on every interval of time. */
module Rate {
  import opened Types

  // ----- slots ------------------------------------------------------------------

  /** The slot of an instant: the division rounds up. */
  function Slot(ms: nat, slotTime: nat): nat
    requires slotTime > 0
  {
    (ms + slotTime - 1) / slotTime
  }

  lemma MulMonotone(x: int, y: int, s: nat)
    requires x <= y
    ensures x * s <= y * s
  {
  }

  lemma MulLess(x: int, y: int, s: nat)
    requires x * s < y * s
    ensures x < y
  {
    if y <= x {
      MulMonotone(y, x, s);
    }
  }

  /** A slot ends at the first multiple of the slot length at or past the instant. */
  lemma SlotBounds(ms: nat, slotTime: nat)
    requires slotTime > 0
    ensures ms <= Slot(ms, slotTime) * slotTime < ms + slotTime
  {
    var q := (ms + slotTime - 1) / slotTime;
    assert ms + slotTime - 1 == q * slotTime + (ms + slotTime - 1) % slotTime;
  }

  /** Instants at most `k` slot lengths apart fall at most `k` slots apart. */
  lemma SlotsApart(a: nat, b: nat, slotTime: nat, k: nat)
    requires slotTime > 0 && b <= a + k * slotTime
    ensures Slot(b, slotTime) <= Slot(a, slotTime) + k
  {
    SlotBounds(a, slotTime);
    SlotBounds(b, slotTime);
    var p, q := Slot(a, slotTime), Slot(b, slotTime);
    assert (p + k + 1) * slotTime == p * slotTime + k * slotTime + slotTime;
    MulLess(q, p + k + 1, slotTime);
  }

  /** Instants at least `k` slot lengths apart fall at least `k` slots apart. */
  lemma SlotsAdvance(a: nat, b: nat, slotTime: nat, k: nat)
    requires slotTime > 0 && b >= a + k * slotTime
    ensures Slot(b, slotTime) >= Slot(a, slotTime) + k
  {
    SlotBounds(a, slotTime);
    SlotBounds(b, slotTime);
    var p, q := Slot(a, slotTime), Slot(b, slotTime);
    assert (q + 1) * slotTime == q * slotTime + slotTime;
    assert (p + k) * slotTime == p * slotTime + k * slotTime;
    MulLess(p + k, q + 1, slotTime);
  }

  // ----- the event log ------------------------------------------------------------

  /** `count` items recorded in `slot`. */
  datatype Event = Event(slot: int, count: nat)

  function Counted(e: Event, lo: int, hi: int): nat {
    if lo < e.slot <= hi then e.count else 0
  }

  /** The items recorded in slots after `lo`, up to and including `hi`. */
  function Items(log: seq<Event>, lo: int, hi: int): nat {
    if log == [] then 0 else Items(log[..|log| - 1], lo, hi) + Counted(log[|log| - 1], lo, hi)
  }

  lemma {:induction false} ItemsSplit(log: seq<Event>, lo: int, mid: int, hi: int)
    requires lo <= mid <= hi
    ensures Items(log, lo, hi) == Items(log, lo, mid) + Items(log, mid, hi)
  {
    if log != [] {
      ItemsSplit(log[..|log| - 1], lo, mid, hi);
    }
  }

  lemma {:induction false} ItemsNone(log: seq<Event>, lo: int, hi: int)
    requires forall i :: 0 <= i < |log| ==> !(lo < log[i].slot <= hi)
    ensures Items(log, lo, hi) == 0
  {
    if log != [] {
      ItemsNone(log[..|log| - 1], lo, hi);
    }
  }

  lemma ItemsOneMore(log: seq<Event>, e: Event, lo: int, hi: int)
    ensures Items(log + [e], lo, hi) == Items(log, lo, hi) + Counted(e, lo, hi)
  {
    assert (log + [e])[..|log|] == log;
  }

  /** The only multiple of `size` strictly between `-size` and `size` is zero. */
  lemma SmallMultiple(d: int, size: int)
    requires size > 0 && -size < d * size < size
    ensures d == 0
  {
    if d >= 1 {
      MulMonotone(1, d, size);
    } else if d <= -1 {
      MulMonotone(d, -1, size);
    }
  }

  /** Two numbers sit at the same ring position exactly when a whole number of turns apart. */
  lemma RingTurns(a: int, b: int, size: nat)
    requires size > 0
    ensures b - a == (b / size - a / size) * size + (b % size - a % size)
  {
    assert a == a / size * size + a % size && b == b / size * size + b % size;
    assert (b / size - a / size) * size == b / size * size - a / size * size;
  }

  /** Distinct slots within one turn of the ring have distinct positions. */
  lemma RingPositions(a: int, b: int, size: nat)
    requires size > 0 && a < b < a + size
    ensures a % size != b % size
  {
    RingTurns(a, b, size);
    if a % size == b % size {
      SmallMultiple(b / size - a / size, size);
    }
  }

  lemma RingPeriod(a: int, size: nat)
    requires size > 0
    ensures (a - size) % size == a % size
  {
    RingTurns(a - size, a, size);
    var d := a / size - (a - size) / size;
    assert (d - 1) * size == d * size - size;
    SmallMultiple(d - 1, size);
  }

  /** Among the slots of one turn of the ring, only `s0` itself sits at its position. */
  lemma RingDistinct(s0: int, lo: int, size: nat)
    requires size > 0 && lo < s0 <= lo + size
    ensures forall s :: lo < s <= lo + size && s != s0 ==> s % size != s0 % size
  {
    forall s | lo < s <= lo + size && s != s0
      ensures s % size != s0 % size
    {
      if s < s0 {
        RingPositions(s, s0, size);
      } else {
        RingPositions(s0, s, size);
      }
    }
  }

  /** Nothing is recorded past the last slot used. */
  lemma NothingAhead(log: seq<Event>, time: int, lo: int, hi: int)
    requires (forall i :: 0 <= i < |log| ==> log[i].slot <= time) && time <= lo
    ensures Items(log, lo, hi) == 0
  {
    ItemsNone(log, lo, hi);
  }

  /** The ring agrees with the log on every slot of the turn that ends at `now`. */
  ghost predicate RingHolds(ring: seq<nat>, log: seq<Event>, now: int)
    requires |ring| > 0
  {
    forall s :: now - |ring| < s <= now ==> ring[s % |ring|] == Items(log, s - 1, s)
  }

  /** Counting into the current slot keeps ring and log in step. */
  lemma RingCounts(ring: seq<nat>, log: seq<Event>, now: int, count: nat)
    requires |ring| > 0 && RingHolds(ring, log, now)
    ensures var p := now % |ring|; RingHolds(ring[p := ring[p] + count], log + [Event(now, count)], now)
  {
    var size := |ring|;
    RingDistinct(now, now - size, size);
    forall s | now - size < s <= now
      ensures ring[now % size := ring[now % size] + count][s % size] == Items(log + [Event(now, count)], s - 1, s)
    {
      ItemsOneMore(log, Event(now, count), s - 1, s);
    }
  }

  /** Clearing the positions of the slots between the last one used and `now` moves the turn on. */
  lemma RingAdvances(ring: seq<nat>, moved: seq<nat>, log: seq<Event>, time: int, now: int)
    requires |ring| > 0 && |moved| == |ring| && time <= now && RingHolds(ring, log, time)
    requires forall i :: 0 <= i < |log| ==> log[i].slot <= time
    requires forall s :: now - |ring| < s <= time ==> moved[s % |ring|] == ring[s % |ring|]
    requires forall s :: time < s <= now && now - |ring| < s ==> moved[s % |ring|] == 0
    ensures RingHolds(moved, log, now)
  {
    forall s | now - |ring| < s <= now
      ensures moved[s % |ring|] == Items(log, s - 1, s)
    {
      if s > time {
        NothingAhead(log, time, s - 1, s);
      }
    }
  }

  class RateMeter {
    const window: array<nat>
    var time: int
    const windowSize: nat
    const slotTime: nat
    /** Everything ever recorded, in order. */
    ghost var log: seq<Event>

    ghost predicate Valid()
      reads this, window
    {
      && windowSize > 0 && slotTime > 0 && window.Length == windowSize + 1
      && time >= 0
      && (forall i :: 0 <= i < |log| ==> log[i].slot <= time)
      && RingHolds(window[..], log, time)
    }

    constructor (size: nat, slot: nat)
      requires size > 0 && slot > 0
      ensures Valid() && fresh(window) && log == [] && time == 0
      ensures windowSize == size && slotTime == slot
    {
      window := new nat[size + 1](i => 0);
      time := 0;
      windowSize := size;
      slotTime := slot;
      log := [];
    }

    /** The slot of `nowMs`, never behind the last one used. */
    function ToTime(nowMs: nat): (t: int)
      requires slotTime > 0
      reads this
      ensures t >= time && t >= Slot(nowMs, slotTime) && (t == time || t == Slot(nowMs, slotTime))
    {
      if Slot(nowMs, slotTime) < time then time else Slot(nowMs, slotTime)
    }

    /** Zero the positions the turn that ends at `now` reuses. */
    method Advance(now: int)
      requires window.Length > 0 && time <= now
      modifies window
      ensures forall s :: now - window.Length < s <= time ==>
        window[s % window.Length] == old(window[s % window.Length])
      ensures forall s :: time < s <= now && now - window.Length < s ==> window[s % window.Length] == 0
    {
      var size := window.Length;
      var cutoff := now - size;
      if time > cutoff {
        var c := cutoff;
        while c > time - size
          invariant time - size <= c <= cutoff
          invariant forall s :: cutoff < s <= time ==> window[s % size] == old(window[s % size])
          invariant forall s :: c + size < s <= now ==> window[s % size] == 0
        {
          RingPeriod(c + size, size);
          RingDistinct(c + size, cutoff, size);
          window[c % size] := 0;
          c := c - 1;
        }
      } else {
        forall i | 0 <= i < size {
          window[i] := 0;
        }
      }
    }

    /** Record `count` items at `nowMs`. */
    method Inc(count: nat, nowMs: nat)
      requires Valid()
      modifies this`time, this`log, window
      ensures Valid()
      ensures time == old(ToTime(nowMs)) && log == old(log) + [Event(time, count)]
    {
      var now := ToTime(nowMs);
      ghost var before := window[..];
      Advance(now);
      RingAdvances(before, window[..], log, time, now);
      ghost var moved := window[..];
      RingCounts(moved, log, now, count);
      var p := now % window.Length;
      window[p] := window[p] + count;
      assert window[..] == moved[p := moved[p] + count];
      log := log + [Event(now, count)];
      time := now;
    }

    /** The rolling rate: the contribution of everything recorded in the last `windowSize + 1`
        slots. */
    method GetRate(nowMs: nat) returns (rate: real)
      requires Valid()
      ensures var now := ToTime(nowMs);
        rate == Contribution(Items(log, now - (windowSize + 1), now), windowSize, slotTime)
    {
      var now := ToTime(nowMs);
      var size := window.Length;
      var cutoff := now - size;
      var t := time;
      var count: nat := 0;
      ItemsNone(log, time, time);
      while t > cutoff
        invariant t <= time && (t >= cutoff || t == time)
        invariant count == Items(log, t, time)
        decreases t - cutoff
      {
        assert window[..][t % size] == Items(log, t - 1, t);
        ItemsSplit(log, t - 1, t, time);
        count := count + window[t % size];
        t := t - 1;
      }
      if time > cutoff {
        NothingAhead(log, time, time, now);
        ItemsSplit(log, cutoff, time, now);
      } else {
        NothingAhead(log, time, cutoff, now);
      }
      rate := Contribution(count, windowSize, slotTime);
    }
  }

  // ----- configuration --------------------------------------------------------------

  const RATE_WINDOW_SIZE: nat := 10

  /** The rate `count` items contribute to a window of `windowSize` slots. */
  function Contribution(count: nat, windowSize: nat, slotTime: nat): real
    requires windowSize > 0 && slotTime > 0
  {
    1000.0 * count as real / (windowSize * slotTime) as real
  }

  function Ceiling(x: real): int {
    if x.Floor as real == x then x.Floor else x.Floor + 1
  }

  /** The slot length for a limit: at least one item fits in a window. */
  function SlotTimeFor(windowSize: nat, limit: real): (s: nat)
    requires windowSize > 0 && limit > 0.0
    ensures s > 0
  {
    if limit < 1.0 then
      assert limit * windowSize as real > 0.0;
      assert 1000.0 / (limit * windowSize as real) > 0.0;
      Ceiling(1000.0 / (limit * windowSize as real))
    else 100
  }

  /** The largest whole reservation an empty window admits. */
  function CallsPerWindow(limit: real, windowSize: nat, slotTime: nat): (n: nat)
    requires windowSize > 0 && slotTime > 0 && limit > 0.0
  {
    assert (windowSize * slotTime) as real > 0.0;
    assert limit / Contribution(1, windowSize, slotTime) > 0.0;
    (limit / Contribution(1, windowSize, slotTime)).Floor
  }

  lemma DivLe(x: real, y: real, k: real)
    requires k > 0.0
    ensures x / k <= y <==> x <= y * k
  {
  }

  /** Items that fit one window of the limit. */
  ghost predicate Fits(items: nat, limit: real, windowSize: nat, slotTime: nat) {
    1000.0 * items as real <= limit * (windowSize * slotTime) as real
  }

  /** A reservation fits exactly when the items, scaled, fit the limit over the window. */
  lemma FitsScaled(held: nat, count: nat, limit: real, windowSize: nat, slotTime: nat)
    requires windowSize > 0 && slotTime > 0
    ensures Contribution(held, windowSize, slotTime) + Contribution(count, windowSize, slotTime) <= limit <==>
      Fits(held + count, limit, windowSize, slotTime)
  {
    var k := (windowSize * slotTime) as real;
    assert windowSize * slotTime > 0;
    assert Contribution(held, windowSize, slotTime) + Contribution(count, windowSize, slotTime)
        == (1000.0 * (held + count) as real) / k;
    DivLe(1000.0 * (held + count) as real, limit, k);
  }
}
