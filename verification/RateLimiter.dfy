/** The token bucket of gateway/src/RateLimiter.cpp, with real numbers for doubles. The steady clock counts
    nanoseconds; `refill` sees whole microseconds of it and forgets the rest. */
module RateLimiter {
  const NANOS: real := 1000000000.0

  datatype Bucket = Bucket(rate: real, capacity: nat, tokens: real, last: int) {
    ghost predicate Valid() {
      rate >= 0.0 && 0.0 <= tokens <= capacity as real
    }
  }

  function Min(x: real, y: real): real { if x < y then x else y }

  /** `duration_cast<microseconds>(to - from).count() / 1e6`, truncated toward zero. */
  function Elapsed(from: int, to: int): real {
    (if to >= from then (to - from) / 1000 else -((from - to) / 1000)) as real / 1000000.0
  }

  function NewTokens(elapsed: real, rate: real): real {
    elapsed * rate
  }

  function Refill(b: Bucket, now: int): Bucket {
    var e := Elapsed(b.last, now);
    if e <= 0.0 then b else b.(tokens := Min(b.capacity as real, b.tokens + NewTokens(e, b.rate)), last := now)
  }

  function TryConsume(b: Bucket, now: int): (bool, Bucket) {
    var r := Refill(b, now);
    if r.tokens >= 1.0 then (true, r.(tokens := r.tokens - 1.0)) else (false, r)
  }

  function Ceil(x: real): int { -((-x).Floor) }

  function RetryAfter(b: Bucket): int
    requires b.rate > 0.0
  {
    var deficit := 1.0 - b.tokens;
    if deficit <= 0.0 then 0 else Ceil(deficit / b.rate)
  }

  class SteadyClock {
    var now: int

    method Now() returns (t: int)
      modifies this
      ensures t == now >= old(now)
    {
      var step: nat :| step >= 0;
      now := now + step;
      t := now;
    }
  }

  class Limiter {
    const clock: SteadyClock
    const capacity: nat
    var rate: real
    var tokens: real
    var lastRefill: int

    ghost function State(): Bucket
      reads this
    {
      Bucket(rate, capacity, tokens, lastRefill)
    }

    constructor (c: SteadyClock, perSecond: real, max: nat)
      ensures clock == c && State() == Bucket(perSecond, max, max as real, c.now)
    {
      clock, rate, capacity, tokens, lastRefill := c, perSecond, max, max as real, c.now;
    }

    method DoRefill()
      modifies this, clock
      ensures clock.now >= old(clock.now) && State() == Refill(old(State()), clock.now)
    {
      var now := clock.Now();
      var elapsed := Elapsed(lastRefill, now);
      if elapsed <= 0.0 { return; }
      var newTokens := NewTokens(elapsed, rate);
      tokens := Min(capacity as real, tokens + newTokens);
      lastRefill := now;
    }

    method Consume() returns (ok: bool)
      modifies this, clock
      ensures clock.now >= old(clock.now) && (ok, State()) == TryConsume(old(State()), clock.now)
    {
      DoRefill();
      if tokens >= 1.0 {
        tokens := tokens - 1.0;
        return true;
      }
      return false;
    }

    method RetryAfterSeconds() returns (wait: real)
      requires rate > 0.0
      ensures wait == RetryAfter(State()) as real && (tokens >= 1.0 ==> wait == 0.0)
    {
      var deficit := 1.0 - tokens;
      if deficit <= 0.0 { return 0.0; }
      wait := Ceil(deficit / rate) as real;
    }

    method Reset()
      modifies this, clock
      ensures clock.now >= old(clock.now) && State() == Bucket(rate, capacity, capacity as real, clock.now) &&
              rate == old(rate)
    {
      tokens := capacity as real;
      lastRefill := clock.Now();
    }
  }

  // ---------- Arithmetic ----------

  lemma TokensGrow(x: real, y: real, rate: real)
    requires x <= y && rate >= 0.0
    ensures NewTokens(x, rate) <= NewTokens(y, rate)
    ensures 0.0 <= x ==> 0.0 <= NewTokens(x, rate)
    ensures x < y && rate > 0.0 ==> NewTokens(x, rate) < NewTokens(y, rate)
  {
    assert (y - x) * rate == y * rate - x * rate;
  }

  lemma TokensAdd(x: real, y: real, rate: real)
    ensures NewTokens(x, rate) + NewTokens(y, rate) == NewTokens(x + y, rate)
    ensures NewTokens(x, 0.0) == 0.0 == NewTokens(0.0, rate)
  {
  }

  /** Truncation never runs ahead of the clock, and lags it by less than a microsecond. */
  lemma ElapsedBound(from: int, to: int)
    requires from <= to
    ensures 0.0 <= Elapsed(from, to) <= (to - from) as real / NANOS < Elapsed(from, to) + 0.000001
    ensures Elapsed(from, to) == 0.0 ==> to - from < 1000
    ensures (to - from) % 1000 == 0 ==> Elapsed(from, to) == (to - from) as real / NANOS
  {
    var q := (to - from) / 1000;
    assert to - from == 1000 * q + (to - from) % 1000;
  }

  /** What `ns` nanoseconds bring in. */
  function Gain(rate: real, ns: int): real {
    NewTokens(ns as real / NANOS, rate)
  }

  lemma GainAdds(rate: real, x: int, y: int)
    ensures Gain(rate, x) + Gain(rate, y) == Gain(rate, x + y)
  {
    assert x as real / NANOS + y as real / NANOS == (x + y) as real / NANOS;
    TokensAdd(x as real / NANOS, y as real / NANOS, rate);
  }

  lemma GainGrows(rate: real, x: int, y: int)
    requires rate >= 0.0 && x <= y
    ensures Gain(rate, x) <= Gain(rate, y)
    ensures 0 <= x ==> 0.0 <= Gain(rate, x)
  {
    TokensGrow(x as real / NANOS, y as real / NANOS, rate);
  }

  // ---------- The window bound ----------

  ghost predicate NonDecreasing(ts: seq<int>) {
    forall i, j :: 0 <= i < j < |ts| ==> ts[i] <= ts[j]
  }

  /** How many of the calls at times `ts` are accepted. */
  function Accepted(b: Bucket, ts: seq<int>): nat
    decreases |ts|
  {
    if ts == [] then 0 else
    var (ok, b') := TryConsume(b, ts[0]);
    (if ok then 1 else 0) + Accepted(b', ts[1..])
  }

  /** One call keeps 0 <= tokens <= capacity, and spends no more than time brings in. */
  lemma CallPotential(b: Bucket, now: int)
    requires b.Valid() && b.last <= now
    ensures var (ok, b') := TryConsume(b, now);
            && b'.Valid() && b'.rate == b.rate && b'.capacity == b.capacity && b.last <= b'.last <= now < b'.last + 1000
            && b'.tokens + (if ok then 1.0 else 0.0) <= b.tokens + Gain(b.rate, b'.last - b.last)
            && b'.tokens + (if ok then 1.0 else 0.0) <= b.capacity as real
  {
    var e := Elapsed(b.last, now);
    ElapsedBound(b.last, now);
    TokensGrow(e, (now - b.last) as real / NANOS, b.rate);
    TokensAdd(0.0, 0.0, b.rate);
    hide Elapsed, NewTokens;
  }

  /** tokens after + accepted <= tokens before + rate * elapsed, over any sequence of calls. */
  lemma {:induction false} Potential(b: Bucket, ts: seq<int>)
    requires b.Valid() && NonDecreasing(ts) && (ts != [] ==> b.last <= ts[0])
    ensures ts == [] ==> Accepted(b, ts) == 0
    ensures ts != [] ==> Accepted(b, ts) as real <= b.tokens + Gain(b.rate, ts[|ts| - 1] - b.last)
    decreases |ts|
  {
    hide Gain, TryConsume;
    if ts != [] {
      var (ok, b') := TryConsume(b, ts[0]);
      CallPotential(b, ts[0]);
      var end := ts[|ts| - 1];
      if ts[1..] == [] {
        GainGrows(b.rate, 0, end - b'.last);
      } else {
        assert ts[1..][|ts[1..]| - 1] == end;
        Potential(b', ts[1..]);
      }
      GainAdds(b.rate, b'.last - b.last, end - b'.last);
    }
  }

  /** From the first call of a window on, at most a full bucket plus what its time brings in; time counts from the
      last refill, which lags the first call by less than a microsecond. */
  lemma WindowFromHere(b: Bucket, ts: seq<int>)
    requires b.Valid() && NonDecreasing(ts) && ts != [] && b.last <= ts[0]
    ensures var since := Refill(b, ts[0]).last;
            && ts[0] - 1000 < since <= ts[0]
            && Accepted(b, ts) as real <= b.capacity as real + Gain(b.rate, ts[|ts| - 1] - since)
  {
    hide Gain, Elapsed, TryConsume;
    RefillValid(b, ts[0]);
    RefillAgain(b, ts[0]);
    Potential(Refill(b, ts[0]), ts);
    hide Refill;
  }

  lemma RefillValid(b: Bucket, now: int)
    requires b.Valid() && b.last <= now
    ensures var r := Refill(b, now);
            r.Valid() && b.last <= r.last <= now < r.last + 1000 && r.rate == b.rate && r.capacity == b.capacity
  {
    ElapsedBound(b.last, now);
    TokensGrow(Elapsed(b.last, now), Elapsed(b.last, now), b.rate);
    hide Elapsed, NewTokens;
  }

  lemma RefillAgain(b: Bucket, now: int)
    ensures Refill(Refill(b, now), now) == Refill(b, now)
    ensures TryConsume(Refill(b, now), now) == TryConsume(b, now)
  {
  }

  /** The bucket after some calls. */
  function After(b: Bucket, ts: seq<int>): Bucket
    decreases |ts|
  {
    if ts == [] then b else After(TryConsume(b, ts[0]).1, ts[1..])
  }

  lemma {:induction false} AfterValid(b: Bucket, ts: seq<int>, now: int)
    requires b.Valid() && NonDecreasing(ts) && (ts != [] ==> b.last <= ts[0] && ts[|ts| - 1] <= now) && b.last <= now
    ensures var a := After(b, ts); a.Valid() && a.rate == b.rate && a.capacity == b.capacity && a.last <= now
    decreases |ts|
  {
    hide Gain, TryConsume;
    if ts != [] {
      CallPotential(b, ts[0]);
      AfterValid(TryConsume(b, ts[0]).1, ts[1..], now);
    }
  }

  /** Every window [ts[i], ts[j]] of every run of calls: at most capacity + rate * (length + 1 microsecond) accepted,
      and 0 <= tokens <= capacity throughout. */
  lemma WindowBound(b: Bucket, ts: seq<int>, i: nat, j: nat)
    requires b.Valid() && NonDecreasing(ts) && i <= j < |ts| && b.last <= ts[0]
    ensures var a := After(b, ts[..i]);
            && a.Valid()
            && Accepted(a, ts[i..j + 1]) as real <= b.capacity as real + Gain(b.rate, ts[j] - ts[i] + 1000)
  {
    hide Gain, Refill, TryConsume;
    AfterValid(b, ts[..i], ts[i]);
    var a, w := After(b, ts[..i]), ts[i..j + 1];
    WindowFromHere(a, w);
    GainGrows(b.rate, ts[j] - Refill(a, ts[i]).last, ts[j] - ts[i] + 1000);
  }

  /** The gateway's bucket in numbers: from empty, a call is accepted from a tenth of a second on and not before; after
      two seconds the bucket holds its twenty tokens. */
  lemma TenPerSecond(last: int, now: int)
    requires last <= now
    ensures var b := Bucket(10.0, 20, 0.0, last);
            && (TryConsume(b, now).0 <==> now - last >= 100000000)
            && (now - last >= 2000000000 ==> Refill(b, now).tokens == 20.0)
            && (TryConsume(b, now).0 ==> TryConsume(b, now).1.tokens == Refill(b, now).tokens - 1.0)
  {
    var q := (now - last) / 1000;
    assert Elapsed(last, now) == q as real / 1000000.0;
    assert now - last >= 100000000 <==> q >= 100000;
    assert now - last >= 2000000000 <==> q >= 2000000;
    hide Elapsed;
  }

  // ---------- How exact the bound is ----------

  ghost predicate ExactBound(b: Bucket, ts: seq<int>)
    requires ts != []
  {
    Accepted(b, ts) as real <= b.capacity as real + Gain(b.rate, ts[|ts| - 1] - ts[0])
  }

  /** A window whose first call leaves `residue` nanoseconds that refill has not counted. */
  ghost predicate StartsWith(b: Bucket, ts: seq<int>, residue: nat) {
    b.Valid() && NonDecreasing(ts) && ts != [] && b.last <= ts[0] && ts[0] - Refill(b, ts[0]).last == residue
  }

  /** The tokens of one microsecond, the smallest step that refill counts. */
  function PerMicro(rate: real): real {
    rate / 1000000.0
  }

  /** By how much a microsecond's tokens exceed the bucket less one token. */
  function Excess(rate: real, capacity: nat): real {
    PerMicro(rate) - (capacity as real - 1.0)
  }

  function Times(n: int, w: real): real {
    n as real * w
  }

  /** The tokens that any use of the bucket beyond its first filling must leave or spill: none if it holds a
      microsecond's tokens on top of one. */
  function Spare(rate: real, capacity: nat): real {
    var w := Excess(rate, capacity);
    if w <= 0.0 then 0.0 else Times(Ceil(1.0 / w), w) - 1.0
  }

  /** The whole tokens that come with e microseconds' excess. */
  function Whole(e: nat, capacity: nat): int {
    e * (capacity - 1)
  }

  lemma TimesOrder(m: int, n: int, w: real)
    requires w > 0.0
    ensures m < n <==> Times(m, w) < Times(n, w)
    ensures m == n <==> Times(m, w) == Times(n, w)
  {
    if m < n {
      Scale(m as real, n as real, w);
    } else if n < m {
      Scale(n as real, m as real, w);
    }
  }

  lemma Scale(x: real, y: real, w: real)
    requires w > 0.0 && x < y
    ensures x * w < y * w
  {
    assert (y - x) * w > 0.0;
  }

  lemma TimesAdd(m: int, n: int, w: real)
    ensures Times(m, w) + Times(n, w) == Times(m + n, w)
    ensures Times(0, w) == 0.0 && Times(1, w) == w
  {
  }

  lemma {:induction false} MicrosSplit(e: nat, rate: real, capacity: nat)
    requires rate > 0.0
    ensures Times(e, PerMicro(rate)) == Times(e, Excess(rate, capacity)) + Whole(e, capacity) as real
    ensures e >= 1 && capacity >= 1 ==> Whole(e, capacity) >= capacity - 1
    decreases e
  {
    ExcessIs(rate, capacity);
    TimesAdd(0, 1, PerMicro(rate));
    TimesAdd(0, 1, Excess(rate, capacity));
    if e > 0 {
      TimesAdd(e - 1, 1, PerMicro(rate));
      TimesAdd(e - 1, 1, Excess(rate, capacity));
      MicrosSplit(e - 1, rate, capacity);
      WholeNext(e, capacity);
    }
    hide Times, PerMicro, Excess, Whole;
    if e == 1 {
      WholeNext(e, capacity);
    }
  }

  lemma WholeNext(e: nat, capacity: nat)
    ensures Whole(0, capacity) == 0 && (e > 0 ==> Whole(e, capacity) == Whole(e - 1, capacity) + capacity - 1)
  {
  }

  lemma CeilTimes(w: real)
    requires w > 0.0
    ensures Times(Ceil(1.0 / w) - 1, w) < 1.0 <= Times(Ceil(1.0 / w), w)
  {
    var x, k := 1.0 / w, Ceil(1.0 / w);
    CeilBound(x);
    assert x * w == 1.0;
    hide Ceil;
    Scale(k as real - 1.0, x, w);
    if x < k as real {
      Scale(x, k as real, w);
    }
  }

  lemma SpareBound(rate: real, capacity: nat, j: nat)
    requires Excess(rate, capacity) > 0.0
    ensures var w := Excess(rate, capacity);
            && 0.0 <= Spare(rate, capacity) < w
            && (Times(j, w) >= 1.0 ==> Times(j, w) - 1.0 >= Spare(rate, capacity))
  {
    hide Times, Excess, Ceil;
    var w := Excess(rate, capacity);
    var k := Ceil(1.0 / w);
    CeilTimes(w);
    TimesAdd(k - 1, 1, w);
    TimesOrder(j, k, w);
    TimesOrder(k - 1, j, w);
  }

  lemma GainMicros(rate: real, from: int, to: int)
    requires from <= to
    ensures NewTokens(Elapsed(from, to), rate) == Times((to - from) / 1000, PerMicro(rate))
  {
    var q := ((to - from) / 1000) as real;
    assert q / 1000000.0 * rate == q * (rate / 1000000.0);
  }

  lemma ExcessIs(rate: real, capacity: nat)
    requires rate > 0.0
    ensures PerMicro(rate) == Excess(rate, capacity) + (capacity as real - 1.0) && PerMicro(rate) > 0.0
  {
  }

  /** The spill at a refill that does not fit, from at most j microseconds' excess and s whole tokens. */
  lemma Spill(rate: real, capacity: nat, j: nat, s: nat, e: nat)
    requires rate > 0.0 && capacity >= 1 && Excess(rate, capacity) > 0.0 && e >= 1
    requires Times(j, Excess(rate, capacity)) + s as real + Times(e, PerMicro(rate)) > capacity as real
    ensures Times(j, Excess(rate, capacity)) + s as real +
            Times(e, PerMicro(rate)) - capacity as real >= Spare(rate, capacity)
  {
    hide Times, Excess, PerMicro, Spare, Whole;
    var w := Excess(rate, capacity);
    SpareBound(rate, capacity, j + e);
    MicrosSplit(e, rate, capacity);
    TimesAdd(j, e, w);
    TimesAdd(0, 1, w);
    TimesOrder(1, j + e, w);
  }

  /** A refill that counts e microseconds either spills at least the spare, or adds e microseconds' excess and the
      whole tokens that come with it. */
  lemma CountedRefill(b: Bucket, now: int, j: nat, s: nat) returns (e: nat)
    requires b.Valid() && b.rate > 0.0 && b.capacity >= 1 && Excess(b.rate, b.capacity) > 0.0 && b.last <= now
    requires Elapsed(b.last, now) > 0.0 && b.tokens <= Times(j, Excess(b.rate, b.capacity)) + s as real
    ensures e >= 1 && Whole(e, b.capacity) >= 0
    ensures var r, w, b1 := Times(e, PerMicro(b.rate)), Excess(b.rate, b.capacity), Refill(b, now);
            var u := Times(j, w) + s as real;
            && r <= Gain(b.rate, now - b.last) && b1.tokens <= b.capacity as real && b1.tokens <= u + r
            && if u + r > b.capacity as real then u + r - b.capacity as real >= Spare(b.rate, b.capacity)
               else Times(j + e, w) <= 1.0 && u + r == Times(j + e, w) + (s + Whole(e, b.capacity)) as real
  {
    hide Times, PerMicro, Excess, Spare, Whole;
    e := (now - b.last) / 1000;
    var r, w := PerMicro(b.rate), Excess(b.rate, b.capacity);
    GainMicros(b.rate, b.last, now);
    ElapsedBound(b.last, now);
    TokensGrow(Elapsed(b.last, now), (now - b.last) as real / NANOS, b.rate);
    ExcessIs(b.rate, b.capacity);
    assert e >= 1;
    MicrosSplit(e, b.rate, b.capacity);
    hide Elapsed, NewTokens, Ceil;
    if Times(j, w) + s as real + Times(e, r) > b.capacity as real {
      Spill(b.rate, b.capacity, j, s, e);
    } else {
      TimesAdd(j, e, w);
    }
  }

  lemma AcceptedAfterRefill(b: Bucket, ts: seq<int>)
    requires ts != []
    ensures Accepted(b, ts) == Accepted(Refill(b, ts[0]), ts)
  {
    RefillAgain(b, ts[0]);
    hide Refill;
  }

  lemma UncountedCall(b: Bucket, now: int)
    requires !(Elapsed(b.last, now) > 0.0)
    ensures Refill(b, now) == b
    ensures TryConsume(b, now) == if b.tokens >= 1.0 then (true, b.(tokens := b.tokens - 1.0)) else (false, b)
  {
  }

  /** At most j microseconds' excess and s whole tokens are left. */
  ghost predicate Holds(b: Bucket, j: nat, s: nat) {
    var w := Excess(b.rate, b.capacity);
    b.Valid() && b.rate > 0.0 && b.capacity >= 1 && w > 0.0 && Times(j, w) < 1.0 && b.tokens <= Times(j, w) + s as real
  }

  ghost predicate Ahead(b: Bucket, ts: seq<int>) {
    NonDecreasing(ts) && ts != [] && b.last <= ts[0]
  }

  /** No more than s calls are accepted, or the spare is lost. */
  ghost predicate Wasted(b: Bucket, ts: seq<int>, j: nat, s: nat)
    requires ts != []
  {
    || Accepted(b, ts) <= s
    || Accepted(b, ts) as real <= Times(j, Excess(b.rate, b.capacity)) + s as real
         + Gain(b.rate, ts[|ts| - 1] - b.last) - Spare(b.rate, b.capacity)
  }

  lemma WasteUncounted(b: Bucket, ts: seq<int>, j: nat, s: nat) returns (s': nat)
    requires Holds(b, j, s) && Ahead(b, ts) && !(Elapsed(b.last, ts[0]) > 0.0)
    ensures var b', rest := TryConsume(b, ts[0]).1, ts[1..];
            if rest == [] then Wasted(b, ts, j, s)
            else Holds(b', j, s') && Ahead(b', rest) && (Wasted(b', rest, j, s') ==> Wasted(b, ts, j, s))
  {
    UncountedCall(b, ts[0]);
    hide Elapsed, Gain, Excess, Times, Spare, TryConsume;
    s' := if b.tokens >= 1.0 then s - 1 else s;
    if ts[1..] == [] {
      assert Accepted(TryConsume(b, ts[0]).1, ts[1..]) == 0;
    }
  }

  lemma WasteCounted(b: Bucket, ts: seq<int>, j: nat, s: nat) returns (b1: Bucket, k: nat, t: nat)
    requires Holds(b, j, s) && Ahead(b, ts) && Elapsed(b.last, ts[0]) > 0.0
    ensures b1.last == ts[0]
    ensures Wasted(b, ts, j, s) || (Holds(b1, k, t) && Ahead(b1, ts))
    ensures Ahead(b1, ts) && Wasted(b1, ts, k, t) ==> Wasted(b, ts, j, s)
  {
    hide Times, Spare, Excess, PerMicro, Gain, Whole;
    var now, end, w := ts[0], ts[|ts| - 1], Excess(b.rate, b.capacity);
    var e := CountedRefill(b, now, j, s);
    b1, k := Refill(b, now), j + e;
    t := s + Whole(e, b.capacity);
    RefillValid(b, now);
    assert b1.last == now;
    hide Elapsed, Refill;
    AcceptedAfterRefill(b, ts);
    assert now <= end;
    Potential(b1, ts);
    hide Accepted, NonDecreasing;
    GainGrows(b.rate, end - now, end - now);
    GainAdds(b.rate, now - b.last, end - now);
    SpareBound(b.rate, b.capacity, j + e);
    TimesAdd(0, 1, w);
    TimesOrder(1, j + e, w);
  }

  lemma {:induction false} Waste(b: Bucket, ts: seq<int>, j: nat, s: nat)
    requires Holds(b, j, s) && Ahead(b, ts)
    ensures Wasted(b, ts, j, s)
    decreases |ts|, if Elapsed(b.last, ts[0]) > 0.0 then 1 else 0
  {
    var now := ts[0];
    assert !(Elapsed(now, now) > 0.0);
    hide Holds, Wasted, Elapsed, Refill, TryConsume;
    if Elapsed(b.last, now) > 0.0 {
      var b1, k, t := WasteCounted(b, ts, j, s);
      if !Wasted(b, ts, j, s) {
        Waste(b1, ts, k, t);
      }
    } else {
      var s' := WasteUncounted(b, ts, j, s);
      if ts[1..] != [] {
        Waste(TryConsume(b, now).1, ts[1..], j, s');
      }
    }
  }

  lemma {:induction false} EmptyBucket(b: Bucket, ts: seq<int>)
    requires b.Valid() && b.capacity == 0 && NonDecreasing(ts) && (ts != [] ==> b.last <= ts[0])
    ensures Accepted(b, ts) == 0
    decreases |ts|
  {
    if ts != [] {
      CallPotential(b, ts[0]);
      hide TryConsume, Gain;
      EmptyBucket(TryConsume(b, ts[0]).1, ts[1..]);
    }
  }

  /** Where the bound holds: what the uncounted remainder could bring in is no more than the spare. */
  lemma BoundHolds(b: Bucket, ts: seq<int>, residue: nat)
    requires StartsWith(b, ts, residue) && Gain(b.rate, residue) <= Spare(b.rate, b.capacity)
    ensures ExactBound(b, ts)
  {
    var b1, now, end, w := Refill(b, ts[0]), ts[0], ts[|ts| - 1], Excess(b.rate, b.capacity);
    assert now <= end;
    WindowFromHere(b, ts);
    RefillValid(b, now);
    AcceptedAfterRefill(b, ts);
    GainAdds(b.rate, end - now, residue);
    GainGrows(b.rate, end - now, end - now);
    TimesAdd(0, 1, w);
    if b.capacity == 0 {
      EmptyBucket(b, ts);
    } else if b.rate == 0.0 {
      TokensAdd(residue as real / NANOS, 0.0, 0.0);
    } else if w > 0.0 {
      hide Gain, Times, Excess, Spare, Accepted, Refill;
      Waste(b1, ts, 0, b.capacity);
    }
  }

  // ---------- Multiples that are nearly whole ----------

  /** By how much n * x falls short of a whole number. */
  function Gap(x: real, n: nat): real {
    Ceil(Times(n, x)) as real - Times(n, x)
  }

  function Halves(k: nat): real {
    if k == 0 then 1.0 else Halves(k - 1) / 2.0
  }

  lemma GapIs(x: real, n: nat, z: int, g: real)
    requires Times(n, x) == z as real - g && 0.0 <= g < 1.0
    ensures Gap(x, n) == g
  {
    hide Times, Ceil;
    CeilBound(Times(n, x));
    WithinOne(Ceil(Times(n, x)), z);
  }

  lemma WithinOne(k: int, z: int)
    requires z as real - 1.0 < k as real < z as real + 1.0
    ensures k == z
  {
  }

  lemma {:induction false} Multiple(p: nat, n: nat, x: real, c: int, a: real)
    requires Times(n, x) == c as real - a
    ensures Times(p * n, x) == (p * c) as real - Times(p, a)
  {
    hide Times;
    TimesAdd(0, 1, x);
    TimesAdd(0, 1, a);
    if p > 0 {
      Multiple(p - 1, n, x, c, a);
      assert p * n == (p - 1) * n + n && p * c == (p - 1) * c + c;
      TimesAdd(p - 1, 1, a);
      TimesAdd((p - 1) * n, n, x);
    } else {
      assert p * n == 0 && p * c == 0;
    }
  }

  /** A multiple of n with at most half the gap. */
  lemma HalveGap(x: real, n: nat) returns (m: nat)
    requires n >= 1
    ensures m >= 1 && Gap(x, m) <= Gap(x, n) / 2.0
  {
    var a, c := Gap(x, n), Ceil(Times(n, x));
    CeilBound(Times(n, x));
    if a == 0.0 { return n; }
    var p := Ceil(1.0 / a);
    CeilTimes(a);
    TimesAdd(p - 1, 1, a);
    TimesAdd(0, 1, a);
    TimesOrder(0, p, a);
    TimesOrder(p, 1, a);
    assert p >= 2;
    assert Times(n, x) == c as real - a;
    hide Ceil, Gap, Times;
    var over, b := Times(p, a) - 1.0, 1.0 - Times(p - 1, a);
    if over <= a / 2.0 {
      m := p * n;
      Multiple(p, n, x, c, a);
      GapIs(x, m, p * c - 1, over);
      Positive(p, n);
    } else {
      Multiple(p - 1, n, x, c, a);
      Positive(p - 1, n);
      m := UpFromBelow(x, (p - 1) * n, (p - 1) * c - 1, b);
    }
  }

  lemma Positive(p: nat, n: nat)
    requires p >= 1 && n >= 1
    ensures p * n >= 1
  {
  }

  /** n * x a little above a whole number: step up to just below the next one. */
  lemma UpFromBelow(x: real, n: nat, c: int, b: real) returns (m: nat)
    requires n >= 1 && 0.0 < b < 0.5 && Times(n, x) == c as real + b
    ensures m >= 1 && Gap(x, m) <= b
  {
    var q := Ceil(1.0 / b) - 1;
    CeilTimes(b);
    TimesAdd(q, 1, b);
    TimesAdd(0, 1, b);
    TimesOrder(q + 1, 1, b);
    TimesOrder(q + 1, 0, b);
    assert q >= 1;
    m := q * n;
    Positive(q, n);
    Multiple(q, n, x, c, -b);
    assert Times(q, -b) == -Times(q, b);
    hide Times, Gap;
    GapIs(x, m, q * c + 1, 1.0 - Times(q, b));
  }

  lemma {:induction false} NearlyWhole(x: real, k: nat) returns (n: nat)
    ensures n >= 1 && 0.0 <= Gap(x, n) <= Halves(k)
  {
    if k == 0 {
      n := 1;
    } else {
      var m := NearlyWhole(x, k - 1);
      n := HalveGap(x, m);
    }
    CeilBound(Times(n, x));
  }

  lemma TenHalves()
    ensures Halves(10) == 1.0 / 1024.0
  {
    assert Halves(2) == 0.25 && Halves(4) == 0.0625 && Halves(6) == 1.0 / 64.0 && Halves(8) == 1.0 / 256.0;
  }

  // ---------- Where it fails ----------

  function Copies(t: int, n: nat): (ts: seq<int>)
    ensures |ts| == n && forall i :: 0 <= i < n ==> ts[i] == t
  {
    if n == 0 then [] else [t] + Copies(t, n - 1)
  }

  /** As many calls as the bucket can hold, after `residue` nanoseconds and then at every microsecond up to m. */
  function Rush(capacity: nat, residue: nat, m: nat): (ts: seq<int>)
    decreases m
  {
    if m == 0 then Copies(residue, capacity) else Rush(capacity, residue, m - 1) + Copies(1000 * m, capacity)
  }

  lemma {:induction false} RushTimes(capacity: nat, residue: nat, m: nat)
    requires capacity >= 1 && residue < 1000
    ensures var ts := Rush(capacity, residue, m);
            && ts != [] && ts[0] == residue && ts[|ts| - 1] == (if m == 0 then residue else 1000 * m)
            && NonDecreasing(ts) && forall i :: 0 <= i < |ts| ==> ts[i] <= if m == 0 then residue else 1000 * m
  {
    if m > 0 {
      RushTimes(capacity, residue, m - 1);
    }
  }

  lemma {:induction false} AcceptedSplit(b: Bucket, s: seq<int>, t: seq<int>)
    ensures Accepted(b, s + t) == Accepted(b, s) + Accepted(After(b, s), t)
    ensures After(b, s + t) == After(After(b, s), t)
    decreases |s|
  {
    hide TryConsume;
    if s == [] {
      assert s + t == t;
    } else {
      assert (s + t)[1..] == s[1..] + t;
      AcceptedSplit(TryConsume(b, s[0]).1, s[1..], t);
    }
  }

  /** n calls at one moment take n tokens, or all whole tokens there are. */
  lemma {:induction false} Burst(b: Bucket, t: int, n: nat, whole: nat)
    requires !(Elapsed(b.last, t) > 0.0) && whole as real <= b.tokens < whole as real + 1.0
    ensures var k := if n < whole then n else whole;
            Accepted(b, Copies(t, n)) == k && After(b, Copies(t, n)) == b.(tokens := b.tokens - k as real)
    decreases n
  {
    if n > 0 {
      UncountedCall(b, t);
      assert Copies(t, n)[1..] == Copies(t, n - 1);
      hide Elapsed, TryConsume, Refill;
      if whole > 0 {
        Burst(b.(tokens := b.tokens - 1.0), t, n - 1, whole - 1);
      } else {
        Burst(b, t, n - 1, 0);
      }
    } else {
      assert b.(tokens := b.tokens - 0.0) == b;
    }
  }

  lemma BurstRefilled(b: Bucket, t: int, n: nat, whole: nat)
    requires n > 0 && Refill(b, t).last == t && whole as real <= Refill(b, t).tokens < whole as real + 1.0
    ensures var k, r := if n < whole then n else whole, Refill(b, t);
            Accepted(b, Copies(t, n)) == k && After(b, Copies(t, n)) == r.(tokens := r.tokens - k as real)
  {
    var r := Refill(b, t);
    assert !(Elapsed(r.last, t) > 0.0);
    Burst(r, t, n, whole);
    RefillAgain(b, t);
    hide Refill, TryConsume, Elapsed;
    AcceptedAfterRefill(b, Copies(t, n));
  }

  function Fraction(x: real): real {
    x - x.Floor as real
  }

  function Full(rate: real, capacity: nat): Bucket {
    Bucket(rate, capacity, capacity as real, 0)
  }

  /** No refill of the first m microseconds of the rush spills. */
  ghost predicate NoSpill(rate: real, capacity: nat, m: nat) {
    forall i: nat :: i < m ==> Fraction(Times(i, PerMicro(rate))) + PerMicro(rate) <= capacity as real
  }

  lemma NextMicro(rate: real, capacity: nat, tokens: real, m: nat)
    requires rate >= 0.0 && m >= 1
    ensures Refill(Bucket(rate, capacity, tokens, 1000 * (m - 1)), 1000 * m) ==
            Bucket(rate, capacity, Min(capacity as real, tokens + PerMicro(rate)), 1000 * m)
  {
    GainMicros(rate, 1000 * (m - 1), 1000 * m);
    TimesAdd(0, 1, PerMicro(rate));
    assert Elapsed(1000 * (m - 1), 1000 * m) == 0.000001;
    hide Times, PerMicro;
  }

  /** While nothing spills, the rush gets every whole token that comes in. */
  lemma {:induction false} RushGets(rate: real, capacity: nat, residue: nat, m: nat)
    requires rate > 0.0 && capacity >= 1 && residue < 1000 && NoSpill(rate, capacity, m)
    ensures var b, ts, x := Full(rate, capacity), Rush(capacity, residue, m), Times(m, PerMicro(rate));
            Accepted(b, ts) == capacity + x.Floor && After(b, ts) == Bucket(rate, capacity, Fraction(x), 1000 * m)
  {
    var b, r := Full(rate, capacity), PerMicro(rate);
    TimesAdd(0, 1, r);
    if m == 0 {
      assert !(Elapsed(0, residue) > 0.0);
      Burst(b, residue, capacity, capacity);
    } else {
      RushGets(rate, capacity, residue, m - 1);
      RushNext(b, capacity, residue, m);
      hide Rush;
      TimesAdd(m - 1, 1, r);
      ExcessIs(rate, capacity);
      var x, f := Times(m - 1, r), Fraction(Times(m - 1, r));
      NextMicro(rate, capacity, f, m);
      FloorAdd(x, r);
      assert f + r <= capacity as real;
      hide Times, PerMicro, Refill, Accepted, After, Elapsed, Fraction, NoSpill, Copies;
      BurstRefilled(Bucket(rate, capacity, f, 1000 * (m - 1)), 1000 * m, capacity, (f + r).Floor);
    }
  }

  lemma RushNext(b: Bucket, capacity: nat, residue: nat, m: nat)
    requires m > 0
    ensures var before, now := Rush(capacity, residue, m - 1), Copies(1000 * m, capacity);
            && Accepted(b, Rush(capacity, residue, m)) == Accepted(b, before) + Accepted(After(b, before), now)
            && After(b, Rush(capacity, residue, m)) == After(After(b, before), now)
  {
    hide Copies, Accepted, After;
    AcceptedSplit(b, Rush(capacity, residue, m - 1), Copies(1000 * m, capacity));
  }

  lemma FloorAdd(x: real, r: real)
    requires r > 0.0
    ensures var f := Fraction(x);
            && 0.0 <= f < 1.0 && (x + r).Floor == x.Floor + (f + r).Floor
            && Fraction(x + r) == Fraction(f + r) && (f + r).Floor >= 0
  {
  }

  lemma FullUncounted(rate: real, capacity: nat, residue: nat)
    requires residue < 1000
    ensures Refill(Full(rate, capacity), residue) == Full(rate, capacity)
  {
    assert !(Elapsed(0, residue) > 0.0);
    UncountedCall(Full(rate, capacity), residue);
  }

  lemma RushStarts(rate: real, capacity: nat, residue: nat, m: nat)
    requires rate > 0.0 && capacity >= 1 && residue < 1000
    ensures StartsWith(Full(rate, capacity), Rush(capacity, residue, m), residue)
  {
    hide NonDecreasing, Rush, Refill;
    RushTimes(capacity, residue, m);
    FullUncounted(rate, capacity, residue);
  }

  /** The window of the rush in tokens. */
  lemma RushWindow(rate: real, residue: nat, m: nat)
    ensures Gain(rate, 1000 * m - residue) == Times(m, PerMicro(rate)) - Gain(rate, residue)
    ensures Gain(rate, residue) == Times(residue, PerMicro(rate)) / 1000.0
  {
    GainAdds(rate, 1000 * m - residue, residue);
    assert (1000 * m) as real / NANOS * rate == m as real * (rate / 1000000.0);
    assert residue as real / NANOS * rate == residue as real * (rate / 1000000.0) / 1000.0;
  }

  /** A bucket that holds a microsecond's tokens on top of one: the rush ends when it is nearly out of step. */
  lemma RoomyFails(rate: real, capacity: nat, residue: nat) returns (ts: seq<int>)
    requires rate > 0.0 && capacity >= 1 && 0 < residue < 1000 && Excess(rate, capacity) <= 0.0
    ensures StartsWith(Full(rate, capacity), ts, residue) && !ExactBound(Full(rate, capacity), ts)
  {
    var r := PerMicro(rate);
    ExcessIs(rate, capacity);
    var x := 1.0 / r;
    assert x * r == 1.0;
    hide Excess, PerMicro, Gain, Times, Ceil, Gap;
    var n, m := NearlyWholeMicros(x);
    ts := Rush(capacity, residue, m);
    RushStarts(rate, capacity, residue, m);
    RoomyNoSpill(rate, capacity, m);
    OutOfStep(n, x, m, r, residue);
    RushExceeds(rate, capacity, residue, n, m);
  }

  lemma NearlyWholeMicros(x: real) returns (n: nat, m: nat)
    requires x > 0.0
    ensures m > 0 && 0.0 <= m as real - Times(n, x) <= 1.0 / 1024.0
  {
    n := NearlyWhole(x, 10);
    TenHalves();
    TimesAdd(0, 1, x);
    TimesOrder(0, n, x);
    hide Times, Halves;
    CeilBound(Times(n, x));
    m := Ceil(Times(n, x));
  }

  lemma RushExceeds(rate: real, capacity: nat, residue: nat, n: nat, m: nat)
    requires rate > 0.0 && capacity >= 1 && residue < 1000 && NoSpill(rate, capacity, m) && m > 0
    requires var r := PerMicro(rate); n as real <= Times(m, r) < n as real + Times(residue, r) / 1000.0
    ensures Rush(capacity, residue, m) != [] && !ExactBound(Full(rate, capacity), Rush(capacity, residue, m))
  {
    hide Excess, PerMicro, Gain, Times, NoSpill, Accepted, After, Rush, NonDecreasing;
    RushTimes(capacity, residue, m);
    RushWindow(rate, residue, m);
    RushGets(rate, capacity, residue, m);
    FloorAbove(n, Times(m, PerMicro(rate)));
  }

  lemma FloorAbove(n: nat, x: real)
    requires n as real <= x
    ensures n <= x.Floor
  {
  }

  lemma RoomyNoSpill(rate: real, capacity: nat, m: nat)
    requires rate > 0.0 && Excess(rate, capacity) <= 0.0
    ensures NoSpill(rate, capacity, m)
  {
    ExcessIs(rate, capacity);
    hide Times, Excess, PerMicro;
    forall i: nat | i < m ensures Fraction(Times(i, PerMicro(rate))) + PerMicro(rate) <= capacity as real {
      FloorAdd(Times(i, PerMicro(rate)), PerMicro(rate));
    }
  }

  lemma OutOfStep(n: nat, x: real, m: nat, r: real, residue: nat)
    requires r > 0.0 && x * r == 1.0 && residue >= 1 && 0.0 <= m as real - Times(n, x) <= 1.0 / 1024.0
    ensures n as real <= Times(m, r) < n as real + Times(residue, r) / 1000.0
  {
    var g := m as real - Times(n, x);
    InStep(n, x, m, r);
    ProductOrder(g, residue as real / 1000.0, r);
  }

  lemma InStep(n: nat, x: real, m: nat, r: real)
    requires x * r == 1.0
    ensures Times(m, r) == (m as real - Times(n, x)) * r + n as real
  {
    assert Times(n, x) * r == n as real * (x * r);
  }

  lemma ProductOrder(x: real, y: real, r: real)
    requires 0.0 <= x < y && r > 0.0
    ensures 0.0 <= x * r < y * r
  {
    Scale(x, y, r);
  }

  lemma TightMicro(rate: real, capacity: nat, i: nat, k: nat)
    requires rate > 0.0 && Excess(rate, capacity) > 0.0 && i < k && Times(k - 1, Excess(rate, capacity)) < 1.0
    ensures var x, w := Times(i, PerMicro(rate)), Excess(rate, capacity);
            && Fraction(x) == Times(i, w) && x.Floor == Whole(i, capacity) && (i + 1 < k ==> Times(i, w) + w <= 1.0)
  {
    hide Times, Excess, PerMicro, Whole, Fraction;
    var w := Excess(rate, capacity);
    TimesOrder(i, k - 1, w);
    TimesOrder(i + 1, k - 1, w);
    TimesOrder(0, i, w);
    TimesAdd(i, 1, w);
    TimesAdd(0, 1, w);
    MicrosSplit(i, rate, capacity);
    FloorOf(Times(i, PerMicro(rate)), Whole(i, capacity), Times(i, w));
  }

  lemma FloorOf(x: real, n: int, f: real)
    requires x == n as real + f && 0.0 <= f < 1.0
    ensures x.Floor == n && Fraction(x) == f
  {
  }

  /** A smaller bucket: the rush ends with the first refill that spills. */
  lemma TightFails(rate: real, capacity: nat, residue: nat) returns (ts: seq<int>)
    requires rate > 0.0 && capacity >= 1 && residue < 1000 && Excess(rate, capacity) > 0.0
    requires Gain(rate, residue) > Spare(rate, capacity)
    ensures StartsWith(Full(rate, capacity), ts, residue) && !ExactBound(Full(rate, capacity), ts)
  {
    var w, r := Excess(rate, capacity), PerMicro(rate);
    var k := Ceil(1.0 / w);
    CeilTimes(w);
    TimesAdd(0, 1, w);
    TimesOrder(0, k, w);
    ts := Rush(capacity, residue, k);
    RushStarts(rate, capacity, residue, k);
    RushTimes(capacity, residue, k);
    RushWindow(rate, residue, k);
    ExcessIs(rate, capacity);
    hide Times, Excess, PerMicro, Gain, Ceil;
    forall i: nat | i < k
      ensures Fraction(Times(i, r)) == Times(i, w) && Times(i, r).Floor == Whole(i, capacity)
      ensures i + 1 < k ==> Times(i, w) + w <= 1.0
    {
      TightMicro(rate, capacity, i, k);
    }
    assert NoSpill(rate, capacity, k - 1);
    var b, f := Full(rate, capacity), Times(k - 1, w);
    RushGets(rate, capacity, residue, k - 1);
    RushNext(b, capacity, residue, k);
    hide Rush;
    NextMicro(rate, capacity, f, k);
    MicrosSplit(k, rate, capacity);
    WholeNext(k, capacity);
    TimesAdd(k - 1, 1, w);
    hide Whole, Refill, Accepted, After;
    BurstRefilled(Bucket(rate, capacity, f, 1000 * (k - 1)), 1000 * k, capacity, capacity);
  }

  /** The bound without the microsecond, for a given rate, capacity and uncounted remainder: it holds in every window if
      and only if the remainder brings in no more than the spare. */
  lemma ExactBoundIff(rate: real, capacity: nat, residue: nat)
    requires rate >= 0.0 && residue < 1000
    ensures (forall b, ts :: StartsWith(b, ts, residue) && b.rate == rate && b.capacity == capacity ==>
               ExactBound(b, ts))
            <==> Gain(rate, residue) <= Spare(rate, capacity)
  {
    if Gain(rate, residue) <= Spare(rate, capacity) {
      forall b, ts | StartsWith(b, ts, residue) && b.rate == rate && b.capacity == capacity ensures ExactBound(b, ts) {
        BoundHolds(b, ts, residue);
      }
    } else {
      SpareOfNothing(rate, capacity, residue);
      var ts: seq<int>;
      if Excess(rate, capacity) > 0.0 {
        ts := TightFails(rate, capacity, residue);
      } else {
        ts := RoomyFails(rate, capacity, residue);
      }
      var b := Full(rate, capacity);
      assert StartsWith(b, ts, residue) && !ExactBound(b, ts);
    }
  }

  /** Without a rate or a capacity the condition always holds. */
  lemma SpareOfNothing(rate: real, capacity: nat, residue: nat)
    requires rate >= 0.0 && residue < 1000 && Gain(rate, residue) > Spare(rate, capacity)
    ensures rate > 0.0 && capacity >= 1 && (Excess(rate, capacity) <= 0.0 ==> residue > 0)
  {
    var w := Excess(rate, capacity);
    TokensAdd(residue as real / NANOS, 0.0, 0.0);
    TokensAdd(0.0, 0.0, rate);
    TimesAdd(0, 1, w);
    if w > 0.0 {
      SpareBound(rate, capacity, 0);
      CeilTimes(w);
      TimesOrder(0, Ceil(1.0 / w), w);
      TimesOrder(1, Ceil(1.0 / w), w);
    }
    if rate > 0.0 && capacity == 0 {
      RushWindow(rate, residue, 0);
      ExcessIs(rate, capacity);
      hide Gain, Times, Ceil;
      TimesUpTo(residue, PerMicro(rate));
    }
  }

  lemma TimesUpTo(residue: nat, r: real)
    requires residue < 1000 && r > 0.0
    ensures Times(residue, r) / 1000.0 < r
  {
    Scale(residue as real / 1000.0, 1.0, r);
  }

  /** The gateway's buckets, 10 tokens per second and room for 20: the bound is exact only if nothing was uncounted. */
  lemma GatewayBucket(residue: nat)
    requires residue < 1000
    ensures (forall b, ts :: StartsWith(b, ts, residue) && b.rate == 10.0 && b.capacity == 20 ==> ExactBound(b, ts))
            <==> residue == 0
  {
    ExactBoundIff(10.0, 20, residue);
    assert Spare(10.0, 20) == 0.0;
    assert Gain(10.0, residue) == residue as real / NANOS * 10.0;
    hide StartsWith, ExactBound;
  }

  // ---------- Lazy refill ----------

  /** The continuously refilled bucket. */
  function At(b: Bucket, t: int): real {
    Min(b.capacity as real, b.tokens + Gain(b.rate, t - b.last))
  }

  function Advance(b: Bucket, t: int): Bucket {
    b.(tokens := At(b, t), last := t)
  }

  lemma RefillIsContinuous(b: Bucket, now: int)
    requires b.Valid() && b.last <= now && (now - b.last) % 1000 == 0
    ensures Refill(b, now) == Advance(b, now)
  {
    ElapsedBound(b.last, now);
    TokensAdd(0.0, 0.0, b.rate);
    hide NewTokens, Elapsed;
  }

  lemma AdvanceTwice(b: Bucket, s: int, t: int)
    requires b.Valid() && b.last <= s <= t
    ensures Advance(b, s).Valid() && Advance(Advance(b, s), t) == Advance(b, t)
  {
    GainGrows(b.rate, 0, s - b.last);
    GainGrows(b.rate, 0, t - s);
    GainGrows(b.rate, s - b.last, s - b.last);
    GainGrows(b.rate, t - s, t - s);
    GainAdds(b.rate, s - b.last, t - s);
    hide Gain;
  }

  /** Calls, and refills between them that nobody asked for. */
  datatype Event = Call(t: int) | Probe(t: int)

  function Decisions(b: Bucket, es: seq<Event>): seq<bool>
    decreases |es|
  {
    if es == [] then [] else
    match es[0]
    case Probe(t) => Decisions(Refill(b, t), es[1..])
    case Call(t) => [TryConsume(b, t).0] + Decisions(TryConsume(b, t).1, es[1..])
  }

  function Final(b: Bucket, es: seq<Event>): Bucket
    decreases |es|
  {
    if es == [] then b else
    match es[0]
    case Probe(t) => Final(Refill(b, t), es[1..])
    case Call(t) => Final(TryConsume(b, t).1, es[1..])
  }

  function Calls(es: seq<Event>): seq<Event> {
    if es == [] then [] else (if es[0].Call? then [es[0]] else []) + Calls(es[1..])
  }

  /** Whole microseconds, not running backwards from `from` and done by `end`. */
  ghost predicate WholeMicros(from: int, es: seq<Event>, end: int)
    decreases |es|
  {
    from <= end && (end - from) % 1000 == 0 &&
    (es != [] ==> from <= es[0].t && (es[0].t - from) % 1000 == 0 && WholeMicros(es[0].t, es[1..], end))
  }

  lemma CallContinuous(b: Bucket, now: int)
    requires b.Valid() && b.last <= now && (now - b.last) % 1000 == 0
    ensures var (ok, b') := TryConsume(b, now);
            b'.Valid() && b'.last == now && b'.rate == b.rate && b'.capacity == b.capacity && ok == (At(b, now) >= 1.0)
            && b' == Advance(b, now).(tokens := At(b, now) - if ok then 1.0 else 0.0)
  {
    RefillIsContinuous(b, now);
    GainGrows(b.rate, now - b.last, now - b.last);
    hide Gain, Refill;
  }

  lemma WholeSum(a: int, b: int)
    requires a % 1000 == 0 && b % 1000 == 0
    ensures (a + b) % 1000 == 0
  {
  }

  /** Extra refills change no decision and no later token count: with and without them the run is the same. */
  lemma {:induction false} ProbesInvisible(b: Bucket, now: int, es: seq<Event>, end: int)
    requires b.Valid() && b.last <= now && (now - b.last) % 1000 == 0 && WholeMicros(now, es, end)
    ensures Decisions(Advance(b, now), es) == Decisions(b, Calls(es))
    ensures At(Final(Advance(b, now), es), end) == At(Final(b, Calls(es)), end)
    decreases |es|
  {
    var c := Advance(b, now);
    AdvanceTwice(b, now, end);
    if es != [] {
      var t, rest := es[0].t, es[1..];
      AdvanceTwice(b, now, t);
      WholeSum(t - now, now - b.last);
      match es[0]
      case Probe(_) =>
        RefillIsContinuous(c, t);
        ProbesInvisible(b, t, rest, end);
        assert [] + Calls(rest) == Calls(rest);
      case Call(_) =>
        CallContinuous(c, t);
        CallContinuous(b, t);
        var b' := TryConsume(b, t).1;
        assert Advance(b', t) == b' by { NoTime(b'); }
        ProbesInvisible(b', t, rest, end);
        assert Calls(es)[1..] == Calls(rest);
    }
  }

  lemma NoTime(b: Bucket)
    requires b.Valid()
    ensures Advance(b, b.last) == b
  {
    assert (b.last - b.last) as real / NANOS == 0.0;
  }

  /** For the real clock: an extra refill costs nothing exactly when it counts nothing, or the truncations add up, or
      there is nothing to gain. */
  lemma ProbeHarmlessIff(b: Bucket, s: int, t: int)
    requires b.Valid() && b.last <= s <= t
    ensures var e, e1, e2 := Elapsed(b.last, t), Elapsed(b.last, s), Elapsed(s, t);
            Refill(Refill(b, s), t).tokens == Refill(b, t).tokens <==>
              e1 == 0.0 || e1 + e2 == e || b.rate == 0.0 || b.tokens + NewTokens(e1 + e2, b.rate) >= b.capacity as real
  {
    var e, e1, e2 := Elapsed(b.last, t), Elapsed(b.last, s), Elapsed(s, t);
    ElapsedBound(b.last, s);
    ElapsedBound(s, t);
    ElapsedBound(b.last, t);
    TruncationsAdd(s - b.last, t - s);
    assert e1 + e2 <= e;
    hide Elapsed;
    TokensGrow(e1, e1, b.rate);
    TokensGrow(e2, e2, b.rate);
    TokensAdd(e1, e2, b.rate);
    TokensGrow(e1 + e2, e, b.rate);
    TokensAdd(e, e, 0.0);
    hide NewTokens;
    if e1 > 0.0 {
      TwoMins(b.capacity as real, b.tokens, NewTokens(e1, b.rate), NewTokens(e2, b.rate), NewTokens(e, b.rate));
      ProbedTokens(b, s, t);
      hide Refill, Min;
    }
  }

  lemma ProbedTokens(b: Bucket, s: int, t: int)
    requires b.Valid() && b.last <= s <= t && Elapsed(b.last, s) > 0.0
    ensures var cap, e1, e2 := b.capacity as real, Elapsed(b.last, s), Elapsed(s, t);
            Refill(Refill(b, s), t).tokens ==
                Min(cap, Min(cap, b.tokens + NewTokens(e1, b.rate)) + NewTokens(e2, b.rate))
    ensures Elapsed(b.last, t) > 0.0 ==>
            Refill(b, t).tokens == Min(b.capacity as real, b.tokens + NewTokens(Elapsed(b.last, t), b.rate))
  {
    ElapsedBound(s, t);
    TokensAdd(0.0, 0.0, b.rate);
    hide Elapsed, NewTokens;
  }

  lemma TwoMins(cap: real, x: real, g1: real, g2: real, g: real)
    requires g1 >= 0.0 && g2 >= 0.0 && g1 + g2 <= g
    ensures Min(cap, Min(cap, x + g1) + g2) == Min(cap, x + (g1 + g2))
    ensures Min(cap, x + (g1 + g2)) == Min(cap, x + g) <==> g1 + g2 == g || x + (g1 + g2) >= cap
  {
  }

  lemma TruncationsAdd(x: nat, y: nat)
    ensures x / 1000 + y / 1000 <= (x + y) / 1000
  {
  }

  // ---------- The retry hint ----------

  lemma CeilBound(x: real)
    ensures x <= Ceil(x) as real < x + 1.0
  {
  }

  /** x / rate seconds bring in x tokens. */
  lemma Ratio(x: real, rate: real)
    requires rate > 0.0
    ensures NewTokens(x / rate, rate) == x
    ensures x > 0.0 ==> x / rate > 0.0
  {
    var q := x / rate;
    assert q * rate == x;
    if x > 0.0 && q <= 0.0 {
      TokensGrow(q, 0.0, rate);
    }
  }

  /** After a refused call, a call at least `retryAfterSeconds` later is accepted. */
  lemma HintSuffices(b: Bucket, now: int, later: int)
    requires b.Valid() && b.rate > 0.0 && b.capacity >= 1 && b.last <= now && !TryConsume(b, now).0
    requires var b' := TryConsume(b, now).1; later >= now + RetryAfter(b') * 1000000000
    ensures TryConsume(TryConsume(b, now).1, later).0
  {
    CallPotential(b, now);
    var b' := TryConsume(b, now).1;
    assert b'.tokens < 1.0;
    hide TryConsume;
    HintEnough(b', later);
  }

  lemma HintEnough(b: Bucket, later: int)
    requires b.Valid() && b.rate > 0.0 && b.capacity >= 1 && b.tokens < 1.0
    requires later >= b.last + RetryAfter(b) * 1000000000
    ensures TryConsume(b, later).0
  {
    var x := (1.0 - b.tokens) / b.rate;
    var h, e := RetryAfter(b), Elapsed(b.last, later);
    CeilBound(x);
    Ratio(1.0 - b.tokens, b.rate);
    assert h >= 1 && h == Ceil(x);
    assert (later - b.last) / 1000 >= h * 1000000;
    assert e >= h as real;
    hide Elapsed, Ceil;
    TokensGrow(x, e, b.rate);
    hide NewTokens;
  }

  /** And the hint is less than a second too long: no call that much earlier could have been accepted. */
  lemma HintTight(b: Bucket, now: int, later: int)
    requires b.Valid() && b.rate > 0.0 && b.last <= now <= later && !TryConsume(b, now).0
    requires TryConsume(TryConsume(b, now).1, later).0
    ensures later - now > (RetryAfter(TryConsume(b, now).1) - 1) * 1000000000
  {
    CallPotential(b, now);
    var b' := TryConsume(b, now).1;
    assert b'.tokens < 1.0;
    hide TryConsume;
    HintFromRefill(b', later);
  }

  /** The microseconds counted since the last refill are whole, and more than the hint less a second. */
  lemma HintFromRefill(b: Bucket, later: int)
    requires b.Valid() && b.rate > 0.0 && b.tokens < 1.0 && later >= b.last && TryConsume(b, later).0
    ensures later - b.last >= (RetryAfter(b) - 1) * 1000000000 + 1000
  {
    var x := (1.0 - b.tokens) / b.rate;
    var h, q := RetryAfter(b), (later - b.last) / 1000;
    var e := Elapsed(b.last, later);
    CeilBound(x);
    Ratio(1.0 - b.tokens, b.rate);
    ElapsedBound(b.last, later);
    assert h == Ceil(x) && e == q as real / 1000000.0;
    hide Elapsed, Ceil, RetryAfter;
    if e < x {
      TokensGrow(e, x, b.rate);
      hide NewTokens;
      assert false;
    }
    assert q as real > (h - 1) as real * 1000000.0;
    assert q >= (h - 1) * 1000000 + 1;
  }
}
