/** What a refused client is told: the header value, and when it is enough. */
module RetryHeader {
  import opened Options
  import opened Arith
  import opened RateLimit

  /** The wait as a duration: nanoseconds, cut. */
  function Nanos(wait: real): int { (wait * 1000000000.0).Floor }

  /** The header value: that duration in whole seconds, rounded up, at least one. */
  function RetryAfter(wait: real): int {
    var up := (Nanos(wait) + 999_999_999) / 1_000_000_000;
    if up >= 1 then up else 1
  }

  /** Waiting as long as the header says is less than a second too much, and enough exactly
      unless cutting the wait to nanoseconds made it a whole number of seconds; then it falls
      short by less than a nanosecond. */
  lemma RetryAfterIsEnough(wait: real)
    requires wait > 0.0
    ensures var n, seconds := Nanos(wait), RetryAfter(wait) as real;
            seconds < wait + 1.0 && wait < seconds + 0.000000001
            && (wait <= seconds <==> !(n >= 1 && n % 1_000_000_000 == 0 && n as real < wait * 1000000000.0))
  {
    var n, up := Nanos(wait), (Nanos(wait) + 999_999_999) / 1_000_000_000;
    assert n as real <= wait * 1000000000.0 < n as real + 1.0;
    assert up * 1_000_000_000 - 999_999_999 <= n <= up * 1_000_000_000;
    assert n % 1_000_000_000 == 0 <==> n == up * 1_000_000_000;
  }

  /** A refused client that comes back as soon as the header says, with no call of its own in
      between, is served. */
  predicate HeaderServes(l: Limit, calls: seq<Call>)
    requires calls != []
  {
    var c, verdict := calls[|calls| - 1], Answer(l, calls, |calls| - 1);
    verdict.allowed || verdict.wait.None?
    || Answer(l, calls + [Call(c.key, c.at + RetryAfter(verdict.wait.value) as real)], |calls|).allowed
  }

  lemma HeaderServesWhenEnough(l: Limit, calls: seq<Call>)
    requires Usable(l) && calls != [] && Sorted(calls) && !Answer(l, calls, |calls| - 1).allowed
    ensures var wait := Answer(l, calls, |calls| - 1).wait.value;
            wait > 0.0 && (HeaderServes(l, calls) <==> wait <= RetryAfter(wait) as real)
  {
    hide RetryAfter, Sorted;
    var c := calls[|calls| - 1];
    RefusalWaits(l, calls);
    var t := c.at + RetryAfter(Answer(l, calls, |calls| - 1).wait.value) as real;
    RetryIsLater(Answer(l, calls, |calls| - 1).wait.value);
    OneMoreIsSorted(calls, Call(c.key, t));
    assert calls + [] + [Call(c.key, t)] == calls + [Call(c.key, t)] && calls + [] == calls;
    WaitIsExact(l, calls, [], t);
  }

  lemma RetryIsLater(wait: real)
    ensures RetryAfter(wait) >= 1
  {
  }

  lemma OneMoreIsSorted(calls: seq<Call>, c: Call)
    requires calls != [] && Sorted(calls) && calls[|calls| - 1].at <= c.at
    ensures Sorted(calls + [c])
  {
  }

  /** A refusal is for want of tokens, and its wait earns them. */
  lemma RefusalWaits(l: Limit, calls: seq<Call>)
    requires Usable(l) && calls != [] && Sorted(calls) && !Answer(l, calls, |calls| - 1).allowed
    ensures var level, wait := LevelAt(l, calls, |calls| - 1), Answer(l, calls, |calls| - 1).wait;
            0.0 <= level < 1.0 && wait.Some? && wait.value * PerSecond(l.rate) == 1.0 - level && wait.value > 0.0
  {
    var n := |calls| - 1;
    TokensNotNegative(l, calls[..n], calls[n].key, calls[n].at);
    WaitEarns(l.rate, 1.0 - LevelAt(l, calls, n), 0.0);
  }

  /** A clock that reads whole nanoseconds. */
  predicate WholeNanos(t: real) { (t * 1000000000.0).Floor as real == t * 1000000000.0 }

  predicate OnNanoClock(calls: seq<Call>) { forall c :: c in calls ==> WholeNanos(c.at) }

  /** The waits of such a rate are whole nanoseconds too. */
  predicate WholeWaits(perMinute: int)
    requires perMinute >= 1
  {
    60_000_000_000 % perMinute == 0
  }

  lemma WholeWait(perMinute: int, k: int, dt: real, n: int, wait: real)
    requires perMinute >= 1 && WholeWaits(perMinute) && dt * 1000000000.0 == n as real
    requires (wait + dt) * (perMinute as real / 60.0) == k as real
    ensures Nanos(wait) as real == wait * 1000000000.0
  {
    var q, p := 60_000_000_000 / perMinute, perMinute as real;
    var x := (wait + dt) * 1000000000.0;
    assert perMinute * q == 60_000_000_000;
    assert x * p == 60000000000.0 * k as real;
    assert (x - (q * k) as real) * p == 0.0;
    MulSign(x - (q * k) as real, p);
    MulSign((q * k) as real - x, p);
    assert wait * 1000000000.0 == (q * k - n) as real;
  }

  /** The call since which a refused client has used up its budget, and what its wait earns. */
  lemma RefusalSince(l: Limit, calls: seq<Call>) returns (i: nat)
    requires Usable(l) && calls != [] && Sorted(calls) && !Answer(l, calls, |calls| - 1).allowed
    ensures i < |calls| - 1
    ensures var c, wait := calls[|calls| - 1], Answer(l, calls, |calls| - 1).wait;
            var k := 1 - l.rate.burst + AllowedFrom(l, calls[..|calls| - 1], c.key, i);
            wait.Some? && (wait.value + (c.at - calls[i].at)) * PerSecond(l.rate) == k as real
  {
    hide Sorted, Answer, LevelAt, Level, Buckets, AllowedFrom;
    var n := |calls| - 1;
    var init, c := calls[..n], calls[n];
    RefusalWaits(l, calls);
    InitIsSorted(calls);
    LevelIsLeastBudget(l, init, c.key, c.at);
    LevelAtLast(l, calls);
    i :| 0 <= i < n && init[i].key == c.key && LevelAt(l, calls, n) == Budget(l, init, c.key, i, c.at);
    var wait, dt, k := Answer(l, calls, n).wait.value, c.at - calls[i].at, PerSecond(l.rate);
    assert (wait + dt) * k == wait * k + dt * k;
  }

  lemma InitIsSorted(calls: seq<Call>)
    requires calls != [] && Sorted(calls)
    ensures Sorted(calls[..|calls| - 1]) && NotBefore(calls[..|calls| - 1], calls[|calls| - 1].at)
  {
  }

  lemma LevelAtLast(l: Limit, calls: seq<Call>)
    requires calls != []
    ensures var n := |calls| - 1;
            LevelAt(l, calls, n) == Level(l.rate, Buckets(l, calls[..n]), calls[n].key, calls[n].at)
  {
  }

  lemma NanosApart(x: real, y: real)
    requires WholeNanos(x) && WholeNanos(y)
    ensures (x - y) * 1000000000.0 == ((x * 1000000000.0).Floor - (y * 1000000000.0).Floor) as real
  {
  }

  /** At such a rate a refused call's wait is whole. */
  lemma RefusalsWaitWholeNanos(l: Limit, calls: seq<Call>)
    requires Usable(l) && calls != [] && Sorted(calls) && OnNanoClock(calls) && WholeWaits(l.rate.perMinute)
    requires !Answer(l, calls, |calls| - 1).allowed
    ensures var wait := Answer(l, calls, |calls| - 1).wait;
            wait.Some? && Nanos(wait.value) as real == wait.value * 1000000000.0
  {
    hide Sorted, Answer, WholeNanos, WholeWaits, AllowedFrom, Nanos;
    var c := calls[|calls| - 1];
    var i := RefusalSince(l, calls);
    assert calls[i] in calls && c in calls;
    NanosApart(c.at, calls[i].at);
    WholeWait(l.rate.perMinute, 1 - l.rate.burst + AllowedFrom(l, calls[..|calls| - 1], c.key, i),
              c.at - calls[i].at, (c.at * 1000000000.0).Floor - (calls[i].at * 1000000000.0).Floor,
              Answer(l, calls, |calls| - 1).wait.value);
  }

  /** Calls that empty a fresh client's bucket at once. */
  function Drain(n: nat): seq<Call> { seq(n, _ => Call("x", 0.0)) }

  lemma {:induction false} Drained(l: Limit, n: nat, t: real)
    requires Usable(l) && n <= l.rate.burst && t >= 0.0
    ensures Level(l.rate, Buckets(l, Drain(n)), "x", t) ==
            if n == 0 then l.rate.burst as real
            else Min(l.rate.burst as real, (l.rate.burst - n) as real + Credit(l.rate, t))
  {
    if n > 0 {
      Drained(l, n - 1, 0.0);
      assert Drain(n) == Drain(n - 1) + [Call("x", 0.0)];
      LevelAfter(l, Drain(n - 1), Call("x", 0.0), "x", t);
    }
  }

  /** The call that is announced too short a wait. */
  function Unlucky(l: Limit): seq<Call>
    requires Usable(l)
  {
    Drain(l.rate.burst) + [Call("x", (60_000_000_000 / l.rate.perMinute - 1_000_000_000) as real / 1000000000.0)]
  }

  lemma ShortWait(perMinute: int, wait: real)
    requires 1 <= perMinute < 60 && !WholeWaits(perMinute)
    requires var at := (60_000_000_000 / perMinute - 1_000_000_000) as real / 1000000000.0;
             wait * (perMinute as real / 60.0) == 1.0 - at * (perMinute as real / 60.0)
    ensures 1000000000.0 < wait * 1000000000.0 < 1000000001.0
  {
    var q, r, p := 60_000_000_000 / perMinute, 60_000_000_000 % perMinute, perMinute as real;
    assert perMinute * q + r == 60_000_000_000;
    var x := wait * 1000000000.0;
    assert x * p == 60000000000.0 - (q - 1_000_000_000) as real * p;
    assert q as real * p + r as real == 60000000000.0;
    assert (x - 1000000000.0) * p == r as real;
    MulSign(x - 1000000000.0, p);
    MulSign(1000000001.0 - x, p);
  }

  lemma UnluckyIsOrderly(l: Limit)
    requires Usable(l) && l.rate.perMinute < 60
    ensures Unlucky(l) != [] && Sorted(Unlucky(l)) && OnNanoClock(Unlucky(l))
  {
    hide WholeNanos;
    var nanos := 60_000_000_000 / l.rate.perMinute - 1_000_000_000;
    LateEnough(l.rate.perMinute);
    NanosAreWhole(0);
    NanosAreWhole(nanos);
  }

  lemma NanosAreWhole(n: int)
    ensures WholeNanos(n as real / 1000000000.0)
  {
  }

  /** What it finds is what the time since the start earned, less than a token. */
  lemma UnluckyLevel(l: Limit)
    requires Usable(l) && l.rate.perMinute < 60
    ensures var calls := Unlucky(l);
            LevelAt(l, calls, |calls| - 1) == Credit(l.rate, calls[|calls| - 1].at) < 1.0
  {
    hide Level, Buckets;
    var p, calls := l.rate.perMinute, Unlucky(l);
    var nanos := 60_000_000_000 / p - 1_000_000_000;
    var at := nanos as real / 1000000000.0;
    LateEnough(p);
    Drained(l, l.rate.burst, at);
    assert calls[..|calls| - 1] == Drain(l.rate.burst);
    assert Credit(l.rate, at) * 60000000000.0 == (nanos * p) as real;
  }

  lemma UnluckyIsRefused(l: Limit)
    requires Usable(l) && l.rate.perMinute < 60 && !WholeWaits(l.rate.perMinute)
    ensures Unlucky(l) != [] && Sorted(Unlucky(l)) && OnNanoClock(Unlucky(l)) && !HeaderServes(l, Unlucky(l))
  {
    hide Sorted, OnNanoClock, LevelAt, HeaderServes, WholeWaits, RetryAfter;
    var calls := Unlucky(l);
    UnluckyIsOrderly(l);
    UnluckyLevel(l);
    RefusalWaits(l, calls);
    var wait := Answer(l, calls, |calls| - 1).wait.value;
    ShortWait(l.rate.perMinute, wait);
    RetryAfterIsEnough(wait);
    HeaderServesWhenEnough(l, calls);
  }

  lemma LateEnough(perMinute: int)
    requires 1 <= perMinute < 60
    ensures var nanos := 60_000_000_000 / perMinute - 1_000_000_000;
            nanos > 0 && nanos * perMinute < 60_000_000_000
  {
    var q := 60_000_000_000 / perMinute;
    assert q * perMinute <= 60_000_000_000 < (q + 1) * perMinute;
    assert q >= 1_000_000_000;
  }

  /** On a nanosecond clock the header always serves, exactly when the rate is at least one a
      second or its waits are whole nanoseconds. */
  lemma HeaderServesExactly(l: Limit)
    requires Usable(l)
    ensures (forall calls :: calls != [] && Sorted(calls) && OnNanoClock(calls) ==> HeaderServes(l, calls)) <==>
            l.rate.perMinute >= 60 || WholeWaits(l.rate.perMinute)
  {
    if l.rate.perMinute >= 60 || WholeWaits(l.rate.perMinute) {
      forall calls | calls != [] && Sorted(calls) && OnNanoClock(calls) ensures HeaderServes(l, calls) {
        if !Answer(l, calls, |calls| - 1).allowed { RefusalIsServed(l, calls); }
      }
    } else {
      UnluckyIsRefused(l);
    }
  }

  lemma RefusalIsServed(l: Limit, calls: seq<Call>)
    requires Usable(l) && calls != [] && Sorted(calls) && OnNanoClock(calls)
    requires l.rate.perMinute >= 60 || WholeWaits(l.rate.perMinute)
    requires !Answer(l, calls, |calls| - 1).allowed
    ensures HeaderServes(l, calls)
  {
    hide Sorted, OnNanoClock, Answer, LevelAt, HeaderServes, WholeWaits, Nanos;
    HeaderServesWhenEnough(l, calls);
    RefusalWaits(l, calls);
    var wait := Answer(l, calls, |calls| - 1).wait.value;
    RetryIsLater(wait);
    if l.rate.perMinute >= 60 {
      AtMostASecond(l.rate, wait);
    } else {
      RefusalsWaitWholeNanos(l, calls);
      RetryAfterIsEnough(wait);
    }
  }

  lemma AtMostASecond(r: Rate, wait: real)
    requires r.perMinute >= 60 && wait * PerSecond(r) <= 1.0
    ensures wait <= 1.0
  {
    var k := PerSecond(r);
    MulSign(wait - 1.0, k);
    assert (wait - 1.0) * k == wait * k - k;
  }

  /** Seven calls a minute: a call refused and told to wait eight seconds is refused again
      exactly eight seconds later. */
  lemma EightSecondsAreTooShort()
    ensures var l := NewLimit(7, 1);
            var calls := [Call("x", 0.0), Call("x", 0.571428571)];
            var verdict := Answer(l, calls, 1);
            Usable(l) && !verdict.allowed && RetryAfter(verdict.wait.value) == 8
            && !Answer(l, calls + [Call("x", 8.571428571)], 2).allowed
  {
    var l := NewLimit(7, 1);
    var calls := [Call("x", 0.0), Call("x", 0.571428571)];
    assert calls[..1] == Drain(1);
    Drained(l, 1, 0.571428571);
    RefusalWaits(l, calls);
    var wait := Answer(l, calls, 1).wait.value;
    assert 8000000000.0 < wait * 1000000000.0 < 8000000001.0;
    assert Nanos(wait) == 8_000_000_000;
    HeaderServesWhenEnough(l, calls);
    assert calls[1].at + 8.0 == 8.571428571;
  }
}
