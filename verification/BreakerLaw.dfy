/** The circuit breaker of one credentialed check: what the code does to its record after a
    run, what the record means in terms of the outcomes behind it, and how far apart that
    keeps the failures. */
module BreakerLaw {
  import opened States
  import opened Clock
  import opened Options
  import opened Arith
  import opened Store

  /** Durations in nanoseconds. */
  datatype GuardConfig = GuardConfig(threshold: int, backoffInitial: int, backoffMax: int, maxAttempts: int)

  /** What loading the configuration guarantees: durations are positive. */
  predicate Loaded(g: GuardConfig) { g.backoffInitial > 0 && g.backoffMax > 0 }

  function Min(a: int, b: int): int { if a <= b then a else b }

  function Max(a: int, b: int): int { if a >= b then a else b }

  /** A duration in whole seconds, cut towards zero. */
  function WholeSeconds(d: int): int {
    if d >= 0 then d / 1_000_000_000 else -(-d / 1_000_000_000)
  }

  /** The cut loses less than a second, and nothing of a whole number of seconds. */
  lemma WholeSecondsCut(d: int)
    ensures d >= 0 ==> 0 <= Seconds(WholeSeconds(d)) <= d < Seconds(WholeSeconds(d)) + 1_000_000_000
    ensures d <= 0 ==> Seconds(WholeSeconds(d)) - 1_000_000_000 < d <= Seconds(WholeSeconds(d)) <= 0
    ensures d >= 0 ==> Seconds(WholeSeconds(d)) == d - d % 1_000_000_000
  {
  }

  function NextBackoff(current: int, g: GuardConfig): int {
    var initial, max := WholeSeconds(g.backoffInitial), WholeSeconds(g.backoffMax);
    if current <= 0 then Min(initial, max) else Min(current * 2, max)
  }

  /** A rejected credential will not succeed on retry. */
  predicate HardFailure(r: Reason) { r in {SsoLoginRejected, UsernameMismatch, TokenInvalid} }

  /** The record to save after a run, or nothing when the run says nothing. */
  function AfterRun(rec: Breaker, res: Result, now: int, g: GuardConfig): Option<Breaker> {
    match res.state
    case Up => Some(ZERO_BREAKER)
    case Down =>
      var fails := rec.fails + 1;
      if HardFailure(res.reason) || fails >= g.threshold then
        var backoff := NextBackoff(rec.backoff, g);
        Some(Breaker(fails, Option.Some(now + Seconds(backoff)), backoff))
      else
        Some(rec.(fails := fails))
    case _ => None
  }

  function PauseReason(rec: Breaker): Reason {
    if rec.fails > 0 then PausedAfterFailure else BreakerOpen
  }

  // ------------------------------------------------- the record from the outcomes

  /** A conclusive run: when its probe started, when its outcome was noted, what it was. */
  datatype Outcome = Outcome(start: int, at: int, failed: bool, hard: bool)

  function OutcomeOf(start: int, at: int, res: Result): Outcome {
    Outcome(start, at, res.state == Down, res.state == Down && HardFailure(res.reason))
  }

  function TrailingFails(h: seq<Outcome>): (n: nat)
    ensures n <= |h|
  {
    if h == [] || !h[|h| - 1].failed then 0 else TrailingFails(h[..|h| - 1]) + 1
  }

  /** Whether the last outcome suspended the check. */
  predicate Tripped(g: GuardConfig, h: seq<Outcome>) {
    h != [] && h[|h| - 1].failed && (h[|h| - 1].hard || TrailingFails(h) >= g.threshold)
  }

  /** Suspensions since the last success. */
  function Trips(g: GuardConfig, h: seq<Outcome>): nat {
    if h == [] || !h[|h| - 1].failed then 0
    else Trips(g, h[..|h| - 1]) + if Tripped(g, h) then 1 else 0
  }

  function Pow2(n: nat): nat { if n == 0 then 1 else 2 * Pow2(n - 1) }

  /** The capped geometric backoff, in seconds. */
  function Backoff(g: GuardConfig, trips: nat): int {
    if trips == 0 then 0
    else Min(WholeSeconds(g.backoffInitial) * Pow2(trips - 1), WholeSeconds(g.backoffMax))
  }

  /** How long the `k`-th suspension since the last success lasts, in the configured durations:
      the initial backoff, doubled each time, up to the greatest one; both cut to whole
      seconds. */
  function Pause(g: GuardConfig, k: nat): int {
    if k == 0 then 0
    else
      Min((g.backoffInitial - g.backoffInitial % 1_000_000_000) * Pow2(k - 1),
          g.backoffMax - g.backoffMax % 1_000_000_000)
  }

  /** The stored backoff is that pause. */
  lemma BackoffIsThePause(g: GuardConfig, k: nat)
    requires Loaded(g)
    ensures Seconds(Backoff(g, k)) == Pause(g, k)
    ensures k > 0 && g.backoffInitial % 1_000_000_000 == 0 && g.backoffMax % 1_000_000_000 == 0 ==>
              Pause(g, k) == Min(g.backoffInitial * Pow2(k - 1), g.backoffMax)
  {
    if k > 0 {
      WholeSecondsCut(g.backoffInitial);
      WholeSecondsCut(g.backoffMax);
      var i, p := WholeSeconds(g.backoffInitial), Pow2(k - 1);
      assert Seconds(i * p) == Seconds(i) * p;
    }
  }

  /** When the suspension in force ends: the last trip plus the backoff it earned. */
  function ResumeAt(g: GuardConfig, h: seq<Outcome>): Option<int> {
    if h == [] || !h[|h| - 1].failed then None
    else if Tripped(g, h) then Option.Some(h[|h| - 1].at + Seconds(Backoff(g, Trips(g, h))))
    else ResumeAt(g, h[..|h| - 1])
  }

  function RecordOf(g: GuardConfig, h: seq<Outcome>): Breaker {
    Breaker(TrailingFails(h), ResumeAt(g, h), Backoff(g, Trips(g, h)))
  }

  lemma BackoffDoubles(g: GuardConfig, trips: nat)
    requires Loaded(g)
    ensures NextBackoff(Backoff(g, trips), g) == Backoff(g, trips + 1)
    ensures Seconds(NextBackoff(Backoff(g, trips), g)) == Pause(g, trips + 1)
  {
    BackoffIsThePause(g, trips + 1);
    var initial, max := WholeSeconds(g.backoffInitial), WholeSeconds(g.backoffMax);
    if trips > 0 {
      assert Pow2(trips) == 2 * Pow2(trips - 1);
      var x := initial * Pow2(trips - 1);
      assert initial * Pow2(trips) == 2 * x;
      if initial == 0 { assert x == 0; }
      if initial > 0 { assert x > 0 by { PowPositive(trips - 1); MulPositive(initial, Pow2(trips - 1)); } }
    }
  }

  lemma {:induction false} PowPositive(n: nat)
    ensures Pow2(n) > 0
  {
    if n > 0 { PowPositive(n - 1); }
  }

  /** One run updates the stored record to the record of the longer history. */
  lemma RecordFollowsHistory(g: GuardConfig, h: seq<Outcome>, start: int, at: int, res: Result)
    requires Loaded(g)
    ensures AfterRun(RecordOf(g, h), res, at, g) ==
            if res.state in {Up, Down} then Some(RecordOf(g, h + [OutcomeOf(start, at, res)])) else None
  {
    var o := OutcomeOf(start, at, res);
    assert (h + [o])[..|h + [o]| - 1] == h;
    BackoffDoubles(g, Trips(g, h));
  }

  // ------------------------------------------------ what the functions above mean

  /** The last `n` outcomes, and no more, are failures. */
  predicate TrailingBlock(h: seq<Outcome>, n: nat) {
    n <= |h| && (forall j :: |h| - n <= j < |h| ==> h[j].failed) && (n < |h| ==> !h[|h| - n - 1].failed)
  }

  lemma {:induction false} TrailingFailsIsTheBlock(h: seq<Outcome>, n: nat)
    ensures TrailingBlock(h, n) <==> n == TrailingFails(h)
  {
    if h != [] && h[|h| - 1].failed {
      var init := h[..|h| - 1];
      if 0 < n <= |h| {
        TrailingFailsIsTheBlock(init, n - 1);
        assert TrailingBlock(init, n - 1) <==> TrailingBlock(h, n) by {
          assert forall j :: |h| - n <= j < |init| ==> init[j] == h[j];
          assert n < |h| ==> init[|init| - (n - 1) - 1] == h[|h| - n - 1];
        }
      }
    }
  }

  predicate TripsAt(g: GuardConfig, h: seq<Outcome>, i: int) {
    0 <= i < |h| && Tripped(g, h[..i + 1])
  }

  /** The trips of the trailing block, by position. */
  ghost function TripPositions(g: GuardConfig, h: seq<Outcome>): set<int> {
    set i | |h| - TrailingFails(h) <= i < |h| && TripsAt(g, h, i)
  }

  lemma TripPositionsStep(g: GuardConfig, h: seq<Outcome>)
    requires h != [] && h[|h| - 1].failed
    ensures TripPositions(g, h) == TripPositions(g, h[..|h| - 1]) + if Tripped(g, h) then {|h| - 1} else {}
  {
    var n, init := |h| - 1, h[..|h| - 1];
    assert h[..n + 1] == h;
    forall i | 0 <= i < n ensures TripsAt(g, init, i) == TripsAt(g, h, i) {
      assert init[..i + 1] == h[..i + 1];
    }
    assert TrailingFails(h) == TrailingFails(init) + 1;
    assert TripsAt(g, h, n) == Tripped(g, h);
  }

  /** The trip count counts the suspending failures of the trailing block. */
  lemma {:induction false} TripsCountTheBlock(g: GuardConfig, h: seq<Outcome>)
    ensures Trips(g, h) == |TripPositions(g, h)|
  {
    if h != [] && h[|h| - 1].failed {
      TripsCountTheBlock(g, h[..|h| - 1]);
      TripPositionsStep(g, h);
    } else {
      assert TripPositions(g, h) == {};
    }
  }

  /** The last suspending failure since the last success. */
  ghost predicate LastTrip(g: GuardConfig, h: seq<Outcome>, i: int) {
    0 <= i < |h| && i in TripPositions(g, h) && forall j :: j in TripPositions(g, h) ==> j <= i
  }

  lemma LastTripStep(g: GuardConfig, h: seq<Outcome>, i: int)
    requires h != [] && h[|h| - 1].failed
    ensures if Tripped(g, h) then LastTrip(g, h, |h| - 1) else LastTrip(g, h[..|h| - 1], i) ==> LastTrip(g, h, i)
  {
    TripPositionsStep(g, h);
  }

  lemma {:induction false} ResumeIsLastTrip(g: GuardConfig, h: seq<Outcome>)
    ensures ResumeAt(g, h).Some? <==> Trips(g, h) > 0
    ensures Trips(g, h) > 0 ==>
              exists i :: LastTrip(g, h, i) && ResumeAt(g, h) == Some(h[i].at + Seconds(Backoff(g, Trips(g, h))))
  {
    hide Backoff, TripPositions, Tripped;
    if h != [] && h[|h| - 1].failed {
      var init := h[..|h| - 1];
      ResumeIsLastTrip(g, init);
      if Tripped(g, h) {
        LastTripStep(g, h, 0);
      } else if Trips(g, init) > 0 {
        var i :| LastTrip(g, init, i) && ResumeAt(g, init) == Some(init[i].at + Seconds(Backoff(g, Trips(g, init))));
        LastTripStep(g, h, i);
        assert LastTrip(g, h, i) && h[i] == init[i];
      }
    }
  }

  /** There is a resume time exactly when a failure since the last success suspended the check,
      and then it is the time of the last such failure plus the configured pause for as many
      suspensions as there were. */
  lemma ResumeIsLastTripPlusPause(g: GuardConfig, h: seq<Outcome>)
    requires Loaded(g)
    ensures ResumeAt(g, h).Some? <==> TripPositions(g, h) != {}
    ensures ResumeAt(g, h).Some? ==>
              exists i :: LastTrip(g, h, i) && ResumeAt(g, h) == Some(h[i].at + Pause(g, |TripPositions(g, h)|))
  {
    hide ResumeAt, LastTrip, Backoff, Pause;
    ResumeIsLastTrip(g, h);
    TripsCountTheBlock(g, h);
    BackoffIsThePause(g, Trips(g, h));
    assert |TripPositions(g, h)| == 0 <==> TripPositions(g, h) == {};
  }

  // --------------------------------------------------------------------- pacing

  /** Runs follow one another, and none starts inside a suspension. */
  ghost predicate Paced(g: GuardConfig, h: seq<Outcome>) {
    forall i :: 0 <= i < |h| ==> PacedAt(g, h, i)
  }

  predicate PacedAt(g: GuardConfig, h: seq<Outcome>, i: int)
    requires 0 <= i < |h|
  {
    && h[i].start <= h[i].at
    && (i > 0 ==> h[i - 1].at <= h[i].start)
    && (ResumeAt(g, h[..i]).Some? ==> ResumeAt(g, h[..i]).value <= h[i].start)
  }

  function Threshold(g: GuardConfig): nat { Max(g.threshold, 1) }

  /** The first `n` pauses together. */
  function PauseSum(g: GuardConfig, n: nat): int { if n == 0 then 0 else PauseSum(g, n - 1) + Pause(g, n) }

  lemma Doubling(a: int, p: int)
    requires a > 0 && p > 0
    ensures 0 < a * p < a * (2 * p) && a * (2 * p - 1) == a * (p - 1) + a * p
  {
    MulPositive(a, p);
    assert a * (2 * p) == a * p + a * p;
  }

  /** Below the greatest pause they are a geometric series. */
  lemma {:induction false} PausesAreGeometric(g: GuardConfig, n: nat)
    requires Loaded(g) && g.backoffInitial % 1_000_000_000 == 0 && g.backoffMax % 1_000_000_000 == 0
    requires n > 0 ==> g.backoffInitial * Pow2(n - 1) <= g.backoffMax
    ensures PauseSum(g, n) == g.backoffInitial * (Pow2(n) - 1)
  {
    hide Pause, Backoff;
    if n > 0 {
      BackoffIsThePause(g, n);
      if n > 1 {
        PowPositive(n - 2);
        Doubling(g.backoffInitial, Pow2(n - 2));
      }
      PausesAreGeometric(g, n - 1);
      PowPositive(n - 1);
      Doubling(g.backoffInitial, Pow2(n - 1));
    }
  }

  lemma {:induction false} BackoffMonotone(g: GuardConfig, a: nat, b: nat)
    requires Loaded(g) && a <= b
    ensures Backoff(g, a) <= Backoff(g, b)
  {
    if a < b {
      BackoffMonotone(g, a, b - 1);
      BackoffDoubles(g, b - 1);
      BackoffInRange(g, b - 1);
    }
  }

  lemma BackoffInRange(g: GuardConfig, n: nat)
    requires Loaded(g)
    ensures 0 <= Backoff(g, n) <= WholeSeconds(g.backoffMax)
  {
    if n > 0 {
      assert 0 <= WholeSeconds(g.backoffInitial) * Pow2(n - 1);
    }
  }

  lemma {:induction false} StreakTrips(g: GuardConfig, h: seq<Outcome>, from: nat, n: nat)
    requires from + n <= |h| && n >= Threshold(g)
    requires forall j :: from <= j < from + n ==> h[j].failed
    ensures Trips(g, h[..from + n]) >= n - Threshold(g) + 1
    ensures Tripped(g, h[..from + n])
  {
    var part := h[..from + n];
    assert part[|part| - 1].failed;
    assert part[..|part| - 1] == h[..from + n - 1];
    StreakFails(h, from, n);
    if n > Threshold(g) { StreakTrips(g, h, from, n - 1); }
  }

  lemma {:induction false} StreakFails(h: seq<Outcome>, from: nat, n: nat)
    requires from + n <= |h|
    requires forall j :: from <= j < from + n ==> h[j].failed
    ensures TrailingFails(h[..from + n]) >= n
  {
    if n > 0 {
      StreakFails(h, from, n - 1);
      var part := h[..from + n];
      assert part[..|part| - 1] == h[..from + n - 1];
      assert part[|part| - 1] == h[from + n - 1];
    }
  }

  lemma ResumeAfterTrip(g: GuardConfig, h: seq<Outcome>, n: nat)
    requires 0 < n <= |h| && Tripped(g, h[..n])
    ensures ResumeAt(g, h[..n]) == Some(h[n - 1].at + Seconds(Backoff(g, Trips(g, h[..n]))))
  {
  }

  /** Consecutive failures are spread over at least the pauses they earned, whatever mix of
      reasons they had. */
  lemma {:induction false} StreakSpan(g: GuardConfig, h: seq<Outcome>, from: nat, n: nat)
    requires Loaded(g) && Paced(g, h)
    requires from + n <= |h| && n >= Threshold(g)
    requires forall j :: from <= j < from + n ==> h[j].failed
    ensures h[from + n - 1].start - h[from].start >= PauseSum(g, n - Threshold(g))
  {
    if n == Threshold(g) {
      StartsOrdered(g, h, from, from + n - 1);
    } else {
      var last := from + n - 1;
      StreakSpan(g, h, from, n - 1);
      StreakTrips(g, h, from, n - 1);
      BackoffMonotone(g, n - Threshold(g), Trips(g, h[..last]));
      BackoffIsThePause(g, n - Threshold(g));
      ResumeAfterTrip(g, h, last);
      assert PacedAt(g, h, last - 1) && PacedAt(g, h, last);
    }
  }

  lemma {:induction false} StartsOrdered(g: GuardConfig, h: seq<Outcome>, i: nat, j: nat)
    requires Paced(g, h) && i <= j < |h|
    ensures h[i].start <= h[j].start
  {
    if i < j {
      StartsOrdered(g, h, i, j - 1);
      assert PacedAt(g, h, j - 1) && PacedAt(g, h, j);
    }
  }
}
