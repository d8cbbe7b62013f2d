/** The per-client token bucket of the public API, in exact arithmetic. Time is in seconds
    and never runs backwards. */
module RateLimit {
  import opened Options
  import opened Arith

  datatype Bucket = Bucket(tokens: real, last: real)

  datatype Rate = Rate(perMinute: int, burst: int)

  /** `sweepAt` is the number of clients from which a new one triggers the sweep. */
  datatype Limit = Limit(rate: Rate, sweepAt: nat)

  /** `wait` is missing where the code divides by a rate of zero. */
  datatype Verdict = Verdict(allowed: bool, remaining: int, wait: Option<real>)

  datatype Call = Call(key: string, at: real)

  const SWEEP_THRESHOLD: nat := 10000

  /** A burst that is not positive falls back to the rate. */
  function NewLimit(perMinute: int, burst: int): Limit {
    Limit(Rate(perMinute, if burst <= 0 then perMinute else burst), SWEEP_THRESHOLD)
  }

  /** What the theorems about timing need. Loading the configuration does not check it. */
  predicate Usable(l: Limit) { Positive(l.rate) }

  predicate Positive(r: Rate) { r.perMinute >= 1 && r.burst >= 1 }

  function Min(a: real, b: real): real { if a <= b then a else b }

  function PerSecond(r: Rate): real { r.perMinute as real / 60.0 }

  /** How long it takes to earn some tokens. */
  function Wait(r: Rate, tokens: real): Option<real> {
    if r.perMinute == 0 then None else Some(tokens / PerSecond(r))
  }

  /** The tokens a stretch of time earns. */
  function Credit(r: Rate, dt: real): real { dt * PerSecond(r) }

  /** In a minute it earns the rate. */
  lemma CreditIsPerMinute(r: Rate, dt: real)
    ensures Credit(r, dt) == dt * r.perMinute as real / 60.0
  {
  }

  lemma CreditAdds(r: Rate, a: real, b: real)
    requires Positive(r)
    ensures Credit(r, a) + Credit(r, b) == Credit(r, a + b)
    ensures a <= b ==> Credit(r, a) <= Credit(r, b)
    ensures a >= 0.0 ==> Credit(r, a) >= 0.0
  {
    var k := PerSecond(r);
    assert k > 0.0;
    assert a * k + b * k == (a + b) * k;
    if a <= b { assert (b - a) * k >= 0.0; }
  }

  function Refilled(r: Rate, b: Bucket, now: real): real {
    Min(r.burst as real, b.tokens + Credit(r, now - b.last))
  }

  /** The tokens a client would find at an instant; a stranger finds a full bucket. */
  function Level(r: Rate, buckets: map<string, Bucket>, key: string, now: real): real {
    if key in buckets then Refilled(r, buckets[key], now) else r.burst as real
  }

  function Decide(r: Rate, level: real): Verdict {
    if level < 1.0 then Verdict(false, 0, Wait(r, 1.0 - level)) else Verdict(true, (level - 1.0).Floor, Wait(r, 1.0))
  }

  function AfterDecision(level: real, now: real): Bucket {
    Bucket(if level < 1.0 then level else level - 1.0, now)
  }

  predicate Idle(l: Limit, b: Bucket, now: real) { b.tokens >= l.rate.burst as real && now - b.last > 600.0 }

  function Sweep(l: Limit, buckets: map<string, Bucket>, now: real): map<string, Bucket> {
    map k | k in buckets && !Idle(l, buckets[k], now) :: buckets[k]
  }

  /** The buckets a call decides on. */
  function Swept(l: Limit, buckets: map<string, Bucket>, c: Call): map<string, Bucket> {
    if c.key !in buckets && |buckets| >= l.sweepAt then Sweep(l, buckets, c.at) else buckets
  }

  function NextBuckets(l: Limit, buckets: map<string, Bucket>, c: Call): map<string, Bucket> {
    Swept(l, buckets, c)[c.key := AfterDecision(Level(l.rate, buckets, c.key, c.at), c.at)]
  }

  function Buckets(l: Limit, calls: seq<Call>): map<string, Bucket> {
    if calls == [] then map[] else NextBuckets(l, Buckets(l, calls[..|calls| - 1]), calls[|calls| - 1])
  }

  /** The tokens the i-th call finds, and how it is answered. */
  function LevelAt(l: Limit, calls: seq<Call>, i: nat): real
    requires i < |calls|
  {
    Level(l.rate, Buckets(l, calls[..i]), calls[i].key, calls[i].at)
  }

  function Answer(l: Limit, calls: seq<Call>, i: nat): Verdict
    requires i < |calls|
  {
    Decide(l.rate, LevelAt(l, calls, i))
  }

  predicate Sorted(calls: seq<Call>) {
    forall i, j :: 0 <= i <= j < |calls| ==> calls[i].at <= calls[j].at
  }

  predicate NotBefore(calls: seq<Call>, t: real) { forall i :: 0 <= i < |calls| ==> calls[i].at <= t }

  /** How many of the calls of a client from the i-th on were allowed. */
  function AllowedFrom(l: Limit, calls: seq<Call>, key: string, i: nat): nat {
    if |calls| <= i then 0
    else
      var n := |calls| - 1;
      AllowedFrom(l, calls[..n], key, i) + if calls[n].key == key && LevelAt(l, calls, n) >= 1.0 then 1 else 0
  }

  // ----------------------------------------------------------- the sweep does nothing

  predicate InBounds(l: Limit, buckets: map<string, Bucket>) {
    forall k :: k in buckets ==> buckets[k].tokens < l.rate.burst as real
  }

  predicate Orderly(buckets: map<string, Bucket>, t: real) {
    forall k :: k in buckets ==> buckets[k].last <= t
  }

  lemma BoundsStep(l: Limit, buckets: map<string, Bucket>, c: Call)
    requires l.rate.burst >= 1 && InBounds(l, buckets) && Orderly(buckets, c.at)
    ensures InBounds(l, NextBuckets(l, buckets, c)) && Orderly(NextBuckets(l, buckets, c), c.at)
    ensures NextBuckets(l, buckets, c) == buckets[c.key := AfterDecision(Level(l.rate, buckets, c.key, c.at), c.at)]
  {
    assert Sweep(l, buckets, c.at) == buckets;
  }

  /** Every stored bucket holds fewer tokens than the burst, so no sweep removes one. */
  lemma {:induction false} SweepNeverRemoves(l: Limit, calls: seq<Call>, t: real)
    requires l.rate.burst >= 1 && Sorted(calls) && NotBefore(calls, t)
    ensures InBounds(l, Buckets(l, calls)) && Orderly(Buckets(l, calls), t)
    ensures Sweep(l, Buckets(l, calls), t) == Buckets(l, calls)
  {
    if calls != [] {
      var init, c := calls[..|calls| - 1], calls[|calls| - 1];
      SweepNeverRemoves(l, init, c.at);
      BoundsStep(l, Buckets(l, init), c);
      assert c.at <= t;
    }
  }

  /** No sweep ever removes a bucket, exactly when the burst is positive. A burst of zero or
      less, which loading accepts, stores buckets that are full from the start. */
  lemma SweepRemovesNothingExactly(l: Limit)
    ensures (forall calls, t :: Sorted(calls) && NotBefore(calls, t) ==>
            Sweep(l, Buckets(l, calls), t) == Buckets(l, calls))
            <==> l.rate.burst >= 1
  {
    hide Buckets, Sweep, Sorted, NotBefore, Crowd;
    if l.rate.burst >= 1 {
      forall calls, t | Sorted(calls) && NotBefore(calls, t)
        ensures Sweep(l, Buckets(l, calls), t) == Buckets(l, calls)
      {
        SweepNeverRemoves(l, calls, t);
      }
    } else {
      AFullBucketIsSwept(l);
    }
  }

  /** With a positive burst, the clients remembered are exactly the clients that ever called. */
  lemma {:induction false} EveryClientIsRemembered(l: Limit, calls: seq<Call>, key: string)
    requires l.rate.burst >= 1 && Sorted(calls)
    ensures key in Buckets(l, calls) <==> Called(calls, key)
  {
    if calls != [] {
      var init, c := calls[..|calls| - 1], calls[|calls| - 1];
      EveryClientIsRemembered(l, init, key);
      SweepNeverRemoves(l, init, c.at);
      BoundsStep(l, Buckets(l, init), c);
      assert calls == init + [c];
      assert c in calls;
    }
  }

  predicate Called(calls: seq<Call>, key: string) { exists c :: c in calls && c.key == key }

  /** So many different clients, all at once. */
  function Crowd(n: nat): seq<Call> {
    if n == 0 then [] else Crowd(n - 1) + [Call(Nickname(n - 1), 0.0)]
  }

  function Nickname(i: nat): string { seq(i, _ => 'x') }

  lemma {:induction false} CrowdIsSorted(n: nat)
    ensures |Crowd(n)| == n && Sorted(Crowd(n)) && forall c :: c in Crowd(n) ==> c.at == 0.0
    ensures n > 0 ==> Call("", 0.0) in Crowd(n)
  {
    if n > 0 {
      CrowdIsSorted(n - 1);
      assert Nickname(0) == "";
    }
  }

  /** Full buckets, all last touched at the start. */
  predicate FullAtStart(l: Limit, buckets: map<string, Bucket>) {
    forall k :: k in buckets ==> buckets[k] == Bucket(l.rate.burst as real, 0.0)
  }

  /** With a burst that is not positive, a stranger leaves a full bucket. */
  lemma StrangerAtOnce(l: Limit, buckets: map<string, Bucket>, key: string)
    requires l.rate.burst <= 0 && FullAtStart(l, buckets) && key !in buckets
    ensures NextBuckets(l, buckets, Call(key, 0.0)) == buckets[key := Bucket(l.rate.burst as real, 0.0)]
  {
    assert Sweep(l, buckets, 0.0) == buckets;
  }

  /** A stranger who comes later makes the limiter forget all of them. */
  lemma StrangerLater(l: Limit, buckets: map<string, Bucket>, key: string, other: string)
    requires FullAtStart(l, buckets) && key !in buckets && |buckets| >= l.sweepAt && other != key
    ensures other !in NextBuckets(l, buckets, Call(key, 601.0))
  {
    assert other !in Sweep(l, buckets, 601.0);
  }

  lemma {:induction false} CrowdIsStored(l: Limit, n: nat)
    requires l.rate.burst <= 0
    ensures var buckets := Buckets(l, Crowd(n));
            |buckets| == n && (n > 0 ==> "" in buckets) && FullAtStart(l, buckets)
            && forall k :: k in buckets ==> |k| < n
  {
    hide NextBuckets;
    if n > 0 {
      CrowdIsStored(l, n - 1);
      var before, c := Buckets(l, Crowd(n - 1)), Call(Nickname(n - 1), 0.0);
      assert (Crowd(n - 1) + [c])[..|Crowd(n - 1) + [c]| - 1] == Crowd(n - 1);
      assert |c.key| == n - 1 && c.key !in before;
      StrangerAtOnce(l, before, c.key);
      assert Buckets(l, Crowd(n)) == before[c.key := Bucket(l.rate.burst as real, 0.0)];
      if n == 1 { assert Nickname(0) == ""; }
    }
  }

  /** A sweep ten minutes after the only call removes the full bucket it left. */
  lemma AFullBucketIsSwept(l: Limit)
    requires l.rate.burst <= 0
    ensures Sorted(Crowd(1)) && NotBefore(Crowd(1), 601.0)
    ensures Sweep(l, Buckets(l, Crowd(1)), 601.0) != Buckets(l, Crowd(1))
  {
    hide Buckets, Crowd;
    CrowdIsStored(l, 1);
    CrowdIsSorted(1);
    assert "" in Buckets(l, Crowd(1)) && "" !in Sweep(l, Buckets(l, Crowd(1)), 601.0);
    assert forall i :: 0 <= i < 1 ==> Crowd(1)[i] in Crowd(1);
  }

  /** Every client is remembered for good, exactly when the burst is positive. */
  lemma ClientsAreRememberedExactly(l: Limit)
    ensures (forall calls, key :: Sorted(calls) ==> (key in Buckets(l, calls) <==> Called(calls, key))) <==>
            l.rate.burst >= 1
  {
    hide Buckets, Sorted, Called, Crowd, Nickname;
    if l.rate.burst >= 1 {
      forall calls, key | Sorted(calls) ensures key in Buckets(l, calls) <==> Called(calls, key) {
        EveryClientIsRemembered(l, calls, key);
      }
    } else {
      CrowdIsForgotten(l);
    }
  }

  /** The next stranger, ten minutes later, makes the limiter forget a full crowd. */
  lemma CrowdIsForgotten(l: Limit)
    requires l.rate.burst <= 0
    ensures var calls := Crowd(l.sweepAt + 1) + [Call(Nickname(l.sweepAt + 1), 601.0)];
            Sorted(calls) && Called(calls, "") && "" !in Buckets(l, calls)
  {
    hide NextBuckets, Crowd;
    var n := l.sweepAt + 1;
    var crowd, c := Crowd(n), Call(Nickname(n), 601.0);
    CrowdIsSorted(n);
    CrowdIsStored(l, n);
    StrangerLater(l, Buckets(l, crowd), c.key, "");
    LaterCallIsSorted(crowd, c);
    assert (crowd + [c])[..|crowd + [c]| - 1] == crowd;
    assert Call("", 0.0) in crowd + [c];
  }

  lemma LaterCallIsSorted(calls: seq<Call>, c: Call)
    requires Sorted(calls) && forall d :: d in calls ==> d.at <= c.at
    ensures Sorted(calls + [c])
  {
    assert forall i :: 0 <= i < |calls| ==> calls[i] in calls;
  }

  lemma NextWithoutSweep(l: Limit, calls: seq<Call>, c: Call)
    requires l.rate.burst >= 1 && Sorted(calls) && NotBefore(calls, c.at)
    ensures Buckets(l, calls + [c]) ==
            Buckets(l, calls)[c.key := AfterDecision(Level(l.rate, Buckets(l, calls), c.key, c.at), c.at)]
  {
    SweepNeverRemoves(l, calls, c.at);
    BoundsStep(l, Buckets(l, calls), c);
    assert (calls + [c])[..|calls + [c]| - 1] == calls;
  }

  lemma SameStepWithoutSweep(l: Limit, sweepAt: nat, buckets: map<string, Bucket>, c: Call)
    requires l.rate.burst >= 1 && InBounds(l, buckets) && Orderly(buckets, c.at)
    ensures NextBuckets(l, buckets, c) == NextBuckets(l.(sweepAt := sweepAt), buckets, c)
  {
    var l' := l.(sweepAt := sweepAt);
    assert Sweep(l, buckets, c.at) == buckets;
    assert Sweep(l', buckets, c.at) == buckets;
  }

  /** Where the sweep triggers, if at all, changes no bucket. */
  lemma {:induction false} SweepIsUnobservable(l: Limit, sweepAt: nat, calls: seq<Call>)
    requires l.rate.burst >= 1 && Sorted(calls)
    ensures Buckets(l, calls) == Buckets(l.(sweepAt := sweepAt), calls)
  {
    if calls != [] {
      var init, c := calls[..|calls| - 1], calls[|calls| - 1];
      SweepIsUnobservable(l, sweepAt, init);
      SweepNeverRemoves(l, init, c.at);
      SameStepWithoutSweep(l, sweepAt, Buckets(l, init), c);
    }
  }

  /** Nor does it change an answer. */
  lemma AnswersIgnoreTheSweep(l: Limit, sweepAt: nat, calls: seq<Call>, i: nat)
    requires l.rate.burst >= 1 && Sorted(calls) && i < |calls|
    ensures Answer(l, calls, i) == Answer(l.(sweepAt := sweepAt), calls, i)
  {
    SweepIsUnobservable(l, sweepAt, calls[..i]);
  }

  // ------------------------------------------------------ exactly who is turned away

  /** The budget the i-th call of a client leaves at an instant. */
  function Budget(l: Limit, calls: seq<Call>, key: string, i: nat, t: real): real
    requires i < |calls|
  {
    l.rate.burst as real + Credit(l.rate, t - calls[i].at) - AllowedFrom(l, calls, key, i) as real
  }

  /** The level is the least of the burst and the budgets since the client's calls. */
  ghost predicate IsLeastBudget(l: Limit, calls: seq<Call>, key: string, t: real, level: real) {
    && level <= l.rate.burst as real
    && (forall i :: 0 <= i < |calls| && calls[i].key == key ==> level <= Budget(l, calls, key, i, t))
    && (level == l.rate.burst as real
        || exists i :: 0 <= i < |calls| && calls[i].key == key && level == Budget(l, calls, key, i, t))
  }

  lemma AllowedAppend(l: Limit, calls: seq<Call>, c: Call, key: string, i: nat)
    requires i <= |calls|
    ensures AllowedFrom(l, calls + [c], key, i) ==
            AllowedFrom(l, calls, key, i)
            + if c.key == key && Level(l.rate, Buckets(l, calls), c.key, c.at) >= 1.0 then 1 else 0
  {
    assert (calls + [c])[..|calls + [c]| - 1] == calls;
    assert (calls + [c])[..|calls|] == calls;
  }

  lemma BudgetAppend(l: Limit, calls: seq<Call>, c: Call, key: string, i: nat, t: real)
    requires Usable(l) && i < |calls|
    ensures Budget(l, calls + [c], key, i, t) ==
            Budget(l, calls, key, i, c.at) + Credit(l.rate, t - c.at)
            - (if c.key == key && Level(l.rate, Buckets(l, calls), c.key, c.at) >= 1.0 then 1.0 else 0.0)
  {
    AllowedAppend(l, calls, c, key, i);
    CreditAdds(l.rate, t - c.at, c.at - calls[i].at);
  }

  /** A client's own call: its budgets all shrink or grow with its level. */
  lemma LeastBudgetOwn(l: Limit, calls: seq<Call>, c: Call, t: real)
    requires Usable(l) && Sorted(calls) && NotBefore(calls, c.at) && c.at <= t
    requires IsLeastBudget(l, calls, c.key, c.at, Level(l.rate, Buckets(l, calls), c.key, c.at))
    ensures IsLeastBudget(l, calls + [c], c.key, t, Level(l.rate, Buckets(l, calls + [c]), c.key, t))
  {
    var calls', n := calls + [c], |calls|;
    var level := Level(l.rate, Buckets(l, calls), c.key, c.at);
    NextWithoutSweep(l, calls, c);
    var level' := Level(l.rate, Buckets(l, calls'), c.key, t);
    AllowedAppend(l, calls, c, c.key, n);
    CreditAdds(l.rate, t - c.at, 0.0);
    assert Budget(l, calls', c.key, n, t) ==
           l.rate.burst as real + Credit(l.rate, t - c.at) - (if level >= 1.0 then 1.0 else 0.0);
    forall i | 0 <= i < n && calls'[i].key == c.key ensures level' <= Budget(l, calls', c.key, i, t) {
      assert calls[i] == calls'[i];
      BudgetAppend(l, calls, c, c.key, i, t);
    }
    if level != l.rate.burst as real {
      var i :| 0 <= i < n && calls[i].key == c.key && level == Budget(l, calls, c.key, i, c.at);
      BudgetAppend(l, calls, c, c.key, i, t);
      assert calls'[i] == calls[i];
    } else {
      assert calls'[n] == c;
    }
  }

  /** Another client's call: nothing moves. */
  lemma LeastBudgetOther(l: Limit, calls: seq<Call>, c: Call, key: string, t: real)
    requires Usable(l) && Sorted(calls) && NotBefore(calls, c.at) && c.at <= t && c.key != key
    requires IsLeastBudget(l, calls, key, t, Level(l.rate, Buckets(l, calls), key, t))
    ensures IsLeastBudget(l, calls + [c], key, t, Level(l.rate, Buckets(l, calls + [c]), key, t))
  {
    var calls', n := calls + [c], |calls|;
    NextWithoutSweep(l, calls, c);
    var level := Level(l.rate, Buckets(l, calls), key, t);
    forall i | 0 <= i < n && calls[i].key == key ensures Budget(l, calls', key, i, t) == Budget(l, calls, key, i, t) {
      AllowedAppend(l, calls, c, key, i);
    }
    if level != l.rate.burst as real {
      var i :| 0 <= i < n && calls[i].key == key && level == Budget(l, calls, key, i, t);
      assert calls'[i].key == key;
    }
  }

  lemma {:induction false} LevelIsLeastBudget(l: Limit, calls: seq<Call>, key: string, t: real)
    requires Usable(l) && Sorted(calls) && NotBefore(calls, t)
    ensures IsLeastBudget(l, calls, key, t, Level(l.rate, Buckets(l, calls), key, t))
  {
    if calls != [] {
      var init, c := calls[..|calls| - 1], calls[|calls| - 1];
      assert calls == init + [c];
      if c.key == key {
        LevelIsLeastBudget(l, init, key, c.at);
        LeastBudgetOwn(l, init, c, t);
      } else {
        LevelIsLeastBudget(l, init, key, t);
        LeastBudgetOther(l, init, c, key, t);
      }
    }
  }

  lemma DeniedWhenOverBudget(l: Limit, calls: seq<Call>, n: nat)
    requires Usable(l) && Sorted(calls) && n < |calls|
    ensures var c := calls[n];
            !Answer(l, calls, n).allowed
            <==> exists i :: 0 <= i < n && calls[i].key == c.key
                   && AllowedFrom(l, calls[..n], c.key, i) as real + 1.0 > l.rate.burst as real
                       + Credit(l.rate, c.at - calls[i].at)
  {
    hide Buckets, Level, AllowedFrom, Credit, Wait;
    var before, c := calls[..n], calls[n];
    var level := LevelAt(l, calls, n);
    LevelIsLeastBudget(l, before, c.key, c.at);
    if level < 1.0 {
      var i :| 0 <= i < n && before[i].key == c.key && level == Budget(l, before, c.key, i, c.at);
      assert calls[i].key == c.key;
    }
    if i :| 0 <= i < n && calls[i].key == c.key
            && AllowedFrom(l, before, c.key, i) as real + 1.0 > l.rate.burst as real
                + Credit(l.rate, c.at - calls[i].at) {
      assert before[i].key == c.key;
      assert level <= Budget(l, before, c.key, i, c.at);
    }
  }

  /** A call is denied exactly when, since some earlier call of the same client, one more
      allowed call would exceed the burst plus what the time since then earned. */
  lemma DeniedExactlyWhenOverBudget(l: Limit, calls: seq<Call>, n: nat)
    requires Usable(l) && Sorted(calls) && n < |calls|
    ensures var c := calls[n];
            !Answer(l, calls, n).allowed
            <==> exists i :: 0 <= i < n && calls[i].key == c.key
                   && AllowedFrom(l, calls[..n], c.key, i) as real + 1.0 > l.rate.burst as real
                       + (c.at - calls[i].at) * l.rate.perMinute as real / 60.0
  {
    hide Buckets, Level, LevelAt, AllowedFrom, Credit, Wait, Sorted, Answer;
    DeniedWhenOverBudget(l, calls, n);
    forall i: nat | i < n { CreditIsPerMinute(l.rate, calls[n].at - calls[i].at); }
  }

  /** Over any stretch a client is allowed at most the burst plus what the time earned. */
  lemma WindowAdmitsAtMostItsBudget(l: Limit, calls: seq<Call>, key: string, i: nat, dt: real)
    requires Usable(l) && Sorted(calls) && i < |calls| && calls[|calls| - 1].at <= calls[i].at + dt
    ensures AllowedFrom(l, calls, key, i) as real <= l.rate.burst as real + dt * l.rate.perMinute as real / 60.0
  {
    CreditIsPerMinute(l.rate, dt);
    var t := calls[|calls| - 1].at;
    CreditAdds(l.rate, t - calls[i].at, dt);
    if j :| i <= j < |calls| && calls[j].key == key && AllowedFrom(l, calls, key, j) == AllowedFrom(l, calls, key, i) {
      LevelIsLeastBudget(l, calls, key, t);
      TokensNotNegative(l, calls, key, t);
      CreditAdds(l.rate, t - calls[j].at, t - calls[i].at);
      assert Level(l.rate, Buckets(l, calls), key, t) <= Budget(l, calls, key, j, t);
    } else {
      NoneAllowed(l, calls, key, i);
      CreditAdds(l.rate, dt, 0.0);
    }
  }

  lemma {:induction false} TokensNotNegative(l: Limit, calls: seq<Call>, key: string, t: real)
    requires Usable(l) && Sorted(calls) && NotBefore(calls, t)
    ensures Level(l.rate, Buckets(l, calls), key, t) >= 0.0
  {
    if calls != [] {
      var init, c := calls[..|calls| - 1], calls[|calls| - 1];
      assert calls == init + [c] && NotBefore(init, c.at) && NotBefore(init, t);
      TokensNotNegative(l, init, key, t);
      TokensNotNegative(l, init, c.key, c.at);
      LevelAfter(l, init, c, key, t);
      CreditAdds(l.rate, t - c.at, 0.0);
    }
  }

  /** The count from i on is the count from the client's first call at or after i. */
  lemma {:induction false} NoneAllowed(l: Limit, calls: seq<Call>, key: string, i: nat)
    requires forall j :: i <= j < |calls| && calls[j].key == key ==>
             AllowedFrom(l, calls, key, j) != AllowedFrom(l, calls, key, i)
    ensures AllowedFrom(l, calls, key, i) == 0
    decreases |calls| - i
  {
    if i < |calls| {
      assert calls[i].key != key;
      AllowedSkips(l, calls, key, i);
      NoneAllowed(l, calls, key, i + 1);
    }
  }

  lemma {:induction false} AllowedSkips(l: Limit, calls: seq<Call>, key: string, i: nat)
    requires i < |calls| && calls[i].key != key
    ensures AllowedFrom(l, calls, key, i) == AllowedFrom(l, calls, key, i + 1)
  {
    if i + 1 < |calls| { AllowedSkips(l, calls[..|calls| - 1], key, i); }
  }

  // -------------------------------------------------- denials leave nothing behind

  /** The calls that were allowed. */
  function Admitted(l: Limit, calls: seq<Call>): seq<Call> {
    if calls == [] then []
    else
      var n := |calls| - 1;
      Admitted(l, calls[..n]) + if LevelAt(l, calls, n) >= 1.0 then [calls[n]] else []
  }

  lemma LevelAfter(l: Limit, calls: seq<Call>, c: Call, key: string, t: real)
    requires Usable(l) && Sorted(calls) && NotBefore(calls, c.at) && c.at <= t
    ensures var level := Level(l.rate, Buckets(l, calls), c.key, c.at);
            Level(l.rate, Buckets(l, calls + [c]), key, t) ==
            if key != c.key then Level(l.rate, Buckets(l, calls), key, t)
            else Min(l.rate.burst as real, (if level < 1.0 then level else level - 1.0) + Credit(l.rate, t - c.at))
  {
    NextWithoutSweep(l, calls, c);
  }

  /** A denied call leaves the client's future levels as they were. */
  lemma DenialKeepsLevels(l: Limit, calls: seq<Call>, c: Call, key: string, t: real)
    requires Usable(l) && Sorted(calls) && NotBefore(calls, c.at) && c.at <= t
    requires Level(l.rate, Buckets(l, calls), c.key, c.at) < 1.0
    ensures Level(l.rate, Buckets(l, calls + [c]), key, t) == Level(l.rate, Buckets(l, calls), key, t)
  {
    LevelAfter(l, calls, c, key, t);
    if key == c.key {
      var b := Buckets(l, calls)[key];
      CreditAdds(l.rate, t - c.at, c.at - b.last);
      CreditAdds(l.rate, t - c.at, 0.0);
    }
  }

  lemma {:induction false} AdmittedKeepsOrder(l: Limit, calls: seq<Call>)
    requires Sorted(calls)
    ensures Sorted(Admitted(l, calls)) && forall c :: c in Admitted(l, calls) ==> c in calls
    ensures forall t :: NotBefore(calls, t) ==> NotBefore(Admitted(l, calls), t)
  {
    if calls != [] {
      var init, c := calls[..|calls| - 1], calls[|calls| - 1];
      AdmittedKeepsOrder(l, init);
      assert calls == init + [c];
      forall d | d in Admitted(l, init) ensures d.at <= c.at {
        var i :| 0 <= i < |init| && init[i] == d;
        assert calls[i].at <= calls[|calls| - 1].at;
      }
    }
  }

  /** Traces with equal levels before a call have equal levels after it. */
  lemma SameCallSameLevel(l: Limit, a: seq<Call>, b: seq<Call>, c: Call, key: string, t: real)
    requires Usable(l) && Sorted(a) && Sorted(b) && NotBefore(a, c.at) && NotBefore(b, c.at) && c.at <= t
    requires Level(l.rate, Buckets(l, a), c.key, c.at) == Level(l.rate, Buckets(l, b), c.key, c.at)
    requires Level(l.rate, Buckets(l, a), key, t) == Level(l.rate, Buckets(l, b), key, t)
    ensures Level(l.rate, Buckets(l, a + [c]), key, t) == Level(l.rate, Buckets(l, b + [c]), key, t)
  {
    LevelAfter(l, a, c, key, t);
    LevelAfter(l, b, c, key, t);
  }

  /** Leaving out every denied call changes no client's level at any later time. */
  lemma {:induction false} DenialsAreUnobservable(l: Limit, calls: seq<Call>, key: string, t: real)
    requires Usable(l) && Sorted(calls) && NotBefore(calls, t)
    ensures Level(l.rate, Buckets(l, Admitted(l, calls)), key, t) == Level(l.rate, Buckets(l, calls), key, t)
  {
    if calls != [] {
      var init, c := calls[..|calls| - 1], calls[|calls| - 1];
      assert calls == init + [c] && c.at <= t;
      assert NotBefore(init, c.at) && NotBefore(init, t);
      DenialsAreUnobservable(l, init, key, t);
      if LevelAt(l, calls, |init|) >= 1.0 {
        DenialsAreUnobservable(l, init, c.key, c.at);
        AdmittedKeepsOrder(l, init);
        SameCallSameLevel(l, Admitted(l, init), init, c, key, t);
      } else {
        DenialKeepsLevels(l, init, c, key, t);
        assert Admitted(l, calls) == Admitted(l, init);
      }
    }
  }

  /** With the denied calls left out, every remaining call is allowed, with the same answer. */
  lemma {:induction false} AdmittedAreAdmittedAgain(l: Limit, calls: seq<Call>, n: nat)
    requires Usable(l) && Sorted(calls) && n < |calls| && Answer(l, calls, n).allowed
    ensures var kept := Admitted(l, calls);
            var i := |Admitted(l, calls[..n])|;
            i < |kept| && kept[i] == calls[n] && Answer(l, kept, i) == Answer(l, calls, n)
  {
    var init, c := calls[..|calls| - 1], calls[|calls| - 1];
    if n == |calls| - 1 {
      var kept := Admitted(l, calls);
      assert kept[..|kept| - 1] == Admitted(l, init);
      DenialsAreUnobservable(l, init, c.key, c.at);
    } else {
      assert init[..n] == calls[..n];
      AdmittedAreAdmittedAgain(l, init, n);
      var i := |Admitted(l, calls[..n])|;
      assert Admitted(l, calls)[..i] == Admitted(l, init)[..i];
    }
  }

  // ------------------------------------------------------------- the promised wait

  /** Calls of others change nothing for a client. */
  lemma {:induction false} OthersKeepLevel(l: Limit, calls: seq<Call>, others: seq<Call>, key: string, t: real)
    requires Usable(l) && Sorted(calls + others) && NotBefore(calls + others, t)
    requires forall c :: c in others ==> c.key != key
    ensures Level(l.rate, Buckets(l, calls + others), key, t) == Level(l.rate, Buckets(l, calls), key, t)
  {
    if others == [] {
      assert calls + others == calls;
    } else {
      var init, c := others[..|others| - 1], others[|others| - 1];
      assert calls + others == (calls + init) + [c];
      assert (calls + others)[|calls + others| - 1] == c;
      assert forall i :: 0 <= i < |calls + init| ==> (calls + init)[i] == (calls + others)[i];
      OthersKeepLevel(l, calls, init, key, t);
      LevelAfter(l, calls + init, c, key, t);
    }
  }

  /** What a denied client finds when it next calls. */
  lemma LevelAfterDenial(l: Limit, init: seq<Call>, c: Call, others: seq<Call>, t: real)
    requires Usable(l) && Level(l.rate, Buckets(l, init), c.key, c.at) < 1.0
    requires forall d :: d in others ==> d.key != c.key
    requires Sorted(init + [c] + others) && NotBefore(init + [c] + others, t)
    ensures Level(l.rate, Buckets(l, init + [c] + others), c.key, t) ==
            Min(l.rate.burst as real, Level(l.rate, Buckets(l, init), c.key, c.at) + Credit(l.rate, t - c.at))
  {
    var past := init + [c] + others;
    assert past[|init|] == c;
    assert forall i :: 0 <= i < |init| ==> init[i] == past[i];
    OthersKeepLevel(l, init + [c], others, c.key, t);
    LevelAfter(l, init, c, c.key, t);
  }

  lemma SplitTrace(calls: seq<Call>, others: seq<Call>, c: Call)
    requires calls != [] && Sorted(calls + others + [c])
    ensures calls == calls[..|calls| - 1] + [calls[|calls| - 1]]
    ensures Sorted(calls + others) && NotBefore(calls + others, c.at)
    ensures (calls + others + [c])[..|calls + others|] == calls + others
  {
    var past := calls + others;
    var trace := past + [c];
    assert trace[|past|] == c;
    assert forall i :: 0 <= i < |past| ==> trace[i] == past[i];
  }

  /** A denied client that stays away is refused before the returned wait is over and
      admitted exactly from then on. */
  lemma WaitIsExact(l: Limit, calls: seq<Call>, others: seq<Call>, t: real)
    requires Usable(l) && calls != [] && !Answer(l, calls, |calls| - 1).allowed
    requires forall d :: d in others ==> d.key != calls[|calls| - 1].key
    requires Sorted(calls + others + [Call(calls[|calls| - 1].key, t)])
    ensures var c := calls[|calls| - 1];
            var wait := Answer(l, calls, |calls| - 1).wait.value;
            wait > 0.0
            && (Answer(l, calls + others + [Call(c.key, t)], |calls + others|).allowed <==> t >= c.at + wait)
  {
    var init, c := calls[..|calls| - 1], calls[|calls| - 1];
    SplitTrace(calls, others, Call(c.key, t));
    LevelAfterDenial(l, init, c, others, t);
    WaitEarns(l.rate, 1.0 - LevelAt(l, calls, |calls| - 1), t - c.at);
  }

  lemma WaitEarns(r: Rate, missing: real, dt: real)
    requires Positive(r) && missing > 0.0
    ensures missing / PerSecond(r) > 0.0
    ensures Credit(r, dt) >= missing <==> dt >= missing / PerSecond(r)
  {
    var k := PerSecond(r);
    var w := missing / k;
    assert w * k == missing;
    MulSign(w, k);
    MulSign(w - dt, k);
    assert (w - dt) * k == missing - Credit(r, dt);
  }

  // ------------------------------------------------------------ the promised remainder

  /** The same call, again and again, at the same instant. */
  function Again(c: Call, k: nat): seq<Call> { seq(k, _ => c) }

  lemma OnceMore(calls: seq<Call>, c: Call, k: nat)
    requires Sorted(calls) && NotBefore(calls, c.at)
    ensures Sorted(calls + Again(c, k)) && NotBefore(calls + Again(c, k), c.at)
    ensures |Again(c, k)| == k && calls + Again(c, k + 1) == (calls + Again(c, k)) + [c]
  {
    assert forall i :: 0 <= i < k ==> Again(c, k)[i] == c;
    var more := calls + Again(c, k);
    assert forall i :: 0 <= i < |more| ==> more[i] == if i < |calls| then calls[i] else c;
  }

  function TokensLeft(level: real, k: nat): real { level - (if k <= level.Floor then k else level.Floor) as real }

  lemma OneTaken(level: real, k: nat)
    requires level >= 0.0
    ensures var left := TokensLeft(level, k);
            (if left < 1.0 then left else left - 1.0) == TokensLeft(level, k + 1)
    ensures TokensLeft(level, k) >= 1.0 <==> k < level.Floor
  {
  }

  lemma TakesOne(l: Limit, past: seq<Call>, c: Call)
    requires Usable(l) && Sorted(past) && NotBefore(past, c.at)
    ensures var level := Level(l.rate, Buckets(l, past), c.key, c.at);
            Level(l.rate, Buckets(l, past + [c]), c.key, c.at) == if level < 1.0 then level else level - 1.0
  {
    hide Buckets, Sorted, NotBefore;
    LevelAfter(l, past, c, c.key, c.at);
    LevelInBounds(l, past, c.key, c.at);
  }

  /** Each repetition takes one token as long as there is one. */
  lemma {:induction false} RepetitionsDrain(l: Limit, calls: seq<Call>, c: Call, k: nat)
    requires Usable(l) && Sorted(calls) && NotBefore(calls, c.at)
    requires Level(l.rate, Buckets(l, calls), c.key, c.at) >= 0.0
    ensures Level(l.rate, Buckets(l, calls + Again(c, k)), c.key, c.at)
            == TokensLeft(Level(l.rate, Buckets(l, calls), c.key, c.at), k)
  {
    hide Buckets, Sorted, NotBefore, Level, Again;
    if k == 0 {
      assert calls + Again(c, 0) == calls by { NoneAgain(c); }
    } else {
      hide TokensLeft;
      RepetitionsDrain(l, calls, c, k - 1);
      OnceMore(calls, c, k - 1);
      TakesOne(l, calls + Again(c, k - 1), c);
      OneTaken(Level(l.rate, Buckets(l, calls), c.key, c.at), k - 1);
    }
  }

  lemma NoneAgain(c: Call)
    ensures Again(c, 0) == []
  {
  }

  lemma LevelInBounds(l: Limit, calls: seq<Call>, key: string, t: real)
    requires Usable(l)
    ensures Level(l.rate, Buckets(l, calls), key, t) <= l.rate.burst as real
  {
  }

  /** What is announced as remaining is what remains: of the calls the client repeats at once,
      exactly so many are allowed. */
  lemma RemainingIsExact(l: Limit, calls: seq<Call>, k: nat)
    requires Usable(l) && Sorted(calls) && calls != []
    ensures var c := calls[|calls| - 1];
            Answer(l, calls + Again(c, k + 1), |calls| + k).allowed
            <==> k < Answer(l, calls, |calls| - 1).remaining
  {
    hide Buckets, Level, Again, TokensLeft;
    var init, c := calls[..|calls| - 1], calls[|calls| - 1];
    assert calls == init + [c] && NotBefore(init, c.at) && NotBefore(calls, c.at);
    TakesOne(l, init, c);
    TokensNotNegative(l, calls, c.key, c.at);
    TokensNotNegative(l, init, c.key, c.at);
    RepetitionsDrain(l, calls, c, k);
    OneTaken(Level(l.rate, Buckets(l, calls), c.key, c.at), k);
    OnceMore(calls, c, k);
    assert (calls + Again(c, k + 1))[..|calls| + k] == calls + Again(c, k);
    assert (calls + Again(c, k + 1))[|calls| + k] == c;
  }

  /** What an allowed call announces as the reset is when the client, staying away, finds again
      what it found, and no earlier. */
  lemma ResetIsExact(l: Limit, calls: seq<Call>, others: seq<Call>, t: real)
    requires Usable(l) && calls != [] && Answer(l, calls, |calls| - 1).allowed
    requires forall d :: d in others ==> d.key != calls[|calls| - 1].key
    requires Sorted(calls + others) && NotBefore(calls + others, t)
    ensures var c := calls[|calls| - 1];
            var reset := Answer(l, calls, |calls| - 1).wait;
            reset.Some?
            && (Level(l.rate, Buckets(l, calls + others), c.key, t) >= LevelAt(l, calls, |calls| - 1)
                <==> t >= c.at + reset.value)
  {
    hide Buckets;
    var init, c := calls[..|calls| - 1], calls[|calls| - 1];
    var past := calls + others;
    assert calls == init + [c] && past[|init|] == c;
    assert forall i :: 0 <= i < |init| ==> init[i] == past[i];
    OthersKeepLevel(l, calls, others, c.key, t);
    LevelAfter(l, init, c, c.key, t);
    LevelInBounds(l, init, c.key, c.at);
    WaitEarns(l.rate, 1.0, t - c.at);
  }

  // --------------------------------------------------------------- the limiter itself

  class RateLimiter {
    const limit: Limit
    var buckets: map<string, Bucket>

    constructor (perMinute: int, burst: int)
      ensures limit == NewLimit(perMinute, burst) && buckets == Buckets(limit, [])
      ensures limit.rate.perMinute == perMinute && limit.rate.burst == (if burst <= 0 then perMinute else burst)
      ensures limit.sweepAt == 10000 && buckets == map[]
      ensures perMinute >= 1 ==> Usable(limit)
    {
      limit := NewLimit(perMinute, burst);
      buckets := map[];
    }

    method SweepLocked(now: real)
      modifies this`buckets
      ensures buckets == Sweep(limit, old(buckets), now)
      ensures forall k :: k in buckets <==>
                k in old(buckets)
                && !(old(buckets)[k].tokens >= limit.rate.burst as real && now - old(buckets)[k].last > 600.0)
      ensures forall k :: k in buckets ==> buckets[k] == old(buckets)[k]
    {
      var pending := buckets.Keys;
      while pending != {}
        invariant pending <= buckets.Keys <= old(buckets).Keys
        invariant forall k :: k in buckets ==> buckets[k] == old(buckets)[k]
        invariant forall k :: k in old(buckets) && k !in pending ==>
                    (k in buckets <==> !Idle(limit, old(buckets)[k], now))
        decreases pending
      {
        var k :| k in pending;
        if buckets[k].tokens >= limit.rate.burst as real && now - buckets[k].last > 600.0 {
          buckets := buckets - {k};
        }
        pending := pending - {k};
      }
    }

    /** Takes a token if there is one; says how many remain or how long to wait. */
    method Allow(key: string, now: real) returns (allowed: bool, remaining: int, wait: Option<real>)
      modifies this`buckets
      ensures buckets == NextBuckets(limit, old(buckets), Call(key, now))
      ensures Verdict(allowed, remaining, wait) == Decide(limit.rate, Level(limit.rate, old(buckets), key, now))
    {
      ghost var level := Level(limit.rate, buckets, key, now);
      var b: Bucket;
      if key in buckets {
        b := buckets[key];
      } else {
        if |buckets| >= limit.sweepAt {
          SweepLocked(now);
        }
        b := Bucket(limit.rate.burst as real, now);
        buckets := buckets[key := b];
      }
      var tokens := Min(limit.rate.burst as real, b.tokens + Credit(limit.rate, now - b.last));
      assert tokens == level;
      if tokens < 1.0 {
        buckets := buckets[key := Bucket(tokens, now)];
        return false, 0, Wait(limit.rate, 1.0 - tokens);
      }
      tokens := tokens - 1.0;
      buckets := buckets[key := Bucket(tokens, now)];
      return true, tokens.Floor, Wait(limit.rate, 1.0);
    }
  }
}
