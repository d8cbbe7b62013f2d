/** What the cadence starts and when: boot sweeps skip only what is fresh, tickers keep their
    phase and never wait longer than an interval and the stagger, and the least ceiling that
    loading accepts is the least one the schedule leaves alone. */
module ScheduleExact {
  import opened States
  import opened Clock
  import opened Options
  import opened Store
  import opened BreakerLaw
  import opened Guard
  import opened GuardInvariant
  import opened GuardRuns
  import opened Schedule
  import opened ScheduleRuns

  // -------------------------------------------------------------- the boot sweep

  /** An attempt whose row was written at an instant. */
  predicate WroteRowAt(a: seq<Attempt>, i: int, at: int) { 0 <= i < |a| && a[i].fate == Recorded(at) }

  /** A conclusive live row is the row of an attempt. */
  ghost predicate RowBehind(c: Option<Current>, lane: Lane) {
    && (InRun(lane.phase) ==> lane.attempts != [] && Last(lane.attempts).fate == InFlight)
    && (c.Some? && c.value.state != Unknown ==> exists i :: WroteRowAt(lane.attempts, i, c.value.lastChecked))
  }

  /** An action leaves the rows of earlier attempts alone. */
  lemma RowsStay(clock: int, lane: Lane, action: Action, i: int, at: int)
    requires InRun(lane.phase) ==> lane.attempts != [] && Last(lane.attempts).fate == InFlight
    requires WroteRowAt(lane.attempts, i, at)
    ensures WroteRowAt(NextAttempts(clock, lane, action), i, at)
  {
  }

  lemma InFlightStays(cfg: Config, key: string, clock: int, db: Tables, lane: Lane, action: Action)
    requires Guarded(cfg, key)
    requires InRun(lane.phase) ==> lane.attempts != [] && Last(lane.attempts).fate == InFlight
    ensures var lane' := NextLane(cfg, cfg.jobs[key], key, clock, db, lane, action);
            InRun(lane'.phase) ==> lane'.attempts != [] && Last(lane'.attempts).fate == InFlight
  {
  }

  lemma NewRow(key: string, clock: int, db: Tables, lane: Lane, action: Action)
    requires InRun(lane.phase) ==> lane.attempts != []
    ensures var c, c' := CurrentState(db, key), CurrentState(NextTables(key, clock, db, lane.phase, action), key);
            c' == c || (c'.Some? && c'.value.state == Unknown)
            || (c'.Some? && c'.value.lastChecked == clock
                && WroteRowAt(NextAttempts(clock, lane, action), |lane.attempts| - 1, clock))
  {
  }

  lemma RowBehindOwn(cfg: Config, key: string, clock: int, db: Tables, lane: Lane, action: Action)
    requires Guarded(cfg, key) && RowBehind(CurrentState(db, key), lane)
    ensures RowBehind(CurrentState(NextTables(key, clock, db, lane.phase, action), key),
                      NextLane(cfg, cfg.jobs[key], key, clock, db, lane, action))
  {
    hide NextTables, NextPhase, NextAttempts, WroteRowAt, CurrentState;
    InFlightStays(cfg, key, clock, db, lane, action);
    NewRow(key, clock, db, lane, action);
    if c :| CurrentState(db, key) == Some(c) && c.state != Unknown {
      var i :| WroteRowAt(lane.attempts, i, c.lastChecked);
      RowsStay(clock, lane, action, i, c.lastChecked);
    }
  }

  lemma RowBehindOther(cfg: Config, key: string, k: string, clock: int, db: Tables, phase: Phase, action: Action)
    requires k != key
    ensures CurrentState(NextTables(k, clock, db, phase, action), key) == CurrentState(db, key)
  {
  }

  lemma RowBehindCrash(c: Option<Current>, lane: Lane)
    requires RowBehind(c, lane)
    ensures RowBehind(c, Crashed(lane))
  {
    var a, b := lane.attempts, Crashed(lane).attempts;
    assert forall i, at :: WroteRowAt(a, i, at) ==> WroteRowAt(b, i, at);
  }

  lemma RowBehindStep(cfg: Config, w: World, e: Event, key: string)
    requires Guarded(cfg, key) && RowBehind(CurrentState(w.db, key), LaneOf(w, key))
    ensures RowBehind(CurrentState(Next(cfg, w, e).db, key), LaneOf(Next(cfg, w, e), key))
  {
    hide RowBehind, NextTables, NextLane, Crashed, CurrentState;
    match e
    case Act(k, action) =>
      if k in cfg.jobs {
        ActParts(cfg, w, k, action, key);
        if k == key {
          RowBehindOwn(cfg, key, w.clock, w.db, LaneOf(w, key), action);
        } else {
          RowBehindOther(cfg, key, k, w.clock, w.db, LaneOf(w, k).phase, action);
        }
      }
    case Restart =>
      RowBehindCrash(CurrentState(w.db, key), LaneOf(w, key));
      CrashedLane(cfg, w, key);
    case Tick(_) =>
    case Prune(age) => PruneKeepsCurrent(w.db, cfg.rawDays, w.clock - age, key);
  }

  lemma CrashedLane(cfg: Config, w: World, key: string)
    ensures LaneOf(Next(cfg, w, Guard.Restart), key) == Crashed(LaneOf(w, key))
    ensures Next(cfg, w, Guard.Restart).db == w.db
  {
  }

  lemma PruneKeepsCurrent(db: Tables, rawDays: int, now: int, key: string)
    ensures CurrentState(PruneRaw(db, rawDays, now), key) == CurrentState(db, key)
  {
  }

  lemma {:induction false} RowBehindAlways(cfg: Config, clock: int, events: seq<Event>, key: string)
    requires Guarded(cfg, key)
    ensures var w := Run(cfg, Init(clock), events); RowBehind(CurrentState(w.db, key), LaneOf(w, key))
  {
    if events != [] {
      RowBehindAlways(cfg, clock, events[..|events| - 1], key);
      RowBehindStep(cfg, Run(cfg, Init(clock), events[..|events| - 1]), events[|events| - 1], key);
    }
  }

  /** When its turn comes, the boot sweep starts a run of a check, unless the check is guarded
      and the sweep can read a live row of it that is conclusive and younger than its interval;
      and then an attempt less than an interval ago wrote that row. */
  lemma SweepSkipsExactlyFreshChecks(cfg: Config, clock: int, events: seq<TimedEvent>, key: string, readable: bool)
    requires key in cfg.jobs
    requires var t := RunTimed(cfg, Begin(clock), events);
             CadenceOf(t, key) == Boot && LaneOf(t.w, key).phase == Idle
    ensures var t := RunTimed(cfg, Begin(clock), events);
            var t' := NextTimed(cfg, t, Sweep(key, readable));
            var skips := cfg.jobs[key].guarded && readable
                         && key in t.w.db.current && t.w.db.current[key].state != Unknown
                         && t.w.clock - t.w.db.current[key].lastChecked < cfg.jobs[key].interval;
            CadenceOf(t', key) == Swept
            && LaneOf(t'.w, key).phase ==
               (if skips then Idle else if cfg.jobs[key].guarded then Loading(t.w.clock) else Cleared(t.w.clock))
            && (skips ==> exists i, at :: WroteRowAt(LaneOf(t.w, key).attempts, i, at)
                            && t.w.clock - at < cfg.jobs[key].interval)
  {
    hide RunTimed;
    var t := RunTimed(cfg, Begin(clock), events);
    ActParts(cfg, t.w, key, Start, key);
    if cfg.jobs[key].guarded { FreshRowsAreAttempts(cfg, clock, events, key); }
  }

  lemma FreshRowsAreAttempts(cfg: Config, clock: int, events: seq<TimedEvent>, key: string)
    requires Guarded(cfg, key)
    ensures var t := RunTimed(cfg, Begin(clock), events);
            var c := CurrentState(t.w.db, key);
            c.Some? && c.value.state != Unknown ==>
              exists i :: WroteRowAt(LaneOf(t.w, key).attempts, i, c.value.lastChecked)
  {
    hide RunTimed;
    TimedRunsAreRuns(cfg, clock, events);
    var plain :| RunTimed(cfg, Begin(clock), events).w == Run(cfg, Init(clock), plain);
    RowBehindAlways(cfg, clock, plain, key);
  }

  // ----------------------------------------------------------------- the tickers

  predicate TickIsNear(cfg: Config, t: TimedWorld, key: string)
    requires key in cfg.jobs
  {
    var interval := cfg.jobs[key].interval;
    CadenceOf(t, key).Ticking? ==>
      var next := CadenceOf(t, key).next;
      next - t.w.clock <= interval + interval / 4 && next - t.w.clock <= interval + 30_000_000_000
  }

  lemma NextTickIsTheFirst(next: int, interval: int, at: int)
    requires interval > 0 && next <= at
    ensures var r := NextTick(next, interval, at);
            at < r <= at + interval && exists n: nat :: n > 0 && r == next + interval * n
  {
    var missed := (at - next) / interval;
    assert interval * missed <= at - next;
    assert NextTick(next, interval, at) == next + interval * (missed + 1);
  }

  lemma NearStep(cfg: Config, t: TimedWorld, event: TimedEvent, key: string)
    requires key in cfg.jobs && TickIsNear(cfg, t, key)
    ensures TickIsNear(cfg, NextTimed(cfg, t, event), key)
  {
    hide NextTick, Entered, HasFreshResult, LaneOf;
    match event
    case Fire(k) =>
      if k == key && CadenceOf(t, k).Ticking? && CadenceOf(t, k).next <= t.w.clock && cfg.jobs[k].interval > 0 {
        NextTickIsTheFirst(CadenceOf(t, k).next, cfg.jobs[k].interval, t.w.clock);
      }
    case _ =>
  }

  /** After any run, a check whose ticker runs is due again within its interval and the stagger,
      which is at most a quarter of the interval and at most thirty seconds. */
  lemma {:induction false} TheNextTickIsNear(cfg: Config, clock: int, events: seq<TimedEvent>, key: string)
    requires key in cfg.jobs
    ensures TickIsNear(cfg, RunTimed(cfg, Begin(clock), events), key)
  {
    hide NextTimed;
    if events == [] {
      assert CadenceOf(Begin(clock), key) == Boot;
    } else {
      TheNextTickIsNear(cfg, clock, events[..|events| - 1], key);
      NearStep(cfg, RunTimed(cfg, Begin(clock), events[..|events| - 1]), events[|events| - 1], key);
    }
  }

  /** A tick starts a run exactly when it is due and the last run has ended, and the next one is
      the first of the ticker's instants still to come. */
  lemma TicksStartRuns(cfg: Config, t: TimedWorld, key: string)
    requires Guarded(cfg, key) && cfg.jobs[key].interval > 0
    requires LaneOf(t.w, key).phase == Idle && CadenceOf(t, key).Ticking?
    ensures var t' := NextTimed(cfg, t, Fire(key));
            var due := CadenceOf(t, key).next;
            if t.w.clock < due then t' == t
            else
              LaneOf(t'.w, key).phase == Loading(t.w.clock) && LedgerOf(t', key).due == due
              && exists n: nat :: n > 0 && CadenceOf(t', key) == Ticking(due + cfg.jobs[key].interval * n)
                   && t.w.clock < due + cfg.jobs[key].interval * n <= t.w.clock + cfg.jobs[key].interval
  {
    hide NextTick;
    ActParts(cfg, t.w, key, Start, key);
    if t.w.clock >= CadenceOf(t, key).next {
      NextTickIsTheFirst(CadenceOf(t, key).next, cfg.jobs[key].interval, t.w.clock);
    }
  }

  // ----------------------------------------------------- the least accepted ceiling

  /** Attempts on time, the first at the start and one each interval, each with its row at
      once. */
  function OnTime(n: nat, interval: int): seq<Attempt> { seq(n, i => Whole(i * interval, UP_RESULT, true, true)) }

  /** A ticker without faults and without delays. */
  lemma Punctual(cfg: Config, key: string, n: nat) returns (t: TimedWorld)
    requires Guarded(cfg, key) && FreeGate(cfg, key) && cfg.jobs[key].interval > 0
    requires 0 < n <= cfg.guard.maxAttempts && n * cfg.jobs[key].interval <= Days(1)
    ensures ReachedTimed(cfg, 0, t) && FaultsOf(t, key) == {} && t.w.clock == n * cfg.jobs[key].interval
    ensures LaneOf(t.w, key) == Lane(Idle, OnTime(n, cfg.jobs[key].interval))
    ensures CadenceOf(t, key) == Ticking(n * cfg.jobs[key].interval)
    ensures LoadBreaker(t.w.db, key) == ZERO_BREAKER
    ensures forall since :: since <= 0 ==> CountSince(t.w.db.results, key, since) == n
  {
    hide ReachedTimed, LaneOf, LedgerOf, CadenceOf, Left, Next, NextTimed, NextTick, CurrentState;
    var interval := cfg.jobs[key].interval;
    t := Prepared(cfg, key);
    t := SweepsIn(cfg, 0, t, key, true);
    SuccessLeaves(cfg, t.w.db, key, 0, 0);
    t := Tries(cfg, 0, t, key, UP_RESULT, true, true);
    t := TickerStarts(cfg, 0, t, key, interval);
    for k := 1 to n
      invariant ReachedTimed(cfg, 0, t) && FaultsOf(t, key) == {} && t.w.clock == k * interval
      invariant LaneOf(t.w, key) == Lane(Idle, OnTime(k, interval))
      invariant CadenceOf(t, key) == Ticking(k * interval)
      invariant GateOpen(cfg.jobs[key], t.w.db) && LoadBreaker(t.w.db, key) == ZERO_BREAKER
      invariant forall since :: since <= 0 ==> CountSince(t.w.db.results, key, since) == k
    {
      InTheDay(k, n, interval);
      assert CountSince(t.w.db.results, key, k * interval - Days(1)) == k;
      t := TicksIn(cfg, 0, t, key);
      SuccessLeaves(cfg, t.w.db, key, k * interval, k);
      t := Tries(cfg, 0, t, key, UP_RESULT, true, true);
      assert NextTick(k * interval, interval, k * interval) == (k + 1) * interval;
      t := Waits(cfg, 0, t, key, interval);
    }
  }

  lemma InTheDay(k: nat, n: nat, interval: int)
    requires k <= n && interval > 0 && n * interval <= Days(1)
    ensures 0 <= k * interval <= Days(1) && (k + 1) * interval == k * interval + interval
  {
    assert (n - k) * interval >= 0 && k * interval >= 0;
    assert (n - k) * interval == n * interval - k * interval;
  }

  /** What an attempt on time leaves. */
  lemma SuccessLeaves(cfg: Config, db: Tables, key: string, now: int, n: nat)
    requires Guarded(cfg, key) && FreeGate(cfg, key) && now >= 0
    requires forall since :: since <= 0 ==> CountSince(db.results, key, since) == n
    ensures var db' := Left(cfg.guard, db, key, now, UP_RESULT, true, true);
            GateOpen(cfg.jobs[key], db') == GateOpen(cfg.jobs[key], db)
            && LoadBreaker(db', key) == ZERO_BREAKER
            && forall since :: since <= 0 ==> CountSince(db'.results, key, since) == n + 1
  {
    hide Left;
    forall since | since <= 0
      ensures CountSince(Left(cfg.guard, db, key, now, UP_RESULT, true, true).results, key, since) == n + 1
    {
      LeftParts(cfg.guard, db, cfg.jobs[key], key, now, UP_RESULT, true, true, since);
    }
    LeftParts(cfg.guard, db, cfg.jobs[key], key, now, UP_RESULT, true, true, 0);
  }

  /** With a ceiling that loading would not accept for the check's own interval, the schedule
      alone reaches it: without any fault or delay, a run is refused. */
  lemma ASmallerCeilingIsReached(cfg: Config, key: string)
    requires Guarded(cfg, key) && FreeGate(cfg, key) && cfg.jobs[key].interval > 0
    requires 0 < cfg.guard.maxAttempts <= Days(1) / cfg.jobs[key].interval
    ensures exists t :: ReachedTimed(cfg, 0, t) && FaultsOf(t, key) == {}
                        && LaneOf(t.w, key) ==
                           Lane(Refused(t.w.clock, BreakerOpen, Ceiling),
                                OnTime(cfg.guard.maxAttempts, cfg.jobs[key].interval))
  {
    hide ReachedTimed, OnTime;
    var n, interval := cfg.guard.maxAttempts, cfg.jobs[key].interval;
    DivideBounds(Days(1), interval);
    assert n * interval <= Days(1) by {
      assert (Days(1) / interval - n) * interval >= 0;
      assert (Days(1) / interval - n) * interval == Days(1) / interval * interval - n * interval;
    }
    var t := Punctual(cfg, key, n);
    ReachNextTimed(cfg, 0, t, Fire(key));
    var t' := NextTimed(cfg, t, Fire(key));
    ActParts(cfg, t.w, key, Start, key);
    CountRefuses(cfg, t'.w, key);
    t' := GoAll(cfg, 0, t', key, [Load(true), Count(true)]);
  }
}
