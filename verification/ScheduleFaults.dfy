/** Each of the three faults, alone, lets a check attempt again before its interval is over. */
module ScheduleFaults {
  import opened States
  import opened Clock
  import opened Options
  import opened Store
  import opened BreakerLaw
  import opened Guard
  import opened GuardInvariant
  import opened GuardRuns
  import opened Schedule
  import opened ScheduleRuns

  predicate CloserThanInterval(cfg: Config, t: TimedWorld, key: string, i: nat, j: nat)
    requires key in cfg.jobs
  {
    var a := LaneOf(t.w, key).attempts;
    i < j < |a| && Real(a[i]) && Real(a[j]) && a[j].begin - a[i].begin < cfg.jobs[key].interval
  }

  /** A run in which only faults of one kind befall the check, and spacing is lost. */
  ghost predicate BreaksSpacing(cfg: Config, key: string, kind: FaultKind)
    requires key in cfg.jobs
  {
    exists t, i: nat, j: nat :: ReachedTimed(cfg, 0, t) && CloserThanInterval(cfg, t, key, i, j)
        && Only(FaultsOf(t, key), kind)
  }

  /** Enough room under the ceiling for the runs below. */
  predicate Roomy(cfg: Config, key: string) {
    Guarded(cfg, key) && FreeGate(cfg, key) && cfg.jobs[key].interval > 1
    && (cfg.guard.maxAttempts <= 0 || cfg.guard.maxAttempts > 2)
  }

  /** A row that is not written lets the next boot attempt again at once. */
  lemma LostRowBreaksSpacing(cfg: Config, key: string)
    requires Roomy(cfg, key)
    ensures BreaksSpacing(cfg, key, LostRow)
  {
    hide NoRows, ReachedTimed, LaneOf, LedgerOf, CadenceOf, Left, Next, NextTimed;
    var t := Prepared(cfg, key);
    t := SweepsIn(cfg, 0, t, key, true);
    LeftParts(cfg.guard, t.w.db, cfg.jobs[key], key, 0, UP_RESULT, true, false, -Days(1));
    NoRowNoState(cfg.guard, t.w.db, key, 0);
    t := Tries(cfg, 0, t, key, UP_RESULT, true, false);
    t := Restarts(cfg, 0, t, key);
    t := SweepsIn(cfg, 0, t, key, true);
    t := Launches(cfg, 0, t, key);
    assert CloserThanInterval(cfg, t, key, 0, 1);
  }

  lemma NoRowNoState(g: GuardConfig, db: Tables, key: string, now: int)
    ensures CurrentState(Left(g, db, key, now, UP_RESULT, true, false), key) == CurrentState(db, key)
  {
  }

  /** So does a run that a restart cuts. */
  lemma CutRunBreaksSpacing(cfg: Config, key: string)
    requires Roomy(cfg, key)
    ensures BreaksSpacing(cfg, key, CutRun)
  {
    hide NoRows, ReachedTimed, LaneOf, LedgerOf, CadenceOf, Left, Next, NextTimed;
    var t := Prepared(cfg, key);
    t := SweepsIn(cfg, 0, t, key, true);
    t := Launches(cfg, 0, t, key);
    t := Restarts(cfg, 0, t, key);
    t := SweepsIn(cfg, 0, t, key, true);
    t := Launches(cfg, 0, t, key);
    assert CloserThanInterval(cfg, t, key, 0, 1);
  }

  /** So does a boot that cannot read the live rows. */
  lemma BlindSweepBreaksSpacing(cfg: Config, key: string)
    requires Roomy(cfg, key)
    ensures BreaksSpacing(cfg, key, BlindSweep)
  {
    hide NoRows, ReachedTimed, LaneOf, LedgerOf, CadenceOf, Left, Next, NextTimed;
    var t := Prepared(cfg, key);
    t := SweepsIn(cfg, 0, t, key, true);
    LeftParts(cfg.guard, t.w.db, cfg.jobs[key], key, 0, UP_RESULT, true, true, -Days(1));
    t := Tries(cfg, 0, t, key, UP_RESULT, true, true);
    t := Restarts(cfg, 0, t, key);
    t := SweepsIn(cfg, 0, t, key, false);
    t := Launches(cfg, 0, t, key);
    assert CloserThanInterval(cfg, t, key, 0, 1);
  }

  lemma LateTickKeepsPhase(interval: int)
    requires interval > 1
    ensures NextTick(interval, interval, 2 * interval - 1) == 2 * interval
  {
    assert (interval - 1) / interval == 0;
  }

  /** Lateness brings begins together without any fault: right after a tick handled late, the
      next one can be handled on time. */
  lemma LateTicksBringBeginsTogether(cfg: Config, key: string)
    requires Roomy(cfg, key)
    ensures exists t, i: nat, j: nat :: ReachedTimed(cfg, 0, t) && CloserThanInterval(cfg, t, key, i, j)
                                        && FaultsOf(t, key) == {}
  {
    hide NoRows, ReachedTimed, LaneOf, LedgerOf, CadenceOf, Left, Next, NextTimed, NextTick, Unsuspecting;
    var interval := cfg.jobs[key].interval;
    var t := Prepared(cfg, key);
    t := SweepsIn(cfg, 0, t, key, true);
    RoomLeft(cfg, t.w.db, key, 0, 0, 2 * interval - 1);
    t := Tries(cfg, 0, t, key, UP_RESULT, true, true);
    t := TickerStarts(cfg, 0, t, key, 2 * interval - 1);
    t := TicksIn(cfg, 0, t, key);
    RoomLeft(cfg, t.w.db, key, 1, 2 * interval - 1, 2 * interval);
    t := Tries(cfg, 0, t, key, UP_RESULT, true, true);
    LateTickKeepsPhase(interval);
    t := Waits(cfg, 0, t, key, 1);
    t := TicksIn(cfg, 0, t, key);
    t := Launches(cfg, 0, t, key);
    assert CloserThanInterval(cfg, t, key, 1, 2);
  }

  /** A run that succeeds leaves room for another. */
  lemma RoomLeft(cfg: Config, db: Tables, key: string, n: nat, now: int, later: int)
    requires Roomy(cfg, key) && now <= later && n <= 1
    requires GateOpen(cfg.jobs[key], db) && CountSince(db.results, key, now - Days(1)) <= n
    ensures var db' := Left(cfg.guard, db, key, now, UP_RESULT, true, true);
            Unsuspecting(cfg, db', key, later) && GateOpen(cfg.jobs[key], db')
            && CountSince(db'.results, key, later - Days(1)) <= n + 1
  {
    var db' := Left(cfg.guard, db, key, now, UP_RESULT, true, true);
    LeftParts(cfg.guard, db, cfg.jobs[key], key, now, UP_RESULT, true, true, now - Days(1));
    CountMonotone(db'.results, key, now - Days(1), later - Days(1));
  }
}
