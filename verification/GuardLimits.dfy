/** Where the guard's promises end: runs of boots, attempts and restarts, in the program's own
    cadence, in which they do not hold. */
module GuardLimits {
  import opened States
  import opened Clock
  import opened Options
  import opened Store
  import opened BreakerLaw
  import opened Guard
  import opened GuardInvariant
  import opened GuardRuns
  import opened GuardTheorems
  import opened Schedule
  import opened ScheduleRuns

  /** Attempts one after the other, each in a boot of its own whose sweep cannot read the live
      rows. Each leaves its row, and the record says nothing of them. */
  lemma BlindBoots(cfg: Config, key: string, n: nat, res: Result, saved: bool) returns (t: TimedWorld)
    requires Guarded(cfg, key) && FreeGate(cfg, key) && n <= cfg.guard.maxAttempts
    requires res == UP_RESULT || (res.state == Down && !saved)
    ensures ReachedTimed(cfg, 0, t) && t.w.clock == 0 && CadenceOf(t, key) == Boot
    ensures LaneOf(t.w, key) == Lane(Idle, seq(n, _ => Whole(0, res, saved, true)))
    ensures GateOpen(cfg.jobs[key], t.w.db) && LoadBreaker(t.w.db, key) == ZERO_BREAKER
    ensures CountSince(t.w.db.results, key, -Days(1)) == n && (n > 0 ==> Shown(t.w.db, key) == res.state)
    ensures Only(FaultsOf(t, key), BlindSweep)
  {
    hide NoRows, Left, LaneOf, Next, NextTimed, ReachedTimed, Shown, CurrentState, LedgerOf, CadenceOf;
    t := Prepared(cfg, key);
    for k := 0 to n
      invariant ReachedTimed(cfg, 0, t) && t.w.clock == 0 && CadenceOf(t, key) == Boot
      invariant LaneOf(t.w, key) == Lane(Idle, seq(k, _ => Whole(0, res, saved, true)))
      invariant GateOpen(cfg.jobs[key], t.w.db) && LoadBreaker(t.w.db, key) == ZERO_BREAKER
      invariant CountSince(t.w.db.results, key, -Days(1)) == k && (k > 0 ==> Shown(t.w.db, key) == res.state)
      invariant Only(FaultsOf(t, key), BlindSweep)
    {
      LeftParts(cfg.guard, t.w.db, cfg.jobs[key], key, 0, res, saved, true, -Days(1));
      t := SweepsIn(cfg, 0, t, key, false);
      t := Tries(cfg, 0, t, key, res, saved, true);
      t := Restarts(cfg, 0, t, key);
    }
  }

  // ---------------------------------------------------------------- the ceiling

  /** The ceiling, for one check in one world. */
  ghost predicate CeilingHolds(cfg: Config, w: World, key: string) {
    forall from ::
      Started(LaneOf(w, key).attempts, from) <= cfg.guard.maxAttempts + LostIn(LaneOf(w, key).attempts, from)
  }

  lemma RowsSoFar(cfg: Config, clock: int, events: seq<Event>)
    ensures var w := Run(cfg, Init(clock), events);
            forall r :: r in w.db.results ==> r.at <= w.clock
  {
    hide CurrentState, LoadBreaker, NextPhase, NextAttempts, Crashed, Refresh;
    if events != [] {
      var w, event := Run(cfg, Init(clock), events[..|events| - 1]), events[|events| - 1];
      RowsSoFar(cfg, clock, events[..|events| - 1]);
      if event.Prune? { KeptMembers(w.db.results, w.clock - event.age - Days(cfg.rawDays)); }
    }
  }

  lemma TimedRowsSoFar(cfg: Config, clock: int, t: TimedWorld)
    requires ReachedTimed(cfg, clock, t)
    ensures forall r :: r in t.w.db.results ==> r.at <= t.w.clock
  {
    var timed :| t == RunTimed(cfg, Begin(clock), timed);
    TimedRunsAreRuns(cfg, clock, timed);
    var events :| t.w == Run(cfg, Init(clock), events);
    RowsSoFar(cfg, clock, events);
  }

  /** A prune that keeps no day of rows forgets them all. */
  lemma Forgotten(cfg: Config, clock: int, t: TimedWorld, key: string) returns (t': TimedWorld)
    requires cfg.rawDays <= 0 && ReachedTimed(cfg, clock, t) && key in cfg.jobs
    ensures ReachedTimed(cfg, clock, t') && t'.w.clock == t.w.clock + 1 && LaneOf(t'.w, key) == LaneOf(t.w, key)
    ensures GateOpen(cfg.jobs[key], t'.w.db) == GateOpen(cfg.jobs[key], t.w.db)
            && LoadBreaker(t'.w.db, key) == LoadBreaker(t.w.db, key)
    ensures forall since :: CountSince(t'.w.db.results, key, since) == 0
    ensures CadenceOf(t', key) == CadenceOf(t, key) && FaultsOf(t', key) == FaultsOf(t, key)
  {
    hide ReachedTimed;
    TimedRowsSoFar(cfg, clock, t);
    ReachNextTimed(cfg, clock, t, Wait(1));
    t' := NextTimed(cfg, t, Wait(1));
    ReachNextTimed(cfg, clock, t', Maintain(0));
    KeptNone(t.w.db.results, t'.w.clock - Days(cfg.rawDays));
    t' := NextTimed(cfg, t', Maintain(0));
  }

  lemma {:induction false} AllStarted(n: nat, x: Attempt, from: int)
    requires x.fate.Recorded? && InWindow(x, from)
    ensures Started(seq(n, _ => x), from) == n && LostIn(seq(n, _ => x), from) == 0
  {
    if n > 0 {
      AllStarted(n - 1, x, from);
      assert seq(n, _ => x)[..n - 1] == seq(n - 1, _ => x);
    }
  }

  lemma CountsOneMore(a: seq<Attempt>, x: Attempt, from: int)
    requires x.fate.Recorded? && InWindow(x, from)
    ensures Started(a + [x], from) == Started(a, from) + 1 && LostIn(a + [x], from) == LostIn(a, from)
  {
    AppendUnfolds(a, x);
  }

  /** As many attempts as the ceiling allows, then one more when they are forgotten. */
  lemma OneTooMany(cfg: Config, key: string) returns (t: TimedWorld)
    requires Guarded(cfg, key) && FreeGate(cfg, key) && cfg.guard.maxAttempts > 0 && cfg.rawDays <= 0
    ensures ReachedTimed(cfg, 0, t) && Started(LaneOf(t.w, key).attempts, 0) == cfg.guard.maxAttempts + 1
    ensures LostIn(LaneOf(t.w, key).attempts, 0) == 0 && Only(FaultsOf(t, key), BlindSweep)
  {
    hide Left, LaneOf, Next, NextTimed, ReachedTimed, Started, LostIn, CurrentState, LedgerOf, CadenceOf;
    t := BlindBoots(cfg, key, cfg.guard.maxAttempts, UP_RESULT, true);
    AllStarted(cfg.guard.maxAttempts, Whole(0, UP_RESULT, true, true), 0);
    t := Forgotten(cfg, 0, t, key);
    CountsOneMore(LaneOf(t.w, key).attempts, Whole(1, UP_RESULT, true, true), 0);
    t := SweepsIn(cfg, 0, t, key, false);
    t := Tries(cfg, 0, t, key, UP_RESULT, true, true);
  }

  /** The ceiling holds over all runs exactly when raw rows are kept for at least a day.
      Loading the configuration does not check that. */
  lemma CeilingHoldsExactlyWithADayOfRows(cfg: Config, key: string)
    requires Loaded(cfg.guard) && Guarded(cfg, key) && FreeGate(cfg, key)
    requires cfg.guard.maxAttempts > 0
    ensures (forall clock, t :: ReachedTimed(cfg, clock, t) ==> CeilingHolds(cfg, t.w, key)) <==> cfg.rawDays >= 1
  {
    if cfg.rawDays >= 1 {
      forall clock, t | ReachedTimed(cfg, clock, t) ensures CeilingHolds(cfg, t.w, key) {
        var timed :| t == RunTimed(cfg, Begin(clock), timed);
        TimedRunsAreRuns(cfg, clock, timed);
        CeilingAlways(cfg, clock, t.w, key);
      }
    } else {
      var t := OneTooMany(cfg, key);
      assert !CeilingHolds(cfg, t.w, key);
    }
  }

  lemma CeilingAlways(cfg: Config, clock: int, w: World, key: string)
    requires Usable(cfg) && Guarded(cfg, key) && cfg.guard.maxAttempts > 0 && Reached(cfg, clock, w)
    ensures CeilingHolds(cfg, w, key)
  {
    var events :| w == Run(cfg, Init(clock), events);
    var a := LaneOf(w, key).attempts;
    forall from ensures Started(a, from) <= cfg.guard.maxAttempts + LostIn(a, from) {
      SlidingWindowCeiling(cfg, clock, events, key, from);
    }
  }

  // ------------------------------------------------------- updates that are lost

  const DOWN_RESULT := Result(Down, Unreachable)

  /** Failed attempts up to the ceiling, none of whose updates reaches the record, and then a
      run that the ceiling refuses. */
  lemma UnsavedFailures(cfg: Config, key: string) returns (t: TimedWorld)
    requires Guarded(cfg, key) && FreeGate(cfg, key) && cfg.guard.maxAttempts > 0
    ensures ReachedTimed(cfg, 0, t) && LaneOf(t.w, key).phase == Refused(0, BreakerOpen, Ceiling)
    ensures LaneOf(t.w, key).attempts == seq(cfg.guard.maxAttempts, _ => Whole(0, DOWN_RESULT, false, true))
    ensures Shown(t.w.db, key) == Down && Only(FaultsOf(t, key), BlindSweep)
  {
    hide Left, LaneOf, Next, NextTimed, ReachedTimed, Shown, CurrentState, LedgerOf, CadenceOf;
    t := BlindBoots(cfg, key, cfg.guard.maxAttempts, DOWN_RESULT, false);
    t := RefusedByCount(cfg, 0, t, key);
  }

  lemma RefusedByCount(cfg: Config, clock: int, t: TimedWorld, key: string) returns (t': TimedWorld)
    requires Guarded(cfg, key) && ReachedTimed(cfg, clock, t)
    requires CadenceOf(t, key) == Boot && LaneOf(t.w, key).phase == Idle && LoadBreaker(t.w.db, key) == ZERO_BREAKER
    requires 0 < cfg.guard.maxAttempts <= CountSince(t.w.db.results, key, t.w.clock - Days(1))
    requires Only(FaultsOf(t, key), BlindSweep)
    ensures ReachedTimed(cfg, clock, t') && t'.w.clock == t.w.clock && t'.w.db == t.w.db
    ensures LaneOf(t'.w, key) == Lane(Refused(t.w.clock, BreakerOpen, Ceiling), LaneOf(t.w, key).attempts)
    ensures Only(FaultsOf(t', key), BlindSweep)
  {
    hide ReachedTimed;
    ReachNextTimed(cfg, clock, t, Sweep(key, false));
    t' := NextTimed(cfg, t, Sweep(key, false));
    ActParts(cfg, t.w, key, Start, key);
    CountRefuses(cfg, t'.w, key);
    t' := GoAll(cfg, clock, t', key, [Load(true), Count(true)]);
  }

  /** A pause hides an outage: the last answer was a failure, the log and the live row said
      so, and the refused run's row turns the check into missing data. All it takes besides
      lost updates is boots that cannot read the live rows. */
  lemma AnUnsavedFailureIsHidden(cfg: Config, key: string)
    requires Guarded(cfg, key) && FreeGate(cfg, key) && cfg.guard.maxAttempts > 0
    ensures exists t :: ReachedTimed(cfg, 0, t) && LaneOf(t.w, key).phase == Refused(0, BreakerOpen, Ceiling)
                        && LastAnswerFailed(LaneOf(t.w, key).attempts) && Shown(t.w.db, key) == Down
                        && Shown(NextTimed(cfg, t, Go(key, Record(true))).w.db, key) == Unknown
                        && Only(FaultsOf(t, key), BlindSweep)
  {
    var t := UnsavedFailures(cfg, key);
    var a := LaneOf(t.w, key).attempts;
    assert Answered(a[|a| - 1]) && LastAnswered(a) == Some(a[|a| - 1]);
    ActParts(cfg, t.w, key, Record(true), key);
  }

  /** Nor are such failures paced: as many as the ceiling allows can start at one instant. */
  lemma UnsavedFailuresAreNotPaced(cfg: Config, key: string)
    requires Guarded(cfg, key) && FreeGate(cfg, key) && cfg.guard.maxAttempts > 0
    ensures exists t :: ReachedTimed(cfg, 0, t) && |LaneOf(t.w, key).attempts| == cfg.guard.maxAttempts
                        && (forall x :: x in LaneOf(t.w, key).attempts ==>
                              x.start == 0 && x.answer == Some(DOWN_RESULT))
                        && Only(FaultsOf(t, key), BlindSweep)
  {
    var t := UnsavedFailures(cfg, key);
  }
}
