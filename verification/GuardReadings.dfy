/** What the guard must find before a check may present credentials, stated on the tables
    alone, and that no attempt of any run was made without finding it. */
module GuardReadings {
  import opened States
  import opened Clock
  import opened Options
  import opened Store
  import opened BreakerLaw
  import opened Guard
  import opened GuardInvariant

  /** The stored suspension is in force. */
  predicate Suspended(db: Tables, key: string, now: int) {
    key in db.breakers && db.breakers[key].openUntil.Some? && now < db.breakers[key].openUntil.value
  }

  /** A ceiling is set, and the last 24 hours hold as many attempts as it allows. */
  ghost predicate AtCeiling(g: GuardConfig, db: Tables, key: string, now: int) {
    g.maxAttempts > 0 && |AttemptRows(db.results, key, now - 86_400_000_000_000)| >= g.maxAttempts
  }

  /** The gate, if there is one, has a live row, and the row is `up`. */
  predicate GateIsUp(db: Tables, gate: Option<string>) {
    gate.Some? ==> gate.value in db.current && db.current[gate.value].state == Up
  }

  /** The stored record counts a failure. */
  predicate FailedLast(db: Tables, key: string) { key in db.breakers && db.breakers[key].fails > 0 }

  // ------------------------------------------------------------- one reading each

  /** What a reading must find for the run to go on. */
  ghost predicate Favours(cfg: Config, db: Tables, key: string, now: int, action: Action)
    requires key in cfg.jobs
  {
    match action
    case Load(ok) => ok && !Suspended(db, key, now)
    case Count(ok) => ok && !AtCeiling(cfg.guard, db, key, now)
    case CheckGate(ok) => ok && GateIsUp(db, cfg.jobs[key].gate)
    case _ => false
  }

  /** A reading lets the run go on exactly when it finds what it must, and refuses it
      otherwise. */
  lemma ReadingsDecide(cfg: Config, key: string, clock: int, db: Tables, phase: Phase, action: Action)
    requires key in cfg.jobs && cfg.jobs[key].guarded
    ensures var phase' := NextPhase(cfg, cfg.jobs[key], key, clock, db, phase, action);
            (phase.Loading? && action.Load? ==>
               if Favours(cfg, db, key, phase.now, action)
               then phase' == if cfg.guard.maxAttempts > 0 then Counting(phase.now, LoadBreaker(db, key))
                              else Gating(phase.now)
               else phase'.Refused?)
            && (phase.Counting? && action.Count? && cfg.guard.maxAttempts > 0 ==>
                  if Favours(cfg, db, key, phase.now, action) then phase' == Gating(phase.now) else phase'.Refused?)
            && (phase.Gating? && action.CheckGate? ==>
                  if cfg.jobs[key].gate.None? || Favours(cfg, db, key, phase.now, action)
                  then phase' == Cleared(phase.now) else phase'.Refused? && phase'.reason == GateClosed)
  {
    if phase.Counting? { CountSinceCountsRows(db.results, key, phase.now - Days(1)); }
  }

  /** No other action brings a guarded run past a reading. */
  lemma NoOtherWay(cfg: Config, key: string, clock: int, db: Tables, phase: Phase, action: Action)
    requires key in cfg.jobs && cfg.jobs[key].guarded
    ensures var phase' := NextPhase(cfg, cfg.jobs[key], key, clock, db, phase, action);
            (phase'.Counting? ==> phase' == phase || (phase.Loading? && action.Load?))
            && (phase'.Gating? ==>
                  phase' == phase || (phase.Counting? && action.Count?) || (phase.Loading? && action.Load?))
            && (phase'.Cleared? ==> phase' == phase || (phase.Gating? && action.CheckGate?))
            && (phase'.Loading? ==> phase'.now <= clock || phase' == phase)
            && (phase' != phase && (phase'.Counting? || phase'.Gating? || phase'.Cleared?) ==> phase'.now == phase.now)
  {
  }

  // ------------------------------------------------------------- over whole runs

  /** The j-th event of a run is a reading that found what it must, not before the run's own
      clock reading and no later than `until`. */
  ghost predicate FoundAt(
      cfg: Config, clock: int, events: seq<Event>, key: string, action: Action, from: int, until: int, j: int)
    requires key in cfg.jobs
  {
    && 0 <= j < |events| && events[j] == Act(key, action)
    && var w := Run(cfg, Init(clock), events[..j]);
       from <= w.clock <= until && Favours(cfg, w.db, key, from, action)
  }

  ghost predicate Found(cfg: Config, clock: int, events: seq<Event>, key: string, action: Action, from: int, until: int)
    requires key in cfg.jobs
  {
    exists j :: FoundAt(cfg, clock, events, key, action, from, until, j)
  }

  ghost predicate FreeAndBelow(cfg: Config, clock: int, events: seq<Event>, key: string, from: int, until: int)
    requires key in cfg.jobs
  {
    && Found(cfg, clock, events, key, Load(true), from, until)
    && (cfg.guard.maxAttempts > 0 ==> Found(cfg, clock, events, key, Count(true), from, until))
  }

  ghost predicate AllFound(cfg: Config, clock: int, events: seq<Event>, key: string, from: int, until: int)
    requires key in cfg.jobs
  {
    && FreeAndBelow(cfg, clock, events, key, from, until)
    && (cfg.jobs[key].gate.Some? ==> Found(cfg, clock, events, key, CheckGate(true), from, until))
  }

  /** Wherever a run stands, it has made the readings that lead there. */
  ghost predicate PhaseFound(cfg: Config, clock: int, events: seq<Event>, key: string, phase: Phase, until: int)
    requires key in cfg.jobs
  {
    match phase
    case Loading(now) => now <= until
    case Counting(now, _) => now <= until && Found(cfg, clock, events, key, Load(true), now, until)
    case Gating(now) => now <= until && FreeAndBelow(cfg, clock, events, key, now, until)
    case Cleared(now) => now <= until && AllFound(cfg, clock, events, key, now, until)
    case _ => true
  }

  lemma FoundStays(
      cfg: Config, clock: int, events: seq<Event>, e: Event, key: string, action: Action, from: int, until: int,
      later: int)
    requires key in cfg.jobs && until <= later
    requires Found(cfg, clock, events, key, action, from, until)
    ensures Found(cfg, clock, events + [e], key, action, from, later)
  {
    hide Run, Favours;
    var j :| FoundAt(cfg, clock, events, key, action, from, until, j);
    assert (events + [e])[..j] == events[..j];
    assert FoundAt(cfg, clock, events + [e], key, action, from, later, j);
  }

  lemma FindsNow(cfg: Config, clock: int, events: seq<Event>, key: string, action: Action, from: int)
    requires key in cfg.jobs
    requires var w := Run(cfg, Init(clock), events); from <= w.clock && Favours(cfg, w.db, key, from, action)
    ensures Found(cfg, clock, events + [Act(key, action)], key, action, from, Run(cfg, Init(clock), events).clock)
  {
    hide Run, Favours;
    var more := events + [Act(key, action)];
    assert more[..|events|] == events;
    assert FoundAt(cfg, clock, more, key, action, from, Run(cfg, Init(clock), events).clock, |events|);
  }

  lemma AllFoundStays(
      cfg: Config, clock: int, events: seq<Event>, e: Event, key: string, from: int, until: int, later: int)
    requires key in cfg.jobs && until <= later
    ensures Found(cfg, clock, events, key, Load(true), from, until) ==>
              Found(cfg, clock, events + [e], key, Load(true), from, later)
    ensures FreeAndBelow(cfg, clock, events, key, from, until) ==>
              FreeAndBelow(cfg, clock, events + [e], key, from, later)
    ensures AllFound(cfg, clock, events, key, from, until) ==> AllFound(cfg, clock, events + [e], key, from, later)
  {
    hide Found;
    if Found(cfg, clock, events, key, Load(true), from, until) {
      FoundStays(cfg, clock, events, e, key, Load(true), from, until, later);
    }
    if Found(cfg, clock, events, key, Count(true), from, until) {
      FoundStays(cfg, clock, events, e, key, Count(true), from, until, later);
    }
    if Found(cfg, clock, events, key, CheckGate(true), from, until) {
      FoundStays(cfg, clock, events, e, key, CheckGate(true), from, until, later);
    }
  }

  lemma PhaseStays(
      cfg: Config, clock: int, events: seq<Event>, e: Event, key: string, phase: Phase, until: int, later: int)
    requires key in cfg.jobs && until <= later && PhaseFound(cfg, clock, events, key, phase, until)
    ensures PhaseFound(cfg, clock, events + [e], key, phase, later)
  {
    hide Found, FreeAndBelow, AllFound;
    match phase
    case Counting(now, _) => AllFoundStays(cfg, clock, events, e, key, now, until, later);
    case Gating(now) => AllFoundStays(cfg, clock, events, e, key, now, until, later);
    case Cleared(now) => AllFoundStays(cfg, clock, events, e, key, now, until, later);
    case _ =>
  }

  /** An action of the run itself. */
  lemma OwnPhase(cfg: Config, clock: int, events: seq<Event>, key: string, action: Action, phase: Phase)
    requires Guarded(cfg, key)
    requires var w := Run(cfg, Init(clock), events); PhaseFound(cfg, clock, events, key, phase, w.clock)
    ensures var w := Run(cfg, Init(clock), events);
            PhaseFound(cfg, clock, events + [Act(key, action)], key,
                       NextPhase(cfg, cfg.jobs[key], key, w.clock, w.db, phase, action), w.clock)
  {
    hide Run, NextPhase, Found, Favours;
    var w := Run(cfg, Init(clock), events);
    var phase' := NextPhase(cfg, cfg.jobs[key], key, w.clock, w.db, phase, action);
    PhaseStays(cfg, clock, events, Act(key, action), key, phase, w.clock, w.clock);
    NoOtherWay(cfg, key, w.clock, w.db, phase, action);
    ReadingsDecide(cfg, key, w.clock, w.db, phase, action);
    if phase' != phase && (phase'.Counting? || phase'.Gating? || phase'.Cleared?) {
      AllFoundStays(cfg, clock, events, Act(key, action), key, phase.now, w.clock, w.clock);
      if Favours(cfg, w.db, key, phase.now, action) {
        FindsNow(cfg, clock, events, key, action, phase.now);
        ReadingSucceeded(cfg, w.db, key, phase.now, action);
      }
    }
  }

  lemma ReadingSucceeded(cfg: Config, db: Tables, key: string, now: int, action: Action)
    requires key in cfg.jobs && Favours(cfg, db, key, now, action)
    ensures action in {Load(true), Count(true), CheckGate(true)}
  {
  }

  /** An attempt's readings lie between the run's clock reading and the probe's start. */
  ghost predicate AttemptsFound(cfg: Config, clock: int, events: seq<Event>, key: string, a: seq<Attempt>)
    requires key in cfg.jobs
  {
    forall i :: 0 <= i < |a| ==> AllFound(cfg, clock, events, key, a[i].begin, a[i].start)
  }

  lemma AttemptsStay(
      cfg: Config, clock: int, events: seq<Event>, e: Event, key: string, a: seq<Attempt>, b: seq<Attempt>)
    requires key in cfg.jobs && AttemptsFound(cfg, clock, events, key, a)
    requires |b| == |a| && forall i :: 0 <= i < |a| ==> b[i].begin == a[i].begin && b[i].start == a[i].start
    ensures AttemptsFound(cfg, clock, events + [e], key, b)
  {
    hide AllFound;
    forall i | 0 <= i < |b| ensures AllFound(cfg, clock, events + [e], key, b[i].begin, b[i].start) {
      AllFoundStays(cfg, clock, events, e, key, a[i].begin, a[i].start, a[i].start);
    }
  }

  /** An action adds an attempt only by launching it. */
  lemma AttemptsOfAction(clock: int, lane: Lane, action: Action)
    ensures var a, b := lane.attempts, NextAttempts(clock, lane, action);
            if action == Launch && lane.phase.Cleared?
            then |b| == |a| + 1 && b[..|a|] == a && b[|a|].begin == lane.phase.now && b[|a|].start == clock
            else |b| == |a| && forall i :: 0 <= i < |a| ==> b[i].begin == a[i].begin && b[i].start == a[i].start
  {
  }

  lemma OwnAttempts(cfg: Config, clock: int, events: seq<Event>, key: string, action: Action, lane: Lane)
    requires key in cfg.jobs && AttemptsFound(cfg, clock, events, key, lane.attempts)
    requires PhaseFound(cfg, clock, events, key, lane.phase, Run(cfg, Init(clock), events).clock)
    ensures AttemptsFound(cfg, clock, events + [Act(key, action)], key,
                          NextAttempts(Run(cfg, Init(clock), events).clock, lane, action))
  {
    hide Run, NextAttempts, AllFound;
    var now, e := Run(cfg, Init(clock), events).clock, Act(key, action);
    var b := NextAttempts(now, lane, action);
    AttemptsOfAction(now, lane, action);
    if action == Launch && lane.phase.Cleared? {
      AttemptsStay(cfg, clock, events, e, key, lane.attempts, lane.attempts);
      AllFoundStays(cfg, clock, events, e, key, lane.phase.now, now, now);
      forall i | 0 <= i < |b| ensures AllFound(cfg, clock, events + [e], key, b[i].begin, b[i].start) {
        if i < |lane.attempts| { assert b[i] == b[..|lane.attempts|][i]; }
      }
    } else {
      AttemptsStay(cfg, clock, events, e, key, lane.attempts, b);
    }
  }

  ghost predicate LaneFound(cfg: Config, clock: int, events: seq<Event>, key: string)
    requires key in cfg.jobs
  {
    var w := Run(cfg, Init(clock), events);
    && PhaseFound(cfg, clock, events, key, LaneOf(w, key).phase, w.clock)
    && AttemptsFound(cfg, clock, events, key, LaneOf(w, key).attempts)
  }

  /** What does not belong to the run leaves where it stands, or makes it forget. */
  lemma OtherEvents(cfg: Config, w: World, e: Event, key: string)
    requires e.Act? ==> e.key != key || e.key !in cfg.jobs
    ensures var w' := Next(cfg, w, e);
            w.clock <= w'.clock
            && (LaneOf(w', key) == LaneOf(w, key)
                || (LaneOf(w', key).phase == Idle && LaneOf(w', key).attempts == Crashed(LaneOf(w, key)).attempts))
  {
    if e.Act? && e.key in cfg.jobs { ActParts(cfg, w, e.key, e.action, key); }
  }

  lemma CrashKeepsTimes(lane: Lane)
    ensures var a, b := lane.attempts, Crashed(lane).attempts;
            |b| == |a| && forall i :: 0 <= i < |a| ==> b[i].begin == a[i].begin && b[i].start == a[i].start
  {
  }

  lemma LaneFoundStep(cfg: Config, clock: int, events: seq<Event>, e: Event, key: string)
    requires Guarded(cfg, key) && LaneFound(cfg, clock, events, key)
    ensures LaneFound(cfg, clock, events + [e], key)
  {
    hide Run, Next, NextPhase, NextAttempts, AttemptsFound, Crashed, LaneOf;
    var w := Run(cfg, Init(clock), events);
    var lane := LaneOf(w, key);
    assert Run(cfg, Init(clock), events + [e]) == Next(cfg, w, e) by { RunAppends(cfg, Init(clock), events, e); }
    if e.Act? && e.key == key {
      ActParts(cfg, w, key, e.action, key);
      OwnPhase(cfg, clock, events, key, e.action, lane.phase);
      OwnAttempts(cfg, clock, events, key, e.action, lane);
    } else {
      OtherEvents(cfg, w, e, key);
      PhaseStays(cfg, clock, events, e, key, lane.phase, w.clock, Next(cfg, w, e).clock);
      AttemptsStay(cfg, clock, events, e, key, lane.attempts, lane.attempts);
      CrashKeepsTimes(lane);
      AttemptsStay(cfg, clock, events, e, key, lane.attempts, Crashed(lane).attempts);
    }
  }

  lemma RunAppends(cfg: Config, w: World, events: seq<Event>, e: Event)
    ensures Run(cfg, w, events + [e]) == Next(cfg, Run(cfg, w, events), e)
  {
    assert (events + [e])[..|events + [e]| - 1] == events;
  }

  /** No attempt of any run of a guarded check was made without finding, between the run's own
      clock reading and the start of its probe, that no suspension was in force, that the last
      24 hours held fewer attempts than the ceiling, and that the gate was `up`. */
  lemma {:induction false} EveryAttemptWasCleared(cfg: Config, clock: int, events: seq<Event>, key: string)
    requires Guarded(cfg, key)
    ensures LaneFound(cfg, clock, events, key)
  {
    if events == [] {
      assert Run(cfg, Init(clock), events) == Init(clock);
    } else {
      var init := events[..|events| - 1];
      EveryAttemptWasCleared(cfg, clock, init, key);
      LaneFoundStep(cfg, clock, init, events[|events| - 1], key);
      assert events == init + [events[|events| - 1]];
    }
  }
}
