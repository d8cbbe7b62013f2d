/** Stretches of a check's life in the program's own cadence: boots, attempts, restarts, ticks. */
module ScheduleRuns {
  import opened States
  import opened Clock
  import opened Options
  import opened Store
  import opened BreakerLaw
  import opened Guard
  import opened GuardInvariant
  import opened GuardRuns
  import opened Schedule

  predicate Only(faults: set<Fault>, kind: FaultKind) { forall f :: f in faults ==> f.kind == kind }

  /** Actions of one check at one instant. */
  lemma {:induction false} GoAll(cfg: Config, clock: int, t: TimedWorld, key: string, actions: seq<Action>)
      returns (t': TimedWorld)
    requires ReachedTimed(cfg, clock, t) && Start !in actions
    ensures ReachedTimed(cfg, clock, t') && t'.w == ActAll(cfg, t.w, key, actions) && t'.cadences == t.cadences
    ensures forall k :: k != key ==> FaultsOf(t', k) == FaultsOf(t, k)
    ensures Record(false) !in actions ==> FaultsOf(t', key) == FaultsOf(t, key)
    ensures forall f :: f in FaultsOf(t', key) ==> f in FaultsOf(t, key) || f.kind == LostRow
    decreases |actions|
  {
    t' := t;
    if actions != [] {
      assert actions[0] in actions;
      ReachNextTimed(cfg, clock, t, Go(key, actions[0]));
      t' := NextTimed(cfg, t, Go(key, actions[0]));
      t' := GoAll(cfg, clock, t', key, actions[1..]);
    }
  }

  /** No attempt of the check has left a row. */
  ghost predicate NoRows(results: seq<Row>, key: string) { forall since :: CountSince(results, key, since) == 0 }

  /** A world at boot whose gate, if the check has one, is open. */
  lemma Prepared(cfg: Config, key: string) returns (t: TimedWorld)
    requires Guarded(cfg, key) && FreeGate(cfg, key)
    ensures ReachedTimed(cfg, 0, t) && t.w.clock == 0 && LaneOf(t.w, key) == Lane(Idle, [])
    ensures CadenceOf(t, key) == Boot && FaultsOf(t, key) == {} && CurrentState(t.w.db, key) == None
    ensures LoadBreaker(t.w.db, key) == ZERO_BREAKER && GateOpen(cfg.jobs[key], t.w.db)
    ensures CountSince(t.w.db.results, key, -Days(1)) == 0 && Unsuspecting(cfg, t.w.db, key, 0)
    ensures NoRows(t.w.db.results, key)
  {
    t := Begin(0);
    assert t == RunTimed(cfg, Begin(0), []);
    if cfg.jobs[key].gate.Some? {
      var gate := cfg.jobs[key].gate.value;
      ReachNextTimed(cfg, 0, t, Sweep(gate, true));
      t := NextTimed(cfg, t, Sweep(gate, true));
      var actions := [Launch, Answer(UP_RESULT), Record(true)];
      GateRuns(cfg, t.w, gate);
      OthersStay(cfg, t.w, gate, actions, key);
      GateOpened(t.w.db, cfg.jobs[key], key, 0);
      forall since
        ensures CountSince(RecordResult(t.w.db, gate, UP_RESULT, 0).results, key, since)
                == CountSince(t.w.db.results, key, since)
      {
        OtherRowsDoNotCount(t.w.db, gate, UP_RESULT, key, 0, since);
      }
      t := GoAll(cfg, 0, t, gate, actions);
    }
  }

  /** The boot sweep starts a run, and the guard lets it through. */
  lemma SweepsIn(cfg: Config, clock: int, t: TimedWorld, key: string, readable: bool) returns (t': TimedWorld)
    requires Guarded(cfg, key) && ReachedTimed(cfg, clock, t) && CadenceOf(t, key) == Boot
             && LaneOf(t.w, key).phase == Idle
    requires readable ==> CurrentState(t.w.db, key) == None
    requires Unsuspecting(cfg, t.w.db, key, t.w.clock)
    ensures ReachedTimed(cfg, clock, t') && t'.w.clock == t.w.clock && t'.w.db == t.w.db && CadenceOf(t', key) == Swept
    ensures LaneOf(t'.w, key) == Lane(Cleared(t.w.clock), LaneOf(t.w, key).attempts)
    ensures FaultsOf(t', key) == FaultsOf(t, key) + if readable then {} else {Fault(t.w.clock, BlindSweep)}
  {
    hide ReachedTimed, Unsuspecting;
    ReachNextTimed(cfg, clock, t, Sweep(key, readable));
    t' := NextTimed(cfg, t, Sweep(key, readable));
    ActParts(cfg, t.w, key, Start, key);
    LetThrough(cfg, t'.w, key);
    t' := GoAll(cfg, clock, t', key, PASS);
  }

  /** The attempt goes through; its update or its row may be lost. */
  lemma Tries(cfg: Config, clock: int, t: TimedWorld, key: string, res: Result, saved: bool, recorded: bool)
      returns (t': TimedWorld)
    requires Guarded(cfg, key) && ReachedTimed(cfg, clock, t) && LaneOf(t.w, key).phase == Cleared(t.w.clock)
    requires res.state in {Up, Down}
    ensures ReachedTimed(cfg, clock, t') && t'.w.clock == t.w.clock && CadenceOf(t', key) == CadenceOf(t, key)
    ensures t'.w.db == Left(cfg.guard, t.w.db, key, t.w.clock, res, saved, recorded)
    ensures LaneOf(t'.w, key) == Lane(Idle, LaneOf(t.w, key).attempts + [Whole(t.w.clock, res, saved, recorded)])
    ensures if recorded then FaultsOf(t', key) == FaultsOf(t, key)
            else forall f :: f in FaultsOf(t', key) ==> f in FaultsOf(t, key) || f.kind == LostRow
  {
    hide ReachedTimed, Left, Next, LaneOf, LedgerOf;
    Attempted(cfg, t.w, key, res, saved, recorded);
    t' := GoAll(cfg, clock, t, key, Tried(res, saved, recorded));
  }

  /** The probe starts. */
  lemma Launches(cfg: Config, clock: int, t: TimedWorld, key: string) returns (t': TimedWorld)
    requires Guarded(cfg, key) && ReachedTimed(cfg, clock, t) && LaneOf(t.w, key).phase == Cleared(t.w.clock)
    ensures ReachedTimed(cfg, clock, t') && t'.w.clock == t.w.clock && t'.w.db == t.w.db
            && FaultsOf(t', key) == FaultsOf(t, key)
    ensures LaneOf(t'.w, key) ==
            Lane(Probing, LaneOf(t.w, key).attempts + [Attempt(t.w.clock, t.w.clock, InFlight, None, None)])
  {
    hide ReachedTimed;
    ReachNextTimed(cfg, clock, t, Go(key, Launch));
    ActParts(cfg, t.w, key, Launch, key);
    t' := NextTimed(cfg, t, Go(key, Launch));
  }

  lemma Restarts(cfg: Config, clock: int, t: TimedWorld, key: string) returns (t': TimedWorld)
    requires ReachedTimed(cfg, clock, t)
    ensures ReachedTimed(cfg, clock, t') && t'.w.clock == t.w.clock && t'.w.db == t.w.db && CadenceOf(t', key) == Boot
    ensures LaneOf(t'.w, key) == Crashed(LaneOf(t.w, key))
    ensures FaultsOf(t', key) ==
            FaultsOf(t, key) + if InRun(LaneOf(t.w, key).phase) then {Fault(t.w.clock, CutRun)} else {}
  {
    hide ReachedTimed;
    ReachNextTimed(cfg, clock, t, Reboot);
    t' := NextTimed(cfg, t, Reboot);
  }

  /** The ticker starts right after the sweep, and time passes. */
  lemma TickerStarts(cfg: Config, clock: int, t: TimedWorld, key: string, wait: nat) returns (t': TimedWorld)
    requires key in cfg.jobs && cfg.jobs[key].interval > 0 && ReachedTimed(cfg, clock, t)
    requires CadenceOf(t, key) == Swept && LaneOf(t.w, key).phase == Idle
    ensures ReachedTimed(cfg, clock, t') && t'.w.clock == t.w.clock + wait && t'.w.db == t.w.db
    ensures LaneOf(t'.w, key) == LaneOf(t.w, key) && FaultsOf(t', key) == FaultsOf(t, key)
    ensures CadenceOf(t', key) == Ticking(t.w.clock + cfg.jobs[key].interval)
  {
    hide ReachedTimed;
    ReachNextTimed(cfg, clock, t, StartTicker(key, 0));
    t' := NextTimed(cfg, t, StartTicker(key, 0));
    ReachNextTimed(cfg, clock, t', Wait(wait));
    t' := NextTimed(cfg, t', Wait(wait));
  }

  /** A tick starts a run, and the guard lets it through. */
  lemma TicksIn(cfg: Config, clock: int, t: TimedWorld, key: string) returns (t': TimedWorld)
    requires Guarded(cfg, key) && cfg.jobs[key].interval > 0 && ReachedTimed(cfg, clock, t)
             && LaneOf(t.w, key).phase == Idle
    requires CadenceOf(t, key).Ticking? && CadenceOf(t, key).next <= t.w.clock
    requires Unsuspecting(cfg, t.w.db, key, t.w.clock)
    ensures ReachedTimed(cfg, clock, t') && t'.w.clock == t.w.clock && t'.w.db == t.w.db
    ensures CadenceOf(t', key) == Ticking(NextTick(CadenceOf(t, key).next, cfg.jobs[key].interval, t.w.clock))
    ensures LaneOf(t'.w, key) == Lane(Cleared(t.w.clock), LaneOf(t.w, key).attempts)
    ensures FaultsOf(t', key) == FaultsOf(t, key)
  {
    hide ReachedTimed, Unsuspecting, NextTick;
    ReachNextTimed(cfg, clock, t, Fire(key));
    t' := NextTimed(cfg, t, Fire(key));
    ActParts(cfg, t.w, key, Start, key);
    LetThrough(cfg, t'.w, key);
    t' := GoAll(cfg, clock, t', key, PASS);
  }

  lemma Waits(cfg: Config, clock: int, t: TimedWorld, key: string, dt: nat) returns (t': TimedWorld)
    requires ReachedTimed(cfg, clock, t)
    ensures ReachedTimed(cfg, clock, t') && t'.w.clock == t.w.clock + dt && t'.w.db == t.w.db
    ensures LaneOf(t'.w, key) == LaneOf(t.w, key) && FaultsOf(t', key) == FaultsOf(t, key)
    ensures CadenceOf(t', key) == CadenceOf(t, key)
  {
    hide ReachedTimed;
    ReachNextTimed(cfg, clock, t, Wait(dt));
    t' := NextTimed(cfg, t, Wait(dt));
  }

  /** A run that the ceiling refuses. */
  lemma CountRefuses(cfg: Config, w: World, key: string)
    requires Guarded(cfg, key) && LaneOf(w, key).phase == Loading(w.clock) && LoadBreaker(w.db, key) == ZERO_BREAKER
    requires 0 < cfg.guard.maxAttempts <= CountSince(w.db.results, key, w.clock - Days(1))
    ensures var w' := ActAll(cfg, w, key, [Load(true), Count(true)]);
            w'.clock == w.clock && w'.db == w.db
            && LaneOf(w', key) == Lane(Refused(w.clock, BreakerOpen, Ceiling), LaneOf(w, key).attempts)
  {
    hide LaneOf, Next;
    assert [Load(true), Count(true)] == [Load(true)] + [Count(true)] && [Count(true)] == [Count(true)] + [];
    ActStep(cfg, w, key, Load(true), [Count(true)]);
    ActStep(cfg, Next(cfg, w, Act(key, Load(true))), key, Count(true), []);
  }
}
