/** Stretches of a guarded check's run, put together action by action. */
module GuardRuns {
  import opened States
  import opened Clock
  import opened Options
  import opened Store
  import opened BreakerLaw
  import opened Guard
  import opened GuardInvariant

  /** A check's own actions in a row, at one instant. */
  function ActAll(cfg: Config, w: World, key: string, actions: seq<Action>): World
    decreases |actions|
  {
    if actions == [] then w else ActAll(cfg, Next(cfg, w, Act(key, actions[0])), key, actions[1..])
  }

  lemma ActStep(cfg: Config, w: World, key: string, action: Action, rest: seq<Action>)
    requires key in cfg.jobs
    ensures var w' := Next(cfg, w, Act(key, action));
            ActAll(cfg, w, key, [action] + rest) == ActAll(cfg, w', key, rest)
            && w'.clock == w.clock && w'.db == NextTables(key, w.clock, w.db, LaneOf(w, key).phase, action)
            && LaneOf(w', key) == NextLane(cfg, cfg.jobs[key], key, w.clock, w.db, LaneOf(w, key), action)
  {
    assert ([action] + rest)[1..] == rest;
  }

  lemma {:induction false} OthersStay(cfg: Config, w: World, key: string, actions: seq<Action>, other: string)
    requires other != key
    ensures LaneOf(ActAll(cfg, w, key, actions), other) == LaneOf(w, other)
    decreases |actions|
  {
    if actions != [] {
      OthersStay(cfg, Next(cfg, w, Act(key, actions[0])), key, actions[1..], other);
    }
  }

  /** The gate, if there is one, is another check that runs without a guard. */
  predicate FreeGate(cfg: Config, key: string)
    requires key in cfg.jobs
  {
    cfg.jobs[key].gate.Some? ==>
      var g := cfg.jobs[key].gate.value;
      g != key && g in cfg.jobs && !cfg.jobs[g].guarded
  }

  predicate GateOpen(job: Job, db: Tables) {
    job.gate.Some? ==>
      var c := CurrentState(db, job.gate.value);
      c.Some? && c.value.state == Up
  }

  /** Neither the breaker nor the ceiling nor the gate stands in the way. */
  predicate Unsuspecting(cfg: Config, db: Tables, key: string, now: int)
    requires key in cfg.jobs
  {
    && (var until := LoadBreaker(db, key).openUntil; until.Some? ==> until.value <= now)
    && (cfg.guard.maxAttempts > 0 ==> CountSince(db.results, key, now - Days(1)) < cfg.guard.maxAttempts)
    && GateOpen(cfg.jobs[key], db)
  }

  const PASS := [Load(true), Count(true), CheckGate(true)]

  /** The guard lets such a run through. */
  lemma LetThrough(cfg: Config, w: World, key: string)
    requires Guarded(cfg, key) && LaneOf(w, key).phase == Loading(w.clock) && Unsuspecting(cfg, w.db, key, w.clock)
    ensures var w' := ActAll(cfg, w, key, PASS);
            w'.clock == w.clock && w'.db == w.db && LaneOf(w', key) == Lane(Cleared(w.clock), LaneOf(w, key).attempts)
  {
    hide LaneOf, Next;
    var r2 := [CheckGate(true)];
    var r1 := [Count(true)] + r2;
    assert PASS == [Load(true)] + r1 && r2 == r2 + [];
    ActStep(cfg, w, key, Load(true), r1);
    var w1 := Next(cfg, w, Act(key, Load(true)));
    ActStep(cfg, w1, key, Count(true), r2);
    ActStep(cfg, Next(cfg, w1, Act(key, Count(true))), key, CheckGate(true), []);
  }

  /** The attempt of a run that goes through at one instant. */
  function Whole(now: int, res: Result, saved: bool, recorded: bool): Attempt {
    Attempt(now, now, if recorded then Recorded(now) else Lost, Some(res),
            if saved then Some(OutcomeOf(now, now, res)) else None)
  }

  function Tried(res: Result, saved: bool, recorded: bool): seq<Action> {
    [Launch, Answer(res), Reload(true), Save(saved), Record(recorded)]
  }

  /** What such a run leaves in the tables. */
  function Left(g: GuardConfig, db: Tables, key: string, now: int, res: Result, saved: bool, recorded: bool): Tables {
    var rec := AfterRun(LoadBreaker(db, key), res, now, g);
    var noted := if saved && rec.Some? then SaveBreaker(db, key, rec.value) else db;
    if recorded then RecordResult(noted, key, res, now) else noted
  }

  /** The probe runs and answers. */
  lemma Asked(cfg: Config, w: World, key: string, res: Result, rest: seq<Action>) returns (w': World)
    requires Guarded(cfg, key) && LaneOf(w, key).phase == Cleared(w.clock)
    ensures ActAll(cfg, w, key, [Launch] + ([Answer(res)] + rest)) == ActAll(cfg, w', key, rest)
    ensures w'.clock == w.clock && w'.db == w.db
    ensures LaneOf(w', key) ==
            Lane(Updating(res), LaneOf(w, key).attempts + [Attempt(w.clock, w.clock, InFlight, Some(res), None)])
  {
    hide LaneOf, Next;
    ActStep(cfg, w, key, Launch, [Answer(res)] + rest);
    AppendUnfolds(LaneOf(w, key).attempts, Attempt(w.clock, w.clock, InFlight, None, None));
    w' := Next(cfg, w, Act(key, Launch));
    ActStep(cfg, w', key, Answer(res), rest);
    w' := Next(cfg, w', Act(key, Answer(res)));
  }

  /** Its answer is worked off. */
  lemma WorkedOff(cfg: Config, w: World, key: string, before: seq<Attempt>, res: Result, saved: bool, recorded: bool)
    requires Guarded(cfg, key) && res.state in {Up, Down}
    requires LaneOf(w, key) == Lane(Updating(res), before + [Attempt(w.clock, w.clock, InFlight, Some(res), None)])
    ensures var w' := ActAll(cfg, w, key, [Reload(true)] + ([Save(saved)] + ([Record(recorded)] + [])));
            w'.clock == w.clock && w'.db == Left(cfg.guard, w.db, key, w.clock, res, saved, recorded)
            && LaneOf(w', key) == Lane(Idle, before + [Whole(w.clock, res, saved, recorded)])
  {
    hide LaneOf, Next, RecordResult, SaveBreaker, LoadBreaker, OutcomeOf;
    ActStep(cfg, w, key, Reload(true), [Save(saved)] + ([Record(recorded)] + []));
    var w1 := Next(cfg, w, Act(key, Reload(true)));
    ActStep(cfg, w1, key, Save(saved), [Record(recorded)] + []);
    var w2 := Next(cfg, w1, Act(key, Save(saved)));
    assert LaneOf(w2, key).attempts == before + [Whole(w.clock, res, saved, recorded).(fate := InFlight)];
    ActStep(cfg, w2, key, Record(recorded), []);
  }

  /** The probe runs and gives a conclusive answer; its update and its row may be lost. */
  lemma Attempted(cfg: Config, w: World, key: string, res: Result, saved: bool, recorded: bool)
    requires Guarded(cfg, key) && LaneOf(w, key).phase == Cleared(w.clock) && res.state in {Up, Down}
    ensures var w' := ActAll(cfg, w, key, Tried(res, saved, recorded));
            w'.clock == w.clock && w'.db == Left(cfg.guard, w.db, key, w.clock, res, saved, recorded)
            && LaneOf(w', key) == Lane(Idle, LaneOf(w, key).attempts + [Whole(w.clock, res, saved, recorded)])
  {
    hide *;
    var rest := [Reload(true)] + ([Save(saved)] + ([Record(recorded)] + []));
    TriedParts(res, saved, recorded);
    var w' := Asked(cfg, w, key, res, rest);
    WorkedOff(cfg, w', key, LaneOf(w, key).attempts, res, saved, recorded);
  }

  lemma TriedParts(res: Result, saved: bool, recorded: bool)
    ensures Tried(res, saved, recorded) ==
            [Launch] + ([Answer(res)] + ([Reload(true)] + ([Save(saved)] + ([Record(recorded)] + []))))
  {
  }

  /** The gate's own check runs unguarded and is up. */
  lemma GateRuns(cfg: Config, w: World, gate: string)
    requires gate in cfg.jobs && !cfg.jobs[gate].guarded && LaneOf(w, gate).phase == Cleared(w.clock)
    ensures var w' := ActAll(cfg, w, gate, [Launch, Answer(UP_RESULT), Record(true)]);
            w'.clock == w.clock && w'.db == RecordResult(w.db, gate, UP_RESULT, w.clock)
            && LaneOf(w', gate).phase == Idle
  {
    hide LaneOf, Next, RecordResult;
    var r2 := [Record(true)];
    var r1 := [Answer(UP_RESULT)] + r2;
    assert [Launch, Answer(UP_RESULT), Record(true)] == [Launch] + r1 && r2 == r2 + [];
    ActStep(cfg, w, gate, Launch, r1);
    var w1 := Next(cfg, w, Act(gate, Launch));
    ActStep(cfg, w1, gate, Answer(UP_RESULT), r2);
    ActStep(cfg, Next(cfg, w1, Act(gate, Answer(UP_RESULT))), gate, Record(true), []);
  }

  /** After recording an `up` row for the gate, the gate is open, and nothing else changed. */
  lemma GateOpened(db: Tables, job: Job, key: string, now: int)
    requires job.gate.Some? && job.gate.value != key
    ensures var db' := RecordResult(db, job.gate.value, UP_RESULT, now);
            GateOpen(job, db') && LoadBreaker(db', key) == LoadBreaker(db, key)
  {
  }

  lemma OtherRowsDoNotCount(db: Tables, other: string, res: Result, key: string, now: int, since: int)
    requires other != key
    ensures CountSince(RecordResult(db, other, res, now).results, key, since) == CountSince(db.results, key, since)
  {
    CountAppend(db.results, Row(other, now, res.state, res.reason), key, since);
  }

  /** What a run of the check itself leaves of its gate, its count, its record and its row. */
  lemma LeftParts(
      g: GuardConfig, db: Tables, job: Job, key: string, now: int, res: Result, saved: bool, recorded: bool, since: int)
    requires job.gate.Some? ==> job.gate.value != key
    requires res.state in {Up, Down} && since <= now
    ensures var db' := Left(g, db, key, now, res, saved, recorded);
            GateOpen(job, db') == GateOpen(job, db)
            && CountSince(db'.results, key, since) == CountSince(db.results, key, since) + (if recorded then 1 else 0)
            && Some(LoadBreaker(db', key)) ==
               (if saved then AfterRun(LoadBreaker(db, key), res, now, g) else Some(LoadBreaker(db, key)))
            && (recorded ==> Shown(db', key) == res.state)
  {
    CountAppend(db.results, Row(key, now, res.state, res.reason), key, since);
  }
}
