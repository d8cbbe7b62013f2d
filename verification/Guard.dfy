/** The lockout guard as a concurrent, restartable machine.

    Every check has a lane: where its current run stands, and the attempts it has made. A
    run is a sequence of events on shared tables and a shared monotone clock. Lanes
    interleave at every store access; store accesses may fail; a restart loses every lane's
    position and keeps the tables; raw rows may be pruned at any moment. An event that is
    not enabled changes nothing, so every sequence of events is a run. */
module Guard {
  import opened States
  import opened Clock
  import opened Options
  import opened Store
  import opened BreakerLaw

  datatype Job = Job(guarded: bool, gate: Option<string>, interval: int)

  datatype Config = Config(guard: GuardConfig, jobs: map<string, Job>, rawDays: int)

  /** What became of an attempt's row: still running, recorded, lost to a crash or a failed
      write, or never an attempt because the probe declined with `unknown`. */
  datatype Fate = InFlight | Recorded(at: int) | Lost | Declined

  /** `begin` is when the guard read the clock, `start` when the probe started; `answer` is
      what the probe returned, `outcome` what of it reached the breaker record. */
  datatype Attempt = Attempt(begin: int, start: int, fate: Fate, answer: Option<Result>, outcome: Option<Outcome>)

  datatype Cause = OpenBreaker | Ceiling | ClosedGate | StoreError

  datatype Phase =
    | Idle
    | Loading(now: int)
    | Counting(now: int, rec: Breaker)
    | Gating(now: int)
    | Cleared(now: int)
    | Refused(now: int, reason: Reason, cause: Cause)
    | Probing
    | Updating(res: Result)
    | Saving(res: Result, rec: Breaker, at: int)
    | Reporting(res: Result)

  datatype Lane = Lane(phase: Phase, attempts: seq<Attempt>)

  /** `cut` is the greatest raw cutoff so far; with `attempts` it belongs to the account of
      the run, not to the system. */
  datatype World = World(clock: int, db: Tables, lanes: map<string, Lane>, cut: Option<int>)

  datatype Action =
    | Start
    | Load(ok: bool)
    | Count(ok: bool)
    | CheckGate(ok: bool)
    | Launch
    | Answer(res: Result)
    | Reload(ok: bool)
    | Save(ok: bool)
    | Record(ok: bool)

  datatype Event = Tick(dt: nat) | Act(key: string, action: Action) | Restart | Prune(age: nat)

  function Init(clock: int): World { World(clock, EMPTY, map[], None) }

  function LaneOf(w: World, key: string): Lane {
    if key in w.lanes then w.lanes[key] else Lane(Idle, [])
  }

  // ------------------------------------------------------------------ the guard

  function AfterLoad(g: GuardConfig, rec: Breaker, now: int): Phase {
    if rec.openUntil.Some? && now < rec.openUntil.value then Refused(now, PauseReason(rec), OpenBreaker)
    else if g.maxAttempts > 0 then Counting(now, rec)
    else Gating(now)
  }

  function AfterCount(g: GuardConfig, rec: Breaker, now: int, n: int): Phase {
    if n >= g.maxAttempts then Refused(now, PauseReason(rec), Ceiling) else Gating(now)
  }

  function AfterGate(gate: Option<string>, ok: bool, db: Tables, now: int): Phase {
    if gate.None? then Cleared(now)
    else if !ok then Refused(now, GateClosed, StoreError)
    else
      var c := CurrentState(db, gate.value);
      if c.None? || c.value.state != Up then Refused(now, GateClosed, ClosedGate) else Cleared(now)
  }

  /** Where an action leads a run. */
  function NextPhase(cfg: Config, job: Job, key: string, clock: int, db: Tables, phase: Phase, action: Action): Phase {
    match (action, phase)
    case (Start, Idle) => if job.guarded then Loading(clock) else Cleared(clock)
    case (Load(ok), Loading(now)) =>
      if !ok then Refused(now, BreakerOpen, StoreError) else AfterLoad(cfg.guard, LoadBreaker(db, key), now)
    case (Count(ok), Counting(now, rec)) =>
      if !ok then Refused(now, BreakerOpen, StoreError)
      else AfterCount(cfg.guard, rec, now, CountSince(db.results, key, now - Days(1)))
    case (CheckGate(ok), Gating(now)) => AfterGate(job.gate, ok, db, now)
    case (Answer(res), Probing) => if job.guarded then Updating(res) else Reporting(res)
    case (Reload(ok), Updating(res)) =>
      if !ok then Reporting(res)
      else
        var rec := AfterRun(LoadBreaker(db, key), res, clock, cfg.guard);
        if rec.None? then Reporting(res) else Saving(res, rec.value, clock)
    case (Launch, Cleared(now)) => Probing
    case (Save(ok), Saving(res, rec, at)) => Reporting(res)
    case (Record(ok), Refused(now, reason, cause)) => Idle
    case (Record(ok), Reporting(res)) => Idle
    case _ => phase
  }

  /** Replaces the last attempt. */
  function Amend(attempts: seq<Attempt>, last: Attempt): (r: seq<Attempt>)
    ensures |r| == |attempts|
    ensures attempts != [] ==> r[..|r| - 1] == attempts[..|attempts| - 1] && r[|r| - 1] == last
  {
    if attempts == [] then [] else attempts[..|attempts| - 1] + [last]
  }

  function FateOf(res: Result, ok: bool, clock: int): Fate {
    if res.state == Unknown then Declined else if ok then Recorded(clock) else Lost
  }

  /** What an action adds to the account of the lane's attempts. */
  function NextAttempts(clock: int, lane: Lane, action: Action): seq<Attempt> {
    var Lane(phase, attempts) := lane;
    match (action, phase)
    case (Launch, Cleared(now)) => attempts + [Attempt(now, clock, InFlight, None, None)]
    case (Answer(res), Probing) =>
      if attempts == [] then attempts
      else Amend(attempts, attempts[|attempts| - 1].(answer := Some(res)))
    case (Save(ok), Saving(res, rec, at)) =>
      if !ok || attempts == [] then attempts
      else
        var last := attempts[|attempts| - 1];
        Amend(attempts, last.(outcome := Some(OutcomeOf(last.start, at, res))))
    case (Record(ok), Reporting(res)) =>
      if attempts == [] then attempts
      else Amend(attempts, attempts[|attempts| - 1].(fate := FateOf(res, ok, clock)))
    case _ => attempts
  }

  /** What an action writes. */
  function NextTables(key: string, clock: int, db: Tables, phase: Phase, action: Action): Tables {
    match (action, phase)
    case (Save(ok), Saving(res, rec, at)) => if ok then SaveBreaker(db, key, rec) else db
    case (Record(ok), Refused(now, reason, cause)) =>
      if ok then RecordResult(db, key, Result(Unknown, reason), clock) else db
    case (Record(ok), Reporting(res)) => if ok then RecordResult(db, key, res, clock) else db
    case _ => db
  }

  function NextLane(cfg: Config, job: Job, key: string, clock: int, db: Tables, lane: Lane, action: Action): Lane {
    Lane(NextPhase(cfg, job, key, clock, db, lane.phase, action), NextAttempts(clock, lane, action))
  }

  /** A restart forgets where a run stood; a run cut short loses its row. */
  function Crashed(lane: Lane): Lane {
    var attempts := lane.attempts;
    if attempts != [] && attempts[|attempts| - 1].fate == InFlight then
      Lane(Idle, Amend(attempts, attempts[|attempts| - 1].(fate := Lost)))
    else
      Lane(Idle, attempts)
  }

  function Next(cfg: Config, w: World, event: Event): World {
    match event
    case Tick(dt) => w.(clock := w.clock + dt)
    case Act(key, action) =>
      if key !in cfg.jobs then w
      else
        var lane := LaneOf(w, key);
        w.(lanes := w.lanes[key := NextLane(cfg, cfg.jobs[key], key, w.clock, w.db, lane, action)],
           db := NextTables(key, w.clock, w.db, lane.phase, action))
    case Restart => w.(lanes := map key | key in w.lanes :: Crashed(w.lanes[key]))
    case Prune(age) =>
      var now := w.clock - age;
      w.(db := PruneRaw(w.db, cfg.rawDays, now), cut := Later(w.cut, now - Days(cfg.rawDays)))
  }

  function Run(cfg: Config, w: World, events: seq<Event>): World {
    if events == [] then w
    else Next(cfg, Run(cfg, w, events[..|events| - 1]), events[|events| - 1])
  }

  /** The worlds a run leads to. */
  ghost predicate Reached(cfg: Config, clock: int, w: World) {
    exists events :: w == Run(cfg, Init(clock), events)
  }

  lemma ReachNext(cfg: Config, clock: int, w: World, event: Event)
    requires Reached(cfg, clock, w)
    ensures Reached(cfg, clock, Next(cfg, w, event))
  {
    var events :| w == Run(cfg, Init(clock), events);
    assert (events + [event])[..|events + [event]| - 1] == events;
    assert Next(cfg, w, event) == Run(cfg, Init(clock), events + [event]);
  }

  // ------------------------------------------------------------ reading attempts

  /** The outcomes that reached the breaker record. */
  function Saved(attempts: seq<Attempt>): seq<Outcome> {
    if attempts == [] then []
    else
      var last := attempts[|attempts| - 1];
      Saved(attempts[..|attempts| - 1]) + if last.outcome.Some? then [last.outcome.value] else []
  }

  /** Attempts whose row was written at or after an instant. */
  function RecordedSince(attempts: seq<Attempt>, since: int): nat {
    if attempts == [] then 0
    else
      var last := attempts[|attempts| - 1];
      RecordedSince(attempts[..|attempts| - 1], since) + if last.fate.Recorded? && last.fate.at >= since then 1 else 0
  }

  predicate InWindow(a: Attempt, from: int) { from <= a.start <= from + Days(1) }

  /** Attempts started in the 24 hours from an instant, both ends included. */
  function Started(attempts: seq<Attempt>, from: int): nat {
    if attempts == [] then 0
    else
      var last := attempts[|attempts| - 1];
      Started(attempts[..|attempts| - 1], from) + if last.fate != Declined && InWindow(last, from) then 1 else 0
  }

  /** Those of them whose row was lost. */
  function LostIn(attempts: seq<Attempt>, from: int): nat {
    if attempts == [] then 0
    else
      var last := attempts[|attempts| - 1];
      LostIn(attempts[..|attempts| - 1], from) + if last.fate == Lost && InWindow(last, from) then 1 else 0
  }
}
