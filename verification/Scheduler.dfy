/** The scheduler's procedures as the program runs them, each proved to be a run of the
    corresponding machine: one cycle of a job of the guard's, one maintenance tick of the
    history's. */
module Scheduler {
  import opened States
  import opened Clock
  import opened Options
  import opened Store
  import opened BreakerLaw
  import opened Repo
  import opened Guard
  import opened GuardReadings
  import opened Ticks
  import H = History

  /** What one cycle meets: clock readings, store faults, the probe's answer. */
  datatype Cycle = Cycle(
    startAt: int, updateAt: int, recordAt: int,
    loadOk: bool, countOk: bool, gateOk: bool, reloadOk: bool, saveOk: bool, recordOk: bool,
    answer: Result
  )

  predicate Timely(c: Cycle) { c.startAt <= c.updateAt <= c.recordAt }

  /** The cycle as events of the guard. Actions that do not apply change nothing. */
  function CycleEvents(key: string, c: Cycle): seq<Event>
    requires Timely(c)
  {
    [Act(key, Start), Act(key, Load(c.loadOk)), Act(key, Count(c.countOk)), Act(key, CheckGate(c.gateOk)),
     Act(key, Launch), Tick(c.updateAt - c.startAt), Act(key, Answer(c.answer)), Act(key, Reload(c.reloadOk)),
     Act(key, Save(c.saveOk)), Tick(c.recordAt - c.updateAt), Act(key, Record(c.recordOk))]
  }

  /** Where the guard's three readings lead. */
  function Decision(cfg: Config, key: string, db: Tables, c: Cycle): Phase
    requires key in cfg.jobs
  {
    var job := cfg.jobs[key];
    var p1 := NextPhase(cfg, job, key, c.startAt, db, Idle, Start);
    var p2 := NextPhase(cfg, job, key, c.startAt, db, p1, Load(c.loadOk));
    var p3 := NextPhase(cfg, job, key, c.startAt, db, p2, Count(c.countOk));
    NextPhase(cfg, job, key, c.startAt, db, p3, CheckGate(c.gateOk))
  }

  /** What a launched cycle leaves in the breaker table. */
  function Noted(cfg: Config, key: string, db: Tables, c: Cycle): Tables
    requires key in cfg.jobs
  {
    if !cfg.jobs[key].guarded || !c.reloadOk || !c.saveOk then db
    else
      var rec := AfterRun(LoadBreaker(db, key), c.answer, c.updateAt, cfg.guard);
      if rec.None? then db else SaveBreaker(db, key, rec.value)
  }

  /** What a cycle leaves in the tables. */
  function Played(cfg: Config, key: string, db: Tables, c: Cycle): Tables
    requires key in cfg.jobs
  {
    var decision := Decision(cfg, key, db, c);
    if decision.Refused? then
      if c.recordOk then RecordResult(db, key, Result(Unknown, decision.reason), c.recordAt) else db
    else
      var noted := Noted(cfg, key, db, c);
      if c.recordOk then RecordResult(noted, key, c.answer, c.recordAt) else noted
  }

  // ------------------------------------------------- a cycle is a run of the guard

  function Forward(cfg: Config, w: World, events: seq<Event>): World
    decreases |events|
  {
    if events == [] then w else Forward(cfg, Next(cfg, w, events[0]), events[1..])
  }

  lemma {:induction false} ForwardIsRun(cfg: Config, w: World, events: seq<Event>)
    ensures Forward(cfg, w, events) == Run(cfg, w, events)
    decreases |events|
  {
    if events != [] {
      ForwardIsRun(cfg, Next(cfg, w, events[0]), events[1..]);
      RunFromFront(cfg, w, events);
    }
  }

  lemma {:induction false} RunFromFront(cfg: Config, w: World, events: seq<Event>)
    requires events != []
    ensures Run(cfg, w, events) == Run(cfg, Next(cfg, w, events[0]), events[1..])
  {
    var n := |events| - 1;
    if n > 0 {
      RunFromFront(cfg, w, events[..n]);
      assert events[..n][1..] == events[1..][..n - 1];
    } else {
      assert events[..n] == [] && events[1..] == [];
    }
  }

  /** One lane of the machine at rest, on given tables. */
  function AtRest(clock: int, db: Tables): World { World(clock, db, map[], None) }

  lemma ActStep(cfg: Config, w: World, key: string, action: Action, rest: seq<Event>)
    requires key in cfg.jobs
    ensures var lane := LaneOf(w, key);
            var w' := Next(cfg, w, Act(key, action));
            Forward(cfg, w, [Act(key, action)] + rest) == Forward(cfg, w', rest)
            && w'.clock == w.clock && w'.db == NextTables(key, w.clock, w.db, lane.phase, action)
            && LaneOf(w', key) == NextLane(cfg, cfg.jobs[key], key, w.clock, w.db, lane, action)
  {
    assert ([Act(key, action)] + rest)[1..] == rest;
  }

  lemma TickStep(cfg: Config, w: World, dt: nat, key: string, rest: seq<Event>)
    ensures var w' := Next(cfg, w, Tick(dt));
            Forward(cfg, w, [Tick(dt)] + rest) == Forward(cfg, w', rest)
            && w'.clock == w.clock + dt && w'.db == w.db && LaneOf(w', key) == LaneOf(w, key)
  {
    assert ([Tick(dt)] + rest)[1..] == rest;
  }

  /** The guard's part: four readings, no writes. */
  lemma GuardPart(cfg: Config, key: string, db: Tables, c: Cycle, rest: seq<Event>) returns (w: World)
    requires key in cfg.jobs
    ensures Forward(cfg, AtRest(c.startAt, db),
                    [Act(key, Start)] + ([Act(key, Load(c.loadOk))]
                    + ([Act(key, Count(c.countOk))] + ([Act(key, CheckGate(c.gateOk))] + rest))))
            == Forward(cfg, w, rest)
    ensures w.clock == c.startAt && w.db == db && LaneOf(w, key) == Lane(Decision(cfg, key, db, c), [])
  {
    var a1, a2, a3, a4 := Start, Load(c.loadOk), Count(c.countOk), CheckGate(c.gateOk);
    w := AtRest(c.startAt, db);
    var r3 := [Act(key, a4)] + rest;
    var r2 := [Act(key, a3)] + r3;
    ActStep(cfg, w, key, a1, [Act(key, a2)] + r2);
    w := Next(cfg, w, Act(key, a1));
    ActStep(cfg, w, key, a2, r2);
    w := Next(cfg, w, Act(key, a2));
    ActStep(cfg, w, key, a3, r3);
    w := Next(cfg, w, Act(key, a3));
    ActStep(cfg, w, key, a4, rest);
    w := Next(cfg, w, Act(key, a4));
  }

  lemma DecisionShape(cfg: Config, key: string, db: Tables, c: Cycle)
    requires key in cfg.jobs
    ensures var p := Decision(cfg, key, db, c);
            p == Cleared(c.startAt) || (p.Refused? && p.now == c.startAt && cfg.jobs[key].guarded)
  {
  }

  /** The probe runs: launch, wait, answer. A refused run stays refused. */
  lemma LaunchPart(cfg: Config, key: string, start: World, c: Cycle, rest: seq<Event>) returns (w: World)
    requires key in cfg.jobs && Timely(c) && start.clock == c.startAt
    requires LaneOf(start, key).phase == Cleared(c.startAt) || LaneOf(start, key).phase.Refused?
    ensures Forward(cfg, start, [Act(key, Launch)]
            + ([Tick(c.updateAt - c.startAt)] + ([Act(key, Answer(c.answer))] + rest)))
            == Forward(cfg, w, rest)
    ensures w.clock == c.updateAt && w.db == start.db
    ensures LaneOf(w, key).phase == if LaneOf(start, key).phase.Refused? then LaneOf(start, key).phase
                                    else if cfg.jobs[key].guarded then Updating(c.answer) else Reporting(c.answer)
    ensures !LaneOf(start, key).phase.Refused? ==> LaneOf(w, key).attempts != []
  {
    var r2 := [Act(key, Answer(c.answer))] + rest;
    var r1 := [Tick(c.updateAt - c.startAt)] + r2;
    w := start;
    ActStep(cfg, w, key, Launch, r1);
    w := Next(cfg, w, Act(key, Launch));
    TickStep(cfg, w, c.updateAt - c.startAt, key, r2);
    w := Next(cfg, w, Tick(c.updateAt - c.startAt));
    ActStep(cfg, w, key, Answer(c.answer), rest);
    w := Next(cfg, w, Act(key, Answer(c.answer)));
  }

  /** The outcome is noted in the breaker record. */
  lemma NotePart(cfg: Config, key: string, start: World, c: Cycle, rest: seq<Event>) returns (w: World)
    requires key in cfg.jobs && start.clock == c.updateAt
    requires var p := LaneOf(start, key).phase;
             p.Refused? || p == if cfg.jobs[key].guarded then Updating(c.answer) else Reporting(c.answer)
    requires !LaneOf(start, key).phase.Refused? ==> LaneOf(start, key).attempts != []
    ensures Forward(cfg, start, [Act(key, Reload(c.reloadOk))] + ([Act(key, Save(c.saveOk))] + rest))
            == Forward(cfg, w, rest)
    ensures w.clock == c.updateAt
    ensures if LaneOf(start, key).phase.Refused?
            then w.db == start.db && LaneOf(w, key).phase == LaneOf(start, key).phase
            else w.db == Noted(cfg, key, start.db, c) && LaneOf(w, key).phase == Reporting(c.answer)
  {
    var r1 := [Act(key, Save(c.saveOk))] + rest;
    w := start;
    ActStep(cfg, w, key, Reload(c.reloadOk), r1);
    w := Next(cfg, w, Act(key, Reload(c.reloadOk)));
    ActStep(cfg, w, key, Save(c.saveOk), rest);
    w := Next(cfg, w, Act(key, Save(c.saveOk)));
  }

  /** The last part: record the answer, or the refusal. */
  lemma RecordPart(cfg: Config, key: string, start: World, c: Cycle)
    requires key in cfg.jobs && Timely(c) && start.clock == c.updateAt
    requires LaneOf(start, key).phase.Refused? || LaneOf(start, key).phase == Reporting(c.answer)
    ensures var phase := LaneOf(start, key).phase;
            var res := if phase.Refused? then Result(Unknown, phase.reason) else c.answer;
            Forward(cfg, start, [Tick(c.recordAt - c.updateAt)] + [Act(key, Record(c.recordOk))]).db
            == if c.recordOk then RecordResult(start.db, key, res, c.recordAt) else start.db
  {
    var last := [Act(key, Record(c.recordOk))];
    TickStep(cfg, start, c.recordAt - c.updateAt, key, last);
    assert last == last + [];
    ActStep(cfg, Next(cfg, start, Tick(c.recordAt - c.updateAt)), key, Record(c.recordOk), []);
  }

  function RecordEvents(key: string, c: Cycle): seq<Event>
    requires Timely(c)
  {
    [Tick(c.recordAt - c.updateAt)] + [Act(key, Record(c.recordOk))]
  }

  function NoteEvents(key: string, c: Cycle): seq<Event>
    requires Timely(c)
  {
    [Act(key, Reload(c.reloadOk))] + ([Act(key, Save(c.saveOk))] + RecordEvents(key, c))
  }

  function ProbeEvents(key: string, c: Cycle): seq<Event>
    requires Timely(c)
  {
    [Act(key, Launch)] + ([Tick(c.updateAt - c.startAt)] + ([Act(key, Answer(c.answer))] + NoteEvents(key, c)))
  }

  lemma CycleParts(key: string, c: Cycle)
    requires Timely(c)
    ensures CycleEvents(key, c) ==
            [Act(key, Start)] + ([Act(key, Load(c.loadOk))]
            + ([Act(key, Count(c.countOk))] + ([Act(key, CheckGate(c.gateOk))] + ProbeEvents(key, c))))
  {
  }

  lemma CyclePlays(cfg: Config, key: string, db: Tables, c: Cycle)
    requires key in cfg.jobs && Timely(c)
    ensures Forward(cfg, AtRest(c.startAt, db), CycleEvents(key, c)).db == Played(cfg, key, db, c)
  {
    hide Forward, Next, NextPhase, Decision, Noted, CycleEvents, RecordResult, LaneOf;
    CycleParts(key, c);
    DecisionShape(cfg, key, db, c);
    var decided := GuardPart(cfg, key, db, c, ProbeEvents(key, c));
    var answered := LaunchPart(cfg, key, decided, c, NoteEvents(key, c));
    var noted := NotePart(cfg, key, answered, c, RecordEvents(key, c));
    RecordPart(cfg, key, noted, c);
  }

  /** A cycle of a job is the run of its events on the guard's machine. */
  lemma CycleIsARun(cfg: Config, key: string, db: Tables, c: Cycle)
    requires key in cfg.jobs && Timely(c)
    ensures Run(cfg, AtRest(c.startAt, db), CycleEvents(key, c)).db == Played(cfg, key, db, c)
  {
    CyclePlays(cfg, key, db, c);
    ForwardIsRun(cfg, AtRest(c.startAt, db), CycleEvents(key, c));
  }

  // ----------------------------------------------------------------- the procedures

  /** How long the program waits between deletions. */
  function PruneEvery(): int { Hours(1) }

  /** What the guard's readings of one cycle find: no suspension, fewer attempts than the
      ceiling, an open gate. */
  predicate MayResume(key: string, db: Tables, c: Cycle) { c.loadOk && !Suspended(db, key, c.startAt) }

  ghost predicate BelowCeiling(cfg: Config, key: string, db: Tables, c: Cycle) {
    cfg.guard.maxAttempts > 0 ==> c.countOk && !AtCeiling(cfg.guard, db, key, c.startAt)
  }

  predicate OpenGate(cfg: Config, key: string, db: Tables, c: Cycle)
    requires key in cfg.jobs
  {
    cfg.jobs[key].gate.Some? ==> c.gateOk && GateIsUp(db, cfg.jobs[key].gate)
  }

  ghost predicate Clears(cfg: Config, key: string, db: Tables, c: Cycle)
    requires key in cfg.jobs
  {
    MayResume(key, db, c) && BelowCeiling(cfg, key, db, c) && OpenGate(cfg, key, db, c)
  }

  /** What the breaker table must hold after an answer was noted, in the configured durations:
      the first suspension lasts as long as the initial backoff, each further one twice the
      last, and none longer than the greatest; both are cut to whole seconds. */
  predicate Suspends(g: GuardConfig, before: Breaker, after: Breaker, at: int) {
    var initial := g.backoffInitial - g.backoffInitial % 1_000_000_000;
    var most := g.backoffMax - g.backoffMax % 1_000_000_000;
    var last, pause := before.backoff * 1_000_000_000, after.backoff * 1_000_000_000;
    after.openUntil == Some(at + pause) && pause == Min(if last <= 0 then initial else 2 * last, most)
  }

  predicate Notes(g: GuardConfig, before: Breaker, after: Breaker, res: Result, at: int) {
    match res.state
    case Up => after == Breaker(0, None, 0)
    case Down =>
      after.fails == before.fails + 1
      && if res.reason in {SsoLoginRejected, UsernameMismatch, TokenInvalid} || before.fails + 1 >= g.threshold
         then Suspends(g, before, after, at)
         else after.openUntil == before.openUntil && after.backoff == before.backoff
    case _ => after == before
  }

  class Worker {
    const repo: Repository
    const cfg: Config
    var lastPrune: Option<int>

    constructor (repo: Repository, cfg: Config)
      ensures this.repo == repo && this.cfg == cfg && lastPrune == None
    {
      this.repo := repo;
      this.cfg := cfg;
      lastPrune := None;
    }

    method GuardBlocks(key: string, c: Cycle) returns (blocked: Option<Reason>)
      requires key in cfg.jobs && cfg.jobs[key].guarded
      ensures var decision := Decision(cfg, key, repo.tables, c);
              if decision.Refused? then blocked == Some(decision.reason) else blocked == None
      ensures blocked in {None, Some(BreakerOpen), Some(PausedAfterFailure), Some(GateClosed)}
      ensures blocked == None <==> Clears(cfg, key, repo.tables, c)
      ensures blocked == Some(GateClosed) <==>
              MayResume(key, repo.tables, c) && BelowCeiling(cfg, key, repo.tables, c)
              && !OpenGate(cfg, key, repo.tables, c)
      ensures blocked == Some(PausedAfterFailure) <==>
              c.loadOk && FailedLast(repo.tables, key)
              && (Suspended(repo.tables, key, c.startAt)
                  || (c.countOk && AtCeiling(cfg.guard, repo.tables, key, c.startAt)))
    {
      var now, job := c.startAt, cfg.jobs[key];
      if !c.loadOk {
        return Some(BreakerOpen);
      }
      var rec := if key in repo.tables.breakers then repo.tables.breakers[key] else ZERO_BREAKER;
      if rec.openUntil.Some? && now < rec.openUntil.value {
        return Some(PauseReason(rec));
      }
      if cfg.guard.maxAttempts > 0 {
        if !c.countOk {
          return Some(BreakerOpen);
        }
        var n := CountSince(repo.tables.results, key, now - Days(1));
        CountSinceCountsRows(repo.tables.results, key, now - Days(1));
        if n >= cfg.guard.maxAttempts {
          return Some(PauseReason(rec));
        }
      }
      if job.gate.Some? {
        if !c.gateOk {
          return Some(GateClosed);
        }
        if job.gate.value !in repo.tables.current || repo.tables.current[job.gate.value].state != Up {
          return Some(GateClosed);
        }
      }
      blocked := None;
    }

    method UpdateBreaker(key: string, c: Cycle)
      requires key in cfg.jobs && cfg.jobs[key].guarded
      modifies repo`tables
      ensures repo.tables == Noted(cfg, key, old(repo.tables), c)
      ensures repo.tables == old(repo.tables).(breakers := repo.tables.breakers)
      ensures forall k :: k != key ==> LoadBreaker(repo.tables, k) == LoadBreaker(old(repo.tables), k)
      ensures var before, after := LoadBreaker(old(repo.tables), key), LoadBreaker(repo.tables, key);
              if c.reloadOk && c.saveOk
              then Loaded(cfg.guard) ==> Notes(cfg.guard, before, after, c.answer, c.updateAt)
              else after == before
    {
      WholeSecondsCut(cfg.guard.backoffInitial);
      WholeSecondsCut(cfg.guard.backoffMax);
      if !c.reloadOk {
        return;
      }
      var rec := if key in repo.tables.breakers then repo.tables.breakers[key] else ZERO_BREAKER;
      match c.answer.state {
        case Up =>
          rec := Breaker(0, None, 0);
        case Down =>
          rec := rec.(fails := rec.fails + 1);
          var hard := c.answer.reason in {SsoLoginRejected, UsernameMismatch, TokenInvalid};
          if hard || rec.fails >= cfg.guard.threshold {
            rec := rec.(backoff := NextBackoff(rec.backoff, cfg.guard));
            rec := rec.(openUntil := Some(c.updateAt + Seconds(rec.backoff)));
          }
        case _ =>
          return;
      }
      if c.saveOk {
        repo.SaveBreaker(key, rec);
      }
    }

    /** One cycle of a job: consult the guard, run the probe if allowed, note the outcome,
        record it. Its effect on the tables is that of its events on the guard's machine. */
    method RunOnce(key: string, c: Cycle) returns (res: Result)
      requires key in cfg.jobs && Timely(c)
      modifies repo`tables
      ensures repo.tables == Run(cfg, AtRest(c.startAt, old(repo.tables)), CycleEvents(key, c)).db
      ensures res == if Decision(cfg, key, old(repo.tables), c).Refused?
                     then Result(Unknown, Decision(cfg, key, old(repo.tables), c).reason) else c.answer
      ensures if cfg.jobs[key].guarded && !Clears(cfg, key, old(repo.tables), c)
              then res.state == Unknown && repo.tables.breakers == old(repo.tables.breakers)
              else res == c.answer
      ensures repo.tables.results ==
              old(repo.tables.results) + if c.recordOk then [Row(key, c.recordAt, res.state, res.reason)] else []
    {
      CycleIsARun(cfg, key, repo.tables, c);
      DecisionShape(cfg, key, repo.tables, c);
      var blocked: Option<Reason> := None;
      if cfg.jobs[key].guarded {
        blocked := GuardBlocks(key, c);
      }
      if blocked.Some? {
        res := Result(Unknown, blocked.value);
      } else {
        res := c.answer;
        if cfg.jobs[key].guarded {
          UpdateBreaker(key, c);
        }
      }
      if c.recordOk {
        repo.RecordResult(key, res, c.recordAt);
      }
    }

    method RollUp(h: H.Config, now: int, f: MaintenanceFaults)
      requires h.offset == repo.offset
      modifies repo`tables
      ensures repo.tables == RolledUp(h, now, old(repo.tables), f)
    {
      if f.rollupOk {
        repo.Rollup({LocalDay(now, repo.offset), LocalDay(now - Days(1), repo.offset)});
      }
      if f.hourlyOk {
        repo.RollupHourly(h.hours, now);
      }
    }

    method PruneAll(h: H.Config, now: int, f: MaintenanceFaults)
      requires h.offset == repo.offset
      modifies repo`tables
      ensures repo.tables == Pruned(h, now, old(repo.tables), f)
    {
      var _ := repo.Prune(h.rawDays, h.dailyDays, now, f.rawOk, f.dailyOk);
      if f.pruneHourlyOk {
        repo.PruneHourly(h.hourlyDays, now);
      }
    }

    /** One maintenance tick: both rollups, and the prunes at most once an hour. Its effect is
        that of its statements on the history's machine. */
    method Maintain(h: H.Config, now: int, f: MaintenanceFaults, ghost before: H.World)
      requires before.db == repo.tables && before.clock == now && h.offset == repo.offset
      modifies this`lastPrune, repo`tables
      ensures var due := old(lastPrune).None? || now - old(lastPrune).value >= PruneEvery();
              repo.tables == H.Run(h, before, TickEvents(due, f)).db
              && lastPrune == if due then Some(now) else old(lastPrune)
      ensures TickLeaves(h, now, old(lastPrune).None? || now - old(lastPrune).value >= 3_600_000_000_000, f,
                         old(repo.tables), repo.tables)
    {
      TickLeavesEveryRow(h, before, true, f);
      TickLeavesEveryRow(h, before, false, f);
      TickRun(h, before, true, f);
      TickRun(h, before, false, f);
      RollUp(h, now, f);
      if lastPrune.Some? && now - lastPrune.value < PruneEvery() {
        return;
      }
      lastPrune := Some(now);
      PruneAll(h, now, f);
    }
  }
}
