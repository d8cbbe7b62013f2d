/** The cadence around the guard: the boot sweep, the tickers, restarts. What it adds to the
    guard is when a run may begin, and what can go wrong with that. */
module Schedule {
  import opened States
  import opened Clock
  import opened Options
  import opened Arith
  import opened Store
  import opened BreakerLaw
  import opened Guard
  import opened GuardInvariant

  /** Before the boot sweep reached the job, after it, and once its ticker runs. */
  datatype Cadence = Boot | Swept | Ticking(next: int)

  /** What disturbs the cadence of a check: a boot sweep that cannot read the live rows, the
      row of a run that is not written, and a run that a restart cuts before its row. */
  datatype FaultKind = BlindSweep | LostRow | CutRun

  datatype Fault = Fault(at: int, kind: FaultKind)

  /** The account of one check: when its current run was due, when each of its attempts was,
      and what went wrong. A run is due at the tick that starts it, however late the tick is
      handled, or when the sweep reaches it. */
  datatype Ledger = Ledger(due: int, dues: seq<int>, faults: set<Fault>)

  /** `ledgers` is the account of the run; the rest is the system. */
  datatype TimedWorld = TimedWorld(w: World, cadences: map<string, Cadence>, ledgers: map<string, Ledger>)

  datatype TimedEvent =
    | Wait(dt: nat)
    | Sweep(key: string, readable: bool)
    | StartTicker(key: string, jitter: nat)
    | Fire(key: string)
    | Go(key: string, action: Action)
    | Reboot
    | Maintain(age: nat)

  function Begin(clock: int): TimedWorld { TimedWorld(Init(clock), map[], map[]) }

  function CadenceOf(t: TimedWorld, key: string): Cadence {
    if key in t.cadences then t.cadences[key] else Boot
  }

  function LedgerOf(t: TimedWorld, key: string): Ledger {
    if key in t.ledgers then t.ledgers[key] else Ledger(0, [], {})
  }

  function FaultsOf(t: TimedWorld, key: string): set<Fault> { LedgerOf(t, key).faults }

  /** The account with one more entry, if there is something to enter. */
  function Noting(ledger: Ledger, wrong: bool, fault: Fault): Ledger {
    if wrong then ledger.(faults := ledger.faults + {fault}) else ledger
  }

  /** What an action of a run adds to the account: when the attempt it starts was due, or the
      row it loses. */
  function Entered(ledger: Ledger, phase: Phase, action: Action, clock: int): Ledger {
    if action == Launch && phase.Cleared? then ledger.(dues := ledger.dues + [ledger.due])
    else Noting(ledger, action == Record(false) && InRun(phase), Fault(clock, LostRow))
  }

  /** A conclusive result newer than the job's interval. */
  predicate HasFreshResult(current: Option<Current>, now: int, interval: int) {
    current.Some? && current.value.state != Unknown && now - current.value.lastChecked < interval
  }

  function MaxJitter(interval: int): int { Min(interval / 4, Seconds(30)) }

  /** The next tick of a ticker whose pending tick is taken at an instant: the ticker keeps
      its phase and drops what it missed. */
  function NextTick(next: int, interval: int, at: int): (r: int)
    requires interval > 0 && next <= at
    ensures at < r && next + interval <= r && (at == next ==> r == next + interval)
  {
    var missed := (at - next) / interval;
    assert interval * missed >= 0;
    next + interval * (missed + 1)
  }

  /** A run begins only through the sweep or a tick. */
  predicate Allowed(cfg: Config, key: string, action: Action) { Guarded(cfg, key) ==> action != Start }

  function NextTimed(cfg: Config, t: TimedWorld, event: TimedEvent): TimedWorld {
    match event
    case Wait(dt) => t.(w := Next(cfg, t.w, Tick(dt)))
    case Sweep(key, readable) =>
      if key !in cfg.jobs || CadenceOf(t, key) != Boot || LaneOf(t.w, key).phase != Idle then t
      else if cfg.jobs[key].guarded && readable
              && HasFreshResult(CurrentState(t.w.db, key), t.w.clock, cfg.jobs[key].interval)
      then t.(cadences := t.cadences[key := Swept])
      else
        var ledger := Noting(LedgerOf(t, key).(due := t.w.clock), !readable, Fault(t.w.clock, BlindSweep));
        TimedWorld(Next(cfg, t.w, Act(key, Start)), t.cadences[key := Swept], t.ledgers[key := ledger])
    case StartTicker(key, jitter) =>
      if key !in cfg.jobs || CadenceOf(t, key) != Swept || LaneOf(t.w, key).phase != Idle
         || jitter > MaxJitter(cfg.jobs[key].interval)
      then t
      else t.(cadences := t.cadences[key := Ticking(t.w.clock + jitter + cfg.jobs[key].interval)])
    case Fire(key) =>
      var cadence := CadenceOf(t, key);
      if key !in cfg.jobs || cfg.jobs[key].interval <= 0 || LaneOf(t.w, key).phase != Idle
         || !cadence.Ticking? || t.w.clock < cadence.next
      then t
      else
        TimedWorld(Next(cfg, t.w, Act(key, Start)),
                   t.cadences[key := Ticking(NextTick(cadence.next, cfg.jobs[key].interval, t.w.clock))],
                   t.ledgers[key := LedgerOf(t, key).(due := cadence.next)])
    case Go(key, action) =>
      if Allowed(cfg, key, action) then
        t.(w := Next(cfg, t.w, Act(key, action)),
           ledgers := t.ledgers[key := Entered(LedgerOf(t, key), LaneOf(t.w, key).phase, action, t.w.clock)])
      else t
    case Reboot =>
      TimedWorld(Next(cfg, t.w, Guard.Restart), map[],
                 map k | k in t.ledgers.Keys + t.w.lanes.Keys ::
                   Noting(LedgerOf(t, k), InRun(LaneOf(t.w, k).phase), Fault(t.w.clock, CutRun)))
    case Maintain(age) => t.(w := Next(cfg, t.w, Prune(age)))
  }

  function RunTimed(cfg: Config, t: TimedWorld, events: seq<TimedEvent>): TimedWorld {
    if events == [] then t
    else NextTimed(cfg, RunTimed(cfg, t, events[..|events| - 1]), events[|events| - 1])
  }

  /** The worlds a run leads to. */
  ghost predicate ReachedTimed(cfg: Config, clock: int, t: TimedWorld) {
    exists events :: t == RunTimed(cfg, Begin(clock), events)
  }

  lemma ReachNextTimed(cfg: Config, clock: int, t: TimedWorld, event: TimedEvent)
    requires ReachedTimed(cfg, clock, t)
    ensures ReachedTimed(cfg, clock, NextTimed(cfg, t, event))
  {
    var events :| t == RunTimed(cfg, Begin(clock), events);
    assert (events + [event])[..|events + [event]| - 1] == events;
    assert NextTimed(cfg, t, event) == RunTimed(cfg, Begin(clock), events + [event]);
  }

  /** What the cadence allows, the guard's machine allows. */
  lemma {:induction false} TimedRunsAreRuns(cfg: Config, clock: int, events: seq<TimedEvent>)
    ensures Reached(cfg, clock, RunTimed(cfg, Begin(clock), events).w)
  {
    hide Reached, Next;
    if events == [] {
      StartIsReached(cfg, clock);
    } else {
      var t, event := RunTimed(cfg, Begin(clock), events[..|events| - 1]), events[|events| - 1];
      TimedRunsAreRuns(cfg, clock, events[..|events| - 1]);
      match event
      case Wait(dt) => ReachNext(cfg, clock, t.w, Tick(dt));
      case Sweep(key, _) => ReachNext(cfg, clock, t.w, Act(key, Start));
      case StartTicker(key, jitter) =>
      case Fire(key) => ReachNext(cfg, clock, t.w, Act(key, Start));
      case Go(key, action) => ReachNext(cfg, clock, t.w, Act(key, action));
      case Reboot => ReachNext(cfg, clock, t.w, Guard.Restart);
      case Maintain(age) => ReachNext(cfg, clock, t.w, Prune(age));
    }
  }

  lemma StartIsReached(cfg: Config, clock: int)
    ensures Reached(cfg, clock, Init(clock))
  {
    assert Init(clock) == Run(cfg, Init(clock), []);
  }

  // ------------------------------------------------------------------- spacing

  predicate Real(a: Attempt) { a.fate != Declined }

  /** Nothing went wrong from an instant on. */
  predicate Clean(faults: set<Fault>, from: int) { forall f :: f in faults ==> f.at < from }

  predicate FaultBetween(faults: set<Fault>, from: int, until: int) {
    exists f :: f in faults && from <= f.at <= until
  }

  /** Every attempt since the last fault was due at least an interval before an instant. */
  predicate RestedAt(a: seq<Attempt>, dues: seq<int>, interval: int, t: int, faults: set<Fault>)
    requires |dues| == |a|
  {
    forall i :: 0 <= i < |a| && Real(a[i]) && Clean(faults, a[i].begin) ==> dues[i] + interval <= t
  }

  predicate Spaced(a: seq<Attempt>, dues: seq<int>, interval: int, faults: set<Fault>)
    requires |dues| == |a|
  {
    forall i, j :: 0 <= i < j < |a| && Real(a[i]) && Real(a[j]) && !FaultBetween(faults, a[i].begin, a[j].begin) ==>
      dues[i] + interval <= dues[j]
  }

  /** No attempt begins before it is due. */
  predicate DueFirst(a: seq<Attempt>, dues: seq<int>) {
    |dues| == |a| && forall i :: 0 <= i < |a| ==> dues[i] <= a[i].begin
  }

  /** The live row tells when the last attempt since the last fault can have begun. */
  predicate RowTells(
      a: seq<Attempt>, dues: seq<int>, interval: int, current: Option<Current>, clock: int, faults: set<Fault>)
    requires |dues| == |a|
  {
    match current
    case None => forall i :: 0 <= i < |a| && Clean(faults, a[i].begin) ==> !Real(a[i])
    case Some(c) =>
      if c.state == Unknown then RestedAt(a, dues, interval, clock, faults)
      else forall i :: 0 <= i < |a| && Real(a[i]) && Clean(faults, a[i].begin) ==> a[i].begin <= c.lastChecked
  }

  function GuardTime(p: Phase): Option<int> {
    match p
    case Loading(now) => Some(now)
    case Counting(now, _) => Some(now)
    case Gating(now) => Some(now)
    case Cleared(now) => Some(now)
    case Refused(now, _, _) => Some(now)
    case _ => None
  }

  predicate SpacedLane(
      interval: int, clock: int, current: Option<Current>, lane: Lane, cadence: Cadence, ledger: Ledger) {
    var a, Ledger(due, dues, faults) := lane.attempts, ledger;
    && DueFirst(a, dues)
    && Spaced(a, dues, interval, faults)
    && (forall f :: f in faults ==> f.at <= clock)
    && (GuardTime(lane.phase).Some? ==>
          var now := GuardTime(lane.phase).value;
          due <= now && RestedAt(a, dues, interval, due, faults) && forall f :: f in faults ==> f.at <= now)
    && (!InRun(lane.phase) ==> RowTells(a, dues, interval, current, clock, faults))
    && (cadence.Boot? ==> lane.phase == Idle)
    && (cadence.Ticking? ==>
          RestedAt(a, dues, interval, cadence.next, faults)
          && (GuardTime(lane.phase).Some? && Clean(faults, GuardTime(lane.phase).value) ==>
                due + interval <= cadence.next))
  }

  predicate SpacedKey(cfg: Config, t: TimedWorld, key: string)
    requires key in cfg.jobs
  {
    SpacedLane(cfg.jobs[key].interval, t.w.clock, CurrentState(t.w.db, key), LaneOf(t.w, key), CadenceOf(t, key),
               LedgerOf(t, key))
  }

  ghost predicate TimedInv(cfg: Config, t: TimedWorld) {
    && Inv(cfg, t.w)
    && forall key :: Guarded(cfg, key) ==> SpacedKey(cfg, t, key)
  }

  predicate PositiveIntervals(cfg: Config) { forall key :: key in cfg.jobs ==> cfg.jobs[key].interval > 0 }

  /** Between the start of a run and its launch, and between its launch and its row, actions
      move neither the guard's clock reading nor the line between guard and run. */
  lemma QuietPhases(cfg: Config, job: Job, key: string, clock: int, db: Tables, phase: Phase, action: Action)
    requires action != Start && !(action == Launch && phase.Cleared?) && !action.Record?
    ensures var phase' := NextPhase(cfg, job, key, clock, db, phase, action);
            GuardTime(phase') == GuardTime(phase) && (InRun(phase') <==> InRun(phase))
            && (phase == Idle ==> phase' == Idle)
  {
  }

  /** What such an action does to the account is no matter of spacing. */
  lemma QuietAttempts(clock: int, lane: Lane, action: Action, i: nat)
    requires !(action == Launch && lane.phase.Cleared?) && !action.Record?
    ensures var a' := NextAttempts(clock, lane, action);
            |a'| == |lane.attempts|
            && (i < |a'| ==> a'[i].begin == lane.attempts[i].begin && a'[i].fate == lane.attempts[i].fate)
  {
  }

  lemma SpacedQuiet(
      interval: int, clock: int, current: Option<Current>, lane: Lane, action: Action, cadence: Cadence,
      ledger: Ledger, phase: Phase)
    requires action != Start && !(action == Launch && lane.phase.Cleared?) && !action.Record?
    requires SpacedLane(interval, clock, current, lane, cadence, ledger)
    requires GuardTime(phase) == GuardTime(lane.phase) && (InRun(phase) <==> InRun(lane.phase))
    requires lane.phase == Idle ==> phase == Idle
    ensures SpacedLane(interval, clock, current, Lane(phase, NextAttempts(clock, lane, action)), cadence, ledger)
  {
    hide NextAttempts;
    var a' := NextAttempts(clock, lane, action);
    QuietAttempts(clock, lane, action, 0);
    forall i: nat | i < |a'| ensures a'[i].begin == lane.attempts[i].begin && a'[i].fate == lane.attempts[i].fate {
      QuietAttempts(clock, lane, action, i);
    }
  }

  lemma SpacedLaunch(
      interval: int, clock: int, current: Option<Current>, lane: Lane, cadence: Cadence, ledger: Ledger)
    requires lane.phase.Cleared? && interval > 0
    requires Shape(clock, lane) && SpacedLane(interval, clock, current, lane, cadence, ledger)
    ensures SpacedLane(interval, clock, current, Lane(Probing, NextAttempts(clock, lane, Launch)), cadence,
                       Entered(ledger, lane.phase, Launch, clock))
  {
  }

  /** Ending a run keeps when attempts began; at most the last one stops counting. */
  lemma EndedAttempts(clock: int, lane: Lane, ok: bool, i: nat)
    ensures var a, a' := lane.attempts, NextAttempts(clock, lane, Record(ok));
            |a'| == |a|
            && (i < |a| ==> a'[i].begin == a[i].begin && (i < |a| - 1 ==> a'[i] == a[i]))
  {
  }

  /** What the live row says after a run's row is written. */
  lemma CurrentAfterRecord(key: string, clock: int, db: Tables, phase: Phase)
    requires phase.Refused? || phase.Reporting?
    ensures var c := CurrentState(NextTables(key, clock, db, phase, Record(true)), key);
            c.Some? && c.value.lastChecked == clock
            && c.value.state == if phase.Refused? then Unknown else phase.res.state
    ensures CurrentState(NextTables(key, clock, db, phase, Record(false)), key) == CurrentState(db, key)
  {
  }

  lemma SpacedRefusal(
      interval: int, key: string, clock: int, db: Tables, lane: Lane, ok: bool, cadence: Cadence, ledger: Ledger)
    requires lane.phase.Refused? && interval > 0
    requires Shape(clock, lane) && SpacedLane(interval, clock, CurrentState(db, key), lane, cadence, ledger)
    ensures SpacedLane(interval, clock, CurrentState(NextTables(key, clock, db, lane.phase, Record(ok)), key),
                       Lane(Idle, lane.attempts), cadence, ledger)
  {
    hide NextTables, CurrentState;
    CurrentAfterRecord(key, clock, db, lane.phase);
  }

  /** An attempt that ends with its row, or without it. */
  lemma SpacedEnd(
      interval: int, key: string, clock: int, db: Tables, lane: Lane, ok: bool, cadence: Cadence, ledger: Ledger)
    requires lane.phase.Reporting? && interval > 0
    requires Shape(clock, lane) && SpacedLane(interval, clock, CurrentState(db, key), lane, cadence, ledger)
    ensures SpacedLane(interval, clock, CurrentState(NextTables(key, clock, db, lane.phase, Record(ok)), key),
                       Lane(Idle, NextAttempts(clock, lane, Record(ok))), cadence,
                       Entered(ledger, lane.phase, Record(ok), clock))
  {
    hide NextTables, NextAttempts, CurrentState;
    CurrentAfterRecord(key, clock, db, lane.phase);
    if !ok { MoreFaults(interval, lane.attempts, ledger, Fault(clock, LostRow)); }
    var a, a' := lane.attempts, NextAttempts(clock, lane, Record(ok));
    EndedAttempts(clock, lane, ok, 0);
    LastEnds(clock, lane, ok);
    forall i: nat | i < |a| ensures a'[i].begin == a[i].begin && (i < |a| - 1 ==> a'[i] == a[i]) {
      EndedAttempts(clock, lane, ok, i);
    }
  }

  /** A run that ends counts if its answer does, and counted while it lasted. */
  lemma LastEnds(clock: int, lane: Lane, ok: bool)
    requires lane.phase.Reporting? && Shape(clock, lane)
    ensures var a, a' := lane.attempts, NextAttempts(clock, lane, Record(ok));
            a != [] && |a'| == |a| && Real(Last(a)) && (Real(Last(a')) <==> lane.phase.res.state != Unknown)
  {
  }

  /** The row of a run, or a lost row that is noted. */
  lemma SpacedRecord(
      interval: int, key: string, clock: int, db: Tables, lane: Lane, ok: bool, cadence: Cadence, ledger: Ledger)
    requires lane.phase.Refused? || lane.phase.Reporting?
    requires interval > 0
    requires Shape(clock, lane) && SpacedLane(interval, clock, CurrentState(db, key), lane, cadence, ledger)
    ensures SpacedLane(interval, clock, CurrentState(NextTables(key, clock, db, lane.phase, Record(ok)), key),
                       Lane(Idle, NextAttempts(clock, lane, Record(ok))), cadence,
                       Entered(ledger, lane.phase, Record(ok), clock))
  {
    hide SpacedLane, Shape, NextTables, CurrentState;
    if lane.phase.Refused? {
      SpacedRefusal(interval, key, clock, db, lane, ok, cadence, ledger);
    } else {
      SpacedEnd(interval, key, clock, db, lane, ok, cadence, ledger);
    }
  }

  /** A further fault takes nothing back, and leaves no attempt up to it clean. */
  lemma MoreFaults(interval: int, a: seq<Attempt>, ledger: Ledger, f: Fault)
    requires |ledger.dues| == |a| && Spaced(a, ledger.dues, interval, ledger.faults)
    ensures Spaced(a, ledger.dues, interval, ledger.faults + {f})
    ensures forall x :: Clean(ledger.faults + {f}, x) <==> Clean(ledger.faults, x) && f.at < x
  {
    var faults := ledger.faults;
    assert f in faults + {f};
    forall x, y | FaultBetween(faults, x, y) ensures FaultBetween(faults + {f}, x, y) {
      var g :| g in faults && x <= g.at <= y;
      assert g in faults + {f};
    }
  }

  lemma SpacedAction(
      cfg: Config, job: Job, key: string, clock: int, db: Tables, lane: Lane, action: Action, cadence: Cadence,
      ledger: Ledger)
    requires job.interval > 0 && action != Start
    requires Shape(clock, lane) && SpacedLane(job.interval, clock, CurrentState(db, key), lane, cadence, ledger)
    ensures SpacedLane(job.interval, clock, CurrentState(NextTables(key, clock, db, lane.phase, action), key),
                       NextLane(cfg, job, key, clock, db, lane, action), cadence,
                       Entered(ledger, lane.phase, action, clock))
  {
    hide SpacedLane, Shape, LoadBreaker, AfterRun, Amend, OutcomeOf, FateOf;
    if action == Launch && lane.phase.Cleared? {
      SpacedLaunch(job.interval, clock, CurrentState(db, key), lane, cadence, ledger);
    } else if action.Record? {
      if lane.phase.Refused? || lane.phase.Reporting? {
        SpacedRecord(job.interval, key, clock, db, lane, action.ok, cadence, ledger);
      } else if InRun(lane.phase) {
        SpacedFault(job.interval, clock, CurrentState(db, key), lane, cadence, ledger, Fault(clock, LostRow));
      }
    } else {
      QuietPhases(cfg, job, key, clock, db, lane.phase, action);
      SpacedQuiet(job.interval, clock, CurrentState(db, key), lane, action, cadence, ledger,
                  NextPhase(cfg, job, key, clock, db, lane.phase, action));
    }
  }

  lemma SpacedFault(
      interval: int, clock: int, current: Option<Current>, lane: Lane, cadence: Cadence, ledger: Ledger, f: Fault)
    requires InRun(lane.phase) && Shape(clock, lane) && f.at == clock
    requires SpacedLane(interval, clock, current, lane, cadence, ledger)
    ensures SpacedLane(interval, clock, current, lane, cadence, Noting(ledger, true, f))
  {
    MoreFaults(interval, lane.attempts, ledger, f);
  }

  /** A run that begins with the boot sweep, which finds nothing fresh or cannot read. */
  lemma SpacedSweep(
      cfg: Config, job: Job, key: string, clock: int, db: Tables, lane: Lane, blind: bool, ledger: Ledger)
    requires job.guarded && job.interval > 0 && Shape(clock, lane) && lane.phase == Idle
    requires SpacedLane(job.interval, clock, CurrentState(db, key), lane, Boot, ledger)
    requires blind || !HasFreshResult(CurrentState(db, key), clock, job.interval)
    ensures SpacedLane(job.interval, clock, CurrentState(NextTables(key, clock, db, lane.phase, Start), key),
                       NextLane(cfg, job, key, clock, db, lane, Start), Swept,
                       Noting(ledger.(due := clock), blind, Fault(clock, BlindSweep)))
  {
    hide LoadBreaker, Days, Hours, Seconds;
    if blind { MoreFaults(job.interval, lane.attempts, ledger, Fault(clock, BlindSweep)); }
  }

  /** A run that begins with a tick, on time or late. */
  lemma SpacedTick(
      cfg: Config, job: Job, key: string, clock: int, db: Tables, lane: Lane, tick: int, next: int, ledger: Ledger)
    requires job.guarded && job.interval > 0 && Shape(clock, lane) && lane.phase == Idle
    requires SpacedLane(job.interval, clock, CurrentState(db, key), lane, Ticking(tick), ledger)
    requires tick <= clock && tick + job.interval <= next
    ensures SpacedLane(job.interval, clock, CurrentState(NextTables(key, clock, db, lane.phase, Start), key),
                       NextLane(cfg, job, key, clock, db, lane, Start), Ticking(next), ledger.(due := tick))
  {
    hide LoadBreaker, Days, Hours, Seconds;
  }

  lemma ForeignCurrent(key: string, other: string, clock: int, db: Tables, phase: Phase, action: Action)
    requires key != other
    ensures CurrentState(NextTables(other, clock, db, phase, action), key) == CurrentState(db, key)
  {
  }

  /** A restart keeps when attempts began and which of them count. */
  lemma CrashedAttempts(lane: Lane, i: nat)
    ensures var a, a' := lane.attempts, Crashed(lane).attempts;
            Crashed(lane).phase == Idle && |a'| == |a|
            && (i < |a| ==> a'[i].begin == a[i].begin && (Real(a'[i]) <==> Real(a[i])))
  {
  }

  lemma SpacedCrash(
      interval: int, clock: int, current: Option<Current>, lane: Lane, cadence: Cadence, ledger: Ledger)
    requires Shape(clock, lane) && SpacedLane(interval, clock, current, lane, cadence, ledger)
    ensures SpacedLane(interval, clock, current, Crashed(lane), Boot,
                       Noting(ledger, InRun(lane.phase), Fault(clock, CutRun)))
  {
    hide Crashed, Real;
    if InRun(lane.phase) { MoreFaults(interval, lane.attempts, ledger, Fault(clock, CutRun)); }
    var a, a' := lane.attempts, Crashed(lane).attempts;
    CrashedAttempts(lane, 0);
    forall i: nat | i < |a| ensures a'[i].begin == a[i].begin && (Real(a'[i]) <==> Real(a[i])) {
      CrashedAttempts(lane, i);
    }
  }

  /** The guard's part of a timed step is one of its own steps or none. */
  lemma TimedStepKeepsInv(cfg: Config, t: TimedWorld, event: TimedEvent)
    requires Usable(cfg) && Inv(cfg, t.w)
    ensures Inv(cfg, NextTimed(cfg, t, event).w)
  {
    hide Inv, Next, HasFreshResult, CurrentState, Allowed;
    match event
    case Wait(dt) => InvStep(cfg, t.w, Tick(dt));
    case Sweep(key, _) => InvStep(cfg, t.w, Act(key, Start));
    case StartTicker(key, jitter) =>
    case Fire(key) => InvStep(cfg, t.w, Act(key, Start));
    case Go(key, action) => InvStep(cfg, t.w, Act(key, action));
    case Reboot => InvStep(cfg, t.w, Guard.Restart);
    case Maintain(age) => InvStep(cfg, t.w, Prune(age));
  }

  /** What a run that begins leaves of the other checks. */
  lemma OtherBegins(cfg: Config, t: TimedWorld, k: string, cadence: Cadence, ledger: Ledger, key: string)
    requires Guarded(cfg, key) && k in cfg.jobs && k != key && SpacedKey(cfg, t, key)
    ensures var after := Next(cfg, t.w, Act(k, Start));
            SpacedKey(cfg, TimedWorld(after, t.cadences[k := cadence], t.ledgers[k := ledger]), key)
  {
    hide SpacedLane, NextLane, NextTables, CurrentState;
    ActParts(cfg, t.w, k, Start, key);
    ForeignCurrent(key, k, t.w.clock, t.w.db, LaneOf(t.w, k).phase, Start);
  }

  lemma OwnSweep(cfg: Config, t: TimedWorld, blind: bool, key: string)
    requires PositiveIntervals(cfg) && Guarded(cfg, key) && LaneOf(t.w, key).phase == Idle && CadenceOf(t, key) == Boot
    requires Shape(t.w.clock, LaneOf(t.w, key)) && SpacedKey(cfg, t, key)
    requires blind || !HasFreshResult(CurrentState(t.w.db, key), t.w.clock, cfg.jobs[key].interval)
    ensures var ledger := Noting(LedgerOf(t, key).(due := t.w.clock), blind, Fault(t.w.clock, BlindSweep));
            var after := Next(cfg, t.w, Act(key, Start));
            SpacedKey(cfg, TimedWorld(after, t.cadences[key := Swept], t.ledgers[key := ledger]), key)
  {
    hide SpacedLane, NextLane, NextTables, CurrentState, HasFreshResult, Shape, Noting;
    ActParts(cfg, t.w, key, Start, key);
    SpacedSweep(cfg, cfg.jobs[key], key, t.w.clock, t.w.db, LaneOf(t.w, key), blind, LedgerOf(t, key));
  }

  lemma OwnTick(cfg: Config, t: TimedWorld, tick: int, next: int, key: string)
    requires PositiveIntervals(cfg) && Guarded(cfg, key) && LaneOf(t.w, key).phase == Idle
    requires CadenceOf(t, key) == Ticking(tick) && tick <= t.w.clock && tick + cfg.jobs[key].interval <= next
    requires Shape(t.w.clock, LaneOf(t.w, key)) && SpacedKey(cfg, t, key)
    ensures var ledger := LedgerOf(t, key).(due := tick);
            SpacedKey(cfg, TimedWorld(Next(cfg, t.w, Act(key, Start)), t.cadences[key := Ticking(next)],
                                      t.ledgers[key := ledger]), key)
  {
    hide SpacedLane, NextLane, NextTables, CurrentState, Shape;
    ActParts(cfg, t.w, key, Start, key);
    SpacedTick(cfg, cfg.jobs[key], key, t.w.clock, t.w.db, LaneOf(t.w, key), tick, next, LedgerOf(t, key));
  }

  lemma SpacedGo(cfg: Config, t: TimedWorld, k: string, action: Action, key: string)
    requires PositiveIntervals(cfg) && Guarded(cfg, key) && Allowed(cfg, k, action)
    requires Shape(t.w.clock, LaneOf(t.w, key)) && SpacedKey(cfg, t, key)
    ensures SpacedKey(cfg, NextTimed(cfg, t, Go(k, action)), key)
  {
    hide SpacedLane, NextLane, NextTables, CurrentState, Shape, Entered;
    if k in cfg.jobs {
      ActParts(cfg, t.w, k, action, key);
      if k == key {
        SpacedAction(cfg, cfg.jobs[key], key, t.w.clock, t.w.db, LaneOf(t.w, key), action, CadenceOf(t, key),
                     LedgerOf(t, key));
      } else {
        ForeignCurrent(key, k, t.w.clock, t.w.db, LaneOf(t.w, k).phase, action);
      }
    }
  }

  lemma SpacedReboot(cfg: Config, t: TimedWorld, key: string)
    requires Guarded(cfg, key)
    requires Shape(t.w.clock, LaneOf(t.w, key)) && SpacedKey(cfg, t, key)
    ensures SpacedKey(cfg, NextTimed(cfg, t, Reboot), key)
  {
    hide SpacedLane;
    var t' := NextTimed(cfg, t, Reboot);
    assert LedgerOf(t', key) == Noting(LedgerOf(t, key), InRun(LaneOf(t.w, key).phase), Fault(t.w.clock, CutRun));
    SpacedCrash(cfg.jobs[key].interval, t.w.clock, CurrentState(t.w.db, key), LaneOf(t.w, key), CadenceOf(t, key),
                LedgerOf(t, key));
  }

  lemma SpacedWait(cfg: Config, t: TimedWorld, dt: nat, key: string)
    requires Guarded(cfg, key) && SpacedKey(cfg, t, key)
    ensures SpacedKey(cfg, t.(w := Next(cfg, t.w, Tick(dt))), key)
  {
  }

  lemma SpacedTicker(cfg: Config, t: TimedWorld, k: string, next: int, key: string)
    requires PositiveIntervals(cfg) && Guarded(cfg, key) && k in cfg.jobs
    requires CadenceOf(t, k) == Swept && LaneOf(t.w, k).phase == Idle && next >= t.w.clock + cfg.jobs[k].interval
    requires Shape(t.w.clock, LaneOf(t.w, key)) && SpacedKey(cfg, t, key)
    ensures SpacedKey(cfg, t.(cadences := t.cadences[k := Ticking(next)]), key)
  {
  }

  lemma SpacedSkip(cfg: Config, t: TimedWorld, k: string, key: string)
    requires PositiveIntervals(cfg) && Guarded(cfg, key) && SpacedKey(cfg, t, key)
    requires CadenceOf(t, k).Boot?
    ensures SpacedKey(cfg, t.(cadences := t.cadences[k := Swept]), key)
  {
  }

  lemma SpacedPrune(cfg: Config, t: TimedWorld, age: nat, key: string)
    requires Guarded(cfg, key) && SpacedKey(cfg, t, key)
    ensures SpacedKey(cfg, t.(w := Next(cfg, t.w, Prune(age))), key)
  {
  }

  lemma SpacedStep(cfg: Config, t: TimedWorld, event: TimedEvent, key: string)
    requires PositiveIntervals(cfg) && Guarded(cfg, key)
    requires Shape(t.w.clock, LaneOf(t.w, key)) && SpacedKey(cfg, t, key)
    ensures SpacedKey(cfg, NextTimed(cfg, t, event), key)
  {
    hide SpacedKey, Shape, Next, LaneOf, HasFreshResult, CurrentState, Noting, NextTick;
    match event
    case Wait(dt) => SpacedWait(cfg, t, dt, key);
    case Sweep(k, readable) =>
      if k in cfg.jobs && CadenceOf(t, k) == Boot && LaneOf(t.w, k).phase == Idle {
        if k != key {
          var ledger := Noting(LedgerOf(t, k).(due := t.w.clock), !readable, Fault(t.w.clock, BlindSweep));
          OtherBegins(cfg, t, k, Swept, ledger, key);
        } else if !readable || !HasFreshResult(CurrentState(t.w.db, k), t.w.clock, cfg.jobs[k].interval) {
          OwnSweep(cfg, t, !readable, key);
        }
        SpacedSkip(cfg, t, k, key);
      }
    case StartTicker(k, jitter) =>
      if k in cfg.jobs && CadenceOf(t, k) == Swept && LaneOf(t.w, k).phase == Idle {
        SpacedTicker(cfg, t, k, t.w.clock + jitter + cfg.jobs[k].interval, key);
      }
    case Fire(k) =>
      var cadence := CadenceOf(t, k);
      if k in cfg.jobs && LaneOf(t.w, k).phase == Idle && cadence.Ticking? && t.w.clock >= cadence.next {
        var next := NextTick(cadence.next, cfg.jobs[k].interval, t.w.clock);
        if k == key {
          OwnTick(cfg, t, cadence.next, next, key);
        } else {
          OtherBegins(cfg, t, k, Ticking(next), LedgerOf(t, k).(due := cadence.next), key);
        }
      }
    case Go(k, action) =>
      if Allowed(cfg, k, action) { SpacedGo(cfg, t, k, action, key); }
    case Reboot => SpacedReboot(cfg, t, key);
    case Maintain(age) => SpacedPrune(cfg, t, age, key);
  }

  lemma {:induction false} TimedInvAlways(cfg: Config, clock: int, events: seq<TimedEvent>)
    requires Usable(cfg) && PositiveIntervals(cfg)
    ensures TimedInv(cfg, RunTimed(cfg, Begin(clock), events))
  {
    if events == [] {
      InvAlways(cfg, clock, []);
    } else {
      var t, event := RunTimed(cfg, Begin(clock), events[..|events| - 1]), events[|events| - 1];
      TimedInvAlways(cfg, clock, events[..|events| - 1]);
      TimedStepKeepsInv(cfg, t, event);
      forall key | Guarded(cfg, key) ensures SpacedKey(cfg, NextTimed(cfg, t, event), key) {
        assert LaneInv(cfg, t.w.clock, t.w.db, t.w.cut, key, LaneOf(t.w, key));
        SpacedStep(cfg, t, event, key);
      }
    }
  }

  /** Unless one of the three faults lies between them, two attempts of a guarded check are due
      at least its interval apart, and begin that far apart less what the first was late. */
  lemma AttemptsAreSpaced(cfg: Config, clock: int, events: seq<TimedEvent>, key: string, i: nat, j: nat)
    requires Usable(cfg) && PositiveIntervals(cfg) && Guarded(cfg, key)
    requires var a := LaneOf(RunTimed(cfg, Begin(clock), events).w, key).attempts;
             i < j < |a| && Real(a[i]) && Real(a[j])
    ensures var t := RunTimed(cfg, Begin(clock), events);
            var a, Ledger(_, dues, faults) := LaneOf(t.w, key).attempts, LedgerOf(t, key);
            |dues| == |a| && dues[i] <= a[i].begin && dues[j] <= a[j].begin
            && (FaultBetween(faults, a[i].begin, a[j].begin)
                || (dues[j] - dues[i] >= cfg.jobs[key].interval
                    && a[j].begin - a[i].begin >= cfg.jobs[key].interval - (a[i].begin - dues[i])))
  {
    TimedInvAlways(cfg, clock, events);
    var t := RunTimed(cfg, Begin(clock), events);
    assert SpacedKey(cfg, t, key);
  }

  // ------------------------------------------------------------------ headroom

  /** Whether loading accepts the ceiling for the two login intervals. */
  predicate CapAccepted(cap: int, moodle: int, courses: int)
    requires moodle > 0 && courses > 0
  {
    cap <= 0 || cap > Days(1) / Min(moodle, courses)
  }

  /** Runs a schedule of this interval makes in a day. */
  function PerDay(interval: int): int
    requires interval > 0
  {
    Days(1) / interval
  }

  /** How late a row may be for the schedule never to see one run too many in its window. */
  function LagBound(interval: int): int
    requires interval > 0
  {
    (PerDay(interval) + 1) * interval - Days(1)
  }

  /** Every row is written less than a lag after its run was due, lateness included. */
  predicate TimelyRows(a: seq<Attempt>, dues: seq<int>, lag: int)
    requires |dues| == |a|
  {
    forall i :: 0 <= i < |a| && a[i].fate.Recorded? ==> a[i].fate.at - dues[i] < lag
  }

  /** Nothing went wrong after an instant. */
  predicate QuietSince(faults: set<Fault>, since: int) { forall f :: f in faults ==> f.at <= since }

  lemma {:induction false} SpacedCount(
      a: seq<Attempt>, dues: seq<int>, interval: int, lag: int, since: int, t: int, faults: set<Fault>)
    requires interval > 0 && DueFirst(a, dues) && Spaced(a, dues, interval, faults)
    requires RestedAt(a, dues, interval, t, faults) && TimelyRows(a, dues, lag) && QuietSince(faults, since - lag)
    ensures RecordedSince(a, since) == 0 || RecordedSince(a, since) * interval < t - since + lag
  {
    if a != [] {
      var n := |a| - 1;
      var init, last := a[..n], a[n];
      if last.fate.Recorded? && last.fate.at >= since {
        assert Clean(faults, last.begin);
        SpacedCount(init, dues[..n], interval, lag, since, dues[n], faults);
        assert (RecordedSince(init, since) + 1) * interval == RecordedSince(init, since) * interval + interval;
      } else {
        SpacedCount(init, dues[..n], interval, lag, since, t, faults);
      }
    }
  }

  lemma MulOrder(a: int, b: int, w: int)
    requires w > 0
    ensures a < b <==> a * w < b * w
  {
    assert (b - a) * w == b * w - a * w;
    if a < b { MulPositive(b - a, w); } else if b < a { MulPositive(a - b, w); }
  }

  lemma DivideBounds(x: int, a: int)
    requires a > 0
    ensures (x / a) * a <= x < (x / a) * a + a
  {
    assert x == (x / a) * a + x % a;
  }

  lemma QuotientOrder(x: int, a: int, b: int, p: int, q: nat)
    requires 0 < a <= b && x < p * a + a && q * b <= x
    ensures q <= p
  {
    if q > 0 { MulOrder(b, a, q); }
    assert a * q == q * a && b * q == q * b && (p + 1) * a == p * a + a;
    MulOrder(q, p + 1, a);
  }

  lemma DivideMonotone(x: int, a: int, b: int)
    requires x >= 0 && 0 < a <= b
    ensures x / b <= x / a
  {
    DivideBounds(x, a);
    DivideBounds(x, b);
    QuotientOrder(x, a, b, x / a, x / b);
  }

  /** Where a successful count leads. */
  lemma CountLeads(cfg: Config, t: TimedWorld, key: string)
    requires Guarded(cfg, key) && LaneOf(t.w, key).phase.Counting?
    ensures var Counting(now, rec) := LaneOf(t.w, key).phase;
            LaneOf(NextTimed(cfg, t, Go(key, Count(true))).w, key).phase
            == AfterCount(cfg.guard, rec, now, CountSince(t.w.db.results, key, now - Days(1)))
  {
  }

  /** With an accepted ceiling, and rows written soon enough after their runs were due, the
      schedule alone never reaches it, late ticks included: not unless one of the three faults
      befell the window the count looks back on. */
  lemma ScheduleNeverReachesTheCeiling(
      cfg: Config, clock: int, events: seq<TimedEvent>, key: string, moodle: int, courses: int)
    requires Usable(cfg) && PositiveIntervals(cfg) && Guarded(cfg, key)
    requires moodle > 0 && courses > 0 && cfg.jobs[key].interval in {moodle, courses}
    requires CapAccepted(cfg.guard.maxAttempts, moodle, courses)
    requires var t := RunTimed(cfg, Begin(clock), events);
             var lane, lag, dues := LaneOf(t.w, key), LagBound(cfg.jobs[key].interval), LedgerOf(t, key).dues;
             lane.phase.Counting? && |dues| == |lane.attempts| && TimelyRows(lane.attempts, dues, lag)
             && QuietSince(FaultsOf(t, key), lane.phase.now - Days(1) - lag)
    ensures var t := RunTimed(cfg, Begin(clock), events);
            var t' := NextTimed(cfg, t, Go(key, Count(true)));
            cfg.guard.maxAttempts > 0 ==> LaneOf(t'.w, key).phase == Gating(LaneOf(t.w, key).phase.now)
  {
    hide RunTimed, NextTimed, Counted, Spaced, RestedAt, TimelyRows, QuietSince, CountSince, LedgerOf, DueFirst;
    var t := RunTimed(cfg, Begin(clock), events);
    var lane, interval := LaneOf(t.w, key), cfg.jobs[key].interval;
    CountingLane(cfg, clock, events, key);
    CountWithinSchedule(t.w, key, lane, interval, LedgerOf(t, key));
    DivideMonotone(Days(1), Min(moodle, courses), interval);
    CountLeads(cfg, t, key);
  }

  lemma CountingLane(cfg: Config, clock: int, events: seq<TimedEvent>, key: string)
    requires Usable(cfg) && PositiveIntervals(cfg) && Guarded(cfg, key)
    requires LaneOf(RunTimed(cfg, Begin(clock), events).w, key).phase.Counting?
    ensures var t := RunTimed(cfg, Begin(clock), events);
            var lane, Ledger(due, dues, faults) := LaneOf(t.w, key), LedgerOf(t, key);
            Counted(t.w.db.results, t.w.cut, key, lane.attempts)
            && DueFirst(lane.attempts, dues) && Spaced(lane.attempts, dues, cfg.jobs[key].interval, faults)
            && RestedAt(lane.attempts, dues, cfg.jobs[key].interval, due, faults) && due <= lane.phase.now
  {
    TimedInvAlways(cfg, clock, events);
    var t := RunTimed(cfg, Begin(clock), events);
    assert SpacedKey(cfg, t, key);
    assert LaneInv(cfg, t.w.clock, t.w.db, t.w.cut, key, LaneOf(t.w, key));
  }

  lemma CountWithinSchedule(w: World, key: string, lane: Lane, interval: int, ledger: Ledger)
    requires interval > 0 && lane.phase.Counting? && ledger.due <= lane.phase.now
    requires Counted(w.db.results, w.cut, key, lane.attempts)
    requires DueFirst(lane.attempts, ledger.dues) && TimelyRows(lane.attempts, ledger.dues, LagBound(interval))
    requires Spaced(lane.attempts, ledger.dues, interval, ledger.faults)
    requires RestedAt(lane.attempts, ledger.dues, interval, ledger.due, ledger.faults)
    requires QuietSince(ledger.faults, lane.phase.now - Days(1) - LagBound(interval))
    ensures CountSince(w.db.results, key, lane.phase.now - Days(1)) <= PerDay(interval)
  {
    var since := lane.phase.now - Days(1);
    var seen := Seen(w.cut, since);
    assert CountSince(w.db.results, key, since) == RecordedSince(lane.attempts, seen);
    RecordedMonotone(lane.attempts, since, seen);
    SpacedCount(lane.attempts, ledger.dues, interval, LagBound(interval), since, ledger.due, ledger.faults);
    MulOrder(RecordedSince(lane.attempts, since), PerDay(interval) + 1, interval);
  }
}
