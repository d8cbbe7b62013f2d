/** What every event of the guard keeps true of every guarded lane. */
module GuardInvariant {
  import opened States
  import opened Clock
  import opened Options
  import opened Store
  import opened BreakerLaw
  import opened Guard

  predicate InRun(p: Phase) { p.Probing? || p.Updating? || p.Saving? || p.Reporting? }

  function Last(a: seq<Attempt>): Attempt
    requires a != []
  {
    a[|a| - 1]
  }

  /** The answer a run is working off. */
  function AnswerOf(p: Phase): Option<Result> {
    match p
    case Updating(res) => Some(res)
    case Saving(res, _, _) => Some(res)
    case Reporting(res) => Some(res)
    case _ => None
  }

  predicate SoundAttempt(clock: int, a: Attempt) {
    && a.begin <= a.start <= clock
    && (a.fate.Recorded? ==> a.start <= a.fate.at <= clock)
    && (a.fate.Declined? ==> a.answer.Some? && a.answer.value.state == Unknown)
    && (a.outcome.Some? ==>
          Answered(a) && a.start <= a.outcome.value.at <= clock
          && a.outcome.value == OutcomeOf(a.start, a.outcome.value.at, a.answer.value))
  }

  /** The probe gave a conclusive answer. */
  predicate Answered(a: Attempt) { a.answer.Some? && a.answer.value.state in {Up, Down} }

  /** Only the last attempt can be in flight, exactly while its run is past the guard. */
  ghost predicate Shape(clock: int, lane: Lane) {
    var a := lane.attempts;
    && (forall i :: 0 <= i < |a| ==>
          SoundAttempt(clock, a[i]) && (a[i].fate == InFlight <==> i == |a| - 1 && InRun(lane.phase)))
    && (InRun(lane.phase) ==> a != [])
    && (AnswerOf(lane.phase).Some? ==> Last(a).answer == AnswerOf(lane.phase))
    && (lane.phase.Probing? || lane.phase.Updating? || lane.phase.Saving? ==> Last(a).outcome == None)
    && match lane.phase
       case Loading(now) => now <= clock
       case Counting(now, _) => now <= clock
       case Gating(now) => now <= clock
       case Cleared(now) => now <= clock
       case Refused(now, _, _) => now <= clock
       case Saving(res, _, at) => Last(a).start <= at <= clock && res.state in {Up, Down}
       case _ => true
  }

  /** The instant from which rows are really counted: the cut may have overtaken it. */
  function Seen(cut: Option<int>, since: int): int { if cut.Some? then Max(since, cut.value) else since }

  /** The raw table holds a row for every recorded attempt that is not older than the cut. */
  ghost predicate Counted(results: seq<Row>, cut: Option<int>, key: string, a: seq<Attempt>) {
    forall since :: CountSince(results, key, since) == RecordedSince(a, Seen(cut, since))
  }

  predicate PausedFor(c: Cause) { c == OpenBreaker || c == Ceiling }

  /** The stored record is the one the saved outcomes call for, and so is every copy of it a
      run holds. */
  ghost predicate Lawful(g: GuardConfig, rec: Breaker, lane: Lane) {
    var h := Saved(lane.attempts);
    && rec == RecordOf(g, h)
    && match lane.phase
       case Counting(_, copy) => copy == rec
       case Saving(res, copy, at) =>
         lane.attempts != [] && res.state in {Up, Down}
         && copy == RecordOf(g, h + [OutcomeOf(Last(lane.attempts).start, at, res)])
       case Refused(_, reason, cause) =>
         PausedFor(cause) ==> reason == if TrailingFails(h) > 0 then PausedAfterFailure else BreakerOpen
       case _ => true
  }

  /** A run that passed a check of the guard still satisfies it when its probe starts. */
  ghost predicate Permitted(g: GuardConfig, clock: int, lane: Lane) {
    match lane.phase
    case Counting(now, _) => Resumed(g, lane, now)
    case Gating(now) => Resumed(g, lane, now) && UnderCeiling(g, clock, lane)
    case Cleared(now) => Resumed(g, lane, now) && UnderCeiling(g, clock, lane)
    case _ => true
  }

  ghost predicate Resumed(g: GuardConfig, lane: Lane, now: int) {
    var until := ResumeAt(g, Saved(lane.attempts));
    until.Some? ==> until.value <= now
  }

  ghost predicate UnderCeiling(g: GuardConfig, clock: int, lane: Lane) {
    g.maxAttempts > 0 ==> RecordedSince(lane.attempts, clock - Days(1)) < g.maxAttempts
  }

  /** The sliding-window ceiling. */
  ghost predicate Bounded(g: GuardConfig, a: seq<Attempt>) {
    g.maxAttempts > 0 ==> forall from :: Started(a, from) <= g.maxAttempts + LostIn(a, from)
  }

  /** The attempt under way started neither inside a suspension nor before the last outcome. */
  ghost predicate PacedLast(g: GuardConfig, lane: Lane) {
    var h := Saved(lane.attempts);
    InRun(lane.phase) && lane.attempts != [] && Last(lane.attempts).outcome == None ==>
      Resumed(g, lane, Last(lane.attempts).start) && (h != [] ==> h[|h| - 1].at <= Last(lane.attempts).start)
  }

  /** Saved outcomes are paced, and so will be that of the attempt under way. */
  ghost predicate PacedLane(g: GuardConfig, clock: int, lane: Lane) {
    var h := Saved(lane.attempts);
    && Paced(g, h)
    && (h != [] ==> h[|h| - 1].at <= clock)
    && PacedLast(g, lane)
  }

  ghost predicate LaneInv(cfg: Config, clock: int, db: Tables, cut: Option<int>, key: string, lane: Lane) {
    && Shape(clock, lane)
    && Counted(db.results, cut, key, lane.attempts)
    && Lawful(cfg.guard, LoadBreaker(db, key), lane)
    && Permitted(cfg.guard, clock, lane)
    && Bounded(cfg.guard, lane.attempts)
    && PacedLane(cfg.guard, clock, lane)
  }

  predicate CutBehind(clock: int, cut: Option<int>) { cut.Some? ==> cut.value <= clock - Days(1) }

  /** What the theorems need of the settings: durations are positive and raw rows are kept
      for at least the 24 hours the ceiling looks back on. */
  predicate Usable(cfg: Config) { Loaded(cfg.guard) && cfg.rawDays >= 1 }

  predicate Guarded(cfg: Config, key: string) { key in cfg.jobs && cfg.jobs[key].guarded }

  ghost predicate Inv(cfg: Config, w: World) {
    && CutBehind(w.clock, w.cut)
    && forall key :: Guarded(cfg, key) ==> LaneInv(cfg, w.clock, w.db, w.cut, key, LaneOf(w, key))
  }

  // -------------------------------------------------------- lists of attempts

  lemma {:induction false} RecordedMonotone(a: seq<Attempt>, since: int, later: int)
    requires since <= later
    ensures RecordedSince(a, later) <= RecordedSince(a, since)
  {
    if a != [] { RecordedMonotone(a[..|a| - 1], since, later); }
  }

  /** Everything started in the last 24 hours has left a row in them or lost it. */
  lemma {:induction false} StartedLeavesRows(a: seq<Attempt>, from: int, since: int)
    requires since <= from
    requires forall i :: 0 <= i < |a| ==> a[i].fate != InFlight && (a[i].fate.Recorded? ==> a[i].start <= a[i].fate.at)
    ensures Started(a, from) <= RecordedSince(a, since) + LostIn(a, from)
  {
    if a != [] { StartedLeavesRows(a[..|a| - 1], from, since); }
  }

  lemma AppendUnfolds(a: seq<Attempt>, x: Attempt)
    ensures (a + [x])[..|a + [x]| - 1] == a && Last(a + [x]) == x
  {
  }

  /** A new attempt has no outcome yet. */
  lemma SavedLaunch(a: seq<Attempt>, x: Attempt)
    requires x.outcome == None
    ensures Saved(a + [x]) == Saved(a)
  {
    AppendUnfolds(a, x);
    assert Saved(a) + [] == Saved(a);
  }

  /** Noting an outcome appends it. */
  lemma SavedNote(a: seq<Attempt>, o: Outcome)
    requires a != [] && Last(a).outcome == None
    ensures Saved(Amend(a, Last(a).(outcome := Some(o)))) == Saved(a) + [o]
  {
    assert Saved(a[..|a| - 1]) + [] == Saved(a[..|a| - 1]);
  }

  /** The answer of an attempt and its fate are no part of its outcome. */
  lemma SavedAnswer(a: seq<Attempt>, answer: Option<Result>)
    requires a != []
    ensures Saved(Amend(a, Last(a).(answer := answer))) == Saved(a)
  {
  }

  lemma SavedFate(a: seq<Attempt>, fate: Fate)
    requires a != []
    ensures Saved(Amend(a, Last(a).(fate := fate))) == Saved(a)
  {
  }

  // ------------------------------------------------------------ a lane's own step

  lemma ShapeStep(cfg: Config, job: Job, key: string, clock: int, db: Tables, lane: Lane, action: Action)
    requires Shape(clock, lane) && job.guarded
    ensures Shape(clock, NextLane(cfg, job, key, clock, db, lane, action))
  {
  }

  lemma CountedAmend(a: seq<Attempt>, last: Attempt, since: int)
    requires a != []
    ensures RecordedSince(Amend(a, last), since)
            == RecordedSince(a[..|a| - 1], since) + if last.fate.Recorded? && last.fate.at >= since then 1 else 0
  {
  }

  /** The row of an attempt is the one the account expects. */
  lemma CountedReport(key: string, clock: int, db: Tables, cut: Option<int>, lane: Lane, ok: bool, since: int)
    requires CutBehind(clock, cut) && lane.phase.Reporting?
    requires lane.attempts != [] && Last(lane.attempts).fate == InFlight
    requires CountSince(db.results, key, since) == RecordedSince(lane.attempts, Seen(cut, since))
    ensures CountSince(NextTables(key, clock, db, lane.phase, Record(ok)).results, key, since)
            == RecordedSince(NextAttempts(clock, lane, Record(ok)), Seen(cut, since))
  {
    hide Refresh, Amend;
    var a, res := lane.attempts, lane.phase.res;
    CountAppend(db.results, Row(key, clock, res.state, res.reason), key, since);
    CountedAmend(a, Last(a).(fate := FateOf(res, ok, clock)), Seen(cut, since));
  }

  /** No other action adds to either count. */
  lemma CountedQuiet(key: string, clock: int, db: Tables, lane: Lane, action: Action, since: int, seen: int)
    requires !(action.Record? && lane.phase.Reporting?)
    ensures CountSince(NextTables(key, clock, db, lane.phase, action).results, key, since)
            == CountSince(db.results, key, since)
    ensures RecordedSince(NextAttempts(clock, lane, action), seen) == RecordedSince(lane.attempts, seen)
  {
    hide Refresh, OutcomeOf, Amend;
    var a := lane.attempts;
    match action
    case Launch =>
      if lane.phase.Cleared? { AppendUnfolds(a, Attempt(lane.phase.now, clock, InFlight, None, None)); }
    case Record(_) =>
      if lane.phase.Refused? { CountAppend(db.results, Row(key, clock, Unknown, lane.phase.reason), key, since); }
    case Save(_) =>
      if lane.phase.Saving? && a != [] {
        CountedAmend(a, Last(a).(outcome := Some(OutcomeOf(Last(a).start, lane.phase.at, lane.phase.res))), seen);
      }
    case _ =>
  }

  lemma CountedStep(key: string, clock: int, db: Tables, cut: Option<int>, lane: Lane, action: Action)
    requires Shape(clock, lane) && CutBehind(clock, cut) && Counted(db.results, cut, key, lane.attempts)
    ensures Counted(NextTables(key, clock, db, lane.phase, action).results, cut, key, NextAttempts(clock, lane, action))
  {
    hide CountSince, RecordedSince, NextTables, NextAttempts;
    forall since
      ensures CountSince(NextTables(key, clock, db, lane.phase, action).results, key, since)
              == RecordedSince(NextAttempts(clock, lane, action), Seen(cut, since))
    {
      if action.Record? && lane.phase.Reporting? {
        CountedReport(key, clock, db, cut, lane, action.ok, since);
      } else {
        CountedQuiet(key, clock, db, lane, action, since, Seen(cut, since));
      }
    }
  }

  /** Only a successful save changes the saved outcomes, and it appends one. */
  lemma SavedStep(clock: int, lane: Lane, action: Action)
    requires Shape(clock, lane)
    ensures Saved(NextAttempts(clock, lane, action)) ==
            if lane.phase.Saving? && action == Save(true)
            then Saved(lane.attempts) + [OutcomeOf(Last(lane.attempts).start, lane.phase.at, lane.phase.res)]
            else Saved(lane.attempts)
  {
    hide Saved, Amend, OutcomeOf, FateOf;
    match action
    case Launch =>
      if lane.phase.Cleared? { SavedLaunch(lane.attempts, Attempt(lane.phase.now, clock, InFlight, None, None)); }
    case Answer(res) =>
      if lane.phase.Probing? { SavedAnswer(lane.attempts, Some(res)); }
    case Save(ok) =>
      if lane.phase.Saving? {
        SavedNote(lane.attempts, OutcomeOf(Last(lane.attempts).start, lane.phase.at, lane.phase.res));
      }
    case Record(ok) =>
      if lane.phase.Reporting? { SavedFate(lane.attempts, FateOf(lane.phase.res, ok, clock)); }
    case _ =>
  }

  lemma LawfulReload(g: GuardConfig, clock: int, rec: Breaker, lane: Lane, res: Result)
    requires Loaded(g) && Shape(clock, lane) && lane.phase == Updating(res) && Lawful(g, rec, lane)
    ensures var next := AfterRun(rec, res, clock, g);
            Lawful(g, rec, Lane(if next.None? then Reporting(res) else Saving(res, next.value, clock), lane.attempts))
  {
    RecordFollowsHistory(g, Saved(lane.attempts), Last(lane.attempts).start, clock, res);
  }

  /** The actions that only read keep the lane's account and its record. */
  lemma LawfulRead(cfg: Config, job: Job, key: string, clock: int, db: Tables, lane: Lane, action: Action)
    requires !action.Reload? && !action.Save? && !action.Launch? && !action.Answer? && !action.Record?
    requires Shape(clock, lane) && Lawful(cfg.guard, LoadBreaker(db, key), lane)
    ensures Lawful(cfg.guard, LoadBreaker(db, key),
            Lane(NextPhase(cfg, job, key, clock, db, lane.phase, action), lane.attempts))
  {
  }

  lemma LawfulWrite(g: GuardConfig, key: string, clock: int, db: Tables, lane: Lane, action: Action, phase: Phase)
    requires (action.Save? && lane.phase.Saving?) || action.Launch? || action.Answer? || action.Record?
    requires phase.Reporting? || phase.Probing? || phase.Updating? || phase.Idle?
    requires Shape(clock, lane) && Lawful(g, LoadBreaker(db, key), lane)
    ensures Lawful(g, LoadBreaker(NextTables(key, clock, db, lane.phase, action), key),
                   Lane(phase, NextAttempts(clock, lane, action)))
  {
    SavedStep(clock, lane, action);
  }

  lemma LawfulReport(g: GuardConfig, rec: Breaker, lane: Lane, res: Result)
    requires lane.phase == Updating(res) && Lawful(g, rec, lane)
    ensures Lawful(g, rec, Lane(Reporting(res), lane.attempts))
  {
  }

  lemma LawfulStep(cfg: Config, job: Job, key: string, clock: int, db: Tables, lane: Lane, action: Action)
    requires Loaded(cfg.guard) && job.guarded
    requires Shape(clock, lane) && Lawful(cfg.guard, LoadBreaker(db, key), lane)
    ensures Lawful(cfg.guard, LoadBreaker(NextTables(key, clock, db, lane.phase, action), key),
                   NextLane(cfg, job, key, clock, db, lane, action))
  {
    hide Lawful, Shape, LoadBreaker, AfterRun, SaveBreaker, RecordResult, Amend, OutcomeOf, FateOf;
    var rec, phase := LoadBreaker(db, key), NextPhase(cfg, job, key, clock, db, lane.phase, action);
    match action
    case Reload(ok) =>
      if lane.phase.Updating? {
        LawfulReport(cfg.guard, rec, lane, lane.phase.res);
        if ok { LawfulReload(cfg.guard, clock, rec, lane, lane.phase.res); }
      }
    case Save(_) =>
      if lane.phase.Saving? { LawfulWrite(cfg.guard, key, clock, db, lane, action, phase); }
    case Launch =>
      if lane.phase.Cleared? { LawfulWrite(cfg.guard, key, clock, db, lane, action, phase); }
    case Answer(_) =>
      if lane.phase.Probing? { LawfulWrite(cfg.guard, key, clock, db, lane, action, phase); }
    case Record(_) =>
      if lane.phase.Refused? || lane.phase.Reporting? { LawfulWrite(cfg.guard, key, clock, db, lane, action, phase); }
    case _ => LawfulRead(cfg, job, key, clock, db, lane, action);
  }

  /** The breaker lets a run through only once the suspension is over. */
  lemma PermittedLoad(cfg: Config, job: Job, key: string, clock: int, db: Tables, lane: Lane, ok: bool)
    requires lane.phase.Loading? && Lawful(cfg.guard, LoadBreaker(db, key), lane)
    ensures Permitted(cfg.guard, clock, Lane(NextPhase(cfg, job, key, clock, db, lane.phase, Load(ok)), lane.attempts))
  {
  }

  /** The count lets a run through only while the last 24 hours hold fewer rows than the ceiling. */
  lemma PermittedCount(
      cfg: Config, job: Job, key: string, clock: int, db: Tables, cut: Option<int>, lane: Lane, ok: bool)
    requires lane.phase.Counting? && lane.phase.now <= clock && CutBehind(clock, cut)
    requires Counted(db.results, cut, key, lane.attempts) && Permitted(cfg.guard, clock, lane)
    ensures Permitted(cfg.guard, clock, Lane(NextPhase(cfg, job, key, clock, db, lane.phase, Count(ok)), lane.attempts))
  {
    hide Saved, CountSince, RecordedSince, ResumeAt;
    var since := lane.phase.now - Days(1);
    var seen := Seen(cut, since);
    assert CountSince(db.results, key, since) == RecordedSince(lane.attempts, seen);
    RecordedMonotone(lane.attempts, seen, clock - Days(1));
  }

  /** A run that passed the breaker and the count still satisfies both at its next action. */
  lemma PermittedStep(
      cfg: Config, job: Job, key: string, clock: int, db: Tables, cut: Option<int>, lane: Lane, action: Action)
    requires job.guarded && CutBehind(clock, cut)
    requires Shape(clock, lane) && Counted(db.results, cut, key, lane.attempts)
    requires Lawful(cfg.guard, LoadBreaker(db, key), lane) && Permitted(cfg.guard, clock, lane)
    ensures Permitted(cfg.guard, clock, NextLane(cfg, job, key, clock, db, lane, action))
  {
    hide Saved, Lawful, Counted, LoadBreaker, CountSince, RecordedSince, ResumeAt, AfterRun, Amend, OutcomeOf, FateOf;
    if action.Load? && lane.phase.Loading? {
      PermittedLoad(cfg, job, key, clock, db, lane, action.ok);
    } else if action.Count? && lane.phase.Counting? {
      PermittedCount(cfg, job, key, clock, db, cut, lane, action.ok);
    }
  }

  lemma BoundedStep(g: GuardConfig, clock: int, lane: Lane, action: Action)
    requires Shape(clock, lane) && Permitted(g, clock, lane) && Bounded(g, lane.attempts)
    ensures Bounded(g, NextAttempts(clock, lane, action))
  {
    var a, a' := lane.attempts, NextAttempts(clock, lane, action);
    if g.maxAttempts > 0 {
      forall from ensures Started(a', from) <= g.maxAttempts + LostIn(a', from) {
        assert Started(a, from) <= g.maxAttempts + LostIn(a, from);
        if action == Launch && lane.phase.Cleared? {
          AppendUnfolds(a, Attempt(lane.phase.now, clock, InFlight, None, None));
          if clock - Days(1) <= from { StartedLeavesRows(a, from, clock - Days(1)); }
        }
      }
    }
  }

  lemma PacedAppend(g: GuardConfig, h: seq<Outcome>, o: Outcome)
    requires Paced(g, h) && o.start <= o.at
    requires h != [] ==> h[|h| - 1].at <= o.start
    requires ResumeAt(g, h).Some? ==> ResumeAt(g, h).value <= o.start
    ensures Paced(g, h + [o])
  {
    var h' := h + [o];
    forall i | 0 <= i < |h'| ensures PacedAt(g, h', i) {
      if i < |h| {
        assert PacedAt(g, h, i);
        assert h'[..i] == h[..i];
      } else {
        assert h'[..i] == h;
      }
    }
  }

  lemma PacedSave(g: GuardConfig, clock: int, lane: Lane, res: Result, rec: Breaker, at: int)
    requires Shape(clock, lane) && PacedLane(g, clock, lane) && lane.phase == Saving(res, rec, at)
    ensures PacedLane(g, clock, Lane(Reporting(res), NextAttempts(clock, lane, Save(true))))
  {
    SavedStep(clock, lane, Save(true));
    PacedAppend(g, Saved(lane.attempts), OutcomeOf(Last(lane.attempts).start, at, res));
  }

  /** A run gets past the guard only by launching its probe. */
  lemma RunsBeginByLaunching(cfg: Config, job: Job, key: string, clock: int, db: Tables, phase: Phase, action: Action)
    requires InRun(NextPhase(cfg, job, key, clock, db, phase, action))
    ensures InRun(phase) || (action == Launch && phase.Cleared?)
  {
  }

  lemma PacedOtherwise(g: GuardConfig, clock: int, lane: Lane, action: Action, phase: Phase)
    requires Shape(clock, lane) && Permitted(g, clock, lane) && PacedLane(g, clock, lane)
    requires !(lane.phase.Saving? && action == Save(true))
    requires InRun(phase) ==> InRun(lane.phase) || (action == Launch && lane.phase.Cleared?)
    ensures PacedLane(g, clock, Lane(phase, NextAttempts(clock, lane, action)))
  {
    hide Saved, Paced, ResumeAt, OutcomeOf, FateOf;
    SavedStep(clock, lane, action);
    if action == Launch && lane.phase.Cleared? {
      AppendUnfolds(lane.attempts, Attempt(lane.phase.now, clock, InFlight, None, None));
    }
  }

  lemma PacedLaneStep(cfg: Config, job: Job, key: string, clock: int, db: Tables, lane: Lane, action: Action)
    requires Shape(clock, lane) && Permitted(cfg.guard, clock, lane) && PacedLane(cfg.guard, clock, lane)
    ensures PacedLane(cfg.guard, clock, NextLane(cfg, job, key, clock, db, lane, action))
  {
    if lane.phase.Saving? && action == Save(true) {
      PacedSave(cfg.guard, clock, lane, lane.phase.res, lane.phase.rec, lane.phase.at);
    } else {
      var phase := NextPhase(cfg, job, key, clock, db, lane.phase, action);
      if InRun(phase) { RunsBeginByLaunching(cfg, job, key, clock, db, lane.phase, action); }
      PacedOtherwise(cfg.guard, clock, lane, action, phase);
    }
  }

  lemma OwnStep(cfg: Config, key: string, clock: int, db: Tables, cut: Option<int>, lane: Lane, action: Action)
    requires Usable(cfg) && Guarded(cfg, key) && CutBehind(clock, cut)
    requires LaneInv(cfg, clock, db, cut, key, lane)
    ensures LaneInv(cfg, clock, NextTables(key, clock, db, lane.phase, action), cut, key,
                    NextLane(cfg, cfg.jobs[key], key, clock, db, lane, action))
  {
    var job := cfg.jobs[key];
    ShapeStep(cfg, job, key, clock, db, lane, action);
    CountedStep(key, clock, db, cut, lane, action);
    LawfulStep(cfg, job, key, clock, db, lane, action);
    PermittedStep(cfg, job, key, clock, db, cut, lane, action);
    BoundedStep(cfg.guard, clock, lane, action);
    PacedLaneStep(cfg, job, key, clock, db, lane, action);
  }

  // ------------------------------------------------------------- everyone else's

  /** What another lane writes is invisible to this one. */
  lemma OtherStep(cfg: Config, key: string, other: string, clock: int, db: Tables, cut: Option<int>, lane: Lane,
      phase: Phase, action: Action)
    requires key != other
    requires LaneInv(cfg, clock, db, cut, key, lane)
    ensures LaneInv(cfg, clock, NextTables(other, clock, db, phase, action), cut, key, lane)
  {
    var db' := NextTables(other, clock, db, phase, action);
    forall since ensures CountSince(db'.results, key, since) == CountSince(db.results, key, since) {
      match (action, phase)
      case (Record(ok), Refused(now, reason, cause)) =>
        CountAppend(db.results, Row(other, clock, Unknown, reason), key, since);
      case (Record(ok), Reporting(res)) =>
        CountAppend(db.results, Row(other, clock, res.state, res.reason), key, since);
      case _ =>
    }
  }

  lemma TickStep(cfg: Config, key: string, clock: int, dt: nat, db: Tables, cut: Option<int>, lane: Lane)
    requires LaneInv(cfg, clock, db, cut, key, lane)
    ensures LaneInv(cfg, clock + dt, db, cut, key, lane)
  {
    RecordedMonotone(lane.attempts, clock - Days(1), clock + dt - Days(1));
  }

  lemma PruneStep(cfg: Config, key: string, clock: int, db: Tables, cut: Option<int>, lane: Lane, rawDays: int,
      now: int)
    requires LaneInv(cfg, clock, db, cut, key, lane)
    ensures LaneInv(cfg, clock, PruneRaw(db, rawDays, now), Later(cut, now - Days(rawDays)), key, lane)
  {
    hide Shape, Counted, Lawful, Permitted, Bounded, PacedLane;
    CountedPrune(db, cut, key, lane.attempts, rawDays, now);
  }

  lemma CountedPrune(db: Tables, cut: Option<int>, key: string, a: seq<Attempt>, rawDays: int, now: int)
    requires Counted(db.results, cut, key, a)
    ensures Counted(PruneRaw(db, rawDays, now).results, Later(cut, now - Days(rawDays)), key, a)
  {
    var from := now - Days(rawDays);
    forall since { CountKept(db.results, key, since, from); }
  }

  lemma {:induction false} CrashedReads(lane: Lane)
    ensures var a, a' := lane.attempts, Crashed(lane).attempts;
            Saved(a') == Saved(a)
            && (forall since :: RecordedSince(a', since) == RecordedSince(a, since))
            && (forall from :: Started(a', from) == Started(a, from) && LostIn(a', from) >= LostIn(a, from))
  {
  }

  lemma CrashCounted(results: seq<Row>, cut: Option<int>, key: string, g: GuardConfig, lane: Lane)
    requires Counted(results, cut, key, lane.attempts) && Bounded(g, lane.attempts)
    ensures Counted(results, cut, key, Crashed(lane).attempts) && Bounded(g, Crashed(lane).attempts)
  {
    var a, a' := lane.attempts, Crashed(lane).attempts;
    CrashedReads(lane);
    if g.maxAttempts > 0 {
      forall from ensures Started(a', from) <= g.maxAttempts + LostIn(a', from) {
        assert Started(a, from) <= g.maxAttempts + LostIn(a, from);
      }
    }
  }

  lemma CrashRecord(g: GuardConfig, clock: int, rec: Breaker, lane: Lane)
    requires Lawful(g, rec, lane) && PacedLane(g, clock, lane)
    ensures Lawful(g, rec, Crashed(lane)) && PacedLane(g, clock, Crashed(lane))
  {
    CrashedReads(lane);
  }

  lemma CrashShape(g: GuardConfig, clock: int, lane: Lane)
    requires Shape(clock, lane)
    ensures Shape(clock, Crashed(lane)) && Permitted(g, clock, Crashed(lane))
  {
  }

  lemma CrashStep(cfg: Config, key: string, clock: int, db: Tables, cut: Option<int>, lane: Lane)
    requires LaneInv(cfg, clock, db, cut, key, lane)
    ensures LaneInv(cfg, clock, db, cut, key, Crashed(lane))
  {
    CrashCounted(db.results, cut, key, cfg.guard, lane);
    CrashRecord(cfg.guard, clock, LoadBreaker(db, key), lane);
    CrashShape(cfg.guard, clock, lane);
  }

  // ------------------------------------------------------------- over whole runs

  lemma FreshLane(cfg: Config, clock: int, key: string)
    ensures LaneInv(cfg, clock, EMPTY, None, key, Lane(Idle, []))
  {
  }

  /** Which parts of the machine an action touches, seen from one lane. */
  lemma ActParts(cfg: Config, w: World, k: string, action: Action, key: string)
    requires k in cfg.jobs
    ensures var w' := Next(cfg, w, Act(k, action));
            var lane := LaneOf(w, k);
            w'.clock == w.clock && w'.cut == w.cut && w'.db == NextTables(k, w.clock, w.db, lane.phase, action)
            && LaneOf(w', key) ==
               if k == key then NextLane(cfg, cfg.jobs[k], k, w.clock, w.db, lane, action) else LaneOf(w, key)
  {
  }

  lemma ActLane(cfg: Config, w: World, k: string, action: Action, key: string)
    requires Usable(cfg) && Guarded(cfg, key) && CutBehind(w.clock, w.cut)
    requires LaneInv(cfg, w.clock, w.db, w.cut, key, LaneOf(w, key))
    ensures var w' := Next(cfg, w, Act(k, action));
            LaneInv(cfg, w'.clock, w'.db, w'.cut, key, LaneOf(w', key))
  {
    if k in cfg.jobs {
      ActParts(cfg, w, k, action, key);
      if k == key {
        OwnStep(cfg, key, w.clock, w.db, w.cut, LaneOf(w, key), action);
      } else {
        OtherStep(cfg, key, k, w.clock, w.db, w.cut, LaneOf(w, key), LaneOf(w, k).phase, action);
      }
    }
  }

  lemma RestartLane(cfg: Config, w: World, key: string)
    requires LaneInv(cfg, w.clock, w.db, w.cut, key, LaneOf(w, key))
    ensures LaneInv(cfg, w.clock, w.db, w.cut, key, LaneOf(Next(cfg, w, Restart), key))
  {
    CrashStep(cfg, key, w.clock, w.db, w.cut, LaneOf(w, key));
  }

  /** What an event of the machine does to one guarded lane. */
  lemma LaneStep(cfg: Config, w: World, event: Event, key: string)
    requires Usable(cfg) && Guarded(cfg, key) && CutBehind(w.clock, w.cut)
    requires LaneInv(cfg, w.clock, w.db, w.cut, key, LaneOf(w, key))
    ensures var w' := Next(cfg, w, event);
            LaneInv(cfg, w'.clock, w'.db, w'.cut, key, LaneOf(w', key))
  {
    hide LaneInv, NextLane, NextTables, Crashed;
    match event
    case Tick(dt) => TickStep(cfg, key, w.clock, dt, w.db, w.cut, LaneOf(w, key));
    case Act(k, action) => ActLane(cfg, w, k, action, key);
    case Restart => RestartLane(cfg, w, key);
    case Prune(age) => PruneStep(cfg, key, w.clock, w.db, w.cut, LaneOf(w, key), cfg.rawDays, w.clock - age);
  }

  lemma InvStep(cfg: Config, w: World, event: Event)
    requires Usable(cfg) && Inv(cfg, w)
    ensures Inv(cfg, Next(cfg, w, event))
  {
    var w' := Next(cfg, w, event);
    forall key | Guarded(cfg, key) ensures LaneInv(cfg, w'.clock, w'.db, w'.cut, key, LaneOf(w', key)) {
      LaneStep(cfg, w, event, key);
    }
  }

  lemma {:induction false} InvAlways(cfg: Config, clock: int, events: seq<Event>)
    requires Usable(cfg)
    ensures Inv(cfg, Run(cfg, Init(clock), events))
  {
    if events == [] {
      forall key | Guarded(cfg, key) { FreshLane(cfg, clock, key); }
    } else {
      InvAlways(cfg, clock, events[..|events| - 1]);
      InvStep(cfg, Run(cfg, Init(clock), events[..|events| - 1]), events[|events| - 1]);
    }
  }
}
