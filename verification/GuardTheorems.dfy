/** What the guard promises over every run: the ceiling, the record, the pacing, the pause. */
module GuardTheorems {
  import opened States
  import opened Clock
  import opened Options
  import opened Store
  import opened BreakerLaw
  import opened Guard
  import opened GuardInvariant

  function AttemptsOf(cfg: Config, clock: int, events: seq<Event>, key: string): seq<Attempt> {
    LaneOf(Run(cfg, Init(clock), events), key).attempts
  }

  /** The attempts started in the 24 hours from an instant, by position, and those of them that
      lost their row. */
  predicate StartsIn(a: Attempt, from: int) {
    a.fate != Declined && from <= a.start <= from + 86_400_000_000_000
  }

  ghost function Starts(a: seq<Attempt>, from: int): set<int> { set i | 0 <= i < |a| && StartsIn(a[i], from) }

  ghost function LostStarts(a: seq<Attempt>, from: int): set<int> {
    set i | 0 <= i < |a| && StartsIn(a[i], from) && a[i].fate == Lost
  }

  lemma StartsTake(a: seq<Attempt>, from: int)
    requires a != []
    ensures var n := |a| - 1;
            |Starts(a, from)| == |Starts(a[..n], from)| + (if StartsIn(a[n], from) then 1 else 0)
            && |LostStarts(a, from)| ==
               |LostStarts(a[..n], from)| + if StartsIn(a[n], from) && a[n].fate == Lost then 1 else 0
  {
    hide StartsIn;
    var n := |a| - 1;
    assert Starts(a, from) == Starts(a[..n], from) + if StartsIn(a[n], from) then {n} else {};
    assert LostStarts(a, from) ==
           LostStarts(a[..n], from) + if StartsIn(a[n], from) && a[n].fate == Lost then {n} else {};
    assert n !in Starts(a[..n], from) && n !in LostStarts(a[..n], from);
  }

  lemma {:induction false} StartedCountsStarts(a: seq<Attempt>, from: int)
    ensures Started(a, from) == |Starts(a, from)| && LostIn(a, from) == |LostStarts(a, from)|
  {
    if a == [] {
      assert Starts(a, from) == {} && LostStarts(a, from) == {};
    } else {
      hide Starts, LostStarts;
      StartedCountsStarts(a[..|a| - 1], from);
      StartsTake(a, from);
    }
  }

  /** In every 24 hours a guarded check starts at most the ceiling, plus the attempts whose
      row was lost to a crash or a failed write. */
  lemma SlidingWindowCeiling(cfg: Config, clock: int, events: seq<Event>, key: string, from: int)
    requires Usable(cfg) && Guarded(cfg, key) && cfg.guard.maxAttempts > 0
    ensures var a := AttemptsOf(cfg, clock, events, key);
            Started(a, from) <= cfg.guard.maxAttempts + LostIn(a, from)
            && |Starts(a, from)| <= cfg.guard.maxAttempts + |LostStarts(a, from)|
  {
    hide Starts, LostStarts;
    StartedCountsStarts(AttemptsOf(cfg, clock, events, key), from);
    InvAlways(cfg, clock, events);
    var w := Run(cfg, Init(clock), events);
    assert LaneInv(cfg, w.clock, w.db, w.cut, key, LaneOf(w, key));
  }

  /** At every moment the stored record is the closed form of the outcomes saved so far:
      trailing failures, capped geometric backoff, last trip plus its backoff. */
  lemma StoredRecordIsTheHistory(cfg: Config, clock: int, events: seq<Event>, key: string)
    requires Usable(cfg) && Guarded(cfg, key)
    ensures var w := Run(cfg, Init(clock), events);
            LoadBreaker(w.db, key) == RecordOf(cfg.guard, Saved(LaneOf(w, key).attempts))
  {
    InvAlways(cfg, clock, events);
    var w := Run(cfg, Init(clock), events);
    assert LaneInv(cfg, w.clock, w.db, w.cut, key, LaneOf(w, key));
  }

  /** At every moment a check is suspended exactly when a failure saved since the last success
      suspended it, until the last such failure plus the configured pause. */
  lemma SuspensionsLastAsConfigured(cfg: Config, clock: int, events: seq<Event>, key: string)
    requires Usable(cfg) && Guarded(cfg, key)
    ensures var w := Run(cfg, Init(clock), events);
            var h, until := Saved(LaneOf(w, key).attempts), LoadBreaker(w.db, key).openUntil;
            (until.Some? <==> TripPositions(cfg.guard, h) != {})
            && (until.Some? ==>
                  exists i :: LastTrip(cfg.guard, h, i)
                    && until == Some(h[i].at + Pause(cfg.guard, |TripPositions(cfg.guard, h)|)))
  {
    hide Run, LastTrip, TripPositions, Pause, ResumeAt, Saved;
    StoredRecordIsTheHistory(cfg, clock, events, key);
    ResumeIsLastTripPlusPause(cfg.guard, Saved(LaneOf(Run(cfg, Init(clock), events), key).attempts));
  }

  /** Consecutive failures that reached the record, whatever their reasons, whatever stands
      between them and across restarts, are spread over at least the configured pauses they
      earned beyond the threshold. */
  lemma FailureStreaksArePaced(cfg: Config, clock: int, events: seq<Event>, key: string, from: nat, n: nat)
    requires Usable(cfg) && Guarded(cfg, key) && n >= Threshold(cfg.guard)
    requires var h := Saved(AttemptsOf(cfg, clock, events, key));
             from + n <= |h| && forall j :: from <= j < from + n ==> h[j].failed
    ensures var h := Saved(AttemptsOf(cfg, clock, events, key));
            h[from + n - 1].start - h[from].start >= PauseSum(cfg.guard, n - Threshold(cfg.guard))
  {
    var w := Run(cfg, Init(clock), events);
    assert Paced(cfg.guard, Saved(LaneOf(w, key).attempts)) by {
      InvAlways(cfg, clock, events);
      assert LaneInv(cfg, w.clock, w.db, w.cut, key, LaneOf(w, key));
    }
    StreakSpan(cfg.guard, Saved(LaneOf(w, key).attempts), from, n);
  }

  // ------------------------------------------------------------- what a pause shows

  /** The last attempt with a conclusive answer. */
  function LastAnswered(a: seq<Attempt>): (last: Option<Attempt>)
    ensures last.Some? ==> Answered(last.value)
  {
    if a == [] then None
    else if Answered(a[|a| - 1]) then Some(a[|a| - 1])
    else LastAnswered(a[..|a| - 1])
  }

  predicate LastAnswerFailed(a: seq<Attempt>) {
    LastAnswered(a).Some? && LastAnswered(a).value.answer.value.state == Down
  }

  /** The update with the last conclusive answer reached the record. */
  predicate LastAnswerSaved(a: seq<Attempt>) {
    LastAnswered(a).Some? ==> LastAnswered(a).value.outcome.Some?
  }

  /** The last outcome the record knows of is a failure. */
  predicate LastSavedFailed(a: seq<Attempt>) {
    Saved(a) != [] && Saved(a)[|Saved(a)| - 1].failed
  }

  lemma {:induction false} SavedAnswersAgree(clock: int, a: seq<Attempt>)
    requires forall i :: 0 <= i < |a| ==> SoundAttempt(clock, a[i])
    requires LastAnswerSaved(a)
    ensures LastAnswerFailed(a) <==> LastSavedFailed(a)
  {
    if a != [] {
      var init, last := a[..|a| - 1], a[|a| - 1];
      assert SoundAttempt(clock, last);
      if !Answered(last) {
        SavedAnswersAgree(clock, init);
        assert Saved(init) + [] == Saved(init);
      }
    }
  }

  /** A row keeps its service off `up` when the last conclusive answer was a failure, and
      otherwise leaves it as if the check were absent, unless everything else is retired. */
  predicate TellsTheTruth(a: seq<Attempt>, shown: State, before: seq<State>, after: seq<State>) {
    var row := Derive(before + [shown] + after);
    if LastAnswerFailed(a) then row in {Down, Degraded}
    else row == Derive(before + after) <==> Derive(before + after) != Retired
  }

  /** What the row of a run refused by an open breaker or the ceiling shows is the record. */
  lemma PauseShowsTheRecord(cfg: Config, w: World, key: string)
    requires Guarded(cfg, key) && LaneInv(cfg, w.clock, w.db, w.cut, key, LaneOf(w, key))
    requires LaneOf(w, key).phase.Refused? && PausedFor(LaneOf(w, key).phase.cause)
    ensures Shown(Next(cfg, w, Act(key, Record(true))).db, key) ==
            if LastSavedFailed(LaneOf(w, key).attempts) then Down else Unknown
  {
    hide Shape, Counted, Permitted, Bounded, PacedLane;
    ActParts(cfg, w, key, Record(true), key);
  }

  lemma TruthOfAState(a: seq<Attempt>, shown: State)
    requires shown in {Down, Unknown}
    ensures (forall before, after :: TellsTheTruth(a, shown, before, after)) <==>
            (LastAnswerFailed(a) <==> shown == Down)
  {
    forall before, after
      ensures (LastAnswerFailed(a) <==> shown == Down) ==> TellsTheTruth(a, shown, before, after)
    {
      DownPartIsNeverUp(before, after);
      UnknownPartIsTransparent(before, after);
    }
    assert [Up] + [shown] + [] == [Up, shown] && [Up] + [] == [Up];
    DeriveMeaning([Up, shown]);
    DeriveMeaning([Up]);
    assert TellsTheTruth(a, shown, [Up], []) ==> (LastAnswerFailed(a) <==> shown == Down);
  }

  /** A pause neither hides nor invents an outage, whatever else its service holds, exactly
      when the update with the last conclusive answer reached the record, or the record says
      the same without it. */
  lemma PauseNeitherHidesNorInvents(cfg: Config, clock: int, events: seq<Event>, key: string)
    requires Usable(cfg) && Guarded(cfg, key)
    requires var phase := LaneOf(Run(cfg, Init(clock), events), key).phase;
             phase.Refused? && PausedFor(phase.cause)
    ensures var w := Run(cfg, Init(clock), events);
            var a, shown := LaneOf(w, key).attempts, Shown(Next(cfg, w, Act(key, Record(true))).db, key);
            (forall before, after :: TellsTheTruth(a, shown, before, after))
            <==> LastAnswerSaved(a) || (LastAnswerFailed(a) <==> LastSavedFailed(a))
  {
    hide Run, Next, Saved, Shown, LastAnswered, TellsTheTruth, LastSavedFailed, LastAnswerFailed, LastAnswerSaved;
    InvAlways(cfg, clock, events);
    var w := Run(cfg, Init(clock), events);
    assert LaneInv(cfg, w.clock, w.db, w.cut, key, LaneOf(w, key));
    PauseShowsTheRecord(cfg, w, key);
    TruthOfAState(LaneOf(w, key).attempts, Shown(Next(cfg, w, Act(key, Record(true))).db, key));
    if LastAnswerSaved(LaneOf(w, key).attempts) { SavedAnswersAgree(w.clock, LaneOf(w, key).attempts); }
  }
}
