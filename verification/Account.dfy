/** What the account sees: credential submissions of all guarded checks together. */
module Account {
  import opened States
  import opened Clock
  import opened Options
  import opened Store
  import opened Guard
  import opened GuardInvariant
  import opened GuardTheorems
  import L = Login

  /** The login walk an attempt of a check performed. */
  datatype LoginRun = Moodle(cfg: L.Config, server: L.Server) | Courses(cfg: L.Config, server: L.Server)

  function WalkOf(run: LoginRun): L.Walk {
    match run
    case Moodle(cfg, server) => L.MoodleLogin(cfg, server)
    case Courses(cfg, server) => L.CourseLogin(cfg, server)
  }

  lemma WalkSubmitsAtMostOnce(run: LoginRun)
    ensures L.Submissions(WalkOf(run).sent) <= 1
    ensures WalkOf(run).result.state == Unknown ==> WalkOf(run).sent == []
  {
    match run
    case Moodle(cfg, server) => L.MoodleSubmitsAtMostOnce(cfg, server);
    case Courses(cfg, server) => L.CourseSubmitsAtMostOnce(cfg, server);
  }

  /** The runs behind a list of attempts: one walk each, whose result is what the attempt
      answered, if it lived to answer. */
  predicate Behind(a: seq<Attempt>, runs: seq<LoginRun>) {
    |runs| == |a|
    && forall i :: 0 <= i < |a| && a[i].answer.Some? ==> WalkOf(runs[i]).result == a[i].answer.value
  }

  /** Credential submissions made by the attempts started in the 24 hours from an instant. */
  function SubmissionsIn(a: seq<Attempt>, runs: seq<LoginRun>, from: int): nat
    requires |runs| == |a|
  {
    if a == [] then 0
    else
      var n := |a| - 1;
      SubmissionsIn(a[..n], runs[..n], from) + if InWindow(a[n], from) then L.Submissions(WalkOf(runs[n]).sent) else 0
  }

  lemma {:induction false} SubmissionsAtMostStarted(clock: int, a: seq<Attempt>, runs: seq<LoginRun>, from: int)
    requires Behind(a, runs) && forall i :: 0 <= i < |a| ==> SoundAttempt(clock, a[i])
    ensures SubmissionsIn(a, runs, from) <= Started(a, from)
  {
    if a != [] {
      var n := |a| - 1;
      SubmissionsAtMostStarted(clock, a[..n], runs[..n], from);
      assert SoundAttempt(clock, a[n]);
      WalkSubmitsAtMostOnce(runs[n]);
      assert L.Submissions([]) == 0;
    }
  }

  /** In every 24 hours one check submits credentials at most as often as the ceiling allows,
      plus once for every attempt whose row was lost. */
  lemma CheckSubmissionsAreBounded(cfg: Config, clock: int, events: seq<Event>, key: string, runs: seq<LoginRun>,
      from: int)
    requires Usable(cfg) && Guarded(cfg, key) && cfg.guard.maxAttempts > 0
    requires Behind(AttemptsOf(cfg, clock, events, key), runs)
    ensures var a := AttemptsOf(cfg, clock, events, key);
            SubmissionsIn(a, runs, from) <= cfg.guard.maxAttempts + LostIn(a, from)
  {
    SlidingWindowCeiling(cfg, clock, events, key, from);
    var w := Run(cfg, Init(clock), events);
    assert Shape(w.clock, LaneOf(w, key)) by {
      InvAlways(cfg, clock, events);
      assert LaneInv(cfg, w.clock, w.db, w.cut, key, LaneOf(w, key));
    }
    SubmissionsAtMostStarted(w.clock, LaneOf(w, key).attempts, runs, from);
  }

  // ------------------------------------------------------------ over all checks

  function TotalSubmissions(cfg: Config, clock: int, events: seq<Event>, keys: seq<string>,
      runs: string -> seq<LoginRun>, from: int): nat
    requires forall k :: k in keys ==> |runs(k)| == |AttemptsOf(cfg, clock, events, k)|
  {
    if keys == [] then 0
    else
      var k := keys[|keys| - 1];
      TotalSubmissions(cfg, clock, events, keys[..|keys| - 1], runs, from)
        + SubmissionsIn(AttemptsOf(cfg, clock, events, k), runs(k), from)
  }

  function TotalLost(cfg: Config, clock: int, events: seq<Event>, keys: seq<string>, from: int): nat {
    if keys == [] then 0
    else
      TotalLost(cfg, clock, events, keys[..|keys| - 1], from)
        + LostIn(AttemptsOf(cfg, clock, events, keys[|keys| - 1]), from)
  }

  /** The account as a whole: the ceiling times the number of guarded checks, plus the lost
      rows of each. */
  lemma {:induction false} AccountSubmissionsAreBounded(
      cfg: Config, clock: int, events: seq<Event>, keys: seq<string>, runs: string -> seq<LoginRun>, from: int)
    requires Usable(cfg) && cfg.guard.maxAttempts > 0
    requires forall k :: k in keys ==> |runs(k)| == |AttemptsOf(cfg, clock, events, k)|
    requires forall k :: k in keys ==> Guarded(cfg, k) && Behind(AttemptsOf(cfg, clock, events, k), runs(k))
    ensures TotalSubmissions(cfg, clock, events, keys, runs, from)
            <= |keys| * cfg.guard.maxAttempts + TotalLost(cfg, clock, events, keys, from)
  {
    hide AttemptsOf, SubmissionsIn, LostIn, Behind, Guarded;
    if keys != [] {
      var init, k := keys[..|keys| - 1], keys[|keys| - 1];
      AccountSubmissionsAreBounded(cfg, clock, events, init, runs, from);
      CheckSubmissionsAreBounded(cfg, clock, events, k, runs(k), from);
      assert |keys| * cfg.guard.maxAttempts == |init| * cfg.guard.maxAttempts + cfg.guard.maxAttempts;
    }
  }
}
