/** From checks to the page: service rows, strips, uptime, overall state. */
module View {
  import opened States
  import opened Clock
  import opened Options
  import opened Arith
  import opened Store
  import opened Repo

  /** One bar of a strip. */
  datatype Bar = Bar(index: int, state: State, counts: Counts)

  datatype ServiceRow = ServiceRow(
    state: State, days: seq<Bar>, dayUptime: Option<real>, hours: seq<Bar>, hourUptime: Option<real>
  )

  /** Uptime over counts, exact; nothing when no sample is conclusive. */
  function Uptime(c: Counts): Option<real> {
    if c.Conclusive() > 0 then Some(100.0 * c.up as real / c.Conclusive() as real) else None
  }

  /** What an uptime shown for some counts must be: there exactly when a sample is conclusive,
      and then, in percent, the share of `up` among the conclusive ones. */
  predicate ShowsShare(uptime: Option<real>, c: Counts) {
    var conclusive := c.up + c.degraded + c.down;
    (uptime.Some? <==> conclusive > 0)
    && (uptime.Some? ==> uptime.value * conclusive as real == 100.0 * c.up as real)
  }

  lemma UptimeIsTheShare(uptime: Option<real>, c: Counts)
    ensures ShowsShare(uptime, c) <==> uptime == Uptime(c)
  {
    if c.Conclusive() > 0 {
      var n := c.Conclusive() as real;
      var v := 100.0 * c.up as real / n;
      assert v * n == 100.0 * c.up as real;
      if uptime.Some? { MulSign(uptime.value - v, n); MulSign(v - uptime.value, n); }
    }
  }

  /** What an uptime shown for some samples tells about them. */
  ghost predicate IsUptimeOf(uptime: Option<real>, samples: seq<State>) {
    var m := multiset(samples);
    && (uptime.Some? <==> exists s :: s in samples && s in {Up, Degraded, Down})
    && (uptime.Some? ==>
          && uptime.value * (m[Up] + m[Degraded] + m[Down]) as real == 100.0 * m[Up] as real
          && 0.0 <= uptime.value <= 100.0
          && (uptime.value == 100.0 <==> Degraded !in samples && Down !in samples)
          && (uptime.value == 0.0 <==> Up !in samples))
  }

  lemma ShareOfSamples(uptime: Option<real>, samples: seq<State>)
    requires ShowsShare(uptime, Tally(samples))
    ensures IsUptimeOf(uptime, samples)
  {
    var m := multiset(samples);
    TallyTimes(samples);
    hide Tally;
    TallyMembers(samples);
    SomeConclusive(samples);
    if uptime.Some? { Percentage(uptime.value, m[Up], m[Degraded] + m[Down]); }
  }

  lemma TallyTimes(samples: seq<State>)
    ensures var c, m := Tally(samples), multiset(samples);
            c.up == m[Up] && c.degraded == m[Degraded] && c.down == m[Down]
  {
  }

  lemma SomeConclusive(samples: seq<State>)
    ensures (exists s :: s in samples && s in {Up, Degraded, Down}) <==>
            Up in samples || Degraded in samples || Down in samples
  {
  }

  lemma Percentage(p: real, up: nat, rest: nat)
    requires up + rest > 0 && p * (up + rest) as real == 100.0 * up as real
    ensures 0.0 <= p <= 100.0 && (p == 100.0 <==> rest == 0) && (p == 0.0 <==> up == 0)
  {
    var n := (up + rest) as real;
    MulSign(p, n);
    MulSign(100.0 - p, n);
    assert (100.0 - p) * n == 100.0 * rest as real;
  }

  function CheckStates(db: Tables, checks: seq<string>): (states: seq<State>)
    ensures |states| == |checks|
  {
    if checks == [] then []
    else CheckStates(db, checks[..|checks| - 1]) + [Shown(db, checks[|checks| - 1])]
  }

  function PageStates(db: Tables, services: seq<seq<string>>): (rows: seq<seq<State>>)
    ensures |rows| == |services|
  {
    if services == [] then []
    else PageStates(db, services[..|services| - 1]) + [CheckStates(db, services[|services| - 1])]
  }

  // -------------------------------------------------------------------- strips

  predicate HasCell(history: map<string, seq<Cell>>, key: string, i: nat) {
    key in history && i < |history[key]|
  }

  /** The states a bar is derived from. */
  function BarStates(checks: seq<string>, history: map<string, seq<Cell>>, i: nat): seq<State> {
    if checks == [] then []
    else
      var key := checks[|checks| - 1];
      BarStates(checks[..|checks| - 1], history, i) + if HasCell(history, key, i) then [history[key][i].state] else []
  }

  function BarCounts(checks: seq<string>, history: map<string, seq<Cell>>, i: nat): Counts {
    if checks == [] then NO_COUNTS
    else
      var key := checks[|checks| - 1];
      BarCounts(checks[..|checks| - 1], history, i)
        .Plus(if HasCell(history, key, i) then history[key][i].counts else NO_COUNTS)
  }

  function BarOf(checks: seq<string>, history: map<string, seq<Cell>>, first: int, i: nat): Bar {
    Bar(first + i, Derive(BarStates(checks, history, i)), BarCounts(checks, history, i))
  }

  function Total(bars: seq<Bar>): Counts {
    if bars == [] then NO_COUNTS else Total(bars[..|bars| - 1]).Plus(bars[|bars| - 1].counts)
  }

  predicate IsStrip(checks: seq<string>, history: map<string, seq<Cell>>, first: int, length: nat, bars: seq<Bar>) {
    |bars| == length && forall i :: 0 <= i < length ==> bars[i] == BarOf(checks, history, first, i)
  }

  /** One bar from the checks' cells. */
  method BuildBar(checks: seq<string>, history: map<string, seq<Cell>>, first: int, i: nat) returns (bar: Bar)
    ensures bar == BarOf(checks, history, first, i)
  {
    var states, counts := [], NO_COUNTS;
    for c := 0 to |checks|
      invariant states == BarStates(checks[..c], history, i)
      invariant counts == BarCounts(checks[..c], history, i)
    {
      assert checks[..c + 1][..c] == checks[..c];
      var key := checks[c];
      if key in history && i < |history[key]| {
        var cell := history[key][i];
        states := states + [cell.state];
        counts := counts.Plus(cell.counts);
      }
    }
    assert checks[..|checks|] == checks;
    var state := DeriveServiceState(states);
    bar := Bar(first + i, state, counts);
  }

  /** Collapses a service's series into one bar per index and totals the window. */
  method BuildStrip(checks: seq<string>, history: map<string, seq<Cell>>, first: int, length: nat)
    returns (bars: seq<Bar>, window: Option<real>)
    ensures IsStrip(checks, history, first, length, bars)
    ensures ShowsShare(window, Total(bars))
  {
    bars := [];
    var total := NO_COUNTS;
    for i := 0 to length
      invariant total == Total(bars) && IsStrip(checks, history, first, i, bars)
    {
      var bar := BuildBar(checks, history, first, i);
      assert (bars + [bar])[..|bars|] == bars;
      bars := bars + [bar];
      total := total.Plus(bar.counts);
    }
    UptimeIsTheShare(Uptime(total), total);
    window := Uptime(total);
  }

  // ---------------------------------------------------------------------- page

  ghost predicate IsServiceRow(db: Tables, checks: seq<string>, daily: map<string, seq<Cell>>, hourly: map<string,
      seq<Cell>>,
                               firstDay: int, days: nat, firstHour: int, hours: nat, row: ServiceRow) {
    && row.state == Derive(CheckStates(db, checks))
    && IsStrip(checks, daily, firstDay, days, row.days) && ShowsShare(row.dayUptime, Total(row.days))
    && IsStrip(checks, hourly, firstHour, hours, row.hours) && ShowsShare(row.hourUptime, Total(row.hours))
  }

  method BuildService(repo: Repository, checks: seq<string>, daily: map<string, seq<Cell>>, hourly: map<string,
      seq<Cell>>,
                      firstDay: int, days: nat, firstHour: int, hours: nat) returns (row: ServiceRow)
    ensures IsServiceRow(repo.tables, checks, daily, hourly, firstDay, days, firstHour, hours, row)
  {
    var checkStates := [];
    for c := 0 to |checks|
      invariant checkStates == CheckStates(repo.tables, checks[..c])
    {
      assert checks[..c + 1][..c] == checks[..c];
      var shown := Unknown;
      if checks[c] in repo.tables.current {
        var current := repo.tables.current[checks[c]];
        shown := RollupState(current.state, current.reason);
      }
      checkStates := checkStates + [shown];
    }
    assert checks[..|checks|] == checks;
    var state := DeriveServiceState(checkStates);
    var dayBars, dayUptime := BuildStrip(checks, daily, firstDay, days);
    var hourBars, hourUptime := BuildStrip(checks, hourly, firstHour, hours);
    row := ServiceRow(state, dayBars, dayUptime, hourBars, hourUptime);
  }

  ghost predicate ArePageRows(db: Tables, services: seq<seq<string>>, daily: map<string, seq<Cell>>,
      hourly: map<string, seq<Cell>>,
                              firstDay: int, days: nat, firstHour: int, hours: nat, rows: seq<ServiceRow>) {
    |rows| == |services|
    && forall s :: 0 <= s < |rows| ==>
         IsServiceRow(db, services[s], daily, hourly, firstDay, days, firstHour, hours, rows[s])
  }

  /** The rows of the page, and the overall state taken from their states. */
  method BuildRows(repo: Repository, services: seq<seq<string>>, daily: map<string, seq<Cell>>, hourly: map<string,
      seq<Cell>>,
                   firstDay: int, days: nat, firstHour: int, hours: nat) returns (rows: seq<ServiceRow>, overall: State)
    ensures ArePageRows(repo.tables, services, daily, hourly, firstDay, days, firstHour, hours, rows)
    ensures overall == Derive(DeriveEach(PageStates(repo.tables, services)))
  {
    rows := [];
    var serviceStates := [];
    for s := 0 to |services|
      invariant serviceStates == DeriveEach(PageStates(repo.tables, services[..s]))
      invariant ArePageRows(repo.tables, services[..s], daily, hourly, firstDay, days, firstHour, hours, rows)
    {
      var row := BuildService(repo, services[s], daily, hourly, firstDay, days, firstHour, hours);
      PageStatesAppend(repo.tables, services, s);
      PageRowsAppend(repo.tables, services, s, daily, hourly, firstDay, days, firstHour, hours, rows, row);
      rows := rows + [row];
      serviceStates := serviceStates + [row.state];
    }
    assert services[..|services|] == services;
    overall := DeriveServiceState(serviceStates);
  }

  lemma PageRowsAppend(db: Tables, services: seq<seq<string>>, s: nat, daily: map<string, seq<Cell>>,
      hourly: map<string, seq<Cell>>,
                       firstDay: int, days: nat, firstHour: int, hours: nat, rows: seq<ServiceRow>, row: ServiceRow)
    requires s < |services| && ArePageRows(db, services[..s], daily, hourly, firstDay, days, firstHour, hours, rows)
    requires IsServiceRow(db, services[s], daily, hourly, firstDay, days, firstHour, hours, row)
    ensures ArePageRows(db, services[..s + 1], daily, hourly, firstDay, days, firstHour, hours, rows + [row])
  {
    forall j | 0 <= j < s + 1
      ensures IsServiceRow(db, services[..s + 1][j], daily, hourly, firstDay, days, firstHour, hours, (rows + [row])[j])
    {
      if j < s { assert services[..s + 1][j] == services[..s][j]; }
    }
  }

  lemma PageStatesAppend(db: Tables, services: seq<seq<string>>, s: nat)
    requires s < |services|
    ensures DeriveEach(PageStates(db, services[..s + 1])) ==
            DeriveEach(PageStates(db, services[..s])) + [Derive(CheckStates(db, services[s]))]
  {
    assert services[..s + 1][..s] == services[..s];
    var rows, last := PageStates(db, services[..s]), CheckStates(db, services[s]);
    assert PageStates(db, services[..s + 1]) == rows + [last];
    assert (rows + [last])[..|rows|] == rows;
  }

  /** The page: strips aligned with the store's series, one row per service, and the overall
      state. The two series are returned along with what is made of them. */
  method Build(repo: Repository, services: seq<seq<string>>, now: int, days: nat, hours: nat)
    returns (rows: seq<ServiceRow>, overall: State, daily: map<string, seq<Cell>>, hourly: map<string, seq<Cell>>)
    requires hours >= 1
    ensures IsPage(repo.tables, services, now, repo.offset, days, hours, daily, hourly, rows)
    ensures overall == Derive(DeriveEach(PageStates(repo.tables, services)))
  {
    daily := repo.DailyHistory(days, now);
    hourly := repo.HourlyHistory(hours, now);
    rows, overall := BuildRows(repo, services, daily, hourly, LocalDay(now, repo.offset) - days + 1, days,
                               LocalHour(now, repo.offset) - hours + 1, hours);
  }

  /** What building a page promises. */
  ghost predicate IsPage(
      db: Tables, services: seq<seq<string>>, now: int, offset: int, days: nat, hours: nat,
      daily: map<string, seq<Cell>>, hourly: map<string, seq<Cell>>, rows: seq<ServiceRow>) {
    && IsDailyAnswer(db, daily, LocalDay(now, offset) - days + 1, days)
    && IsHourlyAnswer(db, hourly, LocalHour(now, offset), hours, offset)
    && ArePageRows(db, services, daily, hourly, LocalDay(now, offset) - days + 1, days,
                   LocalHour(now, offset) - hours + 1, hours, rows)
  }

  /** On a built page the i-th bar of every service's day strip and the i-th cell of every
      check's daily series stand for the same day, the last for today; likewise for hours. */
  lemma StripsAlign(
      db: Tables, services: seq<seq<string>>, now: int, offset: int, days: nat, hours: nat,
      daily: map<string, seq<Cell>>, hourly: map<string, seq<Cell>>, rows: seq<ServiceRow>, s: nat, key: string, i: nat)
    requires IsPage(db, services, now, offset, days, hours, daily, hourly, rows) && s < |services|
    ensures |rows[s].days| == days && |rows[s].hours| == hours
    ensures i < days ==>
              rows[s].days[i].index == LocalDay(now, offset) - (days - 1 - i)
              && (key in daily ==> |daily[key]| == days && daily[key][i].index == rows[s].days[i].index)
    ensures i < hours ==>
              rows[s].hours[i].index == LocalHour(now, offset) - (hours - 1 - i)
              && (key in hourly ==> |hourly[key]| == hours && hourly[key][i].index == rows[s].hours[i].index)
  {
    hide BarStates, BarCounts, Derive, LiveSamples, Tally, DayState, CheckStates, Total, ShowsShare;
    assert IsServiceRow(db, services[s], daily, hourly, LocalDay(now, offset) - days + 1, days,
                        LocalHour(now, offset) - hours + 1, hours, rows[s]);
  }

  lemma {:induction false} PageStatesEmpty(db: Tables, services: seq<seq<string>>)
    ensures [] in PageStates(db, services) <==> [] in services
  {
    if services != [] {
      var init, last := services[..|services| - 1], services[|services| - 1];
      PageStatesEmpty(db, init);
      assert services == init + [last];
      assert |CheckStates(db, last)| == |last|;
    }
  }

  /** On a page whose services all have checks, the overall state is the one derived from all
      checks at once. */
  lemma OverallIsFlat(db: Tables, services: seq<seq<string>>)
    requires [] !in services
    ensures Derive(DeriveEach(PageStates(db, services))) == Derive(Flatten(PageStates(db, services)))
  {
    PageStatesEmpty(db, services);
    TwoLevelAggregationIsFlat(PageStates(db, services));
  }

  // ------------------------------------------------------------ what a service shows

  /** A check fails when its last run found it down, or was refused because an earlier one had. */
  predicate Fails(db: Tables, key: string) {
    key in db.current
    && (db.current[key].state == Down
        || (db.current[key].state == Unknown && db.current[key].reason == PausedAfterFailure))
  }

  predicate IsNow(db: Tables, key: string, s: State) { key in db.current && db.current[key].state == s }

  lemma {:induction false} StatesOfChecks(db: Tables, checks: seq<string>, s: State)
    ensures s in CheckStates(db, checks) <==> exists k :: k in checks && Shown(db, k) == s
  {
    hide Shown;
    if checks != [] {
      var init, last := checks[..|checks| - 1], checks[|checks| - 1];
      StatesOfChecks(db, init, s);
      assert checks == init + [last];
      assert last in checks;
    }
  }

  lemma ShownState(db: Tables, key: string)
    ensures Shown(db, key) == Down <==> Fails(db, key)
    ensures forall s :: s in {Up, Degraded, Retired} ==> (Shown(db, key) == s <==> IsNow(db, key, s))
  {
  }

  /** What a service's row says of the live rows of its checks. */
  lemma ServiceStateMeaning(db: Tables, checks: seq<string>)
    ensures var row := Derive(CheckStates(db, checks));
            var fails := exists k :: k in checks && Fails(db, k);
            var up := exists k :: k in checks && IsNow(db, k, Up);
            var degraded := exists k :: k in checks && IsNow(db, k, Degraded);
            (row == Up <==> up && !degraded && !fails)
            && (row == Down <==> fails && !up && !degraded)
            && (row == Degraded <==> degraded || (up && fails))
            && (row == Retired <==> checks != [] && forall k :: k in checks ==> IsNow(db, k, Retired))
  {
    hide Derive, CheckStates, Shown, Fails, IsNow;
    var states := CheckStates(db, checks);
    DeriveMeaning(states);
    forall k { ShownState(db, k); }
    forall s { StatesOfChecks(db, checks, s); }
    assert states == [] <==> checks == [] by { assert |states| == |checks|; }
    forall k | k in checks ensures Shown(db, k) in states && OneOfFive(Shown(db, k)) {}
    assert OneOfFive(Derive(states));
    if checks != [] { assert checks[0] in checks; }
  }

  predicate OneOfFive(s: State) { s == Up || s == Degraded || s == Down || s == Unknown || s == Retired }

  // ------------------------------------------------------------- uptime over a window

  /** A joint ratio lies between the two it joins. */
  lemma RatioBetween(p: real, m: real, q: real, n: real)
    requires m > 0.0 && n > 0.0 && p / m <= q / n
    ensures p / m <= (p + q) / (m + n) <= q / n
  {
    var x, y, z := p / m, q / n, (p + q) / (m + n);
    assert x * m == p && y * n == q && z * (m + n) == p + q;
    MulSign(y - x, m);
    MulSign(y - x, n);
    assert (z - x) * (m + n) == (y - x) * n;
    assert (y - z) * (m + n) == (y - x) * m;
    MulSign(z - x, m + n);
    MulSign(y - z, m + n);
  }

  lemma Mediant(a: Counts, b: Counts)
    requires a.Conclusive() > 0 && b.Conclusive() > 0
    requires Uptime(a).value <= Uptime(b).value
    ensures Uptime(a).value <= Uptime(a.Plus(b)).value <= Uptime(b).value
  {
    var p, m, q, n := 100.0 * a.up as real, a.Conclusive() as real, 100.0 * b.up as real, b.Conclusive() as real;
    RatioBetween(p, m, q, n);
    assert Uptime(a.Plus(b)).value == (p + q) / (m + n);
  }

  /** Joining two sets of samples gives an uptime between theirs, or the only one there is. */
  lemma JointUptime(a: Counts, b: Counts)
    ensures var ua, ub, u := Uptime(a), Uptime(b), Uptime(a.Plus(b));
            if ua.None? then u == ub
            else if ub.None? then u == ua
            else u.Some? && (ua.value <= u.value <= ub.value || ub.value <= u.value <= ua.value)
  {
    if Uptime(a).Some? && Uptime(b).Some? {
      if Uptime(a).value <= Uptime(b).value { Mediant(a, b); } else { Mediant(b, a); }
      assert a.Plus(b) == b.Plus(a);
    }
  }

  predicate Defined(bars: seq<Bar>, i: int) { 0 <= i < |bars| && Uptime(bars[i].counts).Some? }

  /** The window's uptime weighs every sample alike and lies between the least and the
      greatest uptime of its bars; it is defined exactly when one of them is. */
  lemma {:induction false} WindowBetweenBars(bars: seq<Bar>)
    ensures Uptime(Total(bars)).Some? <==> exists i :: Defined(bars, i)
    ensures Uptime(Total(bars)).Some? ==>
              exists i, j :: Defined(bars, i) && Defined(bars, j)
                && Uptime(bars[i].counts).value <= Uptime(Total(bars)).value <= Uptime(bars[j].counts).value
  {
    hide Uptime;
    if bars == [] {
      NoUptime();
    } else {
      var n, init := |bars| - 1, bars[..|bars| - 1];
      WindowBetweenBars(init);
      assert forall i :: 0 <= i < n ==> Defined(init, i) == Defined(bars, i);
      var before, last := Total(init), bars[n].counts;
      JointUptime(before, last);
      if Uptime(last).Some? { assert Defined(bars, n); }
      if Uptime(before).Some? {
        var i, j :| Defined(init, i) && Defined(init, j)
                    && Uptime(init[i].counts).value <= Uptime(before).value <= Uptime(init[j].counts).value;
        assert Defined(bars, i) && Defined(bars, j) && bars[i] == init[i] && bars[j] == init[j];
      }
    }
  }

  lemma NoUptime()
    ensures Uptime(NO_COUNTS).None?
  {
  }

  // ------------------------------------------------ strips summarise raw samples

  /** Every sample of a service's checks in one bucket. */
  function AllSamples(checks: seq<string>, samples: string -> seq<State>): seq<State> {
    if checks == [] then [] else AllSamples(checks[..|checks| - 1], samples) + samples(checks[|checks| - 1])
  }

  /** The samples of the checks that have a series, check by check. */
  function PresentSamples(checks: seq<string>, history: map<string, seq<Cell>>, i: nat,
      samples: string -> seq<State>): seq<seq<State>> {
    if checks == [] then []
    else
      var key := checks[|checks| - 1];
      PresentSamples(checks[..|checks| - 1], history, i, samples)
        + if HasCell(history, key, i) then [samples(key)] else []
  }

  /** The i-th cell of every check counts its samples, and a check without one has none. */
  predicate CellsCount(checks: seq<string>, history: map<string, seq<Cell>>, i: nat, index: int,
      samples: string -> seq<State>) {
    forall k :: k in checks ==>
      if HasCell(history, k, i) then history[k][i] == CellOf(index, Tally(samples(k))) else samples(k) == []
  }

  predicate NoneRetired(checks: seq<string>, samples: string -> seq<State>) {
    forall k :: k in checks ==> Retired !in samples(k)
  }

  lemma {:induction false} StatesOfPresent(checks: seq<string>, history: map<string, seq<Cell>>, i: nat, index: int,
      samples: string -> seq<State>)
    requires CellsCount(checks, history, i, index, samples) && NoneRetired(checks, samples)
    ensures BarStates(checks, history, i) == DeriveEach(PresentSamples(checks, history, i, samples))
  {
    if checks != [] {
      var init, key := checks[..|checks| - 1], checks[|checks| - 1];
      assert checks == init + [key];
      StatesOfPresent(init, history, i, index, samples);
      var rows := PresentSamples(init, history, i, samples);
      if HasCell(history, key, i) {
        DayStateAgreesWithDerive(samples(key));
        assert (rows + [samples(key)])[..|rows|] == rows;
      } else {
        assert rows + [] == rows;
      }
    }
  }

  lemma {:induction false} PresentIsAll(checks: seq<string>, history: map<string, seq<Cell>>, i: nat, index: int,
      samples: string -> seq<State>)
    requires CellsCount(checks, history, i, index, samples)
    ensures Flatten(PresentSamples(checks, history, i, samples)) == AllSamples(checks, samples)
    ensures NoneRetired(checks, samples) ==> Retired !in AllSamples(checks, samples)
  {
    if checks != [] {
      var init, key := checks[..|checks| - 1], checks[|checks| - 1];
      assert checks == init + [key];
      PresentIsAll(init, history, i, index, samples);
      var rows := PresentSamples(init, history, i, samples);
      if HasCell(history, key, i) {
        assert (rows + [samples(key)])[..|rows|] == rows;
      } else {
        assert rows + [] == rows;
      }
    }
  }

  lemma NoSamples()
    ensures Tally([]) == NO_COUNTS
  {
  }

  lemma {:induction false} CountsOfAll(checks: seq<string>, history: map<string, seq<Cell>>, i: nat, index: int,
      samples: string -> seq<State>)
    requires CellsCount(checks, history, i, index, samples)
    ensures BarCounts(checks, history, i) == Tally(AllSamples(checks, samples))
  {
    hide Tally, DayState, HasCell;
    NoSamples();
    if checks != [] {
      var init, key := checks[..|checks| - 1], checks[|checks| - 1];
      assert checks == init + [key];
      CountsOfAll(init, history, i, index, samples);
      TallyAppend(AllSamples(init, samples), samples(key));
    }
  }

  /** A bar derived from the checks' cells is the bar derived from all their raw samples. */
  lemma BarSummarisesSamples(checks: seq<string>, history: map<string, seq<Cell>>, first: int, i: nat,
      samples: string -> seq<State>)
    requires CellsCount(checks, history, i, first + i, samples) && NoneRetired(checks, samples)
    ensures BarOf(checks, history, first, i) ==
            Bar(first + i, Derive(AllSamples(checks, samples)), Tally(AllSamples(checks, samples)))
  {
    StatesOfPresent(checks, history, i, first + i, samples);
    PresentIsAll(checks, history, i, first + i, samples);
    CountsOfAll(checks, history, i, first + i, samples);
    TwoLevelAggregationIsFlat(PresentSamples(checks, history, i, samples));
    NotAllRetired(AllSamples(checks, samples));
  }

  lemma NotAllRetired(samples: seq<State>)
    requires Retired !in samples
    ensures Derive(samples) != Retired
  {
    DeriveMeaning(samples);
    if samples != [] { assert samples[0] in samples; }
  }

  /** If every bar counts its own samples, the window counts all of them. */
  lemma {:induction false} WindowIsARecount(bars: seq<Bar>, raw: seq<seq<State>>)
    requires |bars| == |raw| && forall i :: 0 <= i < |bars| ==> bars[i].counts == Tally(raw[i])
    ensures Total(bars) == Tally(Flatten(raw))
  {
    if bars != [] {
      var n := |bars| - 1;
      WindowIsARecount(bars[..n], raw[..n]);
      TallyAppend(Flatten(raw[..n]), raw[n]);
    }
  }
}
