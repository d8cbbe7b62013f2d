/** The tables and what each statement does to them. A statement is modelled by its effect;
    `RecordResult` is one transaction and therefore one effect. */
module Store {
  import opened States
  import opened Clock
  import opened Options

  /** One row of `check_results`. */
  datatype Row = Row(key: string, at: int, state: State, reason: Reason)

  /** One row of `check_current`. */
  datatype Current = Current(state: State, since: int, lastChecked: int, reason: Reason)

  /** One row of `breaker_state`. */
  datatype Breaker = Breaker(fails: int, openUntil: Option<int>, backoff: int)

  const ZERO_BREAKER := Breaker(0, None, 0)

  datatype Tables = Tables(
    results: seq<Row>,
    current: map<string, Current>,
    breakers: map<string, Breaker>,
    daily: map<(string, int), Counts>,
    hourly: map<(string, int), Counts>
  )

  const EMPTY := Tables([], map[], map[], map[], map[])

  // ------------------------------------------------------------ writing one run

  /** The upsert of `check_current`: `since` moves only when the state changes. */
  function Refresh(previous: Option<Current>, r: Result, now: int): Current {
    var since := if previous.Some? && previous.value.state == r.state then previous.value.since else now;
    Current(r.state, since, now, r.reason)
  }

  function RecordResult(db: Tables, key: string, r: Result, now: int): Tables {
    db.(results := db.results + [Row(key, now, r.state, r.reason)],
        current := db.current[key := Refresh(CurrentState(db, key), r, now)])
  }

  function CurrentState(db: Tables, key: string): Option<Current> {
    if key in db.current then Some(db.current[key]) else None
  }

  function LoadBreaker(db: Tables, key: string): Breaker {
    if key in db.breakers then db.breakers[key] else ZERO_BREAKER
  }

  function SaveBreaker(db: Tables, key: string, rec: Breaker): Tables {
    db.(breakers := db.breakers[key := rec])
  }

  /** Attempts made since an instant: rows of the key that are not `unknown`. */
  function CountSince(results: seq<Row>, key: string, since: int): nat {
    if results == [] then 0
    else
      var last := results[|results| - 1];
      CountSince(results[..|results| - 1], key, since)
        + if last.key == key && last.at >= since && last.state != Unknown then 1 else 0
  }

  // ------------------------------------------------------------------- history

  /** The states a check showed in an interval, oldest row first. */
  function Samples(results: seq<Row>, key: string, from: int, until: int): seq<State> {
    if results == [] then []
    else
      var last := results[|results| - 1];
      Samples(results[..|results| - 1], key, from, until)
        + if last.key == key && from <= last.at < until then [last.state] else []
  }

  function DaySamples(results: seq<Row>, key: string, day: int, offset: int): seq<State> {
    Samples(results, key, DayStart(day, offset), DayStart(day + 1, offset))
  }

  function HourSamples(results: seq<Row>, key: string, hour: int, offset: int): seq<State> {
    Samples(results, key, HourStart(hour, offset), HourStart(hour + 1, offset))
  }

  /** The daily upsert: every group found among the given local days is replaced. */
  function Rollup(db: Tables, days: set<int>, offset: int): Tables {
    var groups := set r | r in db.results && LocalDay(r.at, offset) in days :: (r.key, LocalDay(r.at, offset));
    db.(daily := db.daily + map g | g in groups :: Tally(DaySamples(db.results, g.0, g.1, offset)))
  }

  /** The instant from which `RollupHourly` reads raw rows. */
  function HourlySince(hours: nat, now: int): int { HourFloor(now - Hours(hours)) }

  /** The hourly upsert. Only rows from `since` on are read, so the bucket that holds `since`
      is counted from there. */
  function RollupHourly(db: Tables, hours: nat, now: int, offset: int): Tables {
    var since := HourlySince(hours, now);
    var groups := set r | r in db.results && r.at >= since :: (r.key, LocalHour(r.at, offset));
    db.(hourly := db.hourly + map g | g in groups :: Tally(HourSamples(Kept(db.results, since), g.0, g.1, offset)))
  }

  /** The rows at or after an instant. */
  function Kept(results: seq<Row>, from: int): seq<Row> {
    if results == [] then []
    else
      var last := results[|results| - 1];
      Kept(results[..|results| - 1], from) + if last.at >= from then [last] else []
  }

  function PruneRaw(db: Tables, rawDays: int, now: int): Tables {
    db.(results := Kept(db.results, now - Days(rawDays)))
  }

  /** The first local day that survives a daily prune. */
  function DailyCut(dailyDays: int, now: int, offset: int): int { LocalDay(now, offset) - dailyDays }

  function PruneDaily(db: Tables, dailyDays: int, now: int, offset: int): Tables {
    db.(daily := map g | g in db.daily && g.1 >= DailyCut(dailyDays, now, offset) :: db.daily[g])
  }

  /** The wall-clock cutoff of the hourly prune, cut down to the minute. */
  function HourlyCut(hourlyDays: int, now: int, offset: int): int {
    MinuteFloor(now + offset - Days(hourlyDays))
  }

  function PruneHourly(db: Tables, hourlyDays: int, now: int, offset: int): Tables {
    db.(hourly := map g | g in db.hourly && Hours(g.1) >= HourlyCut(hourlyDays, now, offset) :: db.hourly[g])
  }

  // -------------------------------------------------------------- reading strips

  /** One cell of a strip. `index` is the local day or hour it stands for. */
  datatype Cell = Cell(index: int, state: State, counts: Counts)

  function CellOf(index: int, counts: Counts): Cell { Cell(index, DayState(counts), counts) }

  function TableCell(table: map<(string, int), Counts>, key: string, index: int): Cell {
    if (key, index) in table then CellOf(index, table[(key, index)]) else Cell(index, Unknown, NO_COUNTS)
  }

  /** What the live query of the hour in progress sees: everything since its start. */
  function LiveSamples(results: seq<Row>, key: string, from: int): seq<State> {
    if results == [] then []
    else
      var last := results[|results| - 1];
      LiveSamples(results[..|results| - 1], key, from)
        + if last.key == key && last.at >= from then [last.state] else []
  }

  /** A cell of the hourly strip: the live hour covers whatever the table holds for it. */
  function HourCell(db: Tables, key: string, hour: int, liveHour: int, offset: int): Cell {
    var live := LiveSamples(db.results, key, HourStart(liveHour, offset));
    if hour == liveHour && live != [] then CellOf(hour, Tally(live)) else TableCell(db.hourly, key, hour)
  }

  /** Whether a check has a series in the daily answer, whose first day is `first`. */
  ghost predicate HasDaySeries(db: Tables, key: string, first: int, days: nat) {
    exists d :: first <= d < first + days && (key, d) in db.daily
  }

  /** Whether a check has a series in the hourly answer: a cached row or a live sample. */
  ghost predicate HasHourSeries(db: Tables, key: string, liveHour: int, hours: nat, offset: int) {
    (exists h :: liveHour - hours < h <= liveHour && (key, h) in db.hourly)
    || LiveSamples(db.results, key, HourStart(liveHour, offset)) != []
  }

  /** One series per check that has any, one cell per index from `first` on. */
  ghost predicate IsDailyAnswer(db: Tables, out: map<string, seq<Cell>>, first: int, days: nat) {
    && (forall k :: k in out <==> HasDaySeries(db, k, first, days))
    && (forall k :: k in out ==> |out[k]| == days)
    && (forall k, i :: k in out && 0 <= i < days ==> out[k][i] == TableCell(db.daily, k, first + i))
  }

  ghost predicate IsHourlyAnswer(db: Tables, out: map<string, seq<Cell>>, liveHour: int, hours: nat, offset: int) {
    && (forall k :: k in out <==> HasHourSeries(db, k, liveHour, hours, offset))
    && (forall k :: k in out ==> |out[k]| == hours)
    && (forall k, i :: k in out && 0 <= i < hours ==>
        out[k][i] == HourCell(db, k, liveHour - hours + 1 + i, liveHour, offset))
  }

  /** The state a check contributes to its service. */
  function Shown(db: Tables, key: string): State {
    var c := CurrentState(db, key);
    if c.None? then Unknown else RollupState(c.value.state, c.value.reason)
  }

  // --------------------------------------------------------------------- facts

  lemma {:induction false} CountKept(results: seq<Row>, key: string, since: int, from: int)
    ensures CountSince(Kept(results, from), key, since)
            == CountSince(results, key, if since >= from then since else from)
  {
    if results != [] {
      var init, last := results[..|results| - 1], results[|results| - 1];
      CountKept(init, key, since, from);
      if last.at >= from {
        var kept := Kept(init, from) + [last];
        assert kept[..|kept| - 1] == Kept(init, from);
      } else {
        assert Kept(init, from) + [] == Kept(init, from);
      }
    }
  }

  /** A row counted as an attempt since an instant. */
  predicate IsAttempt(r: Row, key: string, since: int) { r.key == key && r.at >= since && r.state != Unknown }

  /** Those rows, by position. */
  ghost function AttemptRows(results: seq<Row>, key: string, since: int): set<int> {
    set i | 0 <= i < |results| && IsAttempt(results[i], key, since)
  }

  lemma AttemptRowsTake(results: seq<Row>, key: string, since: int)
    requires results != []
    ensures var n := |results| - 1;
            |AttemptRows(results, key, since)| ==
            |AttemptRows(results[..n], key, since)| + if IsAttempt(results[n], key, since) then 1 else 0
  {
    hide IsAttempt;
    var n := |results| - 1;
    var before := AttemptRows(results[..n], key, since);
    assert AttemptRows(results, key, since) == before + if IsAttempt(results[n], key, since) then {n} else {};
    assert n !in before;
  }

  /** The count is the number of those rows. */
  lemma {:induction false} CountSinceCountsRows(results: seq<Row>, key: string, since: int)
    ensures CountSince(results, key, since) == |AttemptRows(results, key, since)|
  {
    if results == [] {
      assert AttemptRows(results, key, since) == {};
    } else {
      hide AttemptRows;
      CountSinceCountsRows(results[..|results| - 1], key, since);
      AttemptRowsTake(results, key, since);
    }
  }

  /** A row of a check that shows a state in an interval. */
  predicate IsSample(r: Row, key: string, from: int, until: int, s: State) {
    r.key == key && from <= r.at < until && r.state == s
  }

  /** Those rows, by position. */
  ghost function SampleRows(results: seq<Row>, key: string, from: int, until: int, s: State): set<int> {
    set i | 0 <= i < |results| && IsSample(results[i], key, from, until, s)
  }

  lemma SampleRowsTake(results: seq<Row>, key: string, from: int, until: int, s: State)
    requires results != []
    ensures var n := |results| - 1;
            |SampleRows(results, key, from, until, s)| ==
            |SampleRows(results[..n], key, from, until, s)|
            + if IsSample(results[n], key, from, until, s) then 1 else 0
  {
    hide IsSample;
    var n := |results| - 1;
    var before := SampleRows(results[..n], key, from, until, s);
    assert SampleRows(results, key, from, until, s) ==
           before + if IsSample(results[n], key, from, until, s) then {n} else {};
    assert n !in before;
  }

  lemma SamplesTake(results: seq<Row>, key: string, from: int, until: int, s: State)
    requires results != []
    ensures var n := |results| - 1;
            multiset(Samples(results, key, from, until))[s] ==
            multiset(Samples(results[..n], key, from, until))[s]
            + if IsSample(results[n], key, from, until, s) then 1 else 0
  {
  }

  /** Every row of the interval is one sample, with the row's state. */
  lemma {:induction false} SamplesCountRows(results: seq<Row>, key: string, from: int, until: int, s: State)
    ensures multiset(Samples(results, key, from, until))[s] == |SampleRows(results, key, from, until, s)|
  {
    hide IsSample;
    if results == [] {
      assert Samples(results, key, from, until) == [];
      assert SampleRows(results, key, from, until, s) == {};
    } else {
      hide Samples, SampleRows;
      SamplesCountRows(results[..|results| - 1], key, from, until, s);
      SamplesTake(results, key, from, until, s);
      SampleRowsTake(results, key, from, until, s);
    }
  }

  lemma {:induction false} CountMonotone(results: seq<Row>, key: string, since: int, later: int)
    requires since <= later
    ensures CountSince(results, key, later) <= CountSince(results, key, since)
  {
    if results != [] { CountMonotone(results[..|results| - 1], key, since, later); }
  }

  lemma {:induction false} SamplesKept(results: seq<Row>, key: string, from: int, until: int, cut: int)
    ensures Samples(Kept(results, cut), key, from, until)
            == Samples(results, key, if from >= cut then from else cut, until)
  {
    if results != [] {
      var init, last := results[..|results| - 1], results[|results| - 1];
      SamplesKept(init, key, from, until, cut);
      if last.at >= cut {
        var kept := Kept(init, cut) + [last];
        assert kept[..|kept| - 1] == Kept(init, cut);
      } else {
        assert Kept(init, cut) + [] == Kept(init, cut);
      }
    }
  }

  lemma {:induction false} KeptTwice(results: seq<Row>, a: int, b: int)
    ensures Kept(Kept(results, a), b) == Kept(results, if a >= b then a else b)
  {
    if results != [] {
      var init, last := results[..|results| - 1], results[|results| - 1];
      KeptTwice(init, a, b);
      if last.at >= a {
        var kept := Kept(init, a) + [last];
        assert kept[..|kept| - 1] == Kept(init, a);
      } else {
        assert Kept(init, a) + [] == Kept(init, a);
      }
    }
  }

  lemma {:induction false} KeptMembers(results: seq<Row>, from: int)
    ensures forall r :: r in Kept(results, from) <==> r in results && r.at >= from
  {
    if results != [] {
      var init, last := results[..|results| - 1], results[|results| - 1];
      KeptMembers(init, from);
      assert results == init + [last];
    }
  }

  lemma {:induction false} KeptNone(results: seq<Row>, from: int)
    requires forall r :: r in results ==> r.at < from
    ensures Kept(results, from) == []
  {
    if results != [] {
      assert results[|results| - 1] in results;
      KeptNone(results[..|results| - 1], from);
    }
  }

  lemma {:induction false} KeptTimes(results: seq<Row>, from: int, row: Row)
    ensures multiset(Kept(results, from))[row] == if row.at >= from then multiset(results)[row] else 0
  {
    if results != [] {
      var init, last := results[..|results| - 1], results[|results| - 1];
      KeptTimes(init, from, row);
      assert results == init + [last];
    }
  }

  /** What a prune leaves: every raw row from the raw cutoff on, as often as it was there, every
      daily row from the daily cutoff on with its counts, and every other table whole. */
  lemma SurvivorsOfAPrune(db: Tables, rawDays: int, dailyDays: int, now: int, offset: int, row: Row, g: (string, int))
    ensures var db' := PruneDaily(PruneRaw(db, rawDays, now), dailyDays, now, offset);
            multiset(db'.results)[row] == (if row.at >= now - Days(rawDays) then multiset(db.results)[row] else 0)
            && (g in db'.daily <==> g in db.daily && g.1 >= LocalDay(now, offset) - dailyDays)
            && (g in db'.daily ==> db'.daily[g] == db.daily[g])
            && db' == db.(results := db'.results, daily := db'.daily)
  {
    KeptTimes(db.results, now - Days(rawDays), row);
  }

  /** An interval has samples exactly when a row of the check falls in it. */
  lemma {:induction false} SamplesWitness(results: seq<Row>, key: string, from: int, until: int)
    ensures Samples(results, key, from, until) != []
            <==> exists r :: r in results && r.key == key && from <= r.at < until
  {
    if results != [] {
      var init, last := results[..|results| - 1], results[|results| - 1];
      SamplesWitness(init, key, from, until);
      assert results == init + [last];
      assert last in results;
    }
  }

  lemma SamplesAppend(results: seq<Row>, row: Row, key: string, from: int, until: int)
    ensures Samples(results + [row], key, from, until) ==
            Samples(results, key, from, until) + if row.key == key && from <= row.at < until then [row.state] else []
  {
    assert (results + [row])[..|results + [row]| - 1] == results;
  }

  lemma CountAppend(results: seq<Row>, row: Row, key: string, since: int)
    ensures CountSince(results + [row], key, since) ==
            CountSince(results, key, since) + if row.key == key && row.at >= since && row.state != Unknown then 1 else 0
  {
    assert (results + [row])[..|results + [row]| - 1] == results;
  }

  lemma KeptAppend(results: seq<Row>, row: Row, from: int)
    ensures Kept(results + [row], from) == Kept(results, from) + if row.at >= from then [row] else []
  {
    assert (results + [row])[..|results + [row]| - 1] == results;
  }

  /** The live query has no upper end: it also counts what lies past the hour, if anything. */
  lemma {:induction false} LiveCountsTheRest(results: seq<Row>, key: string, from: int, until: int)
    requires from <= until
    ensures var live, hour := LiveSamples(results, key, from), Samples(results, key, from, until);
            |live| >= |hour| && (|live| == |hour| ==> live == hour)
            && (|live| == |hour| <==> forall r :: r in results && r.key == key ==> r.at < until)
  {
    if results != [] {
      var init, last := results[..|results| - 1], results[|results| - 1];
      LiveCountsTheRest(init, key, from, until);
      assert results == init + [last];
      assert last in results;
    }
  }

  lemma {:induction false} LiveIsHour(results: seq<Row>, key: string, from: int, until: int)
    requires forall r :: r in results ==> r.at < until
    ensures LiveSamples(results, key, from) == Samples(results, key, from, until)
  {
    if results != [] {
      assert results[|results| - 1] in results;
      LiveIsHour(results[..|results| - 1], key, from, until);
    }
  }
}
