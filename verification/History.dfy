/** Samples, rollups and prunes in any order, and what the derived tables then hold.

    A run is a sequence of events. The maintenance loop reads the clock once (`Begin`) and
    uses that reading for every statement that follows; statements may fail (their event is
    left out), and the process may restart between any two of them. */
module History {
  import opened States
  import opened Clock
  import opened Options
  import opened Store

  datatype Config = Config(rawDays: int, dailyDays: int, hourlyDays: int, hours: nat, offset: int)

  datatype Event =
    | Advance(dt: nat)
    | Observe(key: string, result: Result)
    | Begin
    | DoRollup
    | DoRollupHourly
    | DoPruneRaw
    | DoPruneDaily
    | DoPruneHourly

  /** `all` is every row ever recorded; `cut` the greatest raw cutoff, `dailyCut` the greatest
      daily one; `ranOn` the local days on which a daily rollup ran, `lastHourly` the time of
      the last hourly one. Only `clock`, `now` and `db` are part of the system. */
  datatype World = World(
    clock: int, now: int, db: Tables,
    all: seq<Row>, cut: Option<int>, dailyCut: Option<int>, ranOn: set<int>, lastHourly: Option<int>
  )

  function Init(clock: int): World { World(clock, clock, EMPTY, [], None, None, {}, None) }

  /** The local days the maintenance loop asks for: today and yesterday. */
  function RollupDays(cfg: Config, now: int): set<int> {
    {LocalDay(now, cfg.offset), LocalDay(now - Days(1), cfg.offset)}
  }

  function Next(cfg: Config, w: World, event: Event): World {
    match event
    case Advance(dt) => w.(clock := w.clock + dt)
    case Observe(key, r) =>
      w.(db := RecordResult(w.db, key, r, w.clock), all := w.all + [Row(key, w.clock, r.state, r.reason)])
    case Begin => w.(now := w.clock)
    case DoRollup =>
      w.(db := Rollup(w.db, RollupDays(cfg, w.now), cfg.offset), ranOn := w.ranOn + {LocalDay(w.now, cfg.offset)})
    case DoRollupHourly =>
      w.(db := RollupHourly(w.db, cfg.hours, w.now, cfg.offset), lastHourly := Some(w.clock))
    case DoPruneRaw =>
      w.(db := PruneRaw(w.db, cfg.rawDays, w.now), cut := Later(w.cut, w.now - Days(cfg.rawDays)))
    case DoPruneDaily =>
      w.(db := PruneDaily(w.db, cfg.dailyDays, w.now, cfg.offset),
         dailyCut := Later(w.dailyCut, DailyCut(cfg.dailyDays, w.now, cfg.offset)))
    case DoPruneHourly => w.(db := PruneHourly(w.db, cfg.hourlyDays, w.now, cfg.offset))
  }

  function Run(cfg: Config, w: World, events: seq<Event>): World {
    if events == [] then w
    else Next(cfg, Run(cfg, w, events[..|events| - 1]), events[|events| - 1])
  }

  /** The worlds a run leads to. */
  ghost predicate Reached(cfg: Config, clock: int, w: World) {
    exists events :: w == Run(cfg, Init(clock), events)
  }

  lemma ReachNext(cfg: Config, clock: int, w: World, event: Event)
    requires Reached(cfg, clock, w)
    ensures Reached(cfg, clock, Next(cfg, w, event))
  {
    var events :| w == Run(cfg, Init(clock), events);
    assert (events + [event])[..|events + [event]| - 1] == events;
    assert Next(cfg, w, event) == Run(cfg, Init(clock), events + [event]);
  }

  // ------------------------------------------------------------ exact table rows

  /** The row of a bucket is the count of everything ever recorded in it. */
  ghost predicate ExactRow(table: map<(string, int), Counts>, key: string, index: int, samples: seq<State>) {
    if samples == [] then (key, index) !in table
    else (key, index) in table && table[(key, index)] == Tally(samples)
  }

  ghost predicate ExactDay(cfg: Config, w: World, key: string, day: int) {
    ExactRow(w.db.daily, key, day, DaySamples(w.all, key, day, cfg.offset))
  }

  ghost predicate ExactHour(cfg: Config, w: World, key: string, hour: int) {
    ExactRow(w.db.hourly, key, hour, HourSamples(w.all, key, hour, cfg.offset))
  }

  /** A row never counts more than was recorded, and exists only for recorded buckets. */
  ghost predicate SoundRow(table: map<(string, int), Counts>, g: (string, int), samples: seq<State>) {
    g in table ==> samples != [] && table[g].AtMost(Tally(samples))
  }

  // --------------------------------------------------------- the basic invariant

  ghost predicate SoundDaily(daily: map<(string, int), Counts>, all: seq<Row>, offset: int) {
    forall k, d :: SoundRow(daily, (k, d), DaySamples(all, k, d, offset))
  }

  ghost predicate SoundHourly(hourly: map<(string, int), Counts>, all: seq<Row>, offset: int) {
    forall k, h :: SoundRow(hourly, (k, h), HourSamples(all, k, h, offset))
  }

  /** The raw table is what the greatest cutoff left of everything recorded. */
  predicate RawTable(cfg: Config, w: World) {
    && w.db.results == (if w.cut.Some? then Kept(w.all, w.cut.value) else w.all)
    && (w.cut.Some? ==> w.cut.value <= w.now - Days(cfg.rawDays))
  }

  ghost predicate Basic(cfg: Config, w: World) {
    && w.now <= w.clock
    && (forall r :: r in w.all ==> r.at <= w.clock)
    && RawTable(cfg, w)
    && (w.lastHourly.Some? ==> w.lastHourly.value <= w.clock)
    && (forall d :: d in w.ranOn ==> DayStart(d, cfg.offset) <= w.clock)
    && SoundDaily(w.db.daily, w.all, cfg.offset)
    && SoundHourly(w.db.hourly, w.all, cfg.offset)
  }

  /** Raw samples of an interval are complete when it starts at or after the raw cutoff. */
  lemma RawComplete(cfg: Config, w: World, key: string, from: int, until: int)
    requires Basic(cfg, w)
    requires from >= w.now - Days(cfg.rawDays)
    ensures Samples(w.db.results, key, from, until) == Samples(w.all, key, from, until)
  {
    if w.cut.Some? { SamplesKept(w.all, key, from, until, w.cut.value); }
  }

  lemma AtMostAppend(a: seq<State>, b: seq<State>, s: State)
    requires Tally(a).AtMost(Tally(b))
    ensures Tally(a).AtMost(Tally(b + [s])) && Tally(a + [s]).AtMost(Tally(b + [s]))
  {
    TallyAppend(a, [s]);
    TallyAppend(b, [s]);
  }

  lemma {:induction false} FewerSamples(rows: seq<Row>, key: string, from: int, later: int, until: int)
    requires from <= later
    ensures Tally(Samples(rows, key, later, until)).AtMost(Tally(Samples(rows, key, from, until)))
  {
    if rows != [] {
      var init, last := rows[..|rows| - 1], rows[|rows| - 1];
      FewerSamples(init, key, from, later, until);
      var few, many := Samples(init, key, later, until), Samples(init, key, from, until);
      assert few + [] == few && many + [] == many;
      AtMostAppend(few, many, last.state);
    }
  }

  /** What is left of an interval in the raw table, seen from `since` on, is part of it. */
  lemma RawSound(cfg: Config, w: World, key: string, from: int, until: int, since: int)
    requires Basic(cfg, w)
    ensures Tally(Samples(Kept(w.db.results, since), key, from, until)).AtMost(Tally(Samples(w.all, key, from, until)))
  {
    SamplesKept(w.db.results, key, from, until, since);
    var seen := if from >= since then from else since;
    if w.cut.Some? {
      SamplesKept(w.all, key, seen, until, w.cut.value);
      FewerSamples(w.all, key, from, if seen >= w.cut.value then seen else w.cut.value, until);
    } else {
      FewerSamples(w.all, key, from, seen, until);
    }
  }

  lemma RowsAreRecorded(cfg: Config, w: World)
    requires Basic(cfg, w)
    ensures forall r :: r in w.db.results ==> r in w.all
  {
    if w.cut.Some? { KeptMembers(w.all, w.cut.value); }
  }

  lemma MoreSamples(rows: seq<Row>, row: Row, key: string, from: int, until: int)
    ensures Tally(Samples(rows, key, from, until)).AtMost(Tally(Samples(rows + [row], key, from, until)))
    ensures Samples(rows, key, from, until) != [] ==> Samples(rows + [row], key, from, until) != []
  {
    SamplesAppend(rows, row, key, from, until);
    TallyAppend(Samples(rows, key, from, until), [row.state]);
    assert Samples(rows, key, from, until) + [] == Samples(rows, key, from, until);
  }

  lemma SoundAfterAppend(table: map<(string, int), Counts>, rows: seq<Row>, row: Row, key: string, index: int,
      from: int, until: int)
    requires SoundRow(table, (key, index), Samples(rows, key, from, until))
    ensures SoundRow(table, (key, index), Samples(rows + [row], key, from, until))
  {
    MoreSamples(rows, row, key, from, until);
  }

  lemma BasicObserve(cfg: Config, w: World, key: string, r: Result)
    requires Basic(cfg, w) && cfg.rawDays >= 0
    ensures Basic(cfg, Next(cfg, w, Observe(key, r)))
  {
    var row := Row(key, w.clock, r.state, r.reason);
    var w' := Next(cfg, w, Observe(key, r));
    assert RawTable(cfg, w') by {
      if w.cut.Some? { KeptAppend(w.all, row, w.cut.value); }
    }
    forall k, d ensures SoundRow(w'.db.daily, (k, d), DaySamples(w'.all, k, d, cfg.offset)) {
      SoundAfterAppend(w.db.daily, w.all, row, k, d, DayStart(d, cfg.offset), DayStart(d + 1, cfg.offset));
    }
    forall k, h ensures SoundRow(w'.db.hourly, (k, h), HourSamples(w'.all, k, h, cfg.offset)) {
      SoundAfterAppend(w.db.hourly, w.all, row, k, h, HourStart(h, cfg.offset), HourStart(h + 1, cfg.offset));
    }
  }

  lemma SoundAfterRollup(cfg: Config, w: World, key: string, day: int)
    requires Basic(cfg, w)
    ensures SoundRow(Next(cfg, w, DoRollup).db.daily, (key, day), DaySamples(w.all, key, day, cfg.offset))
  {
    var from, until := DayStart(day, cfg.offset), DayStart(day + 1, cfg.offset);
    assert SoundRow(w.db.daily, (key, day), DaySamples(w.all, key, day, cfg.offset));
    DayGroup(cfg, w, key, day);
    if r: Row :| r in w.db.results && r.key == key && LocalDay(r.at, cfg.offset) == day {
      RowsAreRecorded(cfg, w);
      DayInterval(r.at, cfg.offset, day);
      SamplesWitness(w.all, key, from, until);
      RawSound(cfg, w, key, from, until, from);
      SamplesKept(w.db.results, key, from, until, from);
    }
  }

  lemma AfterRollup(cfg: Config, w: World)
    ensures var w' := Next(cfg, w, DoRollup);
            w'.db.results == w.db.results && w'.db.hourly == w.db.hourly && w'.now == w.now && w'.clock == w.clock
            && w'.all == w.all && w'.cut == w.cut && w'.lastHourly == w.lastHourly
            && w'.ranOn == w.ranOn + {LocalDay(w.now, cfg.offset)}
  {
  }

  lemma BasicRollup(cfg: Config, w: World)
    requires Basic(cfg, w)
    ensures Basic(cfg, Next(cfg, w, DoRollup))
  {
    hide Next, SoundRow, DaySamples;
    AfterRollup(cfg, w);
    DayInterval(w.now, cfg.offset, LocalDay(w.now, cfg.offset));
    forall k, d ensures SoundRow(Next(cfg, w, DoRollup).db.daily, (k, d), DaySamples(w.all, k, d, cfg.offset)) {
      SoundAfterRollup(cfg, w, k, d);
    }
  }

  /** What a daily rollup does to one row. */
  lemma DayGroup(cfg: Config, w: World, key: string, day: int)
    ensures var table := Next(cfg, w, DoRollup).db.daily;
            if day in RollupDays(cfg, w.now)
               && exists r :: r in w.db.results && r.key == key && LocalDay(r.at, cfg.offset) == day
            then (key, day) in table && table[(key, day)] == Tally(DaySamples(w.db.results, key, day, cfg.offset))
            else ((key, day) in table <==> (key, day) in w.db.daily)
                 && ((key, day) in table ==> table[(key, day)] == w.db.daily[(key, day)])
  {
  }

  /** What an hourly rollup does to one row. */
  lemma HourGroup(cfg: Config, w: World, key: string, hour: int)
    ensures var table := Next(cfg, w, DoRollupHourly).db.hourly;
            var since := HourlySince(cfg.hours, w.now);
            if exists r :: r in w.db.results && r.key == key && r.at >= since && LocalHour(r.at, cfg.offset) == hour
            then (key, hour) in table
                && table[(key, hour)] == Tally(HourSamples(Kept(w.db.results, since), key, hour, cfg.offset))
            else ((key, hour) in table <==> (key, hour) in w.db.hourly)
                 && ((key, hour) in table ==> table[(key, hour)] == w.db.hourly[(key, hour)])
  {
  }

  lemma SoundAfterRollupHourly(cfg: Config, w: World, key: string, hour: int)
    requires Basic(cfg, w)
    ensures SoundRow(Next(cfg, w, DoRollupHourly).db.hourly, (key, hour), HourSamples(w.all, key, hour, cfg.offset))
  {
    var since := HourlySince(cfg.hours, w.now);
    assert SoundRow(w.db.hourly, (key, hour), HourSamples(w.all, key, hour, cfg.offset));
    HourGroup(cfg, w, key, hour);
    if r: Row :| r in w.db.results && r.key == key && r.at >= since && LocalHour(r.at, cfg.offset) == hour {
      RowsAreRecorded(cfg, w);
      HourInterval(r.at, cfg.offset, hour);
      SamplesWitness(w.all, key, HourStart(hour, cfg.offset), HourStart(hour + 1, cfg.offset));
      RawSound(cfg, w, key, HourStart(hour, cfg.offset), HourStart(hour + 1, cfg.offset), since);
    }
  }

  lemma BasicRollupHourly(cfg: Config, w: World)
    requires Basic(cfg, w)
    ensures Basic(cfg, Next(cfg, w, DoRollupHourly))
  {
    forall k, h ensures SoundRow(Next(cfg, w, DoRollupHourly).db.hourly, (k, h), HourSamples(w.all, k, h, cfg.offset)) {
      SoundAfterRollupHourly(cfg, w, k, h);
    }
  }

  lemma BasicPruneRaw(cfg: Config, w: World)
    requires Basic(cfg, w)
    ensures Basic(cfg, Next(cfg, w, DoPruneRaw))
  {
    if w.cut.Some? { KeptTwice(w.all, w.cut.value, w.now - Days(cfg.rawDays)); }
    assert RawTable(cfg, Next(cfg, w, DoPruneRaw));
  }

  lemma BasicPruneTables(cfg: Config, w: World, event: Event)
    requires Basic(cfg, w)
    requires event in {DoPruneDaily, DoPruneHourly}
    ensures Basic(cfg, Next(cfg, w, event))
  {
    var w' := Next(cfg, w, event);
    assert SoundDaily(w'.db.daily, w.all, cfg.offset) by {
      forall k, d ensures SoundRow(w'.db.daily, (k, d), DaySamples(w.all, k, d, cfg.offset)) {
        assert SoundRow(w.db.daily, (k, d), DaySamples(w.all, k, d, cfg.offset));
      }
    }
    assert SoundHourly(w'.db.hourly, w.all, cfg.offset) by {
      forall k, h ensures SoundRow(w'.db.hourly, (k, h), HourSamples(w.all, k, h, cfg.offset)) {
        assert SoundRow(w.db.hourly, (k, h), HourSamples(w.all, k, h, cfg.offset));
      }
    }
  }

  lemma BasicStep(cfg: Config, w: World, event: Event)
    requires Basic(cfg, w) && cfg.rawDays >= 0
    ensures Basic(cfg, Next(cfg, w, event))
  {
    match event
    case Advance(dt) =>
    case Observe(key, r) => BasicObserve(cfg, w, key, r);
    case Begin =>
    case DoRollup => BasicRollup(cfg, w);
    case DoRollupHourly => BasicRollupHourly(cfg, w);
    case DoPruneRaw => BasicPruneRaw(cfg, w);
    case _ => BasicPruneTables(cfg, w, event);
  }

  // ------------------------------------------------ recomputing loses no history

  /** Every day on whose morrow a rollup ran is counted in full, up to daily retention. */
  ghost predicate DailySettled(cfg: Config, w: World) {
    forall k, d :: d + 1 in w.ranOn && (w.dailyCut.Some? ==> d >= w.dailyCut.value) ==> ExactDay(cfg, w, k, d)
  }

  /** A day is a group of the daily rollup exactly when it has samples. */
  lemma DayHasGroup(rows: seq<Row>, key: string, day: int, offset: int)
    ensures DaySamples(rows, key, day, offset) != []
            <==> exists r :: r in rows && r.key == key && LocalDay(r.at, offset) == day
  {
    SamplesWitness(rows, key, DayStart(day, offset), DayStart(day + 1, offset));
    forall r: Row
      ensures LocalDay(r.at, offset) == day <==> DayStart(day, offset) <= r.at < DayStart(day + 1, offset)
    {
      DayInterval(r.at, offset, day);
    }
  }

  /** With two days of raw rows, a rollup counts every sample of the days it touches. */
  lemma RollupIsExact(cfg: Config, w: World, key: string, day: int)
    requires Basic(cfg, w) && cfg.rawDays >= 2
    requires day in RollupDays(cfg, w.now)
    ensures ExactDay(cfg, Next(cfg, w, DoRollup), key, day)
  {
    var from, until := DayStart(day, cfg.offset), DayStart(day + 1, cfg.offset);
    DayInterval(w.now, cfg.offset, LocalDay(w.now, cfg.offset));
    DayInterval(w.now - Days(1), cfg.offset, LocalDay(w.now - Days(1), cfg.offset));
    assert SoundRow(w.db.daily, (key, day), DaySamples(w.all, key, day, cfg.offset));
    RawComplete(cfg, w, key, from, until);
    DayGroup(cfg, w, key, day);
    DayHasGroup(w.db.results, key, day, cfg.offset);
  }

  /** A rollup never replaces a daily row by a smaller one. */
  lemma RollupNeverShrinksADay(cfg: Config, w: World, key: string, day: int)
    requires Basic(cfg, w) && cfg.rawDays >= 2
    requires (key, day) in w.db.daily
    ensures var table := Next(cfg, w, DoRollup).db.daily;
            (key, day) in table && w.db.daily[(key, day)].AtMost(table[(key, day)])
  {
    assert SoundRow(w.db.daily, (key, day), DaySamples(w.all, key, day, cfg.offset));
    if day in RollupDays(cfg, w.now) {
      RollupIsExact(cfg, w, key, day);
    } else {
      DayGroup(cfg, w, key, day);
    }
  }

  lemma SettledObserve(cfg: Config, w: World, key: string, r: Result)
    requires Basic(cfg, w) && DailySettled(cfg, w)
    ensures DailySettled(cfg, Next(cfg, w, Observe(key, r)))
  {
    var w' := Next(cfg, w, Observe(key, r));
    var row := Row(key, w.clock, r.state, r.reason);
    forall k, d | d + 1 in w'.ranOn && (w'.dailyCut.Some? ==> d >= w'.dailyCut.value)
      ensures ExactDay(cfg, w', k, d)
    {
      assert ExactDay(cfg, w, k, d);
      SamplesAppend(w.all, row, k, DayStart(d, cfg.offset), DayStart(d + 1, cfg.offset));
    }
  }

  lemma SettledDay(cfg: Config, w: World, key: string, day: int)
    requires Basic(cfg, w) && cfg.rawDays >= 2
    requires day in RollupDays(cfg, w.now) || ExactDay(cfg, w, key, day)
    ensures ExactDay(cfg, Next(cfg, w, DoRollup), key, day)
  {
    if day in RollupDays(cfg, w.now) {
      RollupIsExact(cfg, w, key, day);
    } else {
      DayGroup(cfg, w, key, day);
    }
  }

  lemma SettledRollup(cfg: Config, w: World)
    requires Basic(cfg, w) && DailySettled(cfg, w) && cfg.rawDays >= 2
    ensures DailySettled(cfg, Next(cfg, w, DoRollup))
  {
    var w' := Next(cfg, w, DoRollup);
    assert w'.ranOn == w.ranOn + {LocalDay(w.now, cfg.offset)} && w'.dailyCut == w.dailyCut;
    assert LocalDay(w.now - Days(1), cfg.offset) == LocalDay(w.now, cfg.offset) - 1;
    forall k, d | d + 1 in w'.ranOn && (w'.dailyCut.Some? ==> d >= w'.dailyCut.value)
      ensures ExactDay(cfg, w', k, d)
    {
      assert d in RollupDays(cfg, w.now) || ExactDay(cfg, w, k, d);
      SettledDay(cfg, w, k, d);
    }
  }

  lemma SettledStep(cfg: Config, w: World, event: Event)
    requires Basic(cfg, w) && DailySettled(cfg, w) && cfg.rawDays >= 2
    ensures DailySettled(cfg, Next(cfg, w, event))
  {
    var w' := Next(cfg, w, event);
    match event
    case Observe(key, r) => SettledObserve(cfg, w, key, r);
    case DoRollup => SettledRollup(cfg, w);
    case _ =>
      forall k, d | d + 1 in w'.ranOn && (w'.dailyCut.Some? ==> d >= w'.dailyCut.value)
        ensures ExactDay(cfg, w', k, d)
      {
        assert ExactDay(cfg, w, k, d);
      }
  }

  // --------------------------------------------- the hourly table and its window

  /** Every displayed hour that had ended when the last hourly rollup ran is counted in full. */
  ghost predicate HourlyFresh(cfg: Config, w: World) {
    w.lastHourly.Some? ==>
      forall k, h | HourStart(h, cfg.offset) > w.clock - Hours(cfg.hours)
                    && HourStart(h + 1, cfg.offset) <= w.lastHourly.value :: ExactHour(cfg, w, k, h)
  }

  predicate RetentionCoversStrip(cfg: Config) {
    24 * cfg.rawDays >= cfg.hours && 24 * cfg.hourlyDays >= cfg.hours
  }

  /** A whole hour after `since` is a group of the hourly rollup exactly when it has samples. */
  lemma HourHasGroup(rows: seq<Row>, key: string, hour: int, since: int, offset: int)
    requires HourStart(hour, offset) >= since
    ensures HourSamples(rows, key, hour, offset) != []
            <==> exists r :: r in rows && r.key == key && r.at >= since && LocalHour(r.at, offset) == hour
  {
    SamplesWitness(rows, key, HourStart(hour, offset), HourStart(hour + 1, offset));
    forall r: Row
      ensures LocalHour(r.at, offset) == hour <==> HourStart(hour, offset) <= r.at < HourStart(hour + 1, offset)
    {
      HourInterval(r.at, offset, hour);
    }
  }

  lemma HourlyRollupIsExact(cfg: Config, w: World, key: string, hour: int)
    requires Basic(cfg, w)
    requires HourStart(hour, cfg.offset) >= HourlySince(cfg.hours, w.now)
    requires HourStart(hour, cfg.offset) >= w.now - Days(cfg.rawDays)
    ensures ExactHour(cfg, Next(cfg, w, DoRollupHourly), key, hour)
  {
    var from, until := HourStart(hour, cfg.offset), HourStart(hour + 1, cfg.offset);
    var since := HourlySince(cfg.hours, w.now);
    assert SoundRow(w.db.hourly, (key, hour), HourSamples(w.all, key, hour, cfg.offset));
    RawComplete(cfg, w, key, from, until);
    SamplesKept(w.db.results, key, from, until, since);
    HourGroup(cfg, w, key, hour);
    HourHasGroup(w.db.results, key, hour, since, cfg.offset);
  }

  lemma FreshRollupHourly(cfg: Config, w: World)
    requires Basic(cfg, w) && RetentionCoversStrip(cfg)
    ensures HourlyFresh(cfg, Next(cfg, w, DoRollupHourly))
  {
    var w' := Next(cfg, w, DoRollupHourly);
    forall k, h | HourStart(h, cfg.offset) > w'.clock - Hours(cfg.hours) ensures ExactHour(cfg, w', k, h) {
      HourlyRollupIsExact(cfg, w, k, h);
    }
  }

  lemma FreshStep(cfg: Config, w: World, event: Event)
    requires Basic(cfg, w) && HourlyFresh(cfg, w) && RetentionCoversStrip(cfg)
    ensures HourlyFresh(cfg, Next(cfg, w, event))
  {
    var w' := Next(cfg, w, event);
    if event == DoRollupHourly {
      FreshRollupHourly(cfg, w);
    } else if w'.lastHourly.Some? {
      forall k, h | HourStart(h, cfg.offset) > w'.clock - Hours(cfg.hours)
                    && HourStart(h + 1, cfg.offset) <= w'.lastHourly.value
        ensures ExactHour(cfg, w', k, h)
      {
        assert ExactHour(cfg, w, k, h);
        if event.Observe? {
          var row := Row(event.key, w.clock, event.result.state, event.result.reason);
          SamplesAppend(w.all, row, k, HourStart(h, cfg.offset), HourStart(h + 1, cfg.offset));
        }
      }
    }
  }

  // ------------------------------------------------------ the current row is a view

  /** The rows of one check, in the order they were recorded. */
  function Observations(rows: seq<Row>, key: string): seq<Row> {
    if rows == [] then []
    else
      var last := rows[|rows| - 1];
      Observations(rows[..|rows| - 1], key) + if last.key == key then [last] else []
  }

  /** The trailing run of equal states begins at index `i`. */
  predicate TrailingRun(rows: seq<Row>, i: int)
    requires rows != []
  {
    var s := rows[|rows| - 1].state;
    0 <= i < |rows| && (forall j :: i <= j < |rows| ==> rows[j].state == s) && (i > 0 ==> rows[i - 1].state != s)
  }

  ghost predicate IsView(c: Current, rows: seq<Row>)
    requires rows != []
  {
    var last := rows[|rows| - 1];
    c.state == last.state && c.reason == last.reason && c.lastChecked == last.at
    && exists i :: TrailingRun(rows, i) && c.since == rows[i].at
  }

  ghost predicate CurrentIsView(w: World) {
    forall k ::
      var rows := Observations(w.all, k);
      var c := CurrentState(w.db, k);
      (c.Some? <==> rows != []) && (rows != [] ==> IsView(c.value, rows))
  }

  lemma ViewAfterRecord(previous: Option<Current>, rows: seq<Row>, key: string, r: Result, now: int)
    requires previous.Some? <==> rows != []
    requires rows != [] ==> IsView(previous.value, rows)
    ensures IsView(Refresh(previous, r, now), rows + [Row(key, now, r.state, r.reason)])
  {
    var rows' := rows + [Row(key, now, r.state, r.reason)];
    if rows != [] && previous.value.state == r.state {
      var i :| TrailingRun(rows, i) && previous.value.since == rows[i].at;
      assert TrailingRun(rows', i);
    } else {
      assert TrailingRun(rows', |rows|);
    }
  }

  lemma ViewStep(cfg: Config, w: World, event: Event)
    requires CurrentIsView(w)
    ensures CurrentIsView(Next(cfg, w, event))
  {
    if event.Observe? {
      var row := Row(event.key, w.clock, event.result.state, event.result.reason);
      var w' := Next(cfg, w, event);
      forall k ensures var rows := Observations(w'.all, k);
                       var c := CurrentState(w'.db, k);
                       (c.Some? <==> rows != []) && (rows != [] ==> IsView(c.value, rows))
      {
        assert w'.all[..|w'.all| - 1] == w.all;
        if k == event.key {
          ViewAfterRecord(CurrentState(w.db, k), Observations(w.all, k), k, event.result, w.clock);
        } else {
          assert Observations(w'.all, k) == Observations(w.all, k);
        }
      }
    }
  }

  // ------------------------------------------------------------- over whole runs

  lemma {:induction false} BasicAlways(cfg: Config, clock: int, events: seq<Event>)
    requires cfg.rawDays >= 0
    ensures Basic(cfg, Run(cfg, Init(clock), events))
  {
    if events != [] {
      BasicAlways(cfg, clock, events[..|events| - 1]);
      BasicStep(cfg, Run(cfg, Init(clock), events[..|events| - 1]), events[|events| - 1]);
    }
  }

  /** After any run the live row of every check is the view of all it ever recorded. */
  lemma {:induction false} CurrentRowIsAView(cfg: Config, clock: int, events: seq<Event>)
    ensures CurrentIsView(Run(cfg, Init(clock), events))
  {
    if events != [] {
      CurrentRowIsAView(cfg, clock, events[..|events| - 1]);
      ViewStep(cfg, Run(cfg, Init(clock), events[..|events| - 1]), events[|events| - 1]);
    }
  }

  /** After any run, a day on whose morrow maintenance ran is counted in full until daily
      retention drops it, and no rollup makes any daily row smaller. */
  lemma {:induction false} RecomputeNeverLosesDays(cfg: Config, clock: int, events: seq<Event>)
    requires cfg.rawDays >= 2
    ensures var w := Run(cfg, Init(clock), events);
            DailySettled(cfg, w)
            && forall k, d :: (k, d) in w.db.daily ==>
                 (k, d) in Next(cfg, w, DoRollup).db.daily
                 && w.db.daily[(k, d)].AtMost(Next(cfg, w, DoRollup).db.daily[(k, d)])
  {
    var w := Run(cfg, Init(clock), events);
    BasicAlways(cfg, clock, events);
    if events != [] {
      var before := Run(cfg, Init(clock), events[..|events| - 1]);
      RecomputeNeverLosesDays(cfg, clock, events[..|events| - 1]);
      BasicAlways(cfg, clock, events[..|events| - 1]);
      SettledStep(cfg, before, events[|events| - 1]);
    }
    forall k, d | (k, d) in w.db.daily
      ensures (k, d) in Next(cfg, w, DoRollup).db.daily
              && w.db.daily[(k, d)].AtMost(Next(cfg, w, DoRollup).db.daily[(k, d)])
    {
      RollupNeverShrinksADay(cfg, w, k, d);
    }
  }

  lemma DayRowStep(cfg: Config, w: World, event: Event, key: string, day: int)
    requires event != DoRollup
    requires var cut := Next(cfg, w, event).dailyCut; cut.Some? ==> day >= cut.value
    ensures w.dailyCut.Some? ==> day >= w.dailyCut.value
    ensures var table := Next(cfg, w, event).db.daily;
            ((key, day) in table <==> (key, day) in w.db.daily)
            && ((key, day) in w.db.daily ==> table[(key, day)] == w.db.daily[(key, day)])
  {
  }

  /** Between two rollups a daily row that retention does not drop stays as it is. */
  lemma {:induction false} DayRowsLastBetweenRollups(cfg: Config, w: World, more: seq<Event>, key: string, day: int)
    requires DoRollup !in more
    requires var cut := Run(cfg, w, more).dailyCut; cut.Some? ==> day >= cut.value
    ensures var w' := Run(cfg, w, more);
            ((key, day) in w'.db.daily <==> (key, day) in w.db.daily)
            && ((key, day) in w.db.daily ==> w'.db.daily[(key, day)] == w.db.daily[(key, day)])
  {
    hide Next;
    if more != [] {
      var init, event := more[..|more| - 1], more[|more| - 1];
      assert more == init + [event] && event in more;
      DayRowStep(cfg, Run(cfg, w, init), event, key, day);
      DayRowsLastBetweenRollups(cfg, w, init, key, day);
    }
  }

  /** Between rollups, the rows of the last rollup's day and of the day before count all that
      was recorded up to that rollup. */
  lemma DaysCountUpToTheLastRollup(
      cfg: Config, clock: int, events: seq<Event>, more: seq<Event>, w: World, later: World, key: string, day: int)
    requires w == Run(cfg, Init(clock), events) && later == Run(cfg, Next(cfg, w, DoRollup), more)
    requires cfg.rawDays >= 2 && DoRollup !in more && day in RollupDays(cfg, w.now)
    requires later.dailyCut.Some? ==> day >= later.dailyCut.value
    ensures ExactRow(later.db.daily, key, day, DaySamples(w.all, key, day, cfg.offset))
  {
    BasicAlways(cfg, clock, events);
    RollupIsExact(cfg, w, key, day);
    DayRowsLastBetweenRollups(cfg, Next(cfg, w, DoRollup), more, key, day);
  }

  lemma {:induction false} HourlyAlwaysFresh(cfg: Config, clock: int, events: seq<Event>)
    requires RetentionCoversStrip(cfg)
    ensures HourlyFresh(cfg, Run(cfg, Init(clock), events))
  {
    if events != [] {
      HourlyAlwaysFresh(cfg, clock, events[..|events| - 1]);
      BasicAlways(cfg, clock, events[..|events| - 1]);
      FreshStep(cfg, Run(cfg, Init(clock), events[..|events| - 1]), events[|events| - 1]);
    }
  }

  // -------------------------------------------------- the hourly strip is a recount

  /** A cell counted straight from everything the check ever recorded in that hour. */
  function RecountedHour(cfg: Config, w: World, key: string, hour: int): Cell {
    CellOf(hour, Tally(HourSamples(w.all, key, hour, cfg.offset)))
  }

  lemma LiveHour(cfg: Config, w: World, key: string)
    requires Basic(cfg, w) && cfg.rawDays >= 1
    ensures var live := LocalHour(w.clock, cfg.offset);
            HourCell(w.db, key, live, live, cfg.offset) == RecountedHour(cfg, w, key, live)
            && LiveSamples(w.db.results, key, HourStart(live, cfg.offset)) == HourSamples(w.all, key, live, cfg.offset)
  {
    var live := LocalHour(w.clock, cfg.offset);
    var from, until := HourStart(live, cfg.offset), HourStart(live + 1, cfg.offset);
    HourInterval(w.clock, cfg.offset, live);
    RowsAreRecorded(cfg, w);
    LiveIsHour(w.db.results, key, from, until);
    RawComplete(cfg, w, key, from, until);
    assert SoundRow(w.db.hourly, (key, live), HourSamples(w.all, key, live, cfg.offset));
  }

  /** Rows past an hour that the raw table still covers are all in it. */
  lemma LaterRowsAreKept(cfg: Config, w: World, key: string, from: int, until: int)
    requires Basic(cfg, w) && w.now - Days(cfg.rawDays) <= from <= until
    ensures (forall r :: r in w.db.results && r.key == key ==> r.at < until)
            <==> (forall r :: r in w.all && r.key == key ==> r.at < until)
  {
    if w.cut.Some? { KeptMembers(w.all, w.cut.value); }
  }

  lemma LiveCellAt(cfg: Config, w: World, key: string, live: int)
    requires Basic(cfg, w) && w.now - Days(cfg.rawDays) <= HourStart(live, cfg.offset)
    ensures HourCell(w.db, key, live, live, cfg.offset) == RecountedHour(cfg, w, key, live)
            <==> forall r :: r in w.all && r.key == key ==> r.at < HourStart(live + 1, cfg.offset)
  {
    hide Tally, LiveSamples, Samples, DayState, Kept;
    var from, until := HourStart(live, cfg.offset), HourStart(live + 1, cfg.offset);
    var samples, hour := LiveSamples(w.db.results, key, from), HourSamples(w.all, key, live, cfg.offset);
    LiveCountsTheRest(w.db.results, key, from, until);
    RawComplete(cfg, w, key, from, until);
    LaterRowsAreKept(cfg, w, key, from, until);
    assert SoundRow(w.db.hourly, (key, live), hour);
    if samples == [] {
      EmptyCell(live);
    } else if |samples| != |hour| {
      CellsDiffer(live, samples, hour);
    }
  }

  lemma EmptyCell(index: int)
    ensures CellOf(index, Tally([])) == Cell(index, Unknown, NO_COUNTS)
  {
  }

  lemma CellsDiffer(index: int, a: seq<State>, b: seq<State>)
    requires |a| != |b|
    ensures CellOf(index, Tally(a)) != CellOf(index, Tally(b))
  {
    TallyTotal(a);
    TallyTotal(b);
  }

  /** The newest cell needs no rollup. Read with a clock reading `now` that may be older than
      the query, while the raw rows still cover its hour, it is a recount exactly when no row
      of the check lies past that hour: the live query has no upper end. */
  lemma LiveCellIsExact(cfg: Config, clock: int, events: seq<Event>, w: World, key: string, now: int)
    requires w == Run(cfg, Init(clock), events) && cfg.rawDays >= 0
    requires now <= w.clock <= HourStart(LocalHour(now, cfg.offset), cfg.offset) + Days(cfg.rawDays)
    ensures var live := LocalHour(now, cfg.offset);
            HourCell(w.db, key, live, live, cfg.offset) == RecountedHour(cfg, w, key, live)
            <==> forall r :: r in w.all && r.key == key ==> r.at < HourStart(live + 1, cfg.offset)
  {
    BasicAlways(cfg, clock, events);
    LiveCellAt(cfg, w, key, LocalHour(now, cfg.offset));
  }

  /** An hourly rollup ran since the top of the current local hour. */
  predicate RolledUpThisHour(cfg: Config, w: World) {
    w.lastHourly.Some? && w.lastHourly.value >= HourStart(LocalHour(w.clock, cfg.offset), cfg.offset)
  }

  predicate Displayed(cfg: Config, w: World, hour: int) {
    var live := LocalHour(w.clock, cfg.offset);
    live - cfg.hours < hour <= live
  }

  lemma DisplayedHour(cfg: Config, w: World, key: string, hour: int)
    requires Basic(cfg, w) && HourlyFresh(cfg, w) && RetentionCoversStrip(cfg)
    requires Displayed(cfg, w, hour) && RolledUpThisHour(cfg, w)
    ensures HourCell(w.db, key, hour, LocalHour(w.clock, cfg.offset), cfg.offset) == RecountedHour(cfg, w, key, hour)
  {
    HourInterval(w.clock, cfg.offset, LocalHour(w.clock, cfg.offset));
    if hour == LocalHour(w.clock, cfg.offset) {
      LiveHour(cfg, w, key);
    } else {
      assert ExactHour(cfg, w, key, hour);
    }
  }

  /** If the rollup ran since the top of the hour and both retentions cover the strip, every
      displayed cell, cached or live, is what a recount of all samples gives. */
  lemma HourlyStripIsARecount(cfg: Config, clock: int, events: seq<Event>, w: World, key: string, hour: int)
    requires w == Run(cfg, Init(clock), events) && RetentionCoversStrip(cfg)
    requires Displayed(cfg, w, hour) && RolledUpThisHour(cfg, w)
    ensures HourCell(w.db, key, hour, LocalHour(w.clock, cfg.offset), cfg.offset) == RecountedHour(cfg, w, key, hour)
  {
    BasicAlways(cfg, clock, events);
    HourlyAlwaysFresh(cfg, clock, events);
    DisplayedHour(cfg, w, key, hour);
  }

  lemma CachedExactlyWhenSampled(cfg: Config, w: World, key: string, hour: int)
    requires Basic(cfg, w) && HourlyFresh(cfg, w) && RolledUpThisHour(cfg, w)
    requires Displayed(cfg, w, hour) && hour < LocalHour(w.clock, cfg.offset)
    ensures (key, hour) in w.db.hourly <==> HourSamples(w.all, key, hour, cfg.offset) != []
  {
    HourInterval(w.clock, cfg.offset, LocalHour(w.clock, cfg.offset));
    assert ExactHour(cfg, w, key, hour);
  }

  lemma SeriesFromRows(db: Tables, all: seq<Row>, key: string, live: int, hours: nat, offset: int)
    requires hours >= 1
    requires forall h :: live - hours < h < live ==> ((key, h) in db.hourly <==> HourSamples(all, key, h, offset) != [])
    requires (key, live) in db.hourly ==> HourSamples(all, key, live, offset) != []
    requires LiveSamples(db.results, key, HourStart(live, offset)) == HourSamples(all, key, live, offset)
    ensures HasHourSeries(db, key, live, hours, offset)
            <==> exists h :: live - hours < h <= live && HourSamples(all, key, h, offset) != []
  {
  }

  lemma SeriesExactlyWhenSampled(cfg: Config, w: World, key: string, live: int)
    requires Basic(cfg, w) && HourlyFresh(cfg, w) && RolledUpThisHour(cfg, w)
    requires live == LocalHour(w.clock, cfg.offset) && cfg.hours >= 1 && cfg.rawDays >= 1
    ensures HasHourSeries(w.db, key, live, cfg.hours, cfg.offset)
            <==> exists h :: live - cfg.hours < h <= live && HourSamples(w.all, key, h, cfg.offset) != []
  {
    LiveHour(cfg, w, key);
    assert SoundRow(w.db.hourly, (key, live), HourSamples(w.all, key, live, cfg.offset));
    forall h | live - cfg.hours < h < live
      ensures (key, h) in w.db.hourly <==> HourSamples(w.all, key, h, cfg.offset) != []
    {
      CachedExactlyWhenSampled(cfg, w, key, h);
    }
    SeriesFromRows(w.db, w.all, key, live, cfg.hours, cfg.offset);
  }

  /** A check has a series exactly when it recorded a sample in the window. */
  lemma SeriesExistsExactlyForSampledChecks(cfg: Config, clock: int, events: seq<Event>, w: World, key: string)
    requires w == Run(cfg, Init(clock), events)
    requires RetentionCoversStrip(cfg) && cfg.hours >= 1 && RolledUpThisHour(cfg, w)
    ensures var live := LocalHour(w.clock, cfg.offset);
            HasHourSeries(w.db, key, live, cfg.hours, cfg.offset)
            <==> exists h :: live - cfg.hours < h <= live && HourSamples(w.all, key, h, cfg.offset) != []
  {
    BasicAlways(cfg, clock, events);
    HourlyAlwaysFresh(cfg, clock, events);
    SeriesExactlyWhenSampled(cfg, w, key, LocalHour(w.clock, cfg.offset));
  }

  // --------------------------------------------- the hourly table keeps its history

  /** Enough raw rows that the bucket holding `since` is still whole, in a zone whose hours
      are those of UTC. */
  predicate HourlyLossless(cfg: Config) {
    24 * cfg.rawDays >= cfg.hours + 1 && WholeHours(cfg.offset)
  }

  lemma SinceIsAnHourStart(cfg: Config, now: int, at: int, hour: int)
    requires WholeHours(cfg.offset)
    requires at >= HourlySince(cfg.hours, now) && LocalHour(at, cfg.offset) == hour
    ensures HourStart(hour, cfg.offset) >= HourlySince(cfg.hours, now) > now - Hours(cfg.hours + 1)
  {
    HourInterval(at, cfg.offset, hour);
  }

  lemma HourlyRollupKeepsRow(cfg: Config, w: World, key: string, hour: int)
    requires Basic(cfg, w) && HourlyLossless(cfg)
    ensures var w' := Next(cfg, w, DoRollupHourly);
            ExactHour(cfg, w', key, hour)
            || (((key, hour) in w'.db.hourly <==> (key, hour) in w.db.hourly)
                && ((key, hour) in w.db.hourly ==> w'.db.hourly[(key, hour)] == w.db.hourly[(key, hour)]))
  {
    HourGroup(cfg, w, key, hour);
    if r: Row :| r in w.db.results && r.key == key && r.at >= HourlySince(cfg.hours, w.now)
                 && LocalHour(r.at, cfg.offset) == hour {
      SinceIsAnHourStart(cfg, w.now, r.at, hour);
      HourlyRollupIsExact(cfg, w, key, hour);
    }
  }

  /** No hourly rollup makes a cached hour smaller. */
  lemma HourlyRollupNeverShrinks(cfg: Config, clock: int, events: seq<Event>, key: string, hour: int)
    requires HourlyLossless(cfg)
    requires (key, hour) in Run(cfg, Init(clock), events).db.hourly
    ensures var w := Run(cfg, Init(clock), events);
            var table := Next(cfg, w, DoRollupHourly).db.hourly;
            (key, hour) in table && w.db.hourly[(key, hour)].AtMost(table[(key, hour)])
  {
    var w := Run(cfg, Init(clock), events);
    BasicAlways(cfg, clock, events);
    assert SoundRow(w.db.hourly, (key, hour), HourSamples(w.all, key, hour, cfg.offset));
    HourlyRollupKeepsRow(cfg, w, key, hour);
  }

  lemma ExactHourStep(cfg: Config, w: World, event: Event, key: string, hour: int)
    requires Basic(cfg, w) && HourlyLossless(cfg)
    requires ExactHour(cfg, w, key, hour) && HourStart(hour + 1, cfg.offset) <= w.clock
    requires Hours(hour) >= HourlyCut(cfg.hourlyDays, w.now, cfg.offset)
    ensures ExactHour(cfg, Next(cfg, w, event), key, hour)
  {
    match event
    case Observe(k, r) =>
      var row := Row(k, w.clock, r.state, r.reason);
      SamplesAppend(w.all, row, key, HourStart(hour, cfg.offset), HourStart(hour + 1, cfg.offset));
    case DoRollupHourly => HourlyRollupKeepsRow(cfg, w, key, hour);
    case _ =>
  }

  /** An ended hour that is counted in full stays so through any further run, until hourly
      retention drops it. */
  lemma {:induction false} ExactHoursLast(cfg: Config, clock: int, events: seq<Event>, more: seq<Event>, key: string,
      hour: int)
    requires HourlyLossless(cfg)
    requires var w := Run(cfg, Init(clock), events);
             ExactHour(cfg, w, key, hour) && HourStart(hour + 1, cfg.offset) <= w.clock
    ensures var w := Run(cfg, Init(clock), events);
            var w' := Run(cfg, w, more);
            Basic(cfg, w') && HourStart(hour + 1, cfg.offset) <= w'.clock
            && (Hours(hour) >= HourlyCut(cfg.hourlyDays, w'.clock, cfg.offset) ==> ExactHour(cfg, w', key, hour))
  {
    var w := Run(cfg, Init(clock), events);
    BasicAlways(cfg, clock, events);
    if more != [] {
      var before, event := Run(cfg, w, more[..|more| - 1]), more[|more| - 1];
      var after := Next(cfg, before, event);
      ExactHoursLast(cfg, clock, events, more[..|more| - 1], key, hour);
      BasicStep(cfg, before, event);
      ClockAdvances(cfg, before, event);
      CutMonotone(cfg, before.clock, after.clock);
      CutMonotone(cfg, before.now, after.clock);
      if Hours(hour) >= HourlyCut(cfg.hourlyDays, after.clock, cfg.offset) {
        ExactHourStep(cfg, before, event, key, hour);
      }
    }
  }

  lemma ClockAdvances(cfg: Config, w: World, event: Event)
    ensures w.clock <= Next(cfg, w, event).clock
  {
  }

  lemma CutMonotone(cfg: Config, now: int, later: int)
    requires now <= later
    ensures HourlyCut(cfg.hourlyDays, now, cfg.offset) <= HourlyCut(cfg.hourlyDays, later, cfg.offset)
  {
  }

  // ------------------------------------------- a strip read after its clock reading

  lemma {:induction false} BasicLasts(cfg: Config, w: World, more: seq<Event>)
    requires cfg.rawDays >= 0 && Basic(cfg, w)
    ensures Basic(cfg, Run(cfg, w, more))
  {
    hide Basic, Next;
    if more != [] {
      BasicLasts(cfg, w, more[..|more| - 1]);
      BasicStep(cfg, Run(cfg, w, more[..|more| - 1]), more[|more| - 1]);
    }
  }

  /** What is displayed for an hour that had ended at the clock reading still counts all of it
      when the tables are read. */
  lemma EndedHourReadLater(
      cfg: Config, clock: int, events: seq<Event>, more: seq<Event>, w0: World, w: World, key: string, hour: int)
    requires w0 == Run(cfg, Init(clock), events) && w == Run(cfg, w0, more)
    requires HourlyLossless(cfg) && RetentionCoversStrip(cfg) && RolledUpThisHour(cfg, w0)
    requires Displayed(cfg, w0, hour) && hour < LocalHour(w0.clock, cfg.offset)
    requires Hours(hour) >= HourlyCut(cfg.hourlyDays, w.clock, cfg.offset)
    ensures ExactHour(cfg, w, key, hour)
  {
    hide Run, Next;
    HourlyAlwaysFresh(cfg, clock, events);
    HourInterval(w0.clock, cfg.offset, LocalHour(w0.clock, cfg.offset));
    assert ExactHour(cfg, w0, key, hour);
    ExactHoursLast(cfg, clock, events, more, key, hour);
  }

  /** The program reads the clock before it reads the tables. Whatever happens in between, while
      retention keeps the displayed hours, every cell is still what a recount gives; the newest
      one unless a row was written past its hour. */
  lemma HourlyStripReadLaterIsARecount(
      cfg: Config, clock: int, events: seq<Event>, more: seq<Event>, w0: World, w: World, key: string, hour: int)
    requires w0 == Run(cfg, Init(clock), events) && w == Run(cfg, w0, more)
    requires HourlyLossless(cfg) && RetentionCoversStrip(cfg) && RolledUpThisHour(cfg, w0) && Displayed(cfg, w0, hour)
    requires Hours(hour) >= HourlyCut(cfg.hourlyDays, w.clock, cfg.offset)
    requires var live := LocalHour(w0.clock, cfg.offset);
             w.clock <= HourStart(live, cfg.offset) + Days(cfg.rawDays)
             && (hour == live ==> forall r :: r in w.all && r.key == key ==> r.at < HourStart(live + 1, cfg.offset))
    ensures var live := LocalHour(w0.clock, cfg.offset);
            HourCell(w.db, key, hour, live, cfg.offset) == RecountedHour(cfg, w, key, hour)
            && (!HasHourSeries(w.db, key, live, cfg.hours, cfg.offset) ==>
                  HourSamples(w.all, key, hour, cfg.offset) == [])
  {
    hide Run, Next, Basic;
    var live := LocalHour(w0.clock, cfg.offset);
    BasicAlways(cfg, clock, events);
    BasicLasts(cfg, w0, more);
    if hour < live {
      EndedHourReadLater(cfg, clock, events, more, w0, w, key, hour);
    } else {
      LiveHourReadLater(cfg, w, key, live);
    }
  }

  lemma LiveHourReadLater(cfg: Config, w: World, key: string, live: int)
    requires Basic(cfg, w) && w.clock <= HourStart(live, cfg.offset) + Days(cfg.rawDays)
    requires forall r :: r in w.all && r.key == key ==> r.at < HourStart(live + 1, cfg.offset)
    ensures HourCell(w.db, key, live, live, cfg.offset) == RecountedHour(cfg, w, key, live)
    ensures LiveSamples(w.db.results, key, HourStart(live, cfg.offset)) == [] ==>
              HourSamples(w.all, key, live, cfg.offset) == []
  {
    var from, until := HourStart(live, cfg.offset), HourStart(live + 1, cfg.offset);
    LiveCellAt(cfg, w, key, live);
    LiveCountsTheRest(w.db.results, key, from, until);
    RawComplete(cfg, w, key, from, until);
  }
}
