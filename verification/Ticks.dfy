/** One maintenance tick: both rollups, and the prunes when they are due. */
module Ticks {
  import opened States
  import opened Clock
  import opened Options
  import opened Store
  import opened History

  datatype MaintenanceFaults = MaintenanceFaults(rollupOk: bool, hourlyOk: bool, rawOk: bool, dailyOk: bool,
      pruneHourlyOk: bool)

  /** The statements of one maintenance tick, in order; the prunes only when they are due. */
  function TickEvents(due: bool, f: MaintenanceFaults): seq<Event> {
    [Begin]
    + (if f.rollupOk then [DoRollup] else [])
    + (if f.hourlyOk then [DoRollupHourly] else [])
    + (if due && f.rawOk then [DoPruneRaw] else [])
    + (if due && f.rawOk && f.dailyOk then [DoPruneDaily] else [])
    + (if due && f.pruneHourlyOk then [DoPruneHourly] else [])
  }

  lemma RunMaybe(cfg: Config, w: World, events: seq<Event>, on: bool, event: Event)
    ensures Run(cfg, w, events + if on then [event] else []) ==
            if on then Next(cfg, Run(cfg, w, events), event) else Run(cfg, w, events)
  {
    if on {
      assert (events + [event])[..|events + [event]| - 1] == events;
    } else {
      assert events + [] == events;
    }
  }

  function RolledUp(h: Config, now: int, db: Tables, f: MaintenanceFaults): Tables {
    var db1 := if f.rollupOk then Rollup(db, RollupDays(h, now), h.offset) else db;
    if f.hourlyOk then RollupHourly(db1, h.hours, now, h.offset) else db1
  }

  function Pruned(h: Config, now: int, db: Tables, f: MaintenanceFaults): Tables {
    var db1 := if f.rawOk then PruneRaw(db, h.rawDays, now) else db;
    var db2 := if f.rawOk && f.dailyOk then PruneDaily(db1, h.dailyDays, now, h.offset) else db1;
    if f.pruneHourlyOk then PruneHourly(db2, h.hourlyDays, now, h.offset) else db2
  }

  lemma RunOne(h: Config, w: World)
    ensures Run(h, w, [Begin]) == Next(h, w, Begin)
  {
    RunMaybe(h, w, [], true, Begin);
    assert [] + [Begin] == [Begin];
  }

  /** The statements of a tick leave what the two halves leave. */
  lemma TickRun(h: Config, w: World, due: bool, f: MaintenanceFaults)
    ensures Run(h, w, TickEvents(due, f)).db ==
            if due then Pruned(h, w.clock, RolledUp(h, w.clock, w.db, f), f) else RolledUp(h, w.clock, w.db, f)
  {
    hide Run, Rollup, RollupHourly, PruneRaw, PruneDaily, PruneHourly;
    var e0 := [Begin];
    RunOne(h, w);
    var e1 := e0 + if f.rollupOk then [DoRollup] else [];
    var e2 := e1 + if f.hourlyOk then [DoRollupHourly] else [];
    var e3 := e2 + if due && f.rawOk then [DoPruneRaw] else [];
    var e4 := e3 + if due && f.rawOk && f.dailyOk then [DoPruneDaily] else [];
    RunMaybe(h, w, e0, f.rollupOk, DoRollup);
    RunMaybe(h, w, e1, f.hourlyOk, DoRollupHourly);
    RunMaybe(h, w, e2, due && f.rawOk, DoPruneRaw);
    RunMaybe(h, w, e3, due && f.rawOk && f.dailyOk, DoPruneDaily);
    RunMaybe(h, w, e4, due && f.pruneHourlyOk, DoPruneHourly);
  }

  // ------------------------------------------------ what a tick leaves, row by row

  /** Exactly the raw rows that no due prune drops, as often as they were there. */
  ghost predicate RawAfter(h: Config, now: int, due: bool, f: MaintenanceFaults, db: Tables, db': Tables) {
    if due && f.rawOk then
      forall r ::
        multiset(db'.results)[r] == if r.at >= now - Days(h.rawDays) then multiset(db.results)[r] else 0
    else db'.results == db.results
  }

  /** One row of a derived table: counted anew where a rollup found samples, gone where a
      prune passed it, and otherwise as it was. */
  ghost predicate RowAfter(
      table: map<(string, int), Counts>, table': map<(string, int), Counts>, g: (string, int),
      samples: seq<State>, rolled: bool, kept: bool) {
    var anew := rolled && samples != [];
    && (g in table' <==> kept && (anew || g in table))
    && (g in table' ==> table'[g] == if anew then Tally(samples) else table[g])
  }

  ghost predicate DayAfter(
      h: Config, now: int, due: bool, f: MaintenanceFaults, db: Tables, db': Tables, key: string, day: int) {
    var today := LocalDay(now, h.offset);
    RowAfter(db.daily, db'.daily, (key, day), DaySamples(db.results, key, day, h.offset),
             f.rollupOk && today - 1 <= day <= today, !(due && f.rawOk && f.dailyOk) || day >= today - h.dailyDays)
  }

  /** The hourly rollup reads raw rows from the top of the (UTC) hour in which the strip
      begins. */
  ghost predicate HourAfter(
      h: Config, now: int, due: bool, f: MaintenanceFaults, db: Tables, db': Tables, key: string, hour: int) {
    var since, from := HourFloor(now - Hours(h.hours)), HourStart(hour, h.offset);
    RowAfter(db.hourly, db'.hourly, (key, hour),
             Samples(db.results, key, if from >= since then from else since, HourStart(hour + 1, h.offset)),
             f.hourlyOk,
             !(due && f.pruneHourlyOk) || Hours(hour) >= MinuteFloor(now + h.offset - Days(h.hourlyDays)))
  }

  ghost predicate TickLeaves(h: Config, now: int, due: bool, f: MaintenanceFaults, db: Tables, db': Tables) {
    && RawAfter(h, now, due, f, db, db')
    && (forall k, d :: DayAfter(h, now, due, f, db, db', k, d))
    && (forall k, hour :: HourAfter(h, now, due, f, db, db', k, hour))
    && db'.current == db.current && db'.breakers == db.breakers
  }

  lemma RollupRow(db: Tables, days: set<int>, offset: int, key: string, day: int)
    ensures RowAfter(db.daily, Rollup(db, days, offset).daily, (key, day), DaySamples(db.results, key, day, offset),
                     day in days, true)
  {
    hide Tally, DaySamples;
    DayHasGroup(db.results, key, day, offset);
  }

  lemma HourOfSamples(rows: seq<Row>, key: string, hour: int, since: int, offset: int)
    ensures var from := HourStart(hour, offset);
            Samples(rows, key, if from >= since then from else since, HourStart(hour + 1, offset)) != []
            <==> exists r :: r in rows && r.key == key && r.at >= since && LocalHour(r.at, offset) == hour
  {
    var from := HourStart(hour, offset);
    SamplesWitness(rows, key, if from >= since then from else since, HourStart(hour + 1, offset));
    forall r: Row
      ensures LocalHour(r.at, offset) == hour <==> from <= r.at < HourStart(hour + 1, offset)
    {
      HourInterval(r.at, offset, hour);
    }
  }

  lemma RollupHourlyRow(db: Tables, hours: nat, now: int, offset: int, key: string, hour: int)
    ensures var since, from := HourFloor(now - Hours(hours)), HourStart(hour, offset);
            RowAfter(db.hourly, RollupHourly(db, hours, now, offset).hourly, (key, hour),
                     Samples(db.results, key, if from >= since then from else since, HourStart(hour + 1, offset)),
                     true, true)
  {
    hide Tally, Samples, Kept, HourFloor;
    HourOfSamples(db.results, key, hour, HourFloor(now - Hours(hours)), offset);
    SamplesKept(db.results, key, HourStart(hour, offset), HourStart(hour + 1, offset), HourFloor(now - Hours(hours)));
  }

  lemma DayLeft(h: Config, now: int, due: bool, f: MaintenanceFaults, db: Tables, db': Tables, key: string, day: int)
    requires db' == if due then Pruned(h, now, RolledUp(h, now, db, f), f) else RolledUp(h, now, db, f)
    ensures DayAfter(h, now, due, f, db, db', key, day)
  {
    hide Tally, DaySamples, Kept, Rollup, RollupHourly;
    RollupRow(db, RollupDays(h, now), h.offset, key, day);
    assert day in RollupDays(h, now) <==> LocalDay(now, h.offset) - 1 <= day <= LocalDay(now, h.offset);
    OnlyDaily(db, RollupDays(h, now), h.offset);
    OnlyHourly(if f.rollupOk then Rollup(db, RollupDays(h, now), h.offset) else db, h.hours, now, h.offset);
  }

  lemma OnlyDaily(db: Tables, days: set<int>, offset: int)
    ensures var db' := Rollup(db, days, offset); db' == db.(daily := db'.daily)
  {
  }

  lemma OnlyHourly(db: Tables, hours: nat, now: int, offset: int)
    ensures var db' := RollupHourly(db, hours, now, offset); db' == db.(hourly := db'.hourly)
  {
  }

  lemma HourLeft(h: Config, now: int, due: bool, f: MaintenanceFaults, db: Tables, db': Tables, key: string, hour: int)
    requires db' == if due then Pruned(h, now, RolledUp(h, now, db, f), f) else RolledUp(h, now, db, f)
    ensures HourAfter(h, now, due, f, db, db', key, hour)
  {
    hide Tally, Samples, Kept, Rollup, RollupHourly, HourFloor, MinuteFloor, DailyCut;
    var db1 := if f.rollupOk then Rollup(db, RollupDays(h, now), h.offset) else db;
    OnlyDaily(db, RollupDays(h, now), h.offset);
    OnlyHourly(db1, h.hours, now, h.offset);
    RollupHourlyRow(db1, h.hours, now, h.offset, key, hour);
  }

  lemma RestLeft(h: Config, now: int, due: bool, f: MaintenanceFaults, db: Tables, db': Tables)
    requires db' == if due then Pruned(h, now, RolledUp(h, now, db, f), f) else RolledUp(h, now, db, f)
    ensures RawAfter(h, now, due, f, db, db') && db'.current == db.current && db'.breakers == db.breakers
  {
    hide Kept, Rollup, RollupHourly, DailyCut, HourlyCut;
    var db1 := if f.rollupOk then Rollup(db, RollupDays(h, now), h.offset) else db;
    OnlyDaily(db, RollupDays(h, now), h.offset);
    OnlyHourly(db1, h.hours, now, h.offset);
    forall r { KeptTimes(db.results, now - Days(h.rawDays), r); }
  }

  /** What a tick leaves of every row of every table, whatever the tables were and whichever
      statements failed. */
  lemma TickLeavesEveryRow(h: Config, w: World, due: bool, f: MaintenanceFaults)
    ensures TickLeaves(h, w.clock, due, f, w.db, Run(h, w, TickEvents(due, f)).db)
  {
    hide Run, TickEvents, RolledUp, Pruned, RawAfter, DayAfter, HourAfter;
    var db' := Run(h, w, TickEvents(due, f)).db;
    TickRun(h, w, due, f);
    RestLeft(h, w.clock, due, f, w.db, db');
    forall k, d ensures DayAfter(h, w.clock, due, f, w.db, db', k, d) {
      DayLeft(h, w.clock, due, f, w.db, db', k, d);
    }
    forall k, hour ensures HourAfter(h, w.clock, due, f, w.db, db', k, hour) {
      HourLeft(h, w.clock, due, f, w.db, db', k, hour);
    }
  }

  /** A due tick without faults leaves no row older than its cutoff; one that is not due deletes
      nothing. */
  lemma OldRowsGoWhenDue(h: Config, now: int, due: bool, f: MaintenanceFaults, db: Tables, db': Tables)
    requires TickLeaves(h, now, due, f, db, db')
    ensures due && f.rawOk && f.dailyOk && f.pruneHourlyOk ==>
              (forall r :: r in db'.results ==> r.at >= now - Days(h.rawDays))
              && (forall g :: g in db'.daily ==> g.1 >= LocalDay(now, h.offset) - h.dailyDays)
              && (forall g :: g in db'.hourly ==> Hours(g.1) >= MinuteFloor(now + h.offset - Days(h.hourlyDays)))
    ensures !due ==> db'.results == db.results && db.daily.Keys <= db'.daily.Keys && db.hourly.Keys <= db'.hourly.Keys
  {
    hide DaySamples, Samples, Tally, MinuteFloor, HourFloor;
    forall r | r in db'.results && due && f.rawOk ensures r.at >= now - Days(h.rawDays) {
      assert r in multiset(db'.results);
    }
    forall g: (string, int)
      ensures due && f.rawOk && f.dailyOk && g in db'.daily ==> g.1 >= LocalDay(now, h.offset) - h.dailyDays
      ensures !due && g in db.daily ==> g in db'.daily
    {
      assert g == (g.0, g.1) && DayAfter(h, now, due, f, db, db', g.0, g.1);
    }
    forall g: (string, int)
      ensures due && f.pruneHourlyOk && g in db'.hourly ==>
                Hours(g.1) >= MinuteFloor(now + h.offset - Days(h.hourlyDays))
      ensures !due && g in db.hourly ==> g in db'.hourly
    {
      assert g == (g.0, g.1) && HourAfter(h, now, due, f, db, db', g.0, g.1);
    }
  }

  // ------------------------------------------------- what the readers get from a tick

  lemma {:induction false} RunTwice(h: Config, w: World, a: seq<Event>, b: seq<Event>)
    ensures Run(h, w, a + b) == Run(h, Run(h, w, a), b)
  {
    hide Next;
    if b == [] {
      assert a + b == a;
    } else {
      RunTwice(h, w, a, b[..|b| - 1]);
      assert (a + b)[..|a + b| - 1] == a + b[..|b| - 1];
    }
  }

  /** What a tick enters into the account of the run. */
  lemma TickAccount(h: Config, w: World, due: bool, f: MaintenanceFaults)
    ensures var w' := Run(h, w, TickEvents(due, f));
            w'.clock == w.clock && w'.all == w.all
            && w'.lastHourly == (if f.hourlyOk then Some(w.clock) else w.lastHourly)
            && w'.ranOn == w.ranOn + (if f.rollupOk then {LocalDay(w.clock, h.offset)} else {})
            && (f.hourlyOk ==> RolledUpThisHour(h, w'))
  {
    HourInterval(w.clock, h.offset, LocalHour(w.clock, h.offset));
    hide Run, Rollup, RollupHourly, PruneRaw, PruneDaily, PruneHourly;
    var e0 := [Begin];
    RunOne(h, w);
    var e1 := e0 + if f.rollupOk then [DoRollup] else [];
    var e2 := e1 + if f.hourlyOk then [DoRollupHourly] else [];
    var e3 := e2 + if due && f.rawOk then [DoPruneRaw] else [];
    var e4 := e3 + if due && f.rawOk && f.dailyOk then [DoPruneDaily] else [];
    RunMaybe(h, w, e0, f.rollupOk, DoRollup);
    RunMaybe(h, w, e1, f.hourlyOk, DoRollupHourly);
    RunMaybe(h, w, e2, due && f.rawOk, DoPruneRaw);
    RunMaybe(h, w, e3, due && f.rawOk && f.dailyOk, DoPruneDaily);
    RunMaybe(h, w, e4, due && f.pruneHourlyOk, DoPruneHourly);
  }

  /** A later moment of the same local hour still counts as rolled up. */
  lemma {:induction false} RolledUpAllHour(h: Config, w: World, more: seq<Event>, since: int)
    requires w.lastHourly.Some? && w.lastHourly.value >= since && w.clock >= since
    ensures var w' := Run(h, w, more);
            w'.lastHourly.Some? && w'.lastHourly.value >= since && w'.clock >= since
  {
    hide RecordResult, Rollup, RollupHourly, PruneRaw, PruneDaily, PruneHourly;
    if more != [] { RolledUpAllHour(h, w, more[..|more| - 1], since); }
  }

  /** After a tick whose hourly rollup succeeded, and for the rest of that local hour, whatever else
      happens in it, every displayed cell of the hour strip is what a recount gives. */
  lemma TheHourOfATickIsARecount(
      h: Config, clock: int, events: seq<Event>, due: bool, f: MaintenanceFaults, more: seq<Event>, w: World,
      key: string, hour: int)
    requires f.hourlyOk && RetentionCoversStrip(h)
    requires w == Run(h, Init(clock), events + TickEvents(due, f) + more)
    requires LocalHour(w.clock, h.offset) == LocalHour(Run(h, Init(clock), events).clock, h.offset)
    requires Displayed(h, w, hour)
    ensures HourCell(w.db, key, hour, LocalHour(w.clock, h.offset), h.offset) == RecountedHour(h, w, key, hour)
  {
    hide Run, TickEvents, HourCell, RecountedHour, HourStart;
    var w0 := Run(h, Init(clock), events);
    var w1 := Run(h, w0, TickEvents(due, f));
    RunTwice(h, Init(clock), events, TickEvents(due, f));
    RunTwice(h, Init(clock), events + TickEvents(due, f), more);
    TickAccount(h, w0, due, f);
    HourInterval(w0.clock, h.offset, LocalHour(w0.clock, h.offset));
    RolledUpAllHour(h, w1, more, HourStart(LocalHour(w0.clock, h.offset), h.offset));
    HourlyStripIsARecount(h, clock, events + TickEvents(due, f) + more, w, key, hour);
  }

  lemma RecentDayIsWhole(h: Config, w: World, key: string, day: int)
    requires Basic(h, w) && h.rawDays >= 2 && LocalDay(w.clock, h.offset) - 1 <= day
    ensures DaySamples(w.db.results, key, day, h.offset) == DaySamples(w.all, key, day, h.offset)
  {
    hide Basic;
    assert w.now <= w.clock by { NowIsPast(h, w); }
    DayInterval(w.clock, h.offset, LocalDay(w.clock, h.offset));
    RawComplete(h, w, key, DayStart(day, h.offset), DayStart(day + 1, h.offset));
  }

  lemma NowIsPast(h: Config, w: World)
    requires Basic(h, w)
    ensures w.now <= w.clock
  {
  }

  /** After a tick whose daily rollup succeeded, the rows of today and yesterday count every
      sample recorded so far, with two raw days and unless the tick's own prune drops them. */
  lemma TheDaysOfATickAreRecounts(
      h: Config, clock: int, events: seq<Event>, due: bool, f: MaintenanceFaults, key: string, day: int)
    requires f.rollupOk && h.rawDays >= 2
    requires var today := LocalDay(Run(h, Init(clock), events).clock, h.offset);
             today - 1 <= day <= today && (due && f.rawOk && f.dailyOk ==> day >= today - h.dailyDays)
    ensures var w' := Run(h, Run(h, Init(clock), events), TickEvents(due, f));
            w'.all == Run(h, Init(clock), events).all && ExactDay(h, w', key, day)
  {
    hide Run, TickEvents, DaySamples, Tally, Next;
    var w := Run(h, Init(clock), events);
    var db' := Run(h, w, TickEvents(due, f)).db;
    TickLeavesEveryRow(h, w, due, f);
    TickAccount(h, w, due, f);
    assert DayAfter(h, w.clock, due, f, w.db, db', key, day);
    assert Basic(h, w) by { BasicAlways(h, clock, events); }
    assert SoundRow(w.db.daily, (key, day), DaySamples(w.all, key, day, h.offset));
    RecentDayIsWhole(h, w, key, day);
  }
}
