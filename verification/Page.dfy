/** From raw samples to the bars on the page, over every run of the store. */
module Page {
  import opened States
  import opened Clock
  import opened Options
  import opened Store
  import opened History
  import opened View

  lemma AnswerCell(db: Tables, hourly: map<string, seq<Cell>>, live: int, hours: nat, offset: int, key: string, i: nat)
    requires IsHourlyAnswer(db, hourly, live, hours, offset) && i < hours
    ensures key in hourly <==> HasHourSeries(db, key, live, hours, offset)
    ensures key in hourly ==>
              i < |hourly[key]| && hourly[key][i] == HourCell(db, key, live - hours + 1 + i, live, offset)
  {
  }

  /** A check with a series has a cell that counts its samples; one without has no samples. */
  lemma HourCellCounts(cfg: Config, w: World, live: int, key: string, hour: int)
    requires Basic(cfg, w) && HourlyFresh(cfg, w) && RetentionCoversStrip(cfg) && RolledUpThisHour(cfg, w)
    requires live == LocalHour(w.clock, cfg.offset) && live - cfg.hours < hour <= live
    ensures HourCell(w.db, key, hour, live, cfg.offset)
            == CellOf(hour, Tally(HourSamples(w.all, key, hour, cfg.offset)))
    ensures !HasHourSeries(w.db, key, live, cfg.hours, cfg.offset) ==> HourSamples(w.all, key, hour, cfg.offset) == []
  {
    DisplayedHour(cfg, w, key, hour);
    SeriesExactlyWhenSampled(cfg, w, key, live);
  }

  /** What the two lemmas above say of every check. */
  ghost predicate HoursCounted(db: Tables, live: int, hours: nat, offset: int, hour: int,
      samples: string -> seq<State>) {
    forall k :: HourCell(db, k, hour, live, offset) == CellOf(hour, Tally(samples(k)))
                && (!HasHourSeries(db, k, live, hours, offset) ==> samples(k) == [])
  }

  lemma EveryHourCounted(cfg: Config, w: World, live: int, hour: int, samples: string -> seq<State>)
    requires Basic(cfg, w) && HourlyFresh(cfg, w) && RetentionCoversStrip(cfg) && RolledUpThisHour(cfg, w)
    requires live == LocalHour(w.clock, cfg.offset) && live - cfg.hours < hour <= live
    requires forall k :: samples(k) == HourSamples(w.all, k, hour, cfg.offset)
    ensures HoursCounted(w.db, live, cfg.hours, cfg.offset, hour, samples)
  {
    forall k
      ensures HourCell(w.db, k, hour, live, cfg.offset) == CellOf(hour, Tally(samples(k)))
              && (!HasHourSeries(w.db, k, live, cfg.hours, cfg.offset) ==> samples(k) == [])
    {
      HourCellCounts(cfg, w, live, k, hour);
    }
  }

  lemma CellsOfCountedHours(db: Tables, live: int, hours: nat, offset: int, checks: seq<string>, hourly: map<string,
      seq<Cell>>, i: nat, samples: string -> seq<State>)
    requires i < hours && IsHourlyAnswer(db, hourly, live, hours, offset)
    requires HoursCounted(db, live, hours, offset, live - hours + 1 + i, samples)
    ensures CellsCount(checks, hourly, i, live - hours + 1 + i, samples)
  {
    var hour := live - hours + 1 + i;
    forall k | k in checks
      ensures if HasCell(hourly, k, i) then hourly[k][i] == CellOf(hour, Tally(samples(k))) else samples(k) == []
    {
      AnswerCell(db, hourly, live, hours, offset, k, i);
    }
  }

  /** After any run, every cell of the hourly answer counts all the check recorded in its
      hour, and a check without a series recorded nothing. */
  lemma HourCellsCount(
      cfg: Config, clock: int, events: seq<Event>, w: World,
      checks: seq<string>, hourly: map<string, seq<Cell>>, live: int, i: nat, samples: string -> seq<State>)
    requires w == Run(cfg, Init(clock), events)
    requires RetentionCoversStrip(cfg) && RolledUpThisHour(cfg, w) && i < cfg.hours
    requires live == LocalHour(w.clock, cfg.offset) && IsHourlyAnswer(w.db, hourly, live, cfg.hours, cfg.offset)
    requires forall k :: samples(k) == HourSamples(w.all, k, live - cfg.hours + 1 + i, cfg.offset)
    ensures CellsCount(checks, hourly, i, live - cfg.hours + 1 + i, samples)
  {
    hide Run, Basic, HourlyFresh, RolledUpThisHour, IsHourlyAnswer, HoursCounted, CellsCount, HourSamples;
    BasicAlways(cfg, clock, events);
    HourlyAlwaysFresh(cfg, clock, events);
    EveryHourCounted(cfg, w, live, live - cfg.hours + 1 + i, samples);
    CellsOfCountedHours(w.db, live, cfg.hours, cfg.offset, checks, hourly, i, samples);
  }

  /** Every bar of the hour strip, cached or live, is the one derived from all raw samples of
      the service's checks in that hour. */
  lemma HourBarsSummariseRawSamples(
      cfg: Config, clock: int, events: seq<Event>, w: World,
      checks: seq<string>, hourly: map<string, seq<Cell>>, live: int, i: nat, samples: string -> seq<State>)
    requires w == Run(cfg, Init(clock), events)
    requires RetentionCoversStrip(cfg) && RolledUpThisHour(cfg, w) && i < cfg.hours
    requires live == LocalHour(w.clock, cfg.offset) && IsHourlyAnswer(w.db, hourly, live, cfg.hours, cfg.offset)
    requires forall k :: samples(k) == HourSamples(w.all, k, live - cfg.hours + 1 + i, cfg.offset)
    requires NoneRetired(checks, samples)
    ensures var first, raw := live - cfg.hours + 1, AllSamples(checks, samples);
            BarOf(checks, hourly, first, i) == Bar(first + i, Derive(raw), Tally(raw))
  {
    hide *;
    HourCellsCount(cfg, clock, events, w, checks, hourly, live, i, samples);
    BarSummarisesSamples(checks, hourly, live - cfg.hours + 1, i, samples);
  }

  /** So is every bar of a strip whose tables were read some time after the clock was. */
  lemma HourBarsReadLater(
      cfg: Config, clock: int, events: seq<Event>, more: seq<Event>, w0: World, w: World,
      checks: seq<string>, hourly: map<string, seq<Cell>>, live: int, i: nat, samples: string -> seq<State>)
    requires w0 == Run(cfg, Init(clock), events) && w == Run(cfg, w0, more)
    requires HourlyLossless(cfg) && RetentionCoversStrip(cfg) && RolledUpThisHour(cfg, w0) && i < cfg.hours
    requires live == LocalHour(w0.clock, cfg.offset) && IsHourlyAnswer(w.db, hourly, live, cfg.hours, cfg.offset)
    requires Hours(live - cfg.hours + 1 + i) >= HourlyCut(cfg.hourlyDays, w.clock, cfg.offset)
    requires w.clock <= HourStart(live, cfg.offset) + Days(cfg.rawDays)
    requires i == cfg.hours - 1 ==> forall r :: r in w.all ==> r.at < HourStart(live + 1, cfg.offset)
    requires forall k :: samples(k) == HourSamples(w.all, k, live - cfg.hours + 1 + i, cfg.offset)
    ensures var first, raw := live - cfg.hours + 1, AllSamples(checks, samples);
            BarCounts(checks, hourly, i) == Tally(raw)
            && (NoneRetired(checks, samples) ==>
                  BarOf(checks, hourly, first, i) == Bar(first + i, Derive(raw), Tally(raw)))
  {
    hide Run, HourlyLossless, RetentionCoversStrip, RolledUpThisHour, IsHourlyAnswer, HoursCounted, CellsCount,
         HourSamples, Tally, AllSamples, BarCounts, BarOf, NoneRetired, HourlyCut;
    var hour := live - cfg.hours + 1 + i;
    assert HoursCounted(w.db, live, cfg.hours, cfg.offset, hour, samples) by {
      LaterHoursCounted(cfg, clock, events, more, w0, w, live, hour, samples);
    }
    CellsOfCountedHours(w.db, live, cfg.hours, cfg.offset, checks, hourly, i, samples);
    CountsOfAll(checks, hourly, i, hour, samples);
    if NoneRetired(checks, samples) { BarSummarisesSamples(checks, hourly, live - cfg.hours + 1, i, samples); }
  }

  lemma LaterHoursCounted(
      cfg: Config, clock: int, events: seq<Event>, more: seq<Event>, w0: World, w: World, live: int, hour: int,
      samples: string -> seq<State>)
    requires w0 == Run(cfg, Init(clock), events) && w == Run(cfg, w0, more)
    requires HourlyLossless(cfg) && RetentionCoversStrip(cfg) && RolledUpThisHour(cfg, w0)
    requires live == LocalHour(w0.clock, cfg.offset) && live - cfg.hours < hour <= live
    requires Hours(hour) >= HourlyCut(cfg.hourlyDays, w.clock, cfg.offset)
    requires w.clock <= HourStart(live, cfg.offset) + Days(cfg.rawDays)
    requires hour == live ==> forall r :: r in w.all ==> r.at < HourStart(live + 1, cfg.offset)
    requires forall k :: samples(k) == HourSamples(w.all, k, hour, cfg.offset)
    ensures HoursCounted(w.db, live, cfg.hours, cfg.offset, hour, samples)
  {
    hide Run, HourlyLossless, RetentionCoversStrip, RolledUpThisHour, HourSamples, HourCell, HasHourSeries,
         HourlyCut, Tally;
    forall k
      ensures HourCell(w.db, k, hour, live, cfg.offset) == CellOf(hour, Tally(samples(k)))
              && (!HasHourSeries(w.db, k, live, cfg.hours, cfg.offset) ==> samples(k) == [])
    {
      HourlyStripReadLaterIsARecount(cfg, clock, events, more, w0, w, k, hour);
    }
  }

  /** Everything a service's checks recorded in one hour. */
  function HourRaw(all: seq<Row>, checks: seq<string>, hour: int, offset: int): seq<State> {
    AllSamples(checks, k => HourSamples(all, k, hour, offset))
  }

  lemma HourBarCounts(
      cfg: Config, clock: int, events: seq<Event>, w: World,
      checks: seq<string>, hourly: map<string, seq<Cell>>, live: int, i: nat)
    requires w == Run(cfg, Init(clock), events)
    requires RetentionCoversStrip(cfg) && RolledUpThisHour(cfg, w) && i < cfg.hours
    requires live == LocalHour(w.clock, cfg.offset) && IsHourlyAnswer(w.db, hourly, live, cfg.hours, cfg.offset)
    ensures BarCounts(checks, hourly, i) == Tally(HourRaw(w.all, checks, live - cfg.hours + 1 + i, cfg.offset))
  {
    hide Run, RetentionCoversStrip, RolledUpThisHour, IsHourlyAnswer, CellsCount, HourSamples, AllSamples, BarCounts,
         Tally;
    var samples := k => HourSamples(w.all, k, live - cfg.hours + 1 + i, cfg.offset);
    HourCellsCount(cfg, clock, events, w, checks, hourly, live, i, samples);
    CountsOfAll(checks, hourly, i, live - cfg.hours + 1 + i, samples);
  }

  /** The uptime shown over the hour strip is that of all samples recorded in its window. */
  lemma HourWindowIsARecount(
      cfg: Config, clock: int, events: seq<Event>, w: World,
      checks: seq<string>, hourly: map<string, seq<Cell>>, live: int, bars: seq<Bar>, window: Option<real>)
    requires w == Run(cfg, Init(clock), events)
    requires RetentionCoversStrip(cfg) && RolledUpThisHour(cfg, w)
    requires live == LocalHour(w.clock, cfg.offset) && IsHourlyAnswer(w.db, hourly, live, cfg.hours, cfg.offset)
    requires IsStrip(checks, hourly, live - cfg.hours + 1, cfg.hours, bars) && ShowsShare(window, Total(bars))
    ensures var raw := seq(cfg.hours, i requires 0 <= i < cfg.hours =>
                             HourRaw(w.all, checks, live - cfg.hours + 1 + i, cfg.offset));
            IsUptimeOf(window, Flatten(raw))
  {
    hide Run, RetentionCoversStrip, RolledUpThisHour, IsHourlyAnswer, Tally, HourRaw, BarCounts, BarStates, Total,
         Flatten, ShowsShare, IsUptimeOf;
    var raw := seq(cfg.hours, i requires 0 <= i < cfg.hours =>
                     HourRaw(w.all, checks, live - cfg.hours + 1 + i, cfg.offset));
    forall i | 0 <= i < cfg.hours ensures bars[i].counts == Tally(raw[i]) {
      HourBarCounts(cfg, clock, events, w, checks, hourly, live, i);
    }
    WindowIsARecount(bars, raw);
    ShareOfSamples(window, Flatten(raw));
  }

  /** Cells of exact daily rows count what their rows do. */
  lemma CellsOfExactRows(
      db: Tables, checks: seq<string>, daily: map<string, seq<Cell>>, first: int, days: nat, i: nat,
      samples: string -> seq<State>)
    requires i < days && IsDailyAnswer(db, daily, first, days)
    requires forall k :: k in checks ==> ExactRow(db.daily, k, first + i, samples(k))
    ensures CellsCount(checks, daily, i, first + i, samples)
  {
    forall k | k in checks
      ensures if HasCell(daily, k, i) then daily[k][i] == CellOf(first + i, Tally(samples(k))) else samples(k) == []
    {
      assert HasDaySeries(db, k, first, days) <==> k in daily;
    }
  }

  /** Every cell of the daily answer for a day on whose morrow maintenance ran counts all the
      check recorded that day, and a check without a series recorded nothing. */
  lemma DayCellsCount(
      cfg: Config, clock: int, events: seq<Event>, w: World,
      checks: seq<string>, daily: map<string, seq<Cell>>, first: int, days: nat, i: nat, samples: string -> seq<State>)
    requires w == Run(cfg, Init(clock), events)
    requires cfg.rawDays >= 2 && i < days
    requires first + i + 1 in w.ranOn && (w.dailyCut.Some? ==> first + i >= w.dailyCut.value)
    requires IsDailyAnswer(w.db, daily, first, days)
    requires forall k :: samples(k) == DaySamples(w.all, k, first + i, cfg.offset)
    ensures CellsCount(checks, daily, i, first + i, samples)
  {
    hide Run, Tally, IsDailyAnswer, DaySamples, CellsCount, ExactRow;
    RecomputeNeverLosesDays(cfg, clock, events);
    forall k ensures ExactRow(w.db.daily, k, first + i, samples(k)) { assert ExactDay(cfg, w, k, first + i); }
    CellsOfExactRows(w.db, checks, daily, first, days, i, samples);
  }

  /** So is every such bar of the day strip the one derived from all raw samples. */
  lemma DayBarsSummariseRawSamples(
      cfg: Config, clock: int, events: seq<Event>, w: World,
      checks: seq<string>, daily: map<string, seq<Cell>>, first: int, days: nat, i: nat, samples: string -> seq<State>)
    requires w == Run(cfg, Init(clock), events)
    requires cfg.rawDays >= 2 && i < days
    requires first + i + 1 in w.ranOn && (w.dailyCut.Some? ==> first + i >= w.dailyCut.value)
    requires IsDailyAnswer(w.db, daily, first, days)
    requires forall k :: samples(k) == DaySamples(w.all, k, first + i, cfg.offset)
    requires NoneRetired(checks, samples)
    ensures var raw := AllSamples(checks, samples);
            BarOf(checks, daily, first, i) == Bar(first + i, Derive(raw), Tally(raw))
  {
    hide *;
    DayCellsCount(cfg, clock, events, w, checks, daily, first, days, i, samples);
    BarSummarisesSamples(checks, daily, first, i, samples);
  }

  /** Between rollups today's bar, and yesterday's, counts all that was recorded up to the last
      one. */
  lemma TodayCountsUpToTheLastRollup(
      cfg: Config, clock: int, events: seq<Event>, more: seq<Event>, w: World, later: World,
      checks: seq<string>, daily: map<string, seq<Cell>>, first: int, days: nat, i: nat, samples: string -> seq<State>)
    requires w == Run(cfg, Init(clock), events) && later == Run(cfg, Next(cfg, w, DoRollup), more)
    requires cfg.rawDays >= 2 && DoRollup !in more && i < days && first + i in RollupDays(cfg, w.now)
    requires later.dailyCut.Some? ==> first + i >= later.dailyCut.value
    requires IsDailyAnswer(later.db, daily, first, days)
    requires forall k :: samples(k) == DaySamples(w.all, k, first + i, cfg.offset)
    ensures var raw := AllSamples(checks, samples);
            BarCounts(checks, daily, i) == Tally(raw)
            && (NoneRetired(checks, samples) ==>
                BarOf(checks, daily, first, i) == Bar(first + i, Derive(raw), Tally(raw)))
  {
    hide Run, Next, RollupDays, Tally, IsDailyAnswer, DaySamples, CellsCount, ExactRow, AllSamples, BarCounts, BarOf,
         NoneRetired;
    forall k ensures ExactRow(later.db.daily, k, first + i, samples(k)) {
      DaysCountUpToTheLastRollup(cfg, clock, events, more, w, later, k, first + i);
    }
    CellsOfExactRows(later.db, checks, daily, first, days, i, samples);
    CountsOfAll(checks, daily, i, first + i, samples);
    if NoneRetired(checks, samples) { BarSummarisesSamples(checks, daily, first, i, samples); }
  }

  /** Everything a service's checks recorded on one day. */
  function DayRaw(all: seq<Row>, checks: seq<string>, day: int, offset: int): seq<State> {
    AllSamples(checks, k => DaySamples(all, k, day, offset))
  }

  lemma DayBarCounts(
      cfg: Config, clock: int, events: seq<Event>, w: World, today: int,
      checks: seq<string>, daily: map<string, seq<Cell>>, first: int, days: nat, i: nat)
    requires w == Run(cfg, Init(clock), events) && today == LocalDay(w.now, cfg.offset)
    requires cfg.rawDays >= 2 && i < days && (w.dailyCut.Some? ==> first >= w.dailyCut.value)
    requires first + i == today || first + i + 1 == today || first + i + 1 in w.ranOn
    requires IsDailyAnswer(Next(cfg, w, DoRollup).db, daily, first, days)
    ensures BarCounts(checks, daily, i) == Tally(DayRaw(w.all, checks, first + i, cfg.offset))
  {
    hide Run, Tally, IsDailyAnswer, DaySamples, CellsCount, ExactRow, AllSamples, BarCounts, Rollup;
    var samples := k => DaySamples(w.all, k, first + i, cfg.offset);
    var w' := Next(cfg, w, DoRollup);
    forall k ensures ExactRow(w'.db.daily, k, first + i, samples(k)) {
      SettledOrJustRolledUp(cfg, clock, events, w, k, first + i);
    }
    CellsOfExactRows(w'.db, checks, daily, first, days, i, samples);
    CountsOfAll(checks, daily, i, first + i, samples);
  }

  /** Right after a rollup, today and every earlier settled day are counted in full. */
  lemma SettledOrJustRolledUp(cfg: Config, clock: int, events: seq<Event>, w: World, key: string, day: int)
    requires w == Run(cfg, Init(clock), events) && cfg.rawDays >= 2
    requires day in RollupDays(cfg, w.now) || (day + 1 in w.ranOn && (w.dailyCut.Some? ==> day >= w.dailyCut.value))
    ensures ExactDay(cfg, Next(cfg, w, DoRollup), key, day)
  {
    hide Run, ExactDay;
    BasicAlways(cfg, clock, events);
    RecomputeNeverLosesDays(cfg, clock, events);
    SettledDay(cfg, w, key, day);
  }

  /** Right after today's rollup, with every earlier displayed day settled and kept, the uptime
      shown over the day strip is that of all samples recorded in its window. */
  lemma DayWindowIsARecount(
      cfg: Config, clock: int, events: seq<Event>, w: World, today: int,
      checks: seq<string>, daily: map<string, seq<Cell>>, days: nat, bars: seq<Bar>, window: Option<real>)
    requires w == Run(cfg, Init(clock), events) && cfg.rawDays >= 2
    requires today == LocalDay(w.now, cfg.offset) == LocalDay(w.clock, cfg.offset)
    requires forall d :: today - days + 1 < d < today ==> d in w.ranOn
    requires w.dailyCut.Some? ==> today - days + 1 >= w.dailyCut.value
    requires IsDailyAnswer(Next(cfg, w, DoRollup).db, daily, today - days + 1, days)
    requires IsStrip(checks, daily, today - days + 1, days, bars) && ShowsShare(window, Total(bars))
    ensures var raw := seq(days, i requires 0 <= i < days => DayRaw(w.all, checks, today - days + 1 + i, cfg.offset));
            IsUptimeOf(window, Flatten(raw))
  {
    hide Run, Next, IsDailyAnswer, Tally, DayRaw, BarCounts, BarStates, Total, Flatten, ShowsShare, IsUptimeOf;
    var raw := seq(days, i requires 0 <= i < days => DayRaw(w.all, checks, today - days + 1 + i, cfg.offset));
    forall i | 0 <= i < days ensures bars[i].counts == Tally(raw[i]) {
      DayBarCounts(cfg, clock, events, w, today, checks, daily, today - days + 1, days, i);
    }
    WindowIsARecount(bars, raw);
    ShareOfSamples(window, Flatten(raw));
  }
}
