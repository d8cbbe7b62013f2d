/** How much raw history the derived tables need: with less, a recount replaces rows by
    smaller ones, and the lemmas here build runs in which it does. */
module HistoryLimits {
  import opened States
  import opened Clock
  import opened Options
  import opened Store
  import opened History

  // -------------------------------------------------------- the daily history

  /** The next daily rollup would make some daily row smaller or drop part of it. */
  ghost predicate ShrinksADay(cfg: Config, w: World) {
    var table := Next(cfg, w, DoRollup).db.daily;
    exists g :: g in w.db.daily && !(g in table && w.db.daily[g].AtMost(table[g]))
  }

  lemma ReachInit(cfg: Config, clock: int)
    ensures Reached(cfg, clock, Init(clock))
  {
    assert Init(clock) == Run(cfg, Init(clock), []);
  }

  /** Rows of one check and one day, all up, rolled up: the row counts them. */
  lemma RowsRolledUp(cfg: Config, w: World, key: string, day: int, samples: seq<State>)
    requires DaySamples(w.db.results, key, day, cfg.offset) == samples && samples != [] && day in RollupDays(cfg, w.now)
    ensures var table := Next(cfg, w, DoRollup).db.daily;
            (key, day) in table && table[(key, day)] == Tally(samples)
  {
    SamplesWitness(w.db.results, key, DayStart(day, cfg.offset), DayStart(day + 1, cfg.offset));
    var r :| r in w.db.results && r.key == key && DayStart(day, cfg.offset) <= r.at < DayStart(day + 1, cfg.offset);
    DayInterval(r.at, cfg.offset, day);
    DayGroup(cfg, w, key, day);
  }

  lemma SamplesOfOne(a: Row, key: string, from: int, until: int)
    requires a.key == key && from <= a.at < until
    ensures Samples([a], key, from, until) == [a.state]
  {
    SamplesAppend([], a, key, from, until);
    assert [] + [a] == [a];
  }

  lemma SamplesOfTwo(a: Row, b: Row, key: string, from: int, until: int)
    requires a.key == b.key == key && from <= a.at < until && from <= b.at < until
    ensures Samples([a, b], key, from, until) == [a.state, b.state]
  {
    SamplesOfOne(a, key, from, until);
    SamplesAppend([a], b, key, from, until);
    assert [a] + [b] == [a, b];
  }

  /** Dropping one of two rows before the next rollup makes the daily row smaller. */
  lemma LosingARowShrinks(cfg: Config, rolled: World, w: World, a: Row, b: Row, c: Row, day: int)
    requires rolled.db.results == [a, b] && a.key == b.key == c.key && a.state == b.state == c.state == Up
    requires LocalDay(a.at, cfg.offset) == LocalDay(b.at, cfg.offset) == LocalDay(c.at, cfg.offset) == day
    requires day in RollupDays(cfg, rolled.now) && day in RollupDays(cfg, w.now)
    requires w.db.results == [c] && w.db.daily == Next(cfg, rolled, DoRollup).db.daily
    ensures ShrinksADay(cfg, w)
  {
    var from, until := DayStart(day, cfg.offset), DayStart(day + 1, cfg.offset);
    DayInterval(a.at, cfg.offset, day);
    DayInterval(b.at, cfg.offset, day);
    DayInterval(c.at, cfg.offset, day);
    SamplesOfTwo(a, b, a.key, from, until);
    SamplesOfOne(c, a.key, from, until);
    RowsRolledUp(cfg, rolled, a.key, day, [Up, Up]);
    RowsRolledUp(cfg, w, a.key, day, [Up]);
    assert (a.key, day) in w.db.daily;
    assert Tally([Up, Up]).up == 2 && Tally([Up]).up == 1;
  }

  lemma KeptOfTwo(a: Row, b: Row, from: int)
    ensures Kept([a, b], from) == if a.at >= from && b.at >= from then [a, b]
                                  else if a.at >= from then [a] else if b.at >= from then [b] else []
  {
    assert [a, b] == [a] + [b] && [a] == [] + [a];
    KeptAppend([a], b, from);
    KeptAppend([], a, from);
  }

  function ObserveUp(): Event { Observe("check", UP_RESULT) }

  lemma AfterPruneRaw(cfg: Config, w: World)
    ensures var w' := Next(cfg, w, DoPruneRaw);
            w'.db.results == Kept(w.db.results, w.now - Days(cfg.rawDays)) && w'.db.daily == w.db.daily
            && w'.now == w.now && w'.clock == w.clock
  {
  }

  lemma AfterObserve(cfg: Config, w: World)
    ensures var w' := Next(cfg, w, ObserveUp());
            w'.db.results == w.db.results + [Row("check", w.clock, Up, NoReason)] && w'.db.daily == w.db.daily
            && w'.all == w.all + [Row("check", w.clock, Up, NoReason)]
            && w'.now == w.now && w'.clock == w.clock
  {
  }

  /** A run with two samples of the check, the first at the start of a local day and hour, the
      second `gap` later, and a maintenance tick `wait` after that. */
  lemma TwoSamples(cfg: Config, gap: nat, wait: nat) returns (w: World)
    ensures var t0 := -cfg.offset;
            Reached(cfg, t0, w) && w.now == w.clock == t0 + gap + wait
            && w.db.results == [Row("check", t0, Up, NoReason), Row("check", t0 + gap, Up, NoReason)]
  {
    var t0 := -cfg.offset;
    w := Init(t0);
    ReachInit(cfg, t0);
    for k := 0 to 5
      invariant Reached(cfg, t0, w)
      invariant w.clock == t0 + (if k >= 2 then gap else 0) + (if k >= 4 then wait else 0)
      invariant k == 5 ==> w.now == w.clock
      invariant w.db.results == if k == 0 then [] else if k < 3 then [Row("check", t0, Up, NoReason)]
                                else [Row("check", t0, Up, NoReason), Row("check", t0 + gap, Up, NoReason)]
    {
      var event := [ObserveUp(), Advance(gap), ObserveUp(), Advance(wait), Begin][k];
      ReachNext(cfg, t0, w, event);
      AfterObserve(cfg, w);
      w := Next(cfg, w, event);
    }
  }

  /** With one day of raw rows, the first sample of a day is pruned before the day's last
      recount on its morrow. */
  lemma OneDayLoses(cfg: Config)
    requires cfg.rawDays == 1
    ensures exists clock, w :: Reached(cfg, clock, w) && ShrinksADay(cfg, w)
  {
    hide Samples, Kept, Next, Reached, ShrinksADay;
    var t0 := -cfg.offset;
    var rolled := TwoSamples(cfg, Days(1) - 1, 2);
    var a, b := rolled.db.results[0], rolled.db.results[1];
    var w1 := Next(cfg, rolled, DoRollup);
    var w2 := Next(cfg, w1, DoPruneRaw);
    ReachNext(cfg, t0, rolled, DoRollup);
    ReachNext(cfg, t0, w1, DoPruneRaw);
    AfterRollup(cfg, rolled);
    AfterPruneRaw(cfg, w1);
    KeptOfTwo(a, b, rolled.now - Days(1));
    LosingARowShrinks(cfg, rolled, w2, a, b, b, 0);
  }

  /** With none, a later sample of the day replaces the earlier ones. */
  lemma NoDayLoses(cfg: Config)
    requires cfg.rawDays <= 0
    ensures exists clock, w :: Reached(cfg, clock, w) && ShrinksADay(cfg, w)
  {
    hide Samples, Kept, Next, Reached, ShrinksADay;
    var t0 := -cfg.offset;
    var rolled := TwoSamples(cfg, 0, 1);
    var a := rolled.db.results[0];
    var w1 := Next(cfg, rolled, DoRollup);
    var w2 := Next(cfg, w1, DoPruneRaw);
    var w3 := Next(cfg, w2, ObserveUp());
    ReachNext(cfg, t0, rolled, DoRollup);
    ReachNext(cfg, t0, w1, DoPruneRaw);
    ReachNext(cfg, t0, w2, ObserveUp());
    AfterRollup(cfg, rolled);
    AfterPruneRaw(cfg, w1);
    AfterObserve(cfg, w2);
    KeptOfTwo(a, a, rolled.now - Days(cfg.rawDays));
    LosingARowShrinks(cfg, rolled, w3, a, a, Row("check", t0 + 1, Up, NoReason), 0);
  }

  /** The daily history is safe from its own recomputation exactly when raw rows are kept for
      at least two days. Loading the configuration does not check that. */
  lemma DaysAreSafeExactlyWithTwoRawDays(cfg: Config)
    ensures (forall clock, w :: Reached(cfg, clock, w) ==> !ShrinksADay(cfg, w)) <==> cfg.rawDays >= 2
  {
    if cfg.rawDays >= 2 {
      forall clock, w | Reached(cfg, clock, w) ensures !ShrinksADay(cfg, w) {
        var events :| w == Run(cfg, Init(clock), events);
        RecomputeNeverLosesDays(cfg, clock, events);
      }
    } else if cfg.rawDays == 1 {
      OneDayLoses(cfg);
    } else {
      NoDayLoses(cfg);
    }
  }

  // ------------------------------------------------------- the hour in progress

  /** A row written past the hour of the clock reading, before the query, enters that hour. */
  lemma ALaterRowEntersTheHour(cfg: Config)
    requires cfg.rawDays >= 1
    ensures exists w :: Reached(cfg, -cfg.offset, w) && w.clock == Hours(1) - cfg.offset
                        && HourCell(w.db, "check", 0, 0, cfg.offset) != RecountedHour(cfg, w, "check", 0)
  {
    hide Next, Reached;
    var now := -cfg.offset;
    ReachInit(cfg, now);
    ReachNext(cfg, now, Init(now), Advance(Hours(1)));
    var w := Next(cfg, Init(now), Advance(Hours(1)));
    AfterAdvance(cfg, Init(now), Hours(1));
    ReachNext(cfg, now, w, ObserveUp());
    AfterObserve(cfg, w);
    w := Next(cfg, w, ObserveUp());
    var row := Row("check", now + Hours(1), Up, NoReason);
    assert w.all == [row] && row in w.all && row.at == HourStart(1, cfg.offset);
    HourInterval(now, cfg.offset, 0);
    LaterRowSpoils(cfg, now, w, "check", now);
  }

  lemma AfterAdvance(cfg: Config, w: World, dt: nat)
    ensures Next(cfg, w, Advance(dt)) == w.(clock := w.clock + dt)
  {
  }

  lemma LaterRowSpoils(cfg: Config, clock: int, w: World, key: string, now: int)
    requires cfg.rawDays >= 0 && Reached(cfg, clock, w)
    requires now <= w.clock <= HourStart(LocalHour(now, cfg.offset), cfg.offset) + Days(cfg.rawDays)
    requires exists r :: r in w.all && r.key == key && r.at >= HourStart(LocalHour(now, cfg.offset) + 1, cfg.offset)
    ensures var live := LocalHour(now, cfg.offset);
            HourCell(w.db, key, live, live, cfg.offset) != RecountedHour(cfg, w, key, live)
  {
    var events :| w == Run(cfg, Init(clock), events);
    LiveCellIsExact(cfg, clock, events, w, key, now);
  }

  // ------------------------------------------------------- the hourly history

  /** The next hourly rollup would make some hourly row smaller or drop part of it. */
  ghost predicate ShrinksAnHour(cfg: Config, w: World) {
    var table := Next(cfg, w, DoRollupHourly).db.hourly;
    exists g :: g in w.db.hourly && !(g in table && w.db.hourly[g].AtMost(table[g]))
  }

  /** What an hourly rollup writes for an hour it finds samples of. */
  lemma HourRolledUp(cfg: Config, w: World, key: string, hour: int, samples: seq<State>)
    requires HourSamples(Kept(w.db.results, HourlySince(cfg.hours, w.now)), key, hour, cfg.offset) == samples
             && samples != []
    ensures var table := Next(cfg, w, DoRollupHourly).db.hourly;
            (key, hour) in table && table[(key, hour)] == Tally(samples)
  {
    var since := HourlySince(cfg.hours, w.now);
    var kept := Kept(w.db.results, since);
    SamplesWitness(kept, key, HourStart(hour, cfg.offset), HourStart(hour + 1, cfg.offset));
    var r :| r in kept && r.key == key && HourStart(hour, cfg.offset) <= r.at < HourStart(hour + 1, cfg.offset);
    KeptMembers(w.db.results, since);
    HourInterval(r.at, cfg.offset, hour);
    HourGroup(cfg, w, key, hour);
  }

  /** Two samples counted by one rollup and one of them by a later one. */
  lemma CountingFewerShrinks(cfg: Config, rolled: World, w: World, key: string, hour: int)
    requires HourSamples(Kept(rolled.db.results, HourlySince(cfg.hours, rolled.now)), key, hour, cfg.offset) == [Up, Up]
    requires HourSamples(Kept(w.db.results, HourlySince(cfg.hours, w.now)), key, hour, cfg.offset) == [Up]
    requires w.db.hourly == Next(cfg, rolled, DoRollupHourly).db.hourly
    ensures ShrinksAnHour(cfg, w)
  {
    HourRolledUp(cfg, rolled, key, hour, [Up, Up]);
    HourRolledUp(cfg, w, key, hour, [Up]);
    assert (key, hour) in w.db.hourly;
    assert Tally([Up, Up]).up == 2 && Tally([Up]).up == 1;
  }

  lemma AfterRollupHourly(cfg: Config, w: World)
    ensures var w' := Next(cfg, w, DoRollupHourly);
            w'.db.results == w.db.results && w'.now == w.now && w'.clock == w.clock
  {
  }

  lemma HourlyUntouched(cfg: Config, w: World, event: Event)
    requires event != DoRollupHourly && event != DoPruneHourly
    ensures Next(cfg, w, event).db.hourly == w.db.hourly
  {
  }

  /** A rollup reads from the start of every hour it is less than a strip and an hour past. */
  lemma SinceBehind(hours: nat, now: int, start: int)
    requires start % 3_600_000_000_000 == 0 && now < start + Hours(hours + 1)
    ensures HourlySince(hours, now) <= start
  {
  }

  /** One hour off the full hour begins inside a local hour, and a rollup can read from there. */
  lemma SinceInside(hours: nat, offset: int)
    requires !WholeHours(offset)
    ensures var part := offset % 3_600_000_000_000;
            0 < part < Hours(1) && HourlySince(hours, part - offset + Hours(hours)) == part - offset
  {
  }

  /** One more sample, and later a maintenance tick. */
  lemma SampleLater(cfg: Config, clock: int, w: World, part: nat, wait: nat) returns (w': World)
    requires Reached(cfg, clock, w)
    ensures Reached(cfg, clock, w') && w'.db.hourly == w.db.hourly && w'.now == w'.clock == w.clock + part + wait
    ensures w'.db.results == w.db.results + [Row("check", w.clock + part, Up, NoReason)]
  {
    hide Reached;
    ReachNext(cfg, clock, w, Advance(part));
    var w1 := Next(cfg, w, Advance(part));
    ReachNext(cfg, clock, w1, ObserveUp());
    var w2 := Next(cfg, w1, ObserveUp());
    ReachNext(cfg, clock, w2, Advance(wait));
    var w3 := Next(cfg, w2, Advance(wait));
    ReachNext(cfg, clock, w3, Begin);
    w' := Next(cfg, w3, Begin);
  }

  /** In a zone off the full hour, the cutoff of a later rollup falls inside a local hour. */
  lemma FractionalZoneLoses(cfg: Config)
    requires !WholeHours(cfg.offset)
    ensures exists clock, w :: Reached(cfg, clock, w) && ShrinksAnHour(cfg, w)
  {
    hide Samples, Kept, Next, Reached, ShrinksAnHour;
    SinceInside(cfg.hours, cfg.offset);
    var t0, part := -cfg.offset, cfg.offset % 3_600_000_000_000;
    var a, b := Row("check", t0, Up, NoReason), Row("check", t0 + part, Up, NoReason);
    var rolled := TwoSamples(cfg, 0, 0);
    AfterRollupHourly(cfg, rolled);
    ReachNext(cfg, t0, rolled, DoRollupHourly);
    var w := Next(cfg, rolled, DoRollupHourly);
    w := SampleLater(cfg, t0, w, part, Hours(cfg.hours));
    KeptOfTwo(a, a, HourlySince(cfg.hours, rolled.now));
    KeptOfTwo(a, a, HourlySince(cfg.hours, w.now));
    assert [a, a, b] == [a, a] + [b];
    KeptAppend([a, a], b, HourlySince(cfg.hours, w.now));
    assert [] + [b] == [b];
    SamplesOfTwo(a, a, "check", HourStart(0, cfg.offset), HourStart(1, cfg.offset));
    SamplesOfOne(b, "check", HourStart(0, cfg.offset), HourStart(1, cfg.offset));
    CountingFewerShrinks(cfg, rolled, w, "check", 0);
  }

  /** Raw rows kept no longer than the strip: the oldest hour is recounted without its first
      samples. */
  lemma ShortRawLoses(cfg: Config)
    requires WholeHours(cfg.offset) && 1 <= cfg.rawDays && 24 * cfg.rawDays <= cfg.hours
    ensures exists clock, w :: Reached(cfg, clock, w) && ShrinksAnHour(cfg, w)
  {
    hide Samples, Kept, Next, Reached, ShrinksAnHour;
    SinceBehind(cfg.hours, Days(cfg.rawDays) + 1 - cfg.offset, -cfg.offset);
    var t0 := -cfg.offset;
    var rolled := TwoSamples(cfg, Hours(1) - 1, Days(cfg.rawDays) + 1 - (Hours(1) - 1));
    var a, b := rolled.db.results[0], rolled.db.results[1];
    var w1 := Next(cfg, rolled, DoRollupHourly);
    var w2 := Next(cfg, w1, DoPruneRaw);
    ReachNext(cfg, t0, rolled, DoRollupHourly);
    ReachNext(cfg, t0, w1, DoPruneRaw);
    AfterRollupHourly(cfg, rolled);
    AfterPruneRaw(cfg, w1);
    HourlyUntouched(cfg, w1, DoPruneRaw);
    KeptOfTwo(a, b, rolled.now - Days(cfg.rawDays));
    KeptOfTwo(a, b, HourlySince(cfg.hours, rolled.now));
    KeptOfOne(b, HourlySince(cfg.hours, w2.now));
    SamplesOfTwo(a, b, "check", HourStart(0, cfg.offset), HourStart(1, cfg.offset));
    SamplesOfOne(b, "check", HourStart(0, cfg.offset), HourStart(1, cfg.offset));
    CountingFewerShrinks(cfg, rolled, w2, "check", 0);
  }

  lemma KeptOfOne(a: Row, from: int)
    ensures Kept([a], from) == if a.at >= from then [a] else []
  {
    assert [a] == [] + [a];
    KeptAppend([], a, from);
  }

  /** No raw rows kept at all: a later sample of the hour replaces the earlier ones. */
  lemma NoRawLoses(cfg: Config)
    requires WholeHours(cfg.offset) && cfg.rawDays <= 0
    ensures exists clock, w :: Reached(cfg, clock, w) && ShrinksAnHour(cfg, w)
  {
    hide Samples, Kept, Next, Reached, ShrinksAnHour;
    SinceBehind(cfg.hours, 1 - cfg.offset, -cfg.offset);
    var t0 := -cfg.offset;
    var rolled := TwoSamples(cfg, 0, 1);
    var a, c := rolled.db.results[0], Row("check", t0 + 1, Up, NoReason);
    var w1 := Next(cfg, rolled, DoRollupHourly);
    var w2 := Next(cfg, w1, DoPruneRaw);
    var w3 := Next(cfg, w2, ObserveUp());
    ReachNext(cfg, t0, rolled, DoRollupHourly);
    ReachNext(cfg, t0, w1, DoPruneRaw);
    ReachNext(cfg, t0, w2, ObserveUp());
    AfterRollupHourly(cfg, rolled);
    AfterPruneRaw(cfg, w1);
    AfterObserve(cfg, w2);
    HourlyUntouched(cfg, w1, DoPruneRaw);
    HourlyUntouched(cfg, w2, ObserveUp());
    KeptOfTwo(a, a, rolled.now - Days(cfg.rawDays));
    KeptOfTwo(a, a, HourlySince(cfg.hours, rolled.now));
    assert w3.db.results == [c];
    KeptOfOne(c, HourlySince(cfg.hours, w3.now));
    SamplesOfTwo(a, a, "check", HourStart(0, cfg.offset), HourStart(1, cfg.offset));
    SamplesOfOne(c, "check", HourStart(0, cfg.offset), HourStart(1, cfg.offset));
    CountingFewerShrinks(cfg, rolled, w3, "check", 0);
  }

  /** The hourly history is safe from its own recomputation exactly when raw rows outlast the
      strip by an hour and the zone's hours are those of UTC. */
  lemma HoursAreSafeExactlyWhenLossless(cfg: Config)
    ensures (forall clock, w :: Reached(cfg, clock, w) ==> !ShrinksAnHour(cfg, w)) <==> HourlyLossless(cfg)
  {
    if HourlyLossless(cfg) {
      forall clock, w | Reached(cfg, clock, w) ensures !ShrinksAnHour(cfg, w) {
        var events :| w == Run(cfg, Init(clock), events);
        forall g | g in w.db.hourly
          ensures g in Next(cfg, w, DoRollupHourly).db.hourly
                  && w.db.hourly[g].AtMost(Next(cfg, w, DoRollupHourly).db.hourly[g])
        {
          HourlyRollupNeverShrinks(cfg, clock, events, g.0, g.1);
        }
      }
    } else if !WholeHours(cfg.offset) {
      FractionalZoneLoses(cfg);
    } else if cfg.rawDays >= 1 {
      ShortRawLoses(cfg);
    } else {
      NoRawLoses(cfg);
    }
  }
}
