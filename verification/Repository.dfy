/** The store as the program sees it: statements that change the tables in place, and the
    two readers that assemble strips. */
module Repo {
  import opened States
  import opened Clock
  import opened Options
  import opened Store

  class Repository {
    const offset: int
    var tables: Tables

    constructor (offset: int)
      ensures tables == EMPTY && this.offset == offset
    {
      this.offset := offset;
      tables := EMPTY;
    }

    /** One transaction: append the observation, refresh the live row. */
    method RecordResult(key: string, r: Result, now: int)
      modifies this`tables
      ensures tables == Store.RecordResult(old(tables), key, r, now)
    {
      tables := tables.(results := tables.results + [Row(key, now, r.state, r.reason)]);
      var since := now;
      if key in tables.current && tables.current[key].state == r.state {
        since := tables.current[key].since;
      }
      tables := tables.(current := tables.current[key := Current(r.state, since, now, r.reason)]);
    }

    method SaveBreaker(key: string, rec: Breaker)
      modifies this`tables
      ensures tables == Store.SaveBreaker(old(tables), key, rec)
    {
      tables := tables.(breakers := tables.breakers[key := rec]);
    }

    method Rollup(days: set<int>)
      modifies this`tables
      ensures tables == Store.Rollup(old(tables), days, offset)
    {
      tables := Store.Rollup(tables, days, offset);
    }

    method RollupHourly(hours: nat, now: int)
      modifies this`tables
      ensures tables == Store.RollupHourly(old(tables), hours, now, offset)
    {
      tables := Store.RollupHourly(tables, hours, now, offset);
    }

    /** Two statements; the second is skipped when the first fails. */
    method Prune(rawDays: int, dailyDays: int, now: int, rawOk: bool, dailyOk: bool) returns (ok: bool)
      modifies this`tables
      ensures ok == (rawOk && dailyOk)
      ensures tables == if !rawOk then old(tables)
                        else if !dailyOk then PruneRaw(old(tables), rawDays, now)
                        else PruneDaily(PruneRaw(old(tables), rawDays, now), dailyDays, now, offset)
    {
      if !rawOk {
        return false;
      }
      tables := PruneRaw(tables, rawDays, now);
      if !dailyOk {
        return false;
      }
      tables := PruneDaily(tables, dailyDays, now, offset);
      ok := true;
    }

    method PruneHourly(hourlyDays: int, now: int)
      modifies this`tables
      ensures tables == Store.PruneHourly(old(tables), hourlyDays, now, offset)
    {
      tables := Store.PruneHourly(tables, hourlyDays, now, offset);
    }

    /** The cells of one check from the first index on, filling gaps with empty cells. */
    method FillSeries(cells: map<int, Cell>, first: int, length: nat) returns (series: seq<Cell>)
      ensures |series| == length
      ensures forall i :: 0 <= i < length ==> series[i] == CellAt(cells, first + i)
    {
      series := [];
      for d := first to first + length
        invariant |series| == d - first
        invariant forall i :: 0 <= i < |series| ==> series[i] == CellAt(cells, first + i)
      {
        series := series + [CellAt(cells, d)];
      }
    }

    /** Groups the rows of a table whose index lies in a range by check. */
    method Collect(table: map<(string, int), Counts>, first: int, last: int) returns (byKey: Cells)
      ensures Grouped(table, byKey, RowsIn(table, first, last))
    {
      hide Grouped, Insert;
      byKey := map[];
      GroupedNothing(table);
      var rows := RowsIn(table, first, last);
      ghost var all, done: set<(string, int)> := rows, {};
      while rows != {}
        invariant rows <= all && done == all - rows
        invariant Grouped(table, byKey, done)
        decreases rows
      {
        var g :| g in rows;
        GroupedInsert(table, byKey, done, g);
        byKey := Insert(byKey, g, CellOf(g.1, table[g]));
        rows := rows - {g};
        done := done + {g};
      }
      assert done == all;
    }

    /** Turns every check's cells into a series of fixed length. */
    method Assemble(byKey: Cells, first: int, length: nat) returns (out: map<string, seq<Cell>>)
      ensures Assembled(byKey, first, length, out)
    {
      out := map[];
      var pending := byKey.Keys;
      while pending != {}
        invariant pending <= byKey.Keys && out.Keys == byKey.Keys - pending
        invariant forall k :: k in out ==> |out[k]| == length
        invariant forall k, i :: k in out && 0 <= i < length ==> out[k][i] == CellAt(byKey[k], first + i)
        decreases pending
      {
        var k :| k in pending;
        var series := FillSeries(byKey[k], first, length);
        out := out[k := series];
        pending := pending - {k};
      }
    }

    /** The last `days` local days of every check that has any, oldest first. */
    method DailyHistory(days: nat, now: int) returns (out: map<string, seq<Cell>>)
      ensures IsDailyAnswer(tables, out, LocalDay(now, offset) - days + 1, days)
    {
      var first := LocalDay(now, offset) - days + 1;
      var byKey := Collect(tables.daily, first, first + days - 1);
      out := Assemble(byKey, first, days);
      DailyAnswers(tables, byKey, out, first, days);
    }

    /** The hour in progress, straight from the raw rows. */
    method CurrentHourBuckets(hour: int) returns (out: map<string, Cell>)
      ensures IsLive(tables, out, hour, offset)
    {
      var from := HourStart(hour, offset);
      var keys := set r | r in tables.results && r.at >= from :: r.key;
      forall k ensures k in keys <==> LiveSamples(tables.results, k, from) != [] {
        LiveWitness(tables.results, k, from);
      }
      out := map[];
      while keys != {}
        invariant forall k :: k in keys || k in out <==> LiveSamples(tables.results, k, from) != []
        invariant forall k :: k in out ==> out[k] == CellOf(hour, Tally(LiveSamples(tables.results, k, from)))
        decreases keys
      {
        var k :| k in keys;
        out := out[k := CellOf(hour, Tally(LiveSamples(tables.results, k, from)))];
        keys := keys - {k};
      }
    }

    /** Puts the live cells over the cached ones. */
    method Overlay(cached: Cells, live: map<string, Cell>, hour: int) returns (byKey: Cells)
      ensures Overlaid(cached, live, hour, byKey)
    {
      byKey := cached;
      var pending := live.Keys;
      while pending != {}
        invariant pending <= live.Keys && byKey.Keys == cached.Keys + (live.Keys - pending)
        invariant forall k :: k in byKey ==>
                    byKey[k] ==
                    if k in live && k !in pending then (if k in cached then cached[k] else map[])[hour := live[k]]
                                else cached[k]
        decreases pending
      {
        var k :| k in pending;
        var cells := if k in byKey then byKey[k] else map[];
        byKey := byKey[k := cells[hour := live[k]]];
        pending := pending - {k};
      }
    }

    /** The cached hours with the live one over them. */
    method HourCells(hours: nat, last: int) returns (byKey: Cells)
      requires hours >= 1
      ensures IsHourlyCells(tables, byKey, last, hours, offset)
    {
      var cached := Collect(tables.hourly, last - hours + 1, last);
      var live := CurrentHourBuckets(last);
      byKey := Overlay(cached, live, last);
      OverlayAnswers(tables, cached, live, byKey, last, hours, offset);
    }

    /** The last `hours` local hours of every check that has any, oldest first, the newest
        read live. */
    method HourlyHistory(hours: nat, now: int) returns (out: map<string, seq<Cell>>)
      requires hours >= 1
      ensures IsHourlyAnswer(tables, out, LocalHour(now, offset), hours, offset)
    {
      var last := LocalHour(now, offset);
      var byKey := HourCells(hours, last);
      out := Assemble(byKey, last - hours + 1, hours);
    }
  }

  // --------------------------------------------------------------- grouping rows

  type Cells = map<string, map<int, Cell>>

  function CellAt(cells: map<int, Cell>, index: int): Cell {
    if index in cells then cells[index] else Cell(index, Unknown, NO_COUNTS)
  }

  /** The rows of a table whose index lies in a range. */
  function RowsIn(table: map<(string, int), Counts>, first: int, last: int): set<(string, int)> {
    set g | g in table.Keys && first <= g.1 <= last
  }

  function Insert(byKey: Cells, g: (string, int), cell: Cell): Cells {
    byKey[g.0 := (if g.0 in byKey then byKey[g.0] else map[])[g.1 := cell]]
  }

  /** An index with a cell, if there is one. */
  ghost function AnyIndex(cells: map<int, Cell>): int {
    if exists i :: i in cells then
      var i :| i in cells;
      i
    else 0
  }

  /** The cells are exactly those of the given rows. */
  ghost predicate Grouped(table: map<(string, int), Counts>, byKey: Cells, rows: set<(string, int)>) {
    && rows <= table.Keys
    && (forall g :: g in rows ==> g.0 in byKey)
    && (forall k :: k in byKey ==> (k, AnyIndex(byKey[k])) in rows)
    && (forall k, i :: k in byKey ==> (i in byKey[k] <==> (k, i) in rows))
    && (forall k, i :: k in byKey && i in byKey[k] ==> byKey[k][i] == CellOf(i, table[(k, i)]))
  }

  lemma GroupedNothing(table: map<(string, int), Counts>)
    ensures Grouped(table, map[], {})
  {
  }

  lemma GroupedInsert(table: map<(string, int), Counts>, byKey: Cells, rows: set<(string, int)>, g: (string, int))
    requires Grouped(table, byKey, rows) && g in table
    ensures Grouped(table, Insert(byKey, g, CellOf(g.1, table[g])), rows + {g})
  {
    var byKey' := Insert(byKey, g, CellOf(g.1, table[g]));
    assert g.1 in byKey'[g.0];
    forall k, i | k in byKey' ensures i in byKey'[k] <==> (k, i) in rows + {g} {
      if (k, i) in rows { assert (k, i).0 == k; }
    }
  }

  ghost predicate Assembled(byKey: Cells, first: int, length: nat, out: map<string, seq<Cell>>) {
    && out.Keys == byKey.Keys
    && (forall k :: k in out ==> |out[k]| == length)
    && (forall k, i :: k in out && 0 <= i < length ==> out[k][i] == CellAt(byKey[k], first + i))
  }

  ghost predicate Overlaid(cached: Cells, live: map<string, Cell>, hour: int, byKey: Cells) {
    && byKey.Keys == cached.Keys + live.Keys
    && forall k :: k in byKey ==>
         byKey[k] == if k in live then (if k in cached then cached[k] else map[])[hour := live[k]] else cached[k]
  }

  ghost predicate IsLive(db: Tables, live: map<string, Cell>, hour: int, offset: int) {
    && (forall k :: k in live <==> LiveSamples(db.results, k, HourStart(hour, offset)) != [])
    && (forall k :: k in live ==> live[k] == CellOf(hour, Tally(LiveSamples(db.results, k, HourStart(hour, offset)))))
  }

  lemma OverlayKey(db: Tables, cached: Cells, live: map<string, Cell>, byKey: Cells, key: string, last: int,
      hours: nat, offset: int)
    requires Grouped(db.hourly, cached, RowsIn(db.hourly, last - hours + 1, last))
    requires IsLive(db, live, last, offset) && byKey.Keys == cached.Keys + live.Keys
    ensures key in byKey <==> HasHourSeries(db, key, last, hours, offset)
  {
    GroupedKey(db.hourly, cached, last - hours + 1, last, key);
  }

  lemma OverlayCells(db: Tables, cached: Cells, live: map<string, Cell>, byKey: Cells, key: string, index: int,
      last: int, hours: nat, offset: int)
    requires Grouped(db.hourly, cached, RowsIn(db.hourly, last - hours + 1, last)) && last - hours < index <= last
    requires IsLive(db, live, last, offset) && Overlaid(cached, live, last, byKey) && key in byKey
    ensures CellAt(byKey[key], index) == HourCell(db, key, index, last, offset)
  {
    OverlaidCell(db, cached, byKey[key], key, last - hours + 1, last, index, offset);
  }

  lemma DailyAnswers(db: Tables, byKey: Cells, out: map<string, seq<Cell>>, first: int, days: nat)
    requires Grouped(db.daily, byKey, RowsIn(db.daily, first, first + days - 1))
    requires Assembled(byKey, first, days, out)
    ensures IsDailyAnswer(db, out, first, days)
  {
    forall k ensures k in out <==> HasDaySeries(db, k, first, days) {
      GroupedKey(db.daily, byKey, first, first + days - 1, k);
    }
    forall k, i | k in out && 0 <= i < days ensures out[k][i] == TableCell(db.daily, k, first + i) {
      DayCellOf(db, byKey, k, first, days, first + i);
    }
  }

  lemma DayCellOf(db: Tables, byKey: Cells, key: string, first: int, days: nat, index: int)
    requires Grouped(db.daily, byKey, RowsIn(db.daily, first, first + days - 1))
    requires key in byKey && first <= index < first + days
    ensures CellAt(byKey[key], index) == TableCell(db.daily, key, index)
  {
    if (key, index) in db.daily { assert (key, index).1 == index; }
  }

  /** The cells the hourly answer is made of. */
  ghost predicate IsHourlyCells(db: Tables, byKey: Cells, last: int, hours: nat, offset: int) {
    && (forall k :: k in byKey <==> HasHourSeries(db, k, last, hours, offset))
    && (forall k, i :: k in byKey && last - hours < i <= last ==>
        CellAt(byKey[k], i) == HourCell(db, k, i, last, offset))
  }

  lemma OverlayAnswers(db: Tables, cached: Cells, live: map<string, Cell>, byKey: Cells, last: int, hours: nat,
      offset: int)
    requires Grouped(db.hourly, cached, RowsIn(db.hourly, last - hours + 1, last))
    requires IsLive(db, live, last, offset) && Overlaid(cached, live, last, byKey)
    ensures IsHourlyCells(db, byKey, last, hours, offset)
  {
    forall k ensures k in byKey <==> HasHourSeries(db, k, last, hours, offset) {
      OverlayKey(db, cached, live, byKey, k, last, hours, offset);
    }
    forall k, i | k in byKey && last - hours < i <= last
      ensures CellAt(byKey[k], i) == HourCell(db, k, i, last, offset)
    {
      OverlayCells(db, cached, live, byKey, k, i, last, hours, offset);
    }
  }

  /** A cell after the overlay is the hourly cell. */
  lemma OverlaidCell(db: Tables, cached: Cells, cells: map<int, Cell>, key: string, first: int, last: int,
      index: int, offset: int)
    requires Grouped(db.hourly, cached, RowsIn(db.hourly, first, last)) && first <= index <= last
    requires var live := LiveSamples(db.results, key, HourStart(last, offset));
             if live != []
             then cells == (if key in cached then cached[key] else map[])[last := CellOf(last, Tally(live))]
             else key in cached && cells == cached[key]
    ensures CellAt(cells, index) == HourCell(db, key, index, last, offset)
  {
    if (key, index) in db.hourly { assert (key, index).0 == key && (key, index).1 == index; }
  }

  lemma GroupedKey(table: map<(string, int), Counts>, byKey: Cells, first: int, last: int, key: string)
    requires Grouped(table, byKey, RowsIn(table, first, last))
    ensures key in byKey <==> exists i :: first <= i <= last && (key, i) in table
  {
    if i :| first <= i <= last && (key, i) in table {
      assert (key, i) in RowsIn(table, first, last) && (key, i).0 == key;
    }
  }

  lemma {:induction false} LiveWitness(results: seq<Row>, key: string, from: int)
    ensures LiveSamples(results, key, from) != [] <==> exists r :: r in results && r.key == key && r.at >= from
  {
    if results != [] {
      var init, last := results[..|results| - 1], results[|results| - 1];
      LiveWitness(init, key, from);
      assert results == init + [last];
      assert last in results;
    }
  }
}
