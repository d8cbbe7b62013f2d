/** Check states, reason codes and the algebra that turns many states into one.

    The states form a join semilattice with `Retired` at the bottom, `Unknown`
    above it, `Up` and `Down` side by side above that, and `Degraded` on top.
    Everything the status page aggregates is a join in this order. */
module States {

  datatype State = Up | Degraded | Down | Unknown | Retired

  datatype Reason =
    | NoReason | Unreachable | Timeout | Http4xx | Http5xx | UnexpectedBody
    | SsoFormMissing | SsoLoginRejected | SsoBridgeMissing | TokenInvalid | UsernameMismatch
    | BreakerOpen | RetiredApi | LoginFormMissing | MxPartial | GateClosed | NotConfigured
    | SsoRedirectFailed | PausedAfterFailure

  datatype Result = Result(state: State, reason: Reason)

  const UP_RESULT := Result(Up, NoReason)

  predicate Conclusive(s: State) { s.Up? || s.Degraded? || s.Down? }

  // ---------------------------------------------------------------- the join

  function Join(a: State, b: State): State {
    if a == b || b.Retired? then a
    else if a.Retired? then b
    else if b.Unknown? then a
    else if a.Unknown? then b
    else Degraded
  }

  /** The state of a row made of the given parts. */
  function Derive(parts: seq<State>): State {
    if |parts| == 0 then Unknown
    else if |parts| == 1 then parts[0]
    else Join(Derive(parts[..|parts| - 1]), parts[|parts| - 1])
  }

  predicate NothingConclusive(parts: seq<State>) {
    Up !in parts && Degraded !in parts && Down !in parts
  }

  /** What each derived state says about the parts, in both directions. */
  lemma {:induction false} DeriveMeaning(parts: seq<State>)
    ensures Derive(parts) == Retired <==> parts != [] && NothingConclusive(parts) && Unknown !in parts
    ensures Derive(parts) == Unknown <==> NothingConclusive(parts) && (parts == [] || Unknown in parts)
    ensures Derive(parts) == Up <==> Up in parts && Degraded !in parts && Down !in parts
    ensures Derive(parts) == Down <==> Down in parts && Up !in parts && Degraded !in parts
  {
    if |parts| > 1 {
      var init, last := parts[..|parts| - 1], parts[|parts| - 1];
      DeriveMeaning(init);
      assert parts == init + [last];
    } else if |parts| == 1 {
      assert parts == [parts[0]];
    }
  }

  /** Neither the order nor the repetition of parts matters. */
  lemma DeriveIgnoresOrderAndRepetition(a: seq<State>, b: seq<State>)
    requires forall s :: s in a <==> s in b
    ensures Derive(a) == Derive(b)
  {
    DeriveMeaning(a);
    DeriveMeaning(b);
    assert a == [] || a[0] in b;
    assert b == [] || b[0] in a;
  }

  lemma {:induction false} DeriveAppend(a: seq<State>, b: seq<State>)
    requires a != [] && b != []
    ensures Derive(a + b) == Join(Derive(a), Derive(b))
  {
    var last := b[|b| - 1];
    assert (a + b)[..|a + b| - 1] == a + b[..|b| - 1];
    if |b| > 1 {
      DeriveAppend(a, b[..|b| - 1]);
    } else {
      assert a + b[..0] == a;
    }
  }

  /** A missing-data part leaves the row as if it were absent, except where every other
      part is retired. */
  lemma UnknownPartIsTransparent(before: seq<State>, after: seq<State>)
    ensures Derive(before + [Unknown] + after) == Derive(before + after)
            <==> Derive(before + after) != Retired
  {
    var with, without := before + [Unknown] + after, before + after;
    assert forall s :: s in with <==> s in without || s == Unknown;
    DeriveMeaning(with);
    DeriveMeaning(without);
    if without != [] { assert without[0] in without; }
  }

  lemma DownPartIsNeverUp(before: seq<State>, after: seq<State>)
    ensures Derive(before + [Down] + after) in {Down, Degraded}
  {
    var parts := before + [Down] + after;
    assert parts[|before|] == Down;
    assert Down in parts;
    DeriveMeaning(parts);
  }

  // ------------------------------------------------- rows of rows are flat rows

  function Flatten(rows: seq<seq<State>>): seq<State> {
    if rows == [] then [] else Flatten(rows[..|rows| - 1]) + rows[|rows| - 1]
  }

  function DeriveEach(rows: seq<seq<State>>): (derived: seq<State>)
    ensures |derived| == |rows|
  {
    if rows == [] then [] else DeriveEach(rows[..|rows| - 1]) + [Derive(rows[|rows| - 1])]
  }

  lemma {:induction false} TwoLevelJoin(rows: seq<seq<State>>)
    ensures Derive(DeriveEach(rows)) ==
            if [] in rows then Join(Derive(Flatten(rows)), Unknown) else Derive(Flatten(rows))
  {
    if rows != [] {
      var init, last := rows[..|rows| - 1], rows[|rows| - 1];
      TwoLevelJoin(init);
      if Flatten(init) == [] && init != [] { EmptyFlatten(init); }
      assert rows == init + [last];
      SplitDerive(DeriveEach(init), [Derive(last)]);
      SplitDerive(Flatten(init), last);
    }
  }

  /** `DeriveAppend` where either side may be empty. */
  lemma SplitDerive(a: seq<State>, b: seq<State>)
    ensures Derive(a + b) == if a == [] then Derive(b) else if b == [] then Derive(a) else Join(Derive(a), Derive(b))
  {
    if a == [] {
      assert a + b == b;
    } else if b == [] {
      assert a + b == a;
    } else {
      DeriveAppend(a, b);
    }
  }

  lemma {:induction false} EmptyFlatten(rows: seq<seq<State>>)
    requires rows != [] && Flatten(rows) == []
    ensures [] in rows
  {
    assert rows[|rows| - 1] == [];
  }

  /** The overall state taken from service rows is the state taken from all checks at once,
      unless a service without checks meets an otherwise fully retired page. */
  lemma TwoLevelAggregationIsFlat(rows: seq<seq<State>>)
    ensures Derive(DeriveEach(rows)) == Derive(Flatten(rows))
            <==> (Derive(Flatten(rows)) == Retired ==> [] !in rows)
  {
    TwoLevelJoin(rows);
  }

  /** A service without checks turns a retired page into an unknown one. */
  lemma AnEmptyServiceHidesRetirement()
    ensures Derive(DeriveEach([[], [Retired]])) == Unknown && Derive(Flatten([[], [Retired]])) == Retired
  {
    var rows: seq<seq<State>> := [[], [Retired]];
    assert rows[..1] == [[]] && rows[..1][..0] == [];
  }

  // --------------------------------------------------------- counts of samples

  datatype Counts = Counts(up: nat, degraded: nat, down: nat, unknown: nat, retired: nat) {
    function Conclusive(): nat { up + degraded + down }
    function Total(): nat { up + degraded + down + unknown + retired }
    function Plus(c: Counts): Counts {
      Counts(up + c.up, degraded + c.degraded, down + c.down, unknown + c.unknown, retired + c.retired)
    }
    predicate AtMost(c: Counts) {
      up <= c.up && degraded <= c.degraded && down <= c.down && unknown <= c.unknown && retired <= c.retired
    }
  }

  const NO_COUNTS := Counts(0, 0, 0, 0, 0)

  /** How often each state occurs: one `COUNT(*) FILTER` column per state. */
  function Tally(samples: seq<State>): Counts {
    var m := multiset(samples);
    Counts(m[Up], m[Degraded], m[Down], m[Unknown], m[Retired])
  }

  lemma TallyAppend(a: seq<State>, b: seq<State>)
    ensures Tally(a + b) == Tally(a).Plus(Tally(b))
  {
    forall s: State ensures multiset(a + b)[s] == multiset(a)[s] + multiset(b)[s] {
      assert multiset(a + b) == multiset(a) + multiset(b);
    }
  }

  lemma {:induction false} TallyTotal(samples: seq<State>)
    ensures Tally(samples).Total() == |samples|
  {
    if samples != [] {
      var init, last := samples[..|samples| - 1], samples[|samples| - 1];
      TallyTotal(init);
      assert samples == init + [last];
      TallyAppend(init, [last]);
      assert multiset([last]) == multiset{last};
      match last {
        case Up => case Degraded => case Down => case Unknown => case Retired =>
      }
    }
  }

  lemma TallyMembers(samples: seq<State>)
    ensures var c := Tally(samples);
            (c.up > 0 <==> Up in samples) && (c.degraded > 0 <==> Degraded in samples)
                && (c.down > 0 <==> Down in samples)
            && (c.unknown > 0 <==> Unknown in samples) && (c.retired > 0 <==> Retired in samples)
  {
  }

  lemma SomeMember(samples: seq<State>)
    requires samples != []
    ensures !NothingConclusive(samples) || Unknown in samples || Retired in samples
  {
    var s := samples[0];
    assert s in samples;
    assert s == Up || s == Degraded || s == Down || s == Unknown || s == Retired;
  }

  /** The state of one strip cell, from its counts. */
  function DayState(c: Counts): State {
    if c.Conclusive() == 0 && c.retired > 0 then Retired
    else if c.Conclusive() == 0 then Unknown
    else if c.down == c.Conclusive() then Down
    else if c.down > 0 || c.degraded > 0 then Degraded
    else Up
  }

  /** Counting first and summarising the counts loses nothing, except that retired samples
      hide missing ones when nothing conclusive was seen. */
  lemma DayStateAgreesWithDerive(samples: seq<State>)
    ensures DayState(Tally(samples)) == Derive(samples)
            <==> !(NothingConclusive(samples) && Retired in samples && Unknown in samples)
  {
    hide Tally, Derive;
    DeriveMeaning(samples);
    TallyMembers(samples);
    if samples != [] { SomeMember(samples); }
  }

  lemma RetiredHidesUnknown()
    ensures DayState(Tally([Retired, Unknown])) == Retired && Derive([Retired, Unknown]) == Unknown
  {
    hide Tally, Derive;
    var samples := [Retired, Unknown];
    assert samples[0] in samples && samples[1] in samples;
    DeriveMeaning(samples);
    TallyMembers(samples);
  }

  // ------------------------------------------------------ the loops of the code

  /** Collapses a row by filtering twice and counting. */
  method DeriveServiceState(states: seq<State>) returns (derived: State)
    ensures derived == Derive(states)
  {
    DeriveMeaning(states);
    if |states| == 0 {
      return Unknown;
    }
    assert states[0] in states;
    var live := [];
    for i := 0 to |states|
      invariant forall s :: s in live <==> s in states[..i] && s != Retired
    {
      if states[i] != Retired { live := live + [states[i]]; }
    }
    assert states[..|states|] == states;
    if |live| == 0 {
      return Retired;
    }
    assert live[0] in live;
    var known := [];
    for i := 0 to |live|
      invariant forall s :: s in known <==> s in live[..i] && s != Unknown
    {
      if live[i] != Unknown { known := known + [live[i]]; }
    }
    assert live[..|live|] == live;
    if |known| == 0 {
      return Unknown;
    }
    assert known[0] in known;
    var ups, downs := 0, 0;
    for i := 0 to |known|
      invariant 0 <= ups <= i && 0 <= downs <= i
      invariant ups == i <==> Degraded !in known[..i] && Down !in known[..i]
      invariant downs == i <==> Up !in known[..i] && Degraded !in known[..i]
    {
      assert known[..i + 1] == known[..i] + [known[i]] && known[i] in known;
      match known[i] {
        case Up => ups := ups + 1;
        case Down => downs := downs + 1;
        case _ =>
      }
    }
    assert known[..|known|] == known;
    assert forall s :: s in known <==> s in states && Conclusive(s);
    if downs == |known| {
      derived := Down;
    } else if ups == |known| {
      derived := Up;
    } else {
      derived := Degraded;
    }
  }

  /** What a check contributes to its service: a pause after a failure still counts as it. */
  function RollupState(s: State, r: Reason): State {
    if s == Unknown && r == PausedAfterFailure then Down else s
  }
}
