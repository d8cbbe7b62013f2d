/** Instants and durations are integers: nanoseconds, counted from an hour-aligned UTC
    epoch. The display zone is a fixed offset from UTC, so a local day or hour is an
    interval of constant width. */
module Clock {
  function Seconds(n: int): int { n * 1_000_000_000 }

  function Hours(n: int): int { n * 3_600_000_000_000 }

  function Days(n: int): int { n * 86_400_000_000_000 }

  /** The local day that holds an instant. */
  function LocalDay(t: int, offset: int): int { (t + offset) / 86_400_000_000_000 }

  /** The local hour that holds an instant. */
  function LocalHour(t: int, offset: int): int { (t + offset) / 3_600_000_000_000 }

  /** The instant at which a local day begins. */
  function DayStart(day: int, offset: int): int { Days(day) - offset }

  /** The instant at which a local hour begins. */
  function HourStart(hour: int, offset: int): int { Hours(hour) - offset }

  function HourFloor(t: int): int { t - t % 3_600_000_000_000 }

  function MinuteFloor(t: int): int { t - t % 60_000_000_000 }

  predicate WholeHours(offset: int) { offset % 3_600_000_000_000 == 0 }

  lemma DayInterval(t: int, offset: int, day: int)
    ensures LocalDay(t, offset) == day <==> DayStart(day, offset) <= t < DayStart(day + 1, offset)
  {
  }

  lemma HourInterval(t: int, offset: int, hour: int)
    ensures LocalHour(t, offset) == hour <==> HourStart(hour, offset) <= t < HourStart(hour + 1, offset)
  {
  }

  /** The last full hour at or before an instant. */
  lemma HourFloorIsTheLastHour(t: int, hour: int)
    ensures hour == HourFloor(t) <==> hour % 3_600_000_000_000 == 0 && hour <= t < hour + 3_600_000_000_000
  {
    assert hour % 3_600_000_000_000 == 0 && hour <= t < hour + 3_600_000_000_000 ==>
        t / 3_600_000_000_000 == hour / 3_600_000_000_000;
  }

  /** The last full minute at or before an instant. */
  lemma MinuteFloorIsTheLastMinute(t: int, minute: int)
    ensures minute == MinuteFloor(t) <==> minute % 60_000_000_000 == 0 && minute <= t < minute + 60_000_000_000
  {
    assert minute % 60_000_000_000 == 0 && minute <= t < minute + 60_000_000_000 ==>
        t / 60_000_000_000 == minute / 60_000_000_000;
  }
}
