/** Timestamps are integers (milliseconds since the epoch). Local time is the
    timestamp shifted by a fixed offset `tz`, so local midnight is the
    greatest instant at or before `t` whose shifted value is a whole number
    of days; this is `Date.setHours(0, 0, 0, 0)`. */
module Clock {

  const DayMs: int := 86_400_000

  /** `setHours(0, 0, 0, 0)`: the local midnight starting the day of `t`. */
  function StartOfDay(t: int, tz: int): (r: int)
    ensures r <= t < r + DayMs
    ensures (r + tz) % DayMs == 0
  {
    t - (t + tz) % DayMs
  }

  /** `setHours(23, 59, 59, 999)`: the last millisecond of the local day of `t`. */
  function EndOfDay(t: int, tz: int): (r: int)
    ensures t <= r < t + DayMs
    ensures r == StartOfDay(t, tz) + DayMs - 1
  {
    StartOfDay(t, tz) + DayMs - 1
  }

  /** Two instants share a local day exactly when their midnights coincide. */
  lemma StartOfDayUnique(t: int, m: int, tz: int)
    requires m <= t < m + DayMs && (m + tz) % DayMs == 0
    ensures StartOfDay(t, tz) == m
  {
    var b := (m + tz) / DayMs;
    assert t + tz == b * DayMs + (t - m);
    ModUnique(t + tz, b, t - m);
  }

  /** Euclidean remainder is determined by any decomposition with a remainder in range. */
  lemma ModUnique(x: int, q: int, rem: int)
    requires x == q * DayMs + rem && 0 <= rem < DayMs
    ensures x % DayMs == rem
  {
  }

  /** A day starts before today's day exactly when the instant is before today's midnight. */
  lemma EarlierDay(t: int, now: int, tz: int)
    ensures StartOfDay(t, tz) < StartOfDay(now, tz) <==> t < StartOfDay(now, tz)
  {
    var r := StartOfDay(t, tz);
    var m := StartOfDay(now, tz);
    var a := (r + tz) / DayMs;
    var b := (m + tz) / DayMs;
    assert r + tz == a * DayMs;
    assert m + tz == b * DayMs;
    if a < b {
      assert a * DayMs + DayMs <= b * DayMs;
    }
  }

  /** Same local day as `now` exactly when within the 24 hours from today's midnight. */
  lemma SameDay(t: int, now: int, tz: int)
    ensures StartOfDay(t, tz) == StartOfDay(now, tz) <==>
            StartOfDay(now, tz) <= t < StartOfDay(now, tz) + DayMs
  {
    var m := StartOfDay(now, tz);
    if m <= t < m + DayMs {
      StartOfDayUnique(t, m, tz);
    }
  }

  /** An instant is at or before the end of the day of `d` exactly when its day is not later. */
  lemma ByEndOfDay(t: int, d: int, tz: int)
    ensures t <= EndOfDay(d, tz) <==> StartOfDay(t, tz) <= StartOfDay(d, tz)
  {
    EarlierDay(t, d, tz);
    SameDay(t, d, tz);
  }
}
