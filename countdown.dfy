/** The time to the next puzzle, split into hours, minutes and seconds. */
module Countdown {
  import opened Wrappers
  import opened Arith
  import opened Daily

  const MS_PER_HOUR: int := 3600000
  const MS_PER_MINUTE: int := 60000
  const MS_PER_SECOND: int := 1000

  datatype Clock = Clock(h: int, m: int, s: int)

  /**
   * The start of the next UTC day, Date.UTC(year, month, date + 1): JavaScript
   * time has exactly MS_PER_DAY milliseconds per UTC day.  Date.UTC reads a
   * year from 0 to 99 as 1900 to 1999; for clocks in those years the source
   * lands about nineteen centuries later, and that rule is not modelled.
   */
  function NextMidnight(nowMs: int): (r: int)
    ensures nowMs < r <= nowMs + MS_PER_DAY && r % MS_PER_DAY == 0
  {
    DivModUnique((nowMs / MS_PER_DAY + 1) * MS_PER_DAY, MS_PER_DAY, nowMs / MS_PER_DAY + 1, 0);
    (nowMs / MS_PER_DAY + 1) * MS_PER_DAY
  }

  /**
   * tick: nothing for a difference that is not positive, otherwise the whole
   * hours, the minutes left over and the seconds left over.
   */
  function Split(diff: int): (r: Option<Clock>)
    ensures r.None? <==> diff <= 0
    ensures r.Some? ==> 0 <= r.value.h && 0 <= r.value.m < 60 && 0 <= r.value.s < 60
    ensures r.Some? ==>
      var total := r.value.h * MS_PER_HOUR + r.value.m * MS_PER_MINUTE + r.value.s * MS_PER_SECOND;
      total <= diff < total + MS_PER_SECOND
  {
    if diff <= 0 then None
    else
      var h, m, s := diff / MS_PER_HOUR, (diff % MS_PER_HOUR) / MS_PER_MINUTE, (diff % MS_PER_MINUTE) / MS_PER_SECOND;
      SplitBounds(diff);
      Some(Clock(h, m, s))
  }

  lemma SplitBounds(diff: int)
    requires diff > 0
    ensures var h, m, s := diff / MS_PER_HOUR, (diff % MS_PER_HOUR) / MS_PER_MINUTE, (diff % MS_PER_MINUTE) / MS_PER_SECOND;
      0 <= h && 0 <= m < 60 && 0 <= s < 60 &&
      h * MS_PER_HOUR + m * MS_PER_MINUTE + s * MS_PER_SECOND <= diff < h * MS_PER_HOUR + m * MS_PER_MINUTE + (s + 1) * MS_PER_SECOND
  {
    var h, rh := diff / MS_PER_HOUR, diff % MS_PER_HOUR;
    var m, rm := rh / MS_PER_MINUTE, rh % MS_PER_MINUTE;
    var s := rm / MS_PER_SECOND;
    DivModUnique(diff, MS_PER_MINUTE, h * 60 + m, rm);
  }

  /** Splitting a time given as hours, minutes, seconds and milliseconds gives those back. */
  lemma SplitInverse(h: int, m: int, s: int, ms: int)
    requires 0 <= h && 0 <= m < 60 && 0 <= s < 60 && 0 <= ms < 1000
    requires h * MS_PER_HOUR + m * MS_PER_MINUTE + s * MS_PER_SECOND + ms > 0
    ensures Split(h * MS_PER_HOUR + m * MS_PER_MINUTE + s * MS_PER_SECOND + ms) == Some(Clock(h, m, s))
  {
    var diff := h * MS_PER_HOUR + m * MS_PER_MINUTE + s * MS_PER_SECOND + ms;
    DivModUnique(diff, MS_PER_HOUR, h, m * MS_PER_MINUTE + s * MS_PER_SECOND + ms);
    DivModUnique(m * MS_PER_MINUTE + s * MS_PER_SECOND + ms, MS_PER_MINUTE, m, s * MS_PER_SECOND + ms);
    DivModUnique(diff, MS_PER_MINUTE, h * 60 + m, s * MS_PER_SECOND + ms);
  }

  /**
   * The countdown shown at any moment of the modelled clock: always defined,
   * at most 24 hours, and 24h 0m 0s exactly at a UTC midnight (the years 0 to
   * 99, where Date.UTC shifts the year, are outside NextMidnight's model).
   */
  lemma CountdownAtMost24h(nowMs: int)
    ensures Split(NextMidnight(nowMs) - nowMs).Some?
    ensures Split(NextMidnight(nowMs) - nowMs).value.h <= 24
    ensures Split(NextMidnight(nowMs) - nowMs).value.h == 24 <==> nowMs % MS_PER_DAY == 0
  {
    var diff := NextMidnight(nowMs) - nowMs;
    var k := nowMs % MS_PER_DAY;
    assert diff == MS_PER_DAY - k;
    if k == 0 {
      SplitInverse(24, 0, 0, 0);
    } else {
      DivModUnique(diff, MS_PER_HOUR, diff / MS_PER_HOUR, diff % MS_PER_HOUR);
    }
  }
}
