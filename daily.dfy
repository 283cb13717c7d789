/**
 * The daily puzzle: the number of whole days since 2025-01-01 00:00 UTC,
 * taken modulo the catalog length, selects today's code.  Times are
 * milliseconds since 1970-01-01 00:00 UTC, as JavaScript's Date holds them.
 */
module Daily {
  import opened Wrappers
  import opened Arith

  const MS_PER_DAY: int := 86400000

  /** Date.UTC(2025, 0, 1): 20089 days after 1970-01-01. */
  const EPOCH_MS: int := 1735689600000

  /**
   * The UTC calendar day a time falls in, counted from 1970-01-01.  Every UTC
   * day has exactly MS_PER_DAY milliseconds in JavaScript time, so for the
   * years 0000 to 9999 this number stands for the date text
   * toISOString().slice(0, 10), one to one.
   */
  function DayNumber(ms: int): (d: int)
    ensures d * MS_PER_DAY <= ms < (d + 1) * MS_PER_DAY
  {
    ms / MS_PER_DAY
  }

  /** Math.floor((today - epoch) / 86400000): whole days since the epoch, rounded down. */
  function DayIndex(nowMs: int): (d: int)
    ensures d * MS_PER_DAY <= nowMs - EPOCH_MS < (d + 1) * MS_PER_DAY
  {
    (nowMs - EPOCH_MS) / MS_PER_DAY
  }

  /** The day index is the calendar day counted from the epoch's day. */
  lemma DayIndexOfDate(nowMs: int)
    ensures DayIndex(nowMs) == DayNumber(nowMs) - DayNumber(EPOCH_MS)
  {
    var d := DayNumber(nowMs);
    DivModUnique(nowMs - EPOCH_MS, MS_PER_DAY, d - 20089, nowMs % MS_PER_DAY);
  }

  /** JavaScript's `%`: the remainder truncated toward zero, taking the sign of `a`. */
  function JsRem(a: int, n: int): (r: int)
    requires n > 0
    ensures -n < r < n
    ensures a >= 0 ==> r == a % n
    ensures a < 0 ==> r <= 0 && (r == 0 <==> a % n == 0)
    ensures a < 0 ==> r == -((-a) % n)
  {
    if a >= 0 then a % n
    else
      var q, m := (-a) / n, (-a) % n;
      if m == 0 then
        DivModUnique(a, n, -q, 0);
        0
      else
        DivModUnique(a, n, -q - 1, n - m);
        -m
  }

  /**
   * list[dayIndex % list.length].  An empty list gives NaN as the index and
   * a negative remainder indexes nothing: both read `undefined`, here None.
   * A negative multiple of the length gives -0, which reads list[0].
   */
  function SelectSolution(list: seq<string>, dayIndex: int): (r: Option<string>)
    ensures r.Some? <==> |list| > 0 && (dayIndex >= 0 || dayIndex % |list| == 0)
    ensures r.Some? ==> r.value in list
    ensures |list| > 0 && (dayIndex >= 0 || dayIndex % |list| == 0) ==> r == Some(list[dayIndex % |list|])
  {
    if |list| == 0 then None
    else
      var k := JsRem(dayIndex, |list|);
      if k >= 0 then Some(list[k]) else None
  }

  /** The solution for the moment `nowMs`. */
  function TodaySolution(list: seq<string>, nowMs: int): (r: Option<string>)
    ensures r.Some? ==> r.value in list
    ensures |list| > 0 && nowMs >= EPOCH_MS ==> r == Some(list[DayIndex(nowMs) % |list|])
  {
    SelectSolution(list, DayIndex(nowMs))
  }

  /** Everyone on the same UTC date gets the same solution. */
  lemma SameDateSameSolution(list: seq<string>, t1: int, t2: int)
    requires DayNumber(t1) == DayNumber(t2)
    ensures TodaySolution(list, t1) == TodaySolution(list, t2)
  {
    DayIndexOfDate(t1);
    DayIndexOfDate(t2);
  }

  /** Day indices that differ by a whole number of catalog cycles select the same code. */
  lemma SolutionPeriodic(list: seq<string>, d: int, k: int)
    requires |list| > 0 && d >= 0 && k >= 0
    ensures SelectSolution(list, d + k * |list|) == SelectSolution(list, d)
  {
    var n := |list|;
    assert d + k * n == (d / n + k) * n + d % n;
    DivModUnique(d + k * n, n, d / n + k, d % n);
  }

  /** Over one cycle from the epoch, every entry of the catalog is the solution on its own day. */
  lemma SolutionCycles(list: seq<string>, i: int)
    requires 0 <= i < |list|
    ensures TodaySolution(list, EPOCH_MS + i * MS_PER_DAY) == Some(list[i])
  {
    DivModUnique(i * MS_PER_DAY, MS_PER_DAY, i, 0);
    DivModUnique(i, |list|, 0, i);
  }

  /** Catalog AAA, BBB, CCC: 2025-01-01 gives AAA, 2025-01-02 BBB, 2025-01-04 AAA again. */
  lemma DailyExample()
    ensures TodaySolution(["AAA", "BBB", "CCC"], EPOCH_MS) == Some("AAA")
    ensures TodaySolution(["AAA", "BBB", "CCC"], EPOCH_MS + MS_PER_DAY + 43200000) == Some("BBB")
    ensures TodaySolution(["AAA", "BBB", "CCC"], EPOCH_MS + 3 * MS_PER_DAY) == Some("AAA")
    ensures TodaySolution(["AAA", "BBB", "CCC"], EPOCH_MS - 1) == None
    ensures TodaySolution(["AAA", "BBB", "CCC"], EPOCH_MS - 3 * MS_PER_DAY) == Some("AAA")
    ensures TodaySolution([], EPOCH_MS) == None
  {
    assert DayIndex(EPOCH_MS + MS_PER_DAY + 43200000) == 1;
    assert DayIndex(EPOCH_MS + 3 * MS_PER_DAY) == 3;
    assert DayIndex(EPOCH_MS - 1) == -1;
    assert DayIndex(EPOCH_MS - 3 * MS_PER_DAY) == -3;
  }
}
