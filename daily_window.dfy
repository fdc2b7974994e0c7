/** The day window of the daily-note query: a Unix timestamp is read as a
    date in Korea Standard Time (UTC+9, no daylight saving), and the query
    covers that date's first second, 00:00:00, through 23:59:59.999999,
    both turned back into Unix seconds with Python's `int()`.

    Timestamps are whole seconds. `start_dt.timestamp()` is a whole number;
    `end_dt.timestamp()` is the exact rational start + 86399.999999 here,
    and `int()` truncates it toward zero. */
module DailyWindow {

  /** UTC+9 in seconds. */
  const KST_OFFSET: int := 32400

  const SECONDS_PER_DAY: int := 86400

  const MICROS_PER_SECOND: int := 1000000

  /** `time.max`, 23:59:59.999999, in microseconds after midnight. */
  const LAST_MICROSECOND: int := SECONDS_PER_DAY * MICROS_PER_SECOND - 1

  /** The query bounds, `creation_date BETWEEN start AND end`. */
  datatype Window = Window(start: int, end: int)

  predicate InWindow(t: int, w: Window)
  {
    w.start <= t <= w.end
  }

  /** The KST calendar day of a timestamp, counted in days from
      1970-01-01: `datetime.fromtimestamp(t, tz=KST).date()`. */
  function KstDay(t: int): (d: int)
    ensures d * SECONDS_PER_DAY - KST_OFFSET <= t < (d + 1) * SECONDS_PER_DAY - KST_OFFSET
  {
    (t + KST_OFFSET) / SECONDS_PER_DAY
  }

  /** KST midnight of day `d`, as a timestamp. */
  function Midnight(d: int): (t: int)
    ensures (t + KST_OFFSET) % SECONDS_PER_DAY == 0
    ensures KstDay(t) == d
  {
    d * SECONDS_PER_DAY - KST_OFFSET
  }

  /** Python's `int()` applied to the quotient `a / b`: truncation toward zero. */
  function TruncDiv(a: int, b: int): (q: int)
    requires b > 0
    ensures a >= 0 ==> q * b <= a < q * b + b
    ensures a < 0 ==> q * b - b < a <= q * b
  {
    if a >= 0 then a / b else -((-a) / b)
  }

  /** The window `get_daily` queries for `date`, as written: it starts at
      the KST midnight of the date's day and ends at the truncated
      timestamp of the day's last microsecond. That end is the day's last
      second when it is not before the epoch, and the next day's midnight
      when it is. */
  function DayWindow(date: int): (w: Window)
    ensures (w.start + KST_OFFSET) % SECONDS_PER_DAY == 0
    ensures KstDay(w.start) == KstDay(date)
    ensures w.start <= date < w.start + SECONDS_PER_DAY
    ensures w.start + SECONDS_PER_DAY - 1 >= 0 ==> w.end == w.start + SECONDS_PER_DAY - 1
    ensures w.start + SECONDS_PER_DAY - 1 < 0 ==> w.end == w.start + SECONDS_PER_DAY
  {
    var start := Midnight(KstDay(date));
    Window(start, TruncDiv(start * MICROS_PER_SECOND + LAST_MICROSECOND, MICROS_PER_SECOND))
  }

  /** From 1970-01-01 KST on, the window is the whole KST day and nothing
      else: a timestamp is in it exactly when it falls on the same KST day. */
  lemma {:induction false} WindowIsTheDay(date: int, t: int)
    requires KstDay(date) >= 0
    ensures DayWindow(date).end == DayWindow(date).start + SECONDS_PER_DAY - 1
    ensures InWindow(date, DayWindow(date))
    ensures InWindow(t, DayWindow(date)) <==> KstDay(t) == KstDay(date)
  {
    var w := DayWindow(date);
    var d := KstDay(date);
    assert w.start == d * SECONDS_PER_DAY - KST_OFFSET;
    if InWindow(t, w) {
      assert d * SECONDS_PER_DAY - KST_OFFSET <= t < (d + 1) * SECONDS_PER_DAY - KST_OFFSET;
      KstDayUnique(t, d);
    }
    if KstDay(t) == d {
      assert d * SECONDS_PER_DAY - KST_OFFSET <= t < (d + 1) * SECONDS_PER_DAY - KST_OFFSET;
    }
  }

  /** A timestamp in `[Midnight(d), Midnight(d + 1))` is on day `d`. */
  lemma KstDayUnique(t: int, d: int)
    requires d * SECONDS_PER_DAY - KST_OFFSET <= t < (d + 1) * SECONDS_PER_DAY - KST_OFFSET
    ensures KstDay(t) == d
  {
  }

  /** Two timestamps get the same window exactly when they fall on the same
      KST day. */
  lemma SameDaySameWindow(d1: int, d2: int)
    ensures DayWindow(d1) == DayWindow(d2) <==> KstDay(d1) == KstDay(d2)
  {
    if DayWindow(d1) == DayWindow(d2) {
      assert KstDay(DayWindow(d1).start) == KstDay(d1);
    }
  }

  /** Recomputing the window from its own start gives the same window. */
  lemma WindowIdempotent(date: int)
    ensures DayWindow(DayWindow(date).start) == DayWindow(date)
  {
    SameDaySameWindow(DayWindow(date).start, date);
  }

  /** From 1970-01-01 KST on, the windows of consecutive days are adjacent
      and disjoint: the next day's window starts one second after this one
      ends. */
  lemma ConsecutiveWindowsAdjacent(date: int)
    requires KstDay(date) >= 0
    ensures DayWindow(date + SECONDS_PER_DAY).start == DayWindow(date).end + 1
  {
    var d := KstDay(date);
    KstDayUnique(date + SECONDS_PER_DAY, d + 1);
    WindowIsTheDay(date, date);
  }

  /** As written, for a day before 1970-01-01 KST the window ends at the
      next day's midnight, so a note created at that instant is listed
      under both days. */
  lemma PreEpochWindowsOverlap(date: int)
    requires KstDay(date) < 0
    ensures DayWindow(date).end == DayWindow(date + SECONDS_PER_DAY).start
    ensures InWindow(DayWindow(date).end, DayWindow(date))
    ensures InWindow(DayWindow(date).end, DayWindow(date + SECONDS_PER_DAY))
  {
    var d := KstDay(date);
    KstDayUnique(date + SECONDS_PER_DAY, d + 1);
  }

  /** Timestamp -100000, 1969-12-31T05:13:20 KST: its window runs to
      1970-01-01T00:00:00 KST, the start of the next day's window. */
  lemma PreEpochExample()
    ensures DayWindow(-100000) == Window(-118800, -32400)
    ensures DayWindow(-100000 + SECONDS_PER_DAY).start == -32400
  {
    assert KstDay(-100000) == -1;
    assert KstDay(-100000 + SECONDS_PER_DAY) == 0;
  }

  /** The evidently intended window: the day's midnight through its last
      whole second, the end taken by flooring. Every timestamp lies in the
      window of exactly its own KST day. */
  function DayWindowIntended(date: int): (w: Window)
    ensures w.end == w.start + SECONDS_PER_DAY - 1
    ensures (w.start + KST_OFFSET) % SECONDS_PER_DAY == 0
    ensures forall t :: InWindow(t, w) <==> KstDay(t) == KstDay(date)
  {
    var start := Midnight(KstDay(date));
    var w := Window(start, (start * MICROS_PER_SECOND + LAST_MICROSECOND) / MICROS_PER_SECOND);
    assert w.end == start + SECONDS_PER_DAY - 1 by {
      assert start * MICROS_PER_SECOND + LAST_MICROSECOND
        == (start + SECONDS_PER_DAY - 1) * MICROS_PER_SECOND + (MICROS_PER_SECOND - 1);
    }
    forall t ensures InWindow(t, w) <==> KstDay(t) == KstDay(date) {
      if InWindow(t, w) {
        KstDayUnique(t, KstDay(date));
      }
    }
    w
  }

  /** The intended window is the one written exactly for the days from
      1970-01-01 KST on. */
  lemma IntendedAgreesFromEpoch(date: int)
    ensures DayWindowIntended(date) == DayWindow(date) <==> KstDay(date) >= 0
  {
  }

  /** With the intended end, windows of consecutive days are adjacent for
      every date, before the epoch too. */
  lemma IntendedConsecutiveWindowsAdjacent(date: int)
    ensures DayWindowIntended(date + SECONDS_PER_DAY).start == DayWindowIntended(date).end + 1
  {
    KstDayUnique(date + SECONDS_PER_DAY, KstDay(date) + 1);
  }
}
