/** The start of the candle a timestamp belongs to, at every resolution the chart offers.
    Times are whole milliseconds since the epoch, before or after it; the calendar is the
    proleptic Gregorian one, in UTC. */
module BarTime {

  /** A resolution as the chart names it; an unknown name has no bars. */
  datatype Resolution = Minutes(n: int) | Day | Week | Month | Unknown

  const MINUTE_MS: int := 60 * 1000
  const DAY_MS: int := 24 * 60 * 60 * 1000

  predicate Supported(r: Resolution): (b: bool)
    ensures b <==> r in {Minutes(1), Minutes(5), Minutes(15), Minutes(30), Minutes(60), Day, Week, Month}
  {
    match r
    case Minutes(n) => n in {1, 5, 15, 30, 60}
    case Unknown => false
    case _ => true
  }

  predicate LeapYear(y: int) { y % 4 == 0 && (y % 100 != 0 || y % 400 == 0) }

  /** Length of the k-th month counted from January 1970. */
  function DaysInMonth(k: int): (d: int)
    ensures 28 <= d <= 31
  {
    var m := k % 12;
    if m == 1 then (if LeapYear(1970 + k / 12) then 29 else 28)
    else if m in {3, 5, 8, 10} then 30
    else 31
  }

  /** The day, counted from the epoch, on which the k-th month starts. */
  function MonthStart(k: int): int
    decreases if k < 0 then -k else k
  {
    if k == 0 then 0
    else if k > 0 then MonthStart(k - 1) + DaysInMonth(k - 1)
    else MonthStart(k + 1) - DaysInMonth(k)
  }

  lemma {:induction false} MonthsFollow(k: int)
    ensures MonthStart(k + 1) == MonthStart(k) + DaysInMonth(k)
  {}

  lemma {:induction false} MonthsAscend(j: int, k: int)
    requires j <= k
    ensures MonthStart(j) + 28 * (k - j) <= MonthStart(k)
    decreases k - j
  {
    if j < k {
      MonthsFollow(k - 1);
      MonthsAscend(j, k - 1);
    }
  }

  /** The month, counted from January 1970, that day `d` falls in, found by walking from `k`. */
  function MonthFrom(d: int, k: int): (m: int)
    ensures MonthStart(m) <= d < MonthStart(m + 1)
    decreases if d >= MonthStart(k + 1) then d - MonthStart(k) else if d < MonthStart(k) then MonthStart(k) - d else 0
  {
    MonthsFollow(k);
    MonthsFollow(k - 1);
    MonthsFollow(k + 1);
    if d >= MonthStart(k + 1) then MonthFrom(d, k + 1)
    else if d < MonthStart(k) then MonthFrom(d, k - 1)
    else k
  }

  /** The day on which the month of day `d` starts. */
  function MonthStartOf(d: int): (s: int)
    ensures s <= d
  {
    MonthStart(MonthFrom(d, 0))
  }

  lemma MonthIsUnique(d: int, k: int)
    requires MonthStart(k) <= d < MonthStart(k + 1)
    ensures MonthStartOf(d) == MonthStart(k)
  {
    hide MonthStart, DaysInMonth;
    var m := MonthFrom(d, 0);
    if m < k {
      MonthsAscend(m + 1, k);
    } else if k < m {
      MonthsAscend(k + 1, m);
    }
  }

  lemma MonthStartsAscend(d: int, e: int)
    requires d <= e
    ensures MonthStartOf(d) <= MonthStartOf(e)
  {
    hide MonthStart, DaysInMonth;
    var m, n := MonthFrom(d, 0), MonthFrom(e, 0);
    if n < m {
      MonthsAscend(n + 1, m);
    } else {
      MonthsAscend(m, n);
    }
  }

  lemma MonthStartSettles(d: int, e: int)
    requires MonthStartOf(d) <= e <= d
    ensures MonthStartOf(e) == MonthStartOf(d)
  {
    MonthIsUnique(e, MonthFrom(d, 0));
  }

  /** Days since Sunday; the epoch was a Thursday. */
  function WeekDay(d: int): (w: int)
    ensures 0 <= w < 7
  {
    (d + 4) % 7
  }

  function DayOf(t: int): int { t / DAY_MS }

  function FloorTo(t: int, span: int): int
    requires span > 0
  {
    t / span * span
  }

  /** The week is clamped to the month, as the history groups it. */
  function WeekStartOf(d: int): int {
    var sunday := d - WeekDay(d);
    if sunday >= MonthStartOf(d) then sunday else MonthStartOf(d)
  }

  function BarTimeFor(t: int, r: Resolution): int
    requires Supported(r)
  {
    match r
    case Minutes(n) => FloorTo(t, n * MINUTE_MS)
    case Day => FloorTo(t, DAY_MS)
    case Week => WeekStartOf(DayOf(t)) * DAY_MS
    case Month => MonthStartOf(DayOf(t)) * DAY_MS
  }

  // ---------------------------------------------------------------- never later, monotone, settled

  lemma {:induction false} Multiples(a: int, b: int, span: int)
    requires span > 0 && a <= b
    ensures a * span <= b * span
    ensures a < b ==> a * span + span <= b * span
    decreases b - a
  {
    if a < b {
      assert b * span == (b - 1) * span + span;
      Multiples(a, b - 1, span);
    }
  }

  lemma FloorBounds(t: int, span: int)
    requires span > 0
    ensures FloorTo(t, span) <= t < FloorTo(t, span) + span
  {}

  lemma FloorOfMultiple(q: int, span: int)
    requires span > 0
    ensures FloorTo(q * span, span) == q * span
  {
    FloorBounds(q * span, span);
    var d := q * span / span;
    if d <= q {
      Multiples(d, q, span);
    } else {
      Multiples(q, d, span);
    }
  }

  lemma FloorFacts(t: int, u: int, span: int)
    requires span > 0
    ensures FloorTo(t, span) <= t
    ensures FloorTo(FloorTo(t, span), span) == FloorTo(t, span)
    ensures t <= u ==> FloorTo(t, span) <= FloorTo(u, span)
  {
    FloorBounds(t, span);
    FloorBounds(u, span);
    FloorOfMultiple(t / span, span);
    if t / span <= u / span {
      Multiples(t / span, u / span, span);
    } else {
      Multiples(u / span, t / span, span);
    }
  }

  lemma SundaysAscend(d: int, e: int)
    requires d <= e
    ensures d - WeekDay(d) <= e - WeekDay(e)
  {}

  lemma WeekFacts(d: int, e: int)
    ensures WeekStartOf(d) <= d
    ensures WeekStartOf(WeekStartOf(d)) == WeekStartOf(d)
    ensures d <= e ==> WeekStartOf(d) <= WeekStartOf(e)
  {
    var w := WeekStartOf(d);
    MonthStartSettles(d, w);
    SundaysAscend(w, d);
    if d <= e {
      MonthStartsAscend(d, e);
      SundaysAscend(d, e);
    }
  }

  lemma DayFacts(t: int, u: int, d: int)
    ensures DayOf(t) * DAY_MS <= t
    ensures DayOf(d * DAY_MS) == d
    ensures t <= u ==> DayOf(t) <= DayOf(u)
  {}

  lemma MonthStartIsBack(d: int)
    ensures MonthStartOf(d) <= d
  {}

  /** A bar never starts after the trades in it. */
  lemma BarStartsBefore(t: int, r: Resolution)
    requires Supported(r)
    ensures BarTimeFor(t, r) <= t
  {
    hide FloorTo, DayOf, WeekStartOf, MonthStartOf;
    match r {
      case Minutes(n) => FloorFacts(t, t, n * MINUTE_MS);
      case Day => FloorFacts(t, t, DAY_MS);
      case Week => DayFacts(t, t, 0); WeekFacts(DayOf(t), DayOf(t));
      case Month => DayFacts(t, t, 0); MonthStartIsBack(DayOf(t));
    }
  }

  /** A bar's own start belongs to the bar. */
  lemma BarTimeSettles(t: int, r: Resolution)
    requires Supported(r)
    ensures BarTimeFor(BarTimeFor(t, r), r) == BarTimeFor(t, r)
  {
    hide FloorTo, DayOf, WeekStartOf, MonthStartOf;
    match r {
      case Minutes(n) => FloorFacts(t, t, n * MINUTE_MS);
      case Day => FloorFacts(t, t, DAY_MS);
      case Week => {
        DayFacts(t, t, WeekStartOf(DayOf(t)));
        WeekFacts(DayOf(t), DayOf(t));
      }
      case Month => {
        DayFacts(t, t, MonthStartOf(DayOf(t)));
        MonthStartIsBack(DayOf(t));
        MonthStartSettles(DayOf(t), MonthStartOf(DayOf(t)));
      }
    }
  }

  /** Later trades belong to the same bar or a later one. */
  lemma BarTimesAscend(t: int, u: int, r: Resolution)
    requires Supported(r) && t <= u
    ensures BarTimeFor(t, r) <= BarTimeFor(u, r)
  {
    hide FloorTo, DayOf, WeekStartOf, MonthStartOf;
    match r {
      case Minutes(n) => FloorFacts(t, u, n * MINUTE_MS);
      case Day => FloorFacts(t, u, DAY_MS);
      case Week => DayFacts(t, u, 0); WeekFacts(DayOf(t), DayOf(u));
      case Month => DayFacts(t, u, 0); MonthStartsAscend(DayOf(t), DayOf(u));
    }
  }

  /** So the bars partition time: two times share a bar exactly when no bar starts between them. */
  lemma SameBarIffNoStartBetween(t: int, u: int, r: Resolution)
    requires Supported(r) && t <= u
    ensures BarTimeFor(t, r) == BarTimeFor(u, r) <==> BarTimeFor(u, r) <= t
  {
    BarStartsBefore(t, r);
    if BarTimeFor(u, r) <= t {
      BarTimesAscend(BarTimeFor(u, r), t, r);
      BarTimeSettles(u, r);
      BarTimesAscend(t, u, r);
    }
  }

  // ---------------------------------------------------------------- the calendar

  lemma MonthOfYear(y: int, m: int)
    requires 0 <= m < 12
    ensures var k := 12 * (y - 1970) + m;
            MonthStart(k + 1) - MonthStart(k) ==
              if m == 1 then (if y % 400 == 0 then 29 else if y % 100 == 0 then 28 else if y % 4 == 0 then 29 else 28)
              else if m in {3, 5, 8, 10} then 30
              else 31
  {
    hide MonthStart;
    var k := 12 * (y - 1970) + m;
    MonthsFollow(k);
    assert k % 12 == m && 1970 + k / 12 == y;
  }

  /** The twelve months of a year, with the Gregorian leap rule. */
  lemma MonthLengths(y: int)
    ensures var first := 12 * (y - 1970);
            && MonthStart(first + 1) - MonthStart(first) == 31
            && MonthStart(first + 2) - MonthStart(first + 1) ==
               (if y % 400 == 0 then 29 else if y % 100 == 0 then 28 else if y % 4 == 0 then 29 else 28)
            && MonthStart(first + 3) - MonthStart(first + 2) == 31
            && MonthStart(first + 4) - MonthStart(first + 3) == 30
            && MonthStart(first + 5) - MonthStart(first + 4) == 31
            && MonthStart(first + 6) - MonthStart(first + 5) == 30
            && MonthStart(first + 7) - MonthStart(first + 6) == 31
            && MonthStart(first + 8) - MonthStart(first + 7) == 31
            && MonthStart(first + 9) - MonthStart(first + 8) == 30
            && MonthStart(first + 10) - MonthStart(first + 9) == 31
            && MonthStart(first + 11) - MonthStart(first + 10) == 30
            && MonthStart(first + 12) - MonthStart(first + 11) == 31
  {
    hide MonthStart, DaysInMonth;
    var first := 12 * (y - 1970);
    MonthOfYear(y, 0);
    MonthOfYear(y, 1);
    MonthOfYear(y, 2);
    MonthOfYear(y, 3);
    MonthOfYear(y, 4);
    MonthOfYear(y, 5);
    MonthOfYear(y, 6);
    MonthOfYear(y, 7);
    MonthOfYear(y, 8);
    MonthOfYear(y, 9);
    MonthOfYear(y, 10);
    MonthOfYear(y, 11);
  }

  /** Every year starts as many days after the epoch as the years before it have. */
  lemma {:induction false} YearsStart(y: int)
    ensures MonthStart(12 * (y - 1970)) == 365 * (y - 1970) + (y - 1) / 4 - (y - 1) / 100 + (y - 1) / 400 - 477
    decreases if y < 1970 then 1970 - y else y - 1970
  {
    if y > 1970 {
      YearsStart(y - 1);
      YearStep(y - 1);
    } else if y < 1970 {
      YearsStart(y + 1);
      YearStep(y);
    }
  }

  lemma YearStep(y: int)
    ensures MonthStart(12 * (y + 1 - 1970)) - MonthStart(12 * (y - 1970))
         == 365 + (y / 4 - (y - 1) / 4) - (y / 100 - (y - 1) / 100) + (y / 400 - (y - 1) / 400)
  {
    hide MonthStart;
    MonthLengths(y);
    assert 12 * (y + 1 - 1970) == 12 * (y - 1970) + 12;
    LeapCount(y);
  }

  lemma LeapCount(y: int)
    ensures (y / 4 - (y - 1) / 4) - (y / 100 - (y - 1) / 100) + (y / 400 - (y - 1) / 400)
         == if y % 400 == 0 then 1 else if y % 100 == 0 then 0 else if y % 4 == 0 then 1 else 0
  {}

  /** The first moment of a month. */
  ghost predicate FirstOfMonth(t: int) { exists k :: t == MonthStart(k) * 86400000 }

  /** The first moment of a Sunday: 1970-01-01 was a Thursday, so the first Sunday is day 3. */
  predicate SundayMidnight(t: int) { t % 604800000 == 259200000 }

  /** Where bars start: a bar of n minutes, or of a day, at the latest multiple of its length; a
      month's at the first moment of the calendar month; and a week's at the latest moment that
      is either a Sunday's first or a month's first. */
  ghost predicate StartsAt(start: int, t: int, r: Resolution) {
    && start <= t
    && match r
       case Minutes(n) => n in {1, 5, 15, 30, 60} && start % (n * 60000) == 0 && t < start + n * 60000
       case Day => start % 86400000 == 0 && t < start + 86400000
       case Week =>
         && (SundayMidnight(start) || FirstOfMonth(start))
         && t < start + 604800000
         && forall u | start < u <= t :: !SundayMidnight(u) && !FirstOfMonth(u)
       case Month => exists k :: start == MonthStart(k) * 86400000 && t < MonthStart(k + 1) * 86400000
       case Unknown => false
  }

  lemma FloorIsMultiple(t: int, span: int)
    requires span > 0
    ensures FloorTo(t, span) % span == 0
  {
    FloorOfMultiple(t / span, span);
  }

  lemma DayBounds(t: int)
    ensures DayOf(t) * 86400000 <= t < DayOf(t) * 86400000 + 86400000
  {}

  lemma SundayIs(d: int)
    ensures SundayMidnight(d * 86400000) <==> WeekDay(d) == 0
  {}

  lemma SundayIsADay(u: int)
    requires SundayMidnight(u)
    ensures u == DayOf(u) * 86400000
  {
    var q := u / 604800000;
    assert u == (7 * q + 3) * DAY_MS;
    DayFacts(u, u, 7 * q + 3);
  }

  lemma SundayBack(d: int)
    ensures WeekDay(d - WeekDay(d)) == 0
  {}

  lemma WeekStartsAt(t: int)
    ensures StartsAt(WeekStartOf(DayOf(t)) * DAY_MS, t, Week)
  {
    hide MonthStart, MonthFrom, MonthStartOf, WeekDay, SundayMidnight, DayOf;
    var d := DayOf(t);
    var w := WeekStartOf(d);
    var start := w * 86400000;
    DayBounds(t);
    SundayIs(d - WeekDay(d));
    SundayBack(d);
    assert MonthStartOf(d) * 86400000 == MonthStart(MonthFrom(d, 0)) * 86400000 by { MonthStartIs(d); }
    forall u | start < u <= t ensures !SundayMidnight(u) && !FirstOfMonth(u) {
      NoSundayBetween(t, u);
      NoFirstBetween(t, u);
    }
  }

  lemma MonthStartIs(d: int)
    ensures MonthStartOf(d) == MonthStart(MonthFrom(d, 0))
  {}

  lemma NoSundayBetween(t: int, u: int)
    requires WeekStartOf(DayOf(t)) * 86400000 < u <= t
    ensures !SundayMidnight(u)
  {
    hide MonthStartOf;
    if SundayMidnight(u) {
      SundayIsADay(u);
      SundayIs(DayOf(u));
      SundaysAscend(DayOf(u), DayOf(t));
    }
  }

  lemma NoFirstBetween(t: int, u: int)
    requires WeekStartOf(DayOf(t)) * 86400000 < u <= t
    ensures !FirstOfMonth(u)
  {
    hide MonthStart, MonthStartOf, WeekDay;
    if FirstOfMonth(u) {
      var k :| u == MonthStart(k) * 86400000;
      MonthsAscend(k, k + 1);
      MonthIsUnique(MonthStart(k), k);
      DayBounds(t);
      MonthStartsAscend(MonthStart(k), DayOf(t));
    }
  }

  lemma WhereBarsStart(t: int, r: Resolution)
    requires Supported(r)
    ensures StartsAt(BarTimeFor(t, r), t, r)
  {
    hide MonthStart, MonthStartOf, MonthFrom, WeekStartOf, FloorTo, DayOf;
    match r {
      case Minutes(n) => FloorBounds(t, n * MINUTE_MS); FloorIsMultiple(t, n * MINUTE_MS);
      case Day => FloorBounds(t, DAY_MS); FloorIsMultiple(t, DAY_MS);
      case Week => WeekStartsAt(t);
      case Month => DayBounds(t); MonthStartIs(DayOf(t));
    }
  }
}
