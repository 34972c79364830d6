/**
 * Calendar dates and times of the server's local clock, as JavaScript's `Date`
 * exposes them: year, month (0 = January), day of the month, hour, minute,
 * second, millisecond; the weekday (`getDay()`, 0 = Sunday) derived from them by
 * Gregorian calendar arithmetic; the chronological order; and `toISOString()`.
 */
module Calendar {
  import opened Js

  datatype DateTime = DateTime(year: int, month: int, day: int, hour: int, minute: int, second: int, millisecond: int)

  predicate IsLeapYear(y: int)
  {
    y % 4 == 0 && (y % 100 != 0 || y % 400 == 0)
  }

  function DaysInMonth(y: int, m: int): (n: int)
    requires 0 <= m < 12
    ensures 28 <= n <= 31
    ensures n == 29 <==> m == 1 && IsLeapYear(y)
  {
    if m == 1 then (if IsLeapYear(y) then 29 else 28)
    else if m == 3 || m == 5 || m == 8 || m == 10 then 30
    else 31
  }

  /** Day `d` of month `m` exists in year `y`. */
  predicate ValidDay(y: int, m: int, d: int)
  {
    0 <= m < 12 && 1 <= d <= DaysInMonth(y, m)
  }

  /** A date-time a `Date` object can hold and render with a four-digit year. */
  predicate Valid(t: DateTime)
  {
    && 0 <= t.year <= 9999
    && ValidDay(t.year, t.month, t.day)
    && 0 <= t.hour < 24 && 0 <= t.minute < 60 && 0 <= t.second < 60 && 0 <= t.millisecond < 1000
  }

  type Date = t: DateTime | Valid(t) witness DateTime(1970, 0, 1, 0, 0, 0, 0)

  /**
   * `new Date(y, m, d)` for a day number 1..31: a day past the end of the month
   * rolls over into the next month (and past December into the next year).
   */
  function LocalDate(y: int, m: int, d: int): (t: DateTime)
    requires 0 <= m < 12 && 1 <= d <= 31
    ensures t.year == y && t.month == m <==> d <= DaysInMonth(y, m)
    ensures d <= DaysInMonth(y, m) ==> t == Midnight(y, m, d)
  {
    if d <= DaysInMonth(y, m) then Midnight(y, m, d)
    else if m == 11 then Midnight(y + 1, 0, d - 31)
    else Midnight(y, m + 1, d - DaysInMonth(y, m))
  }

  /** Midnight at the start of a day. */
  function Midnight(y: int, m: int, d: int): DateTime
  {
    DateTime(y, m, d, 0, 0, 0, 0)
  }

  function DaysBeforeMonth(y: int, m: int): nat
    requires 0 <= m <= 12
  {
    if m == 0 then 0 else DaysBeforeMonth(y, m - 1) + DaysInMonth(y, m - 1)
  }

  /** The weekday of 1 January of year `y`, 0 = Sunday (Gauss's formula). */
  function NewYearWeekday(y: int): (w: int)
    ensures 0 <= w < 7
  {
    (1 + 5 * ((y - 1) % 4) + 4 * ((y - 1) % 100) + 6 * ((y - 1) % 400)) % 7
  }

  /** `date.getDay()` of day `d` of month `m` of year `y`: 0 = Sunday, ..., 6 = Saturday. */
  function DayOfWeek(y: int, m: int, d: int): (w: int)
    requires 0 <= m < 12
    ensures 0 <= w < 7
  {
    (NewYearWeekday(y) + DaysBeforeMonth(y, m) + d - 1) % 7
  }

  /** 1 January 1970, the start of the epoch, was a Thursday. */
  lemma EpochWasThursday()
    ensures NewYearWeekday(1970) == 4
    ensures DayOfWeek(1970, 0, 1) == 4
  {
  }

  /** A year has 366 days when it is a leap year and 365 otherwise. */
  lemma DaysInYear(y: int)
    ensures DaysBeforeMonth(y, 12) == if IsLeapYear(y) then 366 else 365
  {
    var feb := DaysInMonth(y, 1);
    assert DaysBeforeMonth(y, 1) == 31;
    assert DaysBeforeMonth(y, 2) == 31 + feb;
    assert DaysBeforeMonth(y, 3) == 62 + feb;
    assert DaysBeforeMonth(y, 4) == 92 + feb;
    assert DaysBeforeMonth(y, 5) == 123 + feb;
    assert DaysBeforeMonth(y, 6) == 153 + feb;
    assert DaysBeforeMonth(y, 7) == 184 + feb;
    assert DaysBeforeMonth(y, 8) == 215 + feb;
    assert DaysBeforeMonth(y, 9) == 245 + feb;
    assert DaysBeforeMonth(y, 10) == 276 + feb;
    assert DaysBeforeMonth(y, 11) == 306 + feb;
  }

  /** How `y % n` and `(y - 1) % n` differ, for the divisors of the leap-year rule. */
  lemma ModStep(y: int, n: int)
    requires n == 4 || n == 100 || n == 400
    ensures y % n != 0 ==> y % n == (y - 1) % n + 1
    ensures y % n == 0 ==> (y - 1) % n == n - 1
  {
  }

  /** Adding a multiple of 7 to a difference does not change the weekday. */
  lemma ShiftWeekday(before: int, after: int, days: int, weeks: int)
    requires after == before + days + 7 * weeks
    ensures after % 7 == (before % 7 + days) % 7
  {
  }

  /** The year after `y` starts as many weekdays later as `y` has days. */
  lemma NewYearAdvances(y: int)
    ensures NewYearWeekday(y + 1) == (NewYearWeekday(y) + DaysBeforeMonth(y, 12)) % 7
  {
    DaysInYear(y);
    ModStep(y, 4);
    ModStep(y, 100);
    ModStep(y, 400);
    var a := y - 1;
    var before := 1 + 5 * (a % 4) + 4 * (a % 100) + 6 * (a % 400);
    var after := 1 + 5 * (y % 4) + 4 * (y % 100) + 6 * (y % 400);
    if y % 4 != 0 {
      ShiftWeekday(before, after, 365, -50);
    } else if y % 100 != 0 {
      ShiftWeekday(before, after, 366, -53);
    } else if y % 400 != 0 {
      ShiftWeekday(before, after, 365, -110);
    } else {
      ShiftWeekday(before, after, 366, -453);
    }
  }

  /**
   * Consecutive days have consecutive weekdays: within a month, from the last
   * day of a month to the first of the next, and from 31 December to 1 January.
   */
  lemma NextDayIsNextWeekday(y: int, m: int, d: int)
    requires ValidDay(y, m, d)
    ensures d < DaysInMonth(y, m) ==> DayOfWeek(y, m, d + 1) == (DayOfWeek(y, m, d) + 1) % 7
    ensures d == DaysInMonth(y, m) && m < 11 ==> DayOfWeek(y, m + 1, 1) == (DayOfWeek(y, m, d) + 1) % 7
    ensures d == DaysInMonth(y, m) && m == 11 ==> DayOfWeek(y + 1, 0, 1) == (DayOfWeek(y, m, d) + 1) % 7
  {
    var x := NewYearWeekday(y) + DaysBeforeMonth(y, m) + d - 1;
    assert DayOfWeek(y, m, d) == x % 7;
    if d < DaysInMonth(y, m) {
      ShiftWeekday(x, x + 1, 1, 0);
    } else if m < 11 {
      assert DaysBeforeMonth(y, m + 1) == DaysBeforeMonth(y, m) + d;
      ShiftWeekday(x, x + 1, 1, 0);
    } else {
      NewYearAdvances(y);
      assert DaysBeforeMonth(y, 12) == DaysBeforeMonth(y, 11) + 31;
      ShiftWeekday(NewYearWeekday(y) + DaysBeforeMonth(y, 12), x + 1, 0, 0);
      ShiftWeekday(x, x + 1, 1, 0);
    }
  }

  /** The weekday names in `getDay()` order. */
  const WeekdayNames: seq<string> :=
    ["Sunday", "Monday", "Tuesday", "Wednesday", "Thursday", "Friday", "Saturday"]

  /** The weekday number of a weekday name; `None` for any other string. */
  function WeekdayIndex(name: string): (r: Option<int>)
    ensures r.Some? ==> 0 <= r.value < 7 && WeekdayNames[r.value] == name
    ensures r.None? <==> name !in WeekdayNames
  {
    if name == "Sunday" then Some(0)
    else if name == "Monday" then Some(1)
    else if name == "Tuesday" then Some(2)
    else if name == "Wednesday" then Some(3)
    else if name == "Thursday" then Some(4)
    else if name == "Friday" then Some(5)
    else if name == "Saturday" then Some(6)
    else None
  }

  /** The English weekday name of a date (`toLocaleDateString("en-US", {weekday: "long"})`). */
  function WeekdayName(t: Date): (r: string)
    ensures r in WeekdayNames
    ensures WeekdayIndex(r) == Some(DayOfWeek(t.year, t.month, t.day))
  {
    WeekdayNames[DayOfWeek(t.year, t.month, t.day)]
  }

  /** Every weekday occurs among the first seven days of January. */
  lemma FirstWeekHasEveryWeekday(y: int, w: int)
    requires 0 <= w < 7
    ensures ValidDay(y, 0, (w - NewYearWeekday(y)) % 7 + 1)
    ensures DayOfWeek(y, 0, (w - NewYearWeekday(y)) % 7 + 1) == w
  {
    var d := (w - NewYearWeekday(y)) % 7 + 1;
    assert NewYearWeekday(y) + d - 1 == w + 7 * ((NewYearWeekday(y) - w + 6) / 7) by {
      assert 0 <= d - 1 < 7;
    }
  }

  // ---------------------------------------------------------------------------
  // Chronological order

  function Fields(t: DateTime): seq<int>
  {
    [t.year, t.month, t.day, t.hour, t.minute, t.second, t.millisecond]
  }

  /** Lexicographic order on equally long integer sequences. */
  predicate LexLess(a: seq<int>, b: seq<int>)
    requires |a| == |b|
  {
    |a| > 0 && (a[0] < b[0] || (a[0] == b[0] && LexLess(a[1..], b[1..])))
  }

  /** `a < b` on dates: `a` comes strictly before `b`. */
  predicate Earlier(a: DateTime, b: DateTime)
  {
    LexLess(Fields(a), Fields(b))
  }

  lemma {:induction false} LexTrichotomy(a: seq<int>, b: seq<int>)
    requires |a| == |b|
    ensures LexLess(a, b) || a == b || LexLess(b, a)
    ensures !(LexLess(a, b) && LexLess(b, a))
    ensures !LexLess(a, a)
  {
    if |a| > 0 {
      LexTrichotomy(a[1..], b[1..]);
      if a[0] == b[0] && a[1..] == b[1..] {
        assert a == [a[0]] + a[1..] && b == [b[0]] + b[1..];
      }
      LexTrichotomy(a[1..], a[1..]);
    }
  }

  lemma {:induction false} LexTransitive(a: seq<int>, b: seq<int>, c: seq<int>)
    requires |a| == |b| == |c|
    requires LexLess(a, b) && LexLess(b, c)
    ensures LexLess(a, c)
  {
    if a[0] == b[0] && b[0] == c[0] {
      LexTransitive(a[1..], b[1..], c[1..]);
    }
  }

  /** `Earlier` is a strict total order on dates. */
  lemma EarlierIsStrictTotalOrder(a: DateTime, b: DateTime, c: DateTime)
    ensures !Earlier(a, a)
    ensures Earlier(a, b) || a == b || Earlier(b, a)
    ensures !(Earlier(a, b) && Earlier(b, a))
    ensures Earlier(a, b) && Earlier(b, c) ==> Earlier(a, c)
  {
    LexTrichotomy(Fields(a), Fields(b));
    LexTrichotomy(Fields(a), Fields(a));
    if Fields(a) == Fields(b) {
      assert a.year == b.year && a.month == b.month && a.day == b.day && a.hour == b.hour;
      assert Fields(a)[4..] == Fields(b)[4..];
    }
    if Earlier(a, b) && Earlier(b, c) {
      LexTransitive(Fields(a), Fields(b), Fields(c));
    }
  }

  // ---------------------------------------------------------------------------
  // date.toISOString(), with the server's local time taken as UTC

  function ToIsoString(t: Date): (s: string)
    ensures ':' in s
    ensures s[|s| - 1] == 'Z'
  {
    var head := PadNat(t.year, 4) + "-" + PadNat(t.month + 1, 2) + "-" + PadNat(t.day, 2) + "T" + PadNat(t.hour, 2);
    var s := head + ":" + PadNat(t.minute, 2) + ":" + PadNat(t.second, 2) + "." + PadNat(t.millisecond, 3) + "Z";
    assert s[|head|] == ':';
    s
  }
}
