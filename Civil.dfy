/** The proleptic Gregorian calendar as the browser's `Date` presents local dates:
    year, month (1..12, i.e. `getMonth() + 1`) and day of month. Days are counted
    from 0001-01-01, which is day 0 and a Monday. */
module Civil {
  import opened Common
  import opened Text

  datatype CivilDate = CivilDate(year: int, month: int, day: int)

  predicate IsLeap(y: int) {
    y % 4 == 0 && (y % 100 != 0 || y % 400 == 0)
  }

  function DaysInMonth(y: int, m: int): (n: int)
    requires 1 <= m <= 12
    ensures 28 <= n <= 31
  {
    if m == 2 then (if IsLeap(y) then 29 else 28)
    else if m == 4 || m == 6 || m == 9 || m == 11 then 30
    else 31
  }

  predicate Valid(d: CivilDate) {
    1 <= d.month <= 12 && 1 <= d.day <= DaysInMonth(d.year, d.month)
  }

  /** A date that exists in the calendar. */
  type Day = d: CivilDate | Valid(d) witness CivilDate(1, 1, 1)

  /** A valid JavaScript `Date`: its time value in milliseconds and the local calendar day
      it falls on. The time zone that relates the two is outside the model, so a moment
      carries both; `new Date(text)` is a parameter `parse` of the members that need it,
      with `None` for an Invalid Date. */
  datatype Moment = Moment(ms: int, local: Day)

  /** `new Date(text)`, which depends on the browser and its time zone. */
  type Parser = string -> Option<Moment>

  /** Days of year `y` that precede the first of month `m` (m = 13 gives the year's length). */
  function DaysBeforeMonth(y: int, m: int): (n: nat)
    requires 1 <= m <= 13
    decreases m
  {
    if m == 1 then 0 else DaysBeforeMonth(y, m - 1) + DaysInMonth(y, m - 1)
  }

  /** Days from 0001-01-01 to the first of January of year `y` (negative before year 1). */
  function DaysBeforeYear(y: int): int {
    365 * (y - 1) + (y - 1) / 4 - (y - 1) / 100 + (y - 1) / 400
  }

  function DayNumber(d: CivilDate): int
    requires Valid(d)
  {
    DaysBeforeYear(d.year) + DaysBeforeMonth(d.year, d.month) + d.day - 1
  }

  /** A year has 366 days when it is a leap year and 365 otherwise. */
  lemma YearDays(y: int)
    ensures DaysBeforeMonth(y, 13) == if IsLeap(y) then 366 else 365
  {
    var feb := if IsLeap(y) then 29 else 28;
    assert DaysBeforeMonth(y, 3) == 31 + feb;
    assert DaysBeforeMonth(y, 7) == 31 + feb + 31 + 30 + 31 + 30;
    assert DaysBeforeMonth(y, 10) == 31 + feb + 31 + 30 + 31 + 30 + 31 + 31 + 30;
  }

  /** The first of January of `y + 1` comes a year's length after that of `y`. */
  lemma YearLength(y: int)
    ensures DaysBeforeMonth(y, 13) == if IsLeap(y) then 366 else 365
    ensures DaysBeforeYear(y + 1) == DaysBeforeYear(y) + DaysBeforeMonth(y, 13)
  {
    YearDays(y);
    DivStep4(y - 1);
    DivStep100(y - 1);
    DivStep400(y - 1);
    LeapDivisors(y);
  }

  lemma LeapDivisors(y: int)
    ensures y % 400 == 0 ==> y % 100 == 0
    ensures y % 100 == 0 ==> y % 4 == 0
  {
    if y % 400 == 0 {
      Mod400Mod100(y);
    }
    if y % 100 == 0 {
      Mod100Mod4(y);
    }
  }

  lemma Mod400Mod100(y: int)
    requires y % 400 == 0
    ensures y % 100 == 0
  {
    assert y == 100 * (4 * (y / 400));
  }

  lemma Mod100Mod4(y: int)
    requires y % 100 == 0
    ensures y % 4 == 0
  {
    assert y == 4 * (25 * (y / 100));
  }

  /** Division by 4, 100 and 400 steps up by one exactly at the multiples. */
  lemma DivStep4(a: int)
    ensures (a + 1) / 4 == a / 4 + (if (a + 1) % 4 == 0 then 1 else 0)
  {
  }

  lemma DivStep100(a: int)
    ensures (a + 1) / 100 == a / 100 + (if (a + 1) % 100 == 0 then 1 else 0)
  {
  }

  lemma DivStep400(a: int)
    ensures (a + 1) / 400 == a / 400 + (if (a + 1) % 400 == 0 then 1 else 0)
  {
  }

  /** The day after `d`. */
  function NextDay(d: CivilDate): CivilDate
    requires Valid(d)
  {
    if d.day < DaysInMonth(d.year, d.month) then CivilDate(d.year, d.month, d.day + 1)
    else if d.month < 12 then CivilDate(d.year, d.month + 1, 1)
    else CivilDate(d.year + 1, 1, 1)
  }

  /** The day before `d`. */
  function PrevDay(d: CivilDate): CivilDate
    requires Valid(d)
  {
    if d.day > 1 then CivilDate(d.year, d.month, d.day - 1)
    else if d.month > 1 then CivilDate(d.year, d.month - 1, DaysInMonth(d.year, d.month - 1))
    else CivilDate(d.year - 1, 12, 31)
  }

  /** The day after a valid date is a valid date, one day later. */
  lemma NextDayNumber(d: CivilDate)
    requires Valid(d)
    ensures Valid(NextDay(d)) && DayNumber(NextDay(d)) == DayNumber(d) + 1
  {
    if d.day < DaysInMonth(d.year, d.month) {
      assert NextDay(d) == CivilDate(d.year, d.month, d.day + 1);
      DayStep(d.year, d.month, d.day);
    } else if d.month < 12 {
      assert NextDay(d) == CivilDate(d.year, d.month + 1, 1);
      MonthStep(d.year, d.month);
      assert d == CivilDate(d.year, d.month, DaysInMonth(d.year, d.month));
    } else {
      assert NextDay(d) == CivilDate(d.year + 1, 1, 1);
      YearStep(d.year);
      assert d == CivilDate(d.year, 12, 31);
    }
  }

  /** The day before a valid date is a valid date, one day earlier. */
  lemma PrevDayNumber(d: CivilDate)
    requires Valid(d)
    ensures Valid(PrevDay(d)) && DayNumber(PrevDay(d)) == DayNumber(d) - 1
  {
    if d.day > 1 {
      assert PrevDay(d) == CivilDate(d.year, d.month, d.day - 1);
      DayStep(d.year, d.month, d.day - 1);
    } else if d.month > 1 {
      var m := d.month - 1;
      assert PrevDay(d) == CivilDate(d.year, m, DaysInMonth(d.year, m));
      MonthStep(d.year, m);
      assert d == CivilDate(d.year, m + 1, 1);
    } else {
      var y := d.year - 1;
      assert PrevDay(d) == CivilDate(y, 12, 31);
      YearStep(y);
      assert d == CivilDate(y + 1, 1, 1);
    }
  }

  /** Within a month, the next day of the month is the next day. */
  lemma DayStep(y: int, m: int, day: int)
    requires 1 <= m <= 12 && 1 <= day < DaysInMonth(y, m)
    ensures DayNumber(CivilDate(y, m, day + 1)) == DayNumber(CivilDate(y, m, day)) + 1
  {
  }

  /** The first of month `m + 1` follows the last day of month `m`. */
  lemma MonthStep(y: int, m: int)
    requires 1 <= m < 12
    ensures DayNumber(CivilDate(y, m + 1, 1)) == DayNumber(CivilDate(y, m, DaysInMonth(y, m))) + 1
  {
  }

  /** The first of January of `y + 1` follows the last of December of `y`. */
  lemma YearStep(y: int)
    ensures DayNumber(CivilDate(y + 1, 1, 1)) == DayNumber(CivilDate(y, 12, 31)) + 1
  {
    YearLength(y);
    assert DaysBeforeMonth(y, 13) == DaysBeforeMonth(y, 12) + 31;
  }

  /** The date `n` days after `d` (JavaScript's `setDate(getDate() + n)`). */
  function AddDays(d: CivilDate, n: nat): (r: CivilDate)
    requires Valid(d)
    ensures Valid(r) && DayNumber(r) == DayNumber(d) + n
    decreases n
  {
    if n == 0 then d
    else
      NextDayNumber(d);
      AddDays(NextDay(d), n - 1)
  }

  /** The date `n` days before `d`. */
  function SubDays(d: CivilDate, n: nat): (r: CivilDate)
    requires Valid(d)
    ensures Valid(r) && DayNumber(r) == DayNumber(d) - n
    decreases n
  {
    if n == 0 then d
    else
      PrevDayNumber(d);
      SubDays(PrevDay(d), n - 1)
  }

  /** Position in a week that starts on Monday: 0 = Monday ... 6 = Sunday. */
  function MondayIndex(d: CivilDate): (k: int)
    requires Valid(d)
    ensures 0 <= k < 7
  {
    DayNumber(d) % 7
  }

  /** `Date.prototype.getDay`: 0 = Sunday ... 6 = Saturday. */
  function JsGetDay(d: CivilDate): (k: int)
    requires Valid(d)
    ensures 0 <= k < 7
    ensures (k + 6) % 7 == MondayIndex(d)
  {
    (MondayIndex(d) + 1) % 7
  }

  /** Two anchors of the weekday count: 2024-01-01 and 0001-01-01 were Mondays,
      2026-10-14 a Wednesday. */
  lemma WeekdayAnchors()
    ensures MondayIndex(CivilDate(1, 1, 1)) == 0
    ensures MondayIndex(CivilDate(2024, 1, 1)) == 0
    ensures MondayIndex(CivilDate(2026, 10, 14)) == 2
  {
  }

  /** Consecutive days step through the week. */
  lemma NextDayWeekday(d: CivilDate)
    requires Valid(d)
    ensures MondayIndex(NextDay(d)) == (MondayIndex(d) + 1) % 7
  {
    var n := DayNumber(d);
    NextDayNumber(d);
    ModSevenStep(n);
  }

  lemma ModSevenStep(n: int)
    ensures (n + 1) % 7 == (n % 7 + 1) % 7
  {
  }

  /** JavaScript's `new Date(y, m, d)` reads a year from 0 to 99 as 1900 + y. */
  function JsYear(y: int): (r: int)
    ensures 0 <= y <= 99 ==> r == 1900 + y
    ensures !(0 <= y <= 99) ==> r == y
  {
    if 0 <= y <= 99 then 1900 + y else y
  }

  // ---------------------------------------------------------------------------
  // Chronological order

  /** `a` comes before `b` when compared as (year, month, day). */
  predicate DateLess(a: CivilDate, b: CivilDate) {
    a.year < b.year || (a.year == b.year && (a.month < b.month || (a.month == b.month && a.day < b.day)))
  }

  lemma {:induction false} DaysBeforeYearIncreasing(y1: int, y2: int)
    requires y1 < y2
    ensures DaysBeforeYear(y1) + DaysBeforeMonth(y1, 13) <= DaysBeforeYear(y2)
    decreases y2 - y1
  {
    YearLength(y1);
    if y1 + 1 < y2 {
      DaysBeforeYearIncreasing(y1 + 1, y2);
    }
  }

  lemma {:induction false} DaysBeforeMonthIncreasing(y: int, m1: int, m2: int)
    requires 1 <= m1 < m2 <= 13
    ensures DaysBeforeMonth(y, m1) + DaysInMonth(y, m1) <= DaysBeforeMonth(y, m2)
    decreases m2 - m1
  {
    if m1 + 1 < m2 {
      DaysBeforeMonthIncreasing(y, m1 + 1, m2);
    }
  }

  lemma DayNumberWithinYear(d: CivilDate)
    requires Valid(d)
    ensures DaysBeforeYear(d.year) <= DayNumber(d) < DaysBeforeYear(d.year) + DaysBeforeMonth(d.year, 13)
  {
    if d.month < 12 {
      DaysBeforeMonthIncreasing(d.year, d.month, 13);
    }
  }

  /** Day numbers order dates exactly as (year, month, day) does. */
  lemma DayNumberOrder(a: CivilDate, b: CivilDate)
    requires Valid(a) && Valid(b)
    ensures DayNumber(a) < DayNumber(b) <==> DateLess(a, b)
  {
    if a.year < b.year {
      EarlierYear(a, b);
    } else if b.year < a.year {
      EarlierYear(b, a);
    } else {
      SameYearOrder(a, b);
    }
  }

  lemma EarlierYear(a: CivilDate, b: CivilDate)
    requires Valid(a) && Valid(b) && a.year < b.year
    ensures DayNumber(a) < DayNumber(b)
  {
    DayNumberWithinYear(a);
    DayNumberWithinYear(b);
    DaysBeforeYearIncreasing(a.year, b.year);
  }

  lemma SameYearOrder(a: CivilDate, b: CivilDate)
    requires Valid(a) && Valid(b) && a.year == b.year
    ensures DayNumber(a) < DayNumber(b) <==> DateLess(a, b)
  {
    if a.month < b.month {
      DaysBeforeMonthIncreasing(a.year, a.month, b.month);
    } else if b.month < a.month {
      DaysBeforeMonthIncreasing(a.year, b.month, a.month);
    }
  }

  /** A day number names one date only. */
  lemma DayNumberInjective(a: CivilDate, b: CivilDate)
    requires Valid(a) && Valid(b) && DayNumber(a) == DayNumber(b)
    ensures a == b
  {
    DayNumberOrder(a, b);
    DayNumberOrder(b, a);
  }

  // ---------------------------------------------------------------------------
  // Date keys

  /** The `YYYY-MM-DD` key of a date: the year as `String` renders it, then month and day
      padded to two digits. */
  function Ymd(d: CivilDate): string {
    IntToString(d.year) + "-" + Pad2(d.month) + "-" + Pad2(d.day)
  }

  /** The key an invalid `Date` gets: every field renders as `NaN`. */
  const InvalidYmd: string := "NaN-NaN-NaN"

  /** The key of a possibly invalid date. */
  function YmdOf(d: Option<CivilDate>): string {
    match d
    case Some(c) => Ymd(c)
    case None => InvalidYmd
  }

  lemma YmdShape(d: CivilDate)
    requires Valid(d)
    ensures var s := Ymd(d); var n := |IntToString(d.year)|;
      |s| == n + 6 && s[..n] == IntToString(d.year) && s[n] == '-' && s[n + 3] == '-'
      && s[n + 1..n + 3] == Pad2(d.month) && s[n + 4..] == Pad2(d.day)
  {
    var y, m, t := IntToString(d.year), Pad2(d.month), Pad2(d.day);
    var s := y + "-" + m + "-" + t;
    assert |m| == 2 && |t| == 2;
    assert s == y + ("-" + m + "-" + t);
    assert s[..|y|] == y;
    assert s[|y| + 1..|y| + 3] == m;
    assert s[|y| + 4..] == t;
  }

  /** Distinct dates have distinct keys, so a key identifies its day. */
  lemma YmdInjective(a: CivilDate, b: CivilDate)
    requires Valid(a) && Valid(b) && Ymd(a) == Ymd(b)
    ensures a == b
  {
    YmdShape(a);
    YmdShape(b);
    var s := Ymd(a);
    var n := |IntToString(a.year)|;
    assert n == |IntToString(b.year)|;
    assert IntToString(a.year) == s[..n] == IntToString(b.year);
    IntToStringInjective(a.year, b.year);
    assert Pad2(a.month) == s[n + 1..n + 3] == Pad2(b.month);
    assert Pad2(a.day) == s[n + 4..] == Pad2(b.day);
  }

  /** No valid date has the key of an invalid one. */
  lemma YmdNotInvalid(d: CivilDate)
    requires Valid(d)
    ensures Ymd(d) != InvalidYmd
  {
    YmdShape(d);
  }

  /** `<` on strings of the same length compares block by block. */
  lemma {:induction false} StrLessConcat(x1: string, x2: string, y1: string, y2: string)
    requires |x1| == |y1|
    ensures StrLess(x1 + x2, y1 + y2) <==> StrLess(x1, y1) || (x1 == y1 && StrLess(x2, y2))
  {
    if x1 == [] {
      assert x1 + x2 == x2 && y1 + y2 == y2;
    } else {
      var a, b := x1 + x2, y1 + y2;
      assert a[0] == x1[0] && b[0] == y1[0];
      assert a[1..] == x1[1..] + x2 && b[1..] == y1[1..] + y2;
      StrLessConcat(x1[1..], x2, y1[1..], y2);
      if x1[0] == y1[0] && x1[1..] == y1[1..] {
        assert x1 == [x1[0]] + x1[1..] && y1 == [y1[0]] + y1[1..];
      }
      if x1 == y1 {
        StrLessIrreflexive(x1);
      }
    }
  }

  /** On digit strings of one length, `<` is the order of their values. */
  lemma {:induction false} DigitStringOrder(x: string, y: string)
    requires AllDigits(x) && AllDigits(y) && |x| == |y|
    ensures StrLess(x, y) <==> DigitsValue(x) < DigitsValue(y)
    ensures x == y <==> DigitsValue(x) == DigitsValue(y)
    decreases |x|
  {
    if x == [] {
    } else {
      var n := |x| - 1;
      var x0, y0 := x[..n], y[..n];
      assert x == x0 + [x[n]] && y == y0 + [y[n]];
      DigitStringOrder(x0, y0);
      StrLessConcat(x0, [x[n]], y0, [y[n]]);
      StrLessTotal(x0, y0);
      if StrLess(x0, y0) {
        StrLessAsymmetric(x0, y0);
      }
    }
  }

  /** For years of four digits, the key order is the chronological order, so comparing
      keys as strings compares the days. */
  lemma YmdOrder(a: CivilDate, b: CivilDate)
    requires Valid(a) && Valid(b)
    requires 1000 <= a.year <= 9999 && 1000 <= b.year <= 9999
    ensures StrLess(Ymd(a), Ymd(b)) <==> DayNumber(a) < DayNumber(b)
  {
    NatToStringFourDigits(a.year);
    NatToStringFourDigits(b.year);
    var ya, yb := IntToString(a.year), IntToString(b.year);
    var ma, mb := Pad2(a.month), Pad2(b.month);
    var da, db := Pad2(a.day), Pad2(b.day);
    KeyOrder(ya, ma, da, yb, mb, db);
    DigitsValueOfNatToString(a.year);
    DigitsValueOfNatToString(b.year);
    DigitStringOrder(ya, yb);
    DigitStringOrder(ma, mb);
    DigitStringOrder(da, db);
    assert StrLess(Ymd(a), Ymd(b)) <==> DateLess(a, b);
    DayNumberOrder(a, b);
  }

  /** Keys made of blocks of equal widths compare year block first, then month, then day. */
  lemma KeyOrder(ya: string, ma: string, da: string, yb: string, mb: string, db: string)
    requires |ya| == |yb| && |ma| == |mb|
    ensures StrLess(ya + "-" + ma + "-" + da, yb + "-" + mb + "-" + db)
        <==> StrLess(ya, yb) || (ya == yb && (StrLess(ma, mb) || (ma == mb && StrLess(da, db))))
  {
    assert ya + "-" + ma + "-" + da == ya + ("-" + (ma + ("-" + da)));
    assert yb + "-" + mb + "-" + db == yb + ("-" + (mb + ("-" + db)));
    StrLessConcat(ya, "-" + (ma + ("-" + da)), yb, "-" + (mb + ("-" + db)));
    StrLessCommonPrefix("-", ma + ("-" + da), mb + ("-" + db));
    StrLessConcat(ma, "-" + da, mb, "-" + db);
    StrLessCommonPrefix("-", da, db);
  }
}
