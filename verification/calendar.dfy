/** Python's `datetime.date` restricted to what the modelled code uses: the
    proleptic Gregorian calendar on years 1..9999, the day ordinal
    (`date.toordinal()`), comparison, stepping by days (`date ± timedelta`),
    `weekday()` and construction from integers, which raises `ValueError` on an
    impossible day.
 */
module Calendar {
  import opened Options

  const MinYear: int := 1
  const MaxYear: int := 9999

  predicate IsLeap(y: int) {
    y % 4 == 0 && (y % 100 != 0 || y % 400 == 0)
  }

  function DaysInYear(y: int): int {
    if IsLeap(y) then 366 else 365
  }

  function DaysInMonth(y: int, m: int): int
    requires 1 <= m <= 12
  {
    if m == 2 then (if IsLeap(y) then 29 else 28)
    else if m == 4 || m == 6 || m == 9 || m == 11 then 30
    else 31
  }

  /** A (year, month, day) triple, valid or not. */
  datatype Ymd = Ymd(year: int, month: int, day: int)

  predicate ValidYmd(d: Ymd) {
    MinYear <= d.year <= MaxYear && 1 <= d.month <= 12 && 1 <= d.day <= DaysInMonth(d.year, d.month)
  }

  /** A value of `datetime.date`. */
  type Date = d: Ymd | ValidYmd(d) witness Ymd(2000, 1, 1)

  const FirstDate: Date := Ymd(1, 1, 1)
  const LastDate: Date := Ymd(9999, 12, 31)

  /** `datetime.date(year, month, day)`: `ValueError` unless the triple names a day. */
  function MakeDate(year: int, month: int, day: int): (r: Result<Date>)
    ensures r.Ok? <==> ValidYmd(Ymd(year, month, day))
    ensures r.Ok? ==> r.value == Ymd(year, month, day)
    ensures r.Err? ==> r.error == ValueError
  {
    if ValidYmd(Ymd(year, month, day)) then Ok(Ymd(year, month, day)) else Err(ValueError)
  }

  // ---------------------------------------------------------------------
  // Day ordinal
  // ---------------------------------------------------------------------

  /** Days in the years before year y. */
  function DaysBeforeYear(y: int): int
    requires y >= 1
  {
    if y == 1 then 0 else DaysBeforeYear(y - 1) + DaysInYear(y - 1)
  }

  /** The closed form Python's datetime computes the same number with. */
  function DaysBeforeYearClosedForm(y: int): int
    requires y >= 1
  {
    var p := y - 1;
    p * 365 + p / 4 - p / 100 + p / 400
  }

  /** Days in the months of year y before month m (Python's cumulative month table). */
  function DaysBeforeMonth(y: int, m: int): int
    requires 1 <= m <= 12
  {
    [0, 31, 59, 90, 120, 151, 181, 212, 243, 273, 304, 334][m - 1]
    + (if m > 2 && IsLeap(y) then 1 else 0)
  }

  /** `date.toordinal()`: 1 for 0001-01-01, one more for each following day. */
  function Ordinal(d: Date): int {
    DaysBeforeYear(d.year) + DaysBeforeMonth(d.year, d.month) + d.day
  }

  const MaxOrdinal: int := 3652059

  lemma StepDiv4(y: int)
    requires y >= 1
    ensures y / 4 - (y - 1) / 4 == (if y % 4 == 0 then 1 else 0)
  {
  }

  lemma StepDiv100(y: int)
    requires y >= 1
    ensures y / 100 - (y - 1) / 100 == (if y % 100 == 0 then 1 else 0)
  {
  }

  lemma StepDiv400(y: int)
    requires y >= 1
    ensures y / 400 - (y - 1) / 400 == (if y % 400 == 0 then 1 else 0)
  {
  }

  lemma Multiples(y: int)
    ensures y % 400 == 0 ==> y % 100 == 0
    ensures y % 100 == 0 ==> y % 4 == 0
  {
    if y % 400 == 0 {
      var j := 4 * (y / 400);
      assert y == 100 * j;
    }
    if y % 100 == 0 {
      var j := 25 * (y / 100);
      assert y == 4 * j;
    }
  }

  /** Counting year by year agrees with Python's closed form. */
  lemma {:induction false} DaysBeforeYearClosed(y: int)
    requires y >= 1
    ensures DaysBeforeYear(y) == DaysBeforeYearClosedForm(y)
  {
    if y > 1 {
      DaysBeforeYearClosed(y - 1);
      StepDiv4(y - 1);
      StepDiv100(y - 1);
      StepDiv400(y - 1);
      Multiples(y - 1);
    }
  }

  lemma YearStep(y: int)
    requires y >= 1
    ensures DaysBeforeYear(y + 1) == DaysBeforeYear(y) + DaysInYear(y)
  {
  }

  lemma MonthStep(y: int, m: int)
    requires 1 <= m <= 12
    ensures m < 12 ==> DaysBeforeMonth(y, m + 1) == DaysBeforeMonth(y, m) + DaysInMonth(y, m)
    ensures m == 12 ==> DaysBeforeMonth(y, m) + DaysInMonth(y, m) == DaysInYear(y)
  {
  }

  lemma {:induction false} DaysBeforeYearMonotone(a: int, b: int)
    requires 1 <= a <= b
    ensures DaysBeforeYear(a) + 365 * (b - a) <= DaysBeforeYear(b)
    decreases b - a
  {
    if a < b {
      YearStep(a);
      DaysBeforeYearMonotone(a + 1, b);
    }
  }

  lemma {:induction false} DaysBeforeMonthMonotone(y: int, a: int, b: int)
    requires 1 <= a <= b <= 12
    ensures DaysBeforeMonth(y, a) + 28 * (b - a) <= DaysBeforeMonth(y, b)
    decreases b - a
  {
    if a < b {
      MonthStep(y, a);
      DaysBeforeMonthMonotone(y, a + 1, b);
    }
  }

  /** A date's ordinal lies between the start and the end of its year. */
  lemma OrdinalWithinYear(d: Date)
    ensures DaysBeforeYear(d.year) < Ordinal(d) <= DaysBeforeYear(d.year + 1)
  {
    YearStep(d.year);
    DaysBeforeMonthMonotone(d.year, d.month, 12);
    MonthStep(d.year, 12);
    if d.month < 12 {
      MonthStep(d.year, d.month);
      DaysBeforeMonthMonotone(d.year, d.month + 1, 12);
    }
  }

  /** Python's date comparison: lexicographic on (year, month, day). */
  predicate TupleLess(a: Ymd, b: Ymd) {
    a.year < b.year || (a.year == b.year && (a.month < b.month || (a.month == b.month && a.day < b.day)))
  }

  /** `a < b` on dates, stated through the ordinal. */
  predicate Less(a: Date, b: Date) {
    Ordinal(a) < Ordinal(b)
  }

  predicate LessEq(a: Date, b: Date) {
    Ordinal(a) <= Ordinal(b)
  }

  lemma TupleLessOrdinal(a: Date, b: Date)
    requires TupleLess(a, b)
    ensures Ordinal(a) < Ordinal(b)
  {
    if a.year < b.year {
      OrdinalWithinYear(a);
      OrdinalWithinYear(b);
      DaysBeforeYearMonotone(a.year + 1, b.year);
    } else if a.month < b.month {
      MonthStep(a.year, a.month);
      DaysBeforeMonthMonotone(a.year, a.month + 1, b.month);
    }
  }

  /** Ordering by ordinal is exactly Python's lexicographic date ordering. */
  lemma LessIsTupleLess(a: Date, b: Date)
    ensures Less(a, b) <==> TupleLess(a, b)
  {
    if TupleLess(a, b) {
      TupleLessOrdinal(a, b);
    } else if a != b {
      TupleLessOrdinal(b, a);
    }
  }

  /** Different dates have different ordinals. */
  lemma OrdinalInjective(a: Date, b: Date)
    ensures Ordinal(a) == Ordinal(b) <==> a == b
  {
    LessIsTupleLess(a, b);
    LessIsTupleLess(b, a);
  }

  lemma LastDateOrdinal()
    ensures Ordinal(LastDate) == MaxOrdinal
  {
    DaysBeforeYearClosed(9999);
  }

  lemma OrdinalBounds(d: Date)
    ensures 1 <= Ordinal(d) <= MaxOrdinal
    ensures Ordinal(d) == 1 <==> d == FirstDate
    ensures Ordinal(d) == MaxOrdinal <==> d == LastDate
  {
    LastDateOrdinal();
    if d != FirstDate {
      TupleLessOrdinal(FirstDate, d);
    }
    if d != LastDate {
      TupleLessOrdinal(d, LastDate);
    }
  }

  /** `min(ds)`, None for no dates. */
  function Earliest(ds: seq<Date>): (r: Option<Date>)
    ensures r.None? <==> ds == []
    ensures r.Some? ==> r.value in ds && forall i :: 0 <= i < |ds| ==> LessEq(r.value, ds[i])
  {
    if ds == [] then None
    else match Earliest(ds[1..])
      case None => Some(ds[0])
      case Some(m) =>
        assert forall i :: 1 <= i < |ds| ==> ds[i] == ds[1..][i - 1];
        Some(if Less(ds[0], m) then ds[0] else m)
  }

  /** `max(ds)`, None for no dates. */
  function Latest(ds: seq<Date>): (r: Option<Date>)
    ensures r.None? <==> ds == []
    ensures r.Some? ==> r.value in ds && forall i :: 0 <= i < |ds| ==> LessEq(ds[i], r.value)
  {
    if ds == [] then None
    else match Latest(ds[1..])
      case None => Some(ds[0])
      case Some(m) =>
        assert forall i :: 1 <= i < |ds| ==> ds[i] == ds[1..][i - 1];
        Some(if Less(m, ds[0]) then ds[0] else m)
  }

  // ---------------------------------------------------------------------
  // Stepping by days
  // ---------------------------------------------------------------------

  /** `d + timedelta(days=1)`; `None` stands for `OverflowError` after 9999-12-31. */
  function Succ(d: Date): Option<Date> {
    if d.day < DaysInMonth(d.year, d.month) then Some(Ymd(d.year, d.month, d.day + 1))
    else if d.month < 12 then Some(Ymd(d.year, d.month + 1, 1))
    else if d.year < MaxYear then Some(Ymd(d.year + 1, 1, 1))
    else None
  }

  /** `d - timedelta(days=1)`; `None` stands for `OverflowError` before 0001-01-01. */
  function Pred(d: Date): Option<Date> {
    if d.day > 1 then Some(Ymd(d.year, d.month, d.day - 1))
    else if d.month > 1 then Some(Ymd(d.year, d.month - 1, DaysInMonth(d.year, d.month - 1)))
    else if d.year > MinYear then Some(Ymd(d.year - 1, 12, 31))
    else None
  }

  lemma SuccOrdinal(d: Date)
    ensures Succ(d).Some? <==> Ordinal(d) < MaxOrdinal
    ensures Succ(d).Some? ==> Ordinal(Succ(d).value) == Ordinal(d) + 1
  {
    OrdinalBounds(d);
    if d.day == DaysInMonth(d.year, d.month) {
      MonthStep(d.year, d.month);
      if d.month == 12 {
        YearStep(d.year);
      }
    }
  }

  lemma PredOrdinal(d: Date)
    ensures Pred(d).Some? <==> Ordinal(d) > 1
    ensures Pred(d).Some? ==> Ordinal(Pred(d).value) == Ordinal(d) - 1
  {
    OrdinalBounds(d);
    if d.day == 1 {
      if d.month > 1 {
        MonthStep(d.year, d.month - 1);
      } else if d.year > MinYear {
        YearStep(d.year - 1);
        MonthStep(d.year - 1, 12);
      }
    }
  }

  /** `d + timedelta(days=n)`; `None` stands for `OverflowError`. */
  function AddDays(d: Date, n: int): Option<Date>
    decreases if n >= 0 then n else -n
  {
    if n == 0 then Some(d)
    else if n > 0 then
      match Succ(d)
      case None => None
      case Some(e) => AddDays(e, n - 1)
    else
      match Pred(d)
      case None => None
      case Some(e) => AddDays(e, n + 1)
  }

  /** Adding n days succeeds exactly when the target ordinal exists, and moves the ordinal by n. */
  lemma AddDaysOrdinal(d: Date, n: int)
    ensures AddDays(d, n).Some? <==> 1 <= Ordinal(d) + n <= MaxOrdinal
    ensures AddDays(d, n).Some? ==> Ordinal(AddDays(d, n).value) == Ordinal(d) + n
  {
    OrdinalBounds(d);
    if n >= 0 {
      AddDaysForward(d, n);
    } else {
      AddDaysBackward(d, -n);
    }
  }

  lemma {:induction false} AddDaysForward(d: Date, n: nat)
    ensures AddDays(d, n).Some? <==> Ordinal(d) + n <= MaxOrdinal
    ensures AddDays(d, n).Some? ==> Ordinal(AddDays(d, n).value) == Ordinal(d) + n
    decreases n
  {
    OrdinalBounds(d);
    if n > 0 {
      SuccOrdinal(d);
      if Succ(d).Some? {
        var e := Succ(d).value;
        assert AddDays(d, n) == AddDays(e, n - 1);
        AddDaysForward(e, n - 1);
      }
    }
  }

  lemma {:induction false} AddDaysBackward(d: Date, n: nat)
    ensures AddDays(d, -(n as int)).Some? <==> 1 <= Ordinal(d) - n
    ensures AddDays(d, -(n as int)).Some? ==> Ordinal(AddDays(d, -(n as int)).value) == Ordinal(d) - n
    decreases n
  {
    OrdinalBounds(d);
    if n > 0 {
      PredOrdinal(d);
      if Pred(d).Some? {
        var e := Pred(d).value;
        assert AddDays(d, -(n as int)) == AddDays(e, -((n - 1) as int));
        AddDaysBackward(e, n - 1);
      }
    }
  }

  /** `(b - a).days`. */
  function DaysBetween(a: Date, b: Date): int {
    Ordinal(b) - Ordinal(a)
  }

  lemma AddDaysBetween(a: Date, b: Date)
    ensures AddDays(a, DaysBetween(a, b)) == Some(b)
  {
    OrdinalBounds(b);
    AddDaysOrdinal(a, DaysBetween(a, b));
    OrdinalInjective(AddDays(a, DaysBetween(a, b)).value, b);
  }

  /** `date.weekday()`: Monday is 0 and Sunday is 6. */
  function Weekday(d: Date): (w: int)
    ensures 0 <= w < 7
  {
    (Ordinal(d) + 6) % 7
  }

  const Friday: int := 4

  /** The day after has the next weekday. */
  lemma SuccWeekday(d: Date)
    requires Succ(d).Some?
    ensures Weekday(Succ(d).value) == (Weekday(d) + 1) % 7
  {
    SuccOrdinal(d);
    ModSevenStep(Ordinal(d) + 6);
  }

  lemma ModSevenStep(x: int)
    ensures (x + 1) % 7 == (x % 7 + 1) % 7
  {
  }
}
