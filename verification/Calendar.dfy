/**
 * Days since 1970-01-01 and the civil (proleptic Gregorian) date, each way, as
 * two independent closed forms with truncating division; and the naive calendar
 * that counts one day at a time, against which both are proved.
 */
module Calendar {

  /** Division truncated toward zero. */
  function TDiv(a: int, b: int): (q: int)
    requires b > 0
    ensures a >= 0 ==> q == a / b
    ensures a < 0 ==> q == -((-a) / b)
  {
    if a >= 0 then a / b else -((-a) / b)
  }

  /** `x % b` with the sign of the dividend. */
  function TMod(a: int, b: int): int
    requires b > 0
  {
    a - TDiv(a, b) * b
  }

  lemma DivIs(x: int, k: int, q: int)
    requires 0 < k && 0 <= x - q * k < k
    ensures x / k == q
  {
    var e := x / k - q;
    assert e * k == (x - x % k) - q * k;
    assert -k < e * k < k;
    assert e >= 1 ==> e * k >= k;
    assert e <= -1 ==> e * k <= -k;
  }

  lemma ModIs(x: int, k: int, q: int)
    requires 0 < k && 0 <= x - q * k < k
    ensures x / k == q && x % k == x - q * k
  {
    DivIs(x, k, q);
  }

  datatype Date = Date(year: int, month: int, day: int)

  /** Days since 1970-01-01. Accepts any month number from 1 to 12 and any day number. */
  function DaysFromCivil(y0: int, m: int, d: int): int {
    var y := if m <= 2 then y0 - 1 else y0;
    var era := TDiv(if y >= 0 then y else y - 399, 400);
    var yoe := y - era * 400;
    var mp := TMod(m + 9, 12);
    var doy := TDiv(153 * mp + 2, 5) + d - 1;
    var doe := yoe * 365 + TDiv(yoe, 4) - TDiv(yoe, 100) + doy;
    era * 146097 + doe - 719468
  }

  function CivilFromDays(z0: int): Date {
    var z := z0 + 719468;
    var era := EraOfDay(z);
    CivilInEra(era, z - era * 146097)
  }

  function EraOfDay(z: int): int {
    TDiv(if z >= 0 then z else z - 146096, 146097)
  }

  function CivilInEra(era: int, doe: int): Date {
    var yoe := YearInEra(doe);
    var doy := doe - (365 * yoe + TDiv(yoe, 4) - TDiv(yoe, 100));
    MonthAndDay(yoe + era * 400, doy)
  }

  function YearInEra(doe: int): int {
    TDiv(doe - TDiv(doe, 1460) + TDiv(doe, 36524) - TDiv(doe, 146096), 365)
  }

  function MonthAndDay(y: int, doy: int): Date {
    var mp := TDiv(5 * doy + 2, 153);
    var d := doy - TDiv(153 * mp + 2, 5) + 1;
    var m := if mp < 10 then mp + 3 else mp - 9;
    Date(if m <= 2 then y + 1 else y, m, d)
  }

  // ---------------------------------------------------------------- the naive calendar

  predicate Leap(y: int) {
    y % 4 == 0 && (y % 100 != 0 || y % 400 == 0)
  }

  function DaysInMonth(y: int, m: int): int {
    if m == 2 then (if Leap(y) then 29 else 28)
    else if m == 4 || m == 6 || m == 9 || m == 11 then 30
    else 31
  }

  predicate Valid(date: Date) {
    1 <= date.month <= 12 && 1 <= date.day <= DaysInMonth(date.year, date.month)
  }

  function NextDay(date: Date): Date {
    if date.day < DaysInMonth(date.year, date.month) then date.(day := date.day + 1)
    else if date.month < 12 then Date(date.year, date.month + 1, 1)
    else Date(date.year + 1, 1, 1)
  }

  // ---------------------------------------------------------------- days_from_civil counts days

  function Days(date: Date): int {
    DaysFromCivil(date.year, date.month, date.day)
  }

  /** The truncating era formula is a floor. */
  lemma EraIsFloor(y: int)
    ensures TDiv(if y >= 0 then y else y - 399, 400) == y / 400
  {}

  lemma DayEraIsFloor(z: int)
    ensures EraOfDay(z) == z / 146097
  {}

  /** Days before March 1 of civil year y (years counted from March), in the closed form. */
  function MarchDays(y: int): int {
    y * 365 + y / 4 - y / 100 + y / 400
  }

  /** The era arithmetic is the plain leap-rule count. */
  lemma EraSum(y: int)
    ensures var era := y / 400; var yoe := y - era * 400;
            && 0 <= yoe < 400
            && era * 146097 + yoe * 365 + yoe / 4 - yoe / 100 == MarchDays(y)
  {
    var era, yoe := y / 400, y % 400;
    assert y == era * 400 + yoe;
    assert y / 4 == era * 100 + yoe / 4;
    assert y / 100 == era * 4 + yoe / 100;
  }

  /** Day of the March-based year on which month m starts. */
  function MonthStart(m: int): int {
    (153 * ((m + 9) % 12) + 2) / 5
  }

  /** The closed form with floor division only: days before the March year, before the month, and in it. */
  function ClosedDays(y0: int, m: int, d: int): int {
    MarchDays(if m <= 2 then y0 - 1 else y0) + MonthStart(m) + d - 719469
  }

  lemma DaysClosedForm(y0: int, m: int, d: int)
    requires 1 <= m <= 12
    ensures DaysFromCivil(y0, m, d) == ClosedDays(y0, m, d)
  {
    var y := if m <= 2 then y0 - 1 else y0;
    EraIsFloor(y);
    EraSum(y);
    assert TMod(m + 9, 12) == (m + 9) % 12;
  }

  /** A multiple of k is passed exactly at its multiples. */
  lemma QuotientSteps(y: int, k: int)
    requires k > 1
    ensures y / k - (y - 1) / k == if y % k == 0 then 1 else 0
  {
    if y % k == 0 {
      ModIs(y - 1, k, y / k - 1);
    } else {
      ModIs(y - 1, k, y / k);
    }
  }

  lemma MarchYearLength(y: int)
    ensures MarchDays(y) - MarchDays(y - 1) == if Leap(y) then 366 else 365
  {
    QuotientSteps(y, 4);
    QuotientSteps(y, 100);
    QuotientSteps(y, 400);
    assert y % 400 == 0 ==> y % 100 == 0;
    assert y % 100 == 0 ==> y % 4 == 0;
  }

  lemma MonthTable()
    ensures MonthStart(3) == 0 && MonthStart(4) == 31 && MonthStart(5) == 61 && MonthStart(6) == 92
    ensures MonthStart(7) == 122 && MonthStart(8) == 153 && MonthStart(9) == 184 && MonthStart(10) == 214
    ensures MonthStart(11) == 245 && MonthStart(12) == 275 && MonthStart(1) == 306 && MonthStart(2) == 337
  {}

  lemma MonthLengths(y: int, m: int)
    requires 1 <= m <= 12 && m != 2
    ensures MonthStart(if m < 12 then m + 1 else 1) - MonthStart(m) == DaysInMonth(y, m)
  {
    MonthTable();
    if m == 1 {} else if m == 3 {} else if m == 4 {} else if m == 5 {} else if m == 6 {} else if m == 7 {}
    else if m == 8 {} else if m == 9 {} else if m == 10 {} else if m == 11 {} else {}
  }

  /** The days to the first of the next month are the days in the month. */
  lemma MonthEnd(y: int, m: int)
    requires 1 <= m <= 12
    ensures ClosedDays(if m < 12 then y else y + 1, if m < 12 then m + 1 else 1, 1) == ClosedDays(y, m, 1) + DaysInMonth(y, m)
  {
    if m == 2 {
      MarchYearLength(y);
      assert MonthStart(3) == 0 && MonthStart(2) == 337;
    } else {
      MonthLengths(y, m);
    }
  }

  /** Counting one day at a time agrees with the closed form, and the epoch is day 0. */
  lemma CountsDays(date: Date)
    requires Valid(date)
    ensures Valid(NextDay(date)) && Days(NextDay(date)) == Days(date) + 1
    ensures Days(Date(1970, 1, 1)) == 0
  {
    var next := NextDay(date);
    DaysClosedForm(date.year, date.month, date.day);
    DaysClosedForm(next.year, next.month, next.day);
    DaysClosedForm(1970, 1, 1);
    NextClosed(date);
  }

  lemma NextClosed(date: Date)
    requires Valid(date)
    ensures Valid(NextDay(date))
    ensures ClosedDays(NextDay(date).year, NextDay(date).month, NextDay(date).day) == ClosedDays(date.year, date.month, date.day) + 1
  {
    if date.day == DaysInMonth(date.year, date.month) {
      MonthEnd(date.year, date.month);
    }
  }

  // ---------------------------------------------------------------- civil_from_days inverts it

  /** Centuries of the day of the era, the last day of the era set right. */
  lemma CenturyOfDay(c: int, rest: int)
    requires 0 <= c < 4 && 0 <= rest < 36525 && (rest == 36524 ==> c == 3)
    ensures var doe := 36524 * c + rest; doe / 36524 - doe / 146096 == c
  {
    var doe := 36524 * c + rest;
    if rest == 36524 {
      assert doe == 146096;
    } else {
      DivIs(doe, 36524, c);
      DivIs(doe, 146096, 0);
    }
  }

  lemma FourYearsOfDay(c: int, q: int, t: int)
    requires 0 <= t < 2920
    ensures (1460 * (25 * c + q) + t) / 1460 == 25 * c + q + (if t < 1460 then 0 else 1)
  {
    var k := 25 * c + q;
    if t < 1460 {
      DivIs(1460 * k + t, 1460, k);
    } else {
      DivIs(1460 * k + t, 1460, k + 1);
    }
  }

  /** Leap days taken out, the day of the era is 365 a year and the day of the year, give or take one. */
  lemma Numerator(c: int, q: int, r: int, doy: int)
    requires 0 <= c < 4 && 0 <= q < 25 && 0 <= r < 4
    requires 0 <= doy < 366 && (doy == 365 ==> r == 3 && (q == 24 ==> c == 3))
    ensures var doe := 36524 * c + 1461 * q + 365 * r + doy;
            doe - doe / 1460 + doe / 36524 - doe / 146096
            == 365 * (100 * c + 4 * q + r) + doy - (if 24 * c + q + 365 * r + doy < 1460 then 0 else 1)
  {
    var doe := 36524 * c + 1461 * q + 365 * r + doy;
    CenturyOfDay(c, 1461 * q + 365 * r + doy);
    var t := 24 * c + q + 365 * r + doy;
    assert doe == 1460 * (25 * c + q) + t;
    FourYearsOfDay(c, q, t);
  }

  /** The year of the era is recovered from the day of the era. */
  lemma YearOfEra(c: int, q: int, r: int, doy: int)
    requires 0 <= c < 4 && 0 <= q < 25 && 0 <= r < 4
    requires 0 <= doy < 366 && (doy == 365 ==> r == 3 && (q == 24 ==> c == 3))
    ensures YearInEra(36524 * c + 1461 * q + 365 * r + doy) == 100 * c + 4 * q + r
  {
    var yoe := 100 * c + 4 * q + r;
    var rest := doy - (if 24 * c + q + 365 * r + doy < 1460 then 0 else 1);
    assert 0 <= rest < 365;
    DivIs(365 * yoe + rest, 365, yoe);
    Numerator(c, q, r, doy);
    YearInEraIs(36524 * c + 1461 * q + 365 * r + doy, 365 * yoe + rest);
  }

  lemma YearInEraIs(doe: int, numerator: int)
    requires doe >= 0 && numerator >= 0 && numerator == doe - doe / 1460 + doe / 36524 - doe / 146096
    ensures YearInEra(doe) == numerator / 365
  {}

  /** Month and day are recovered from the day of the March-based year. */
  lemma MonthOfDay(m: int, k: int)
    requires 1 <= m <= 12 && 0 <= k < 31 && (m in {4, 6, 9, 11} ==> k < 30) && (m == 2 ==> k < 29)
    ensures var doy := MonthStart(m) + k;
            var mp := (5 * doy + 2) / 153;
            0 <= doy < 366 && mp == (m + 9) % 12 && doy - (153 * mp + 2) / 5 == k
  {
    MonthTable();
    if m == 1 {} else if m == 2 {} else if m == 3 {} else if m == 4 {} else if m == 5 {} else if m == 6 {} else if m == 7 {}
    else if m == 8 {} else if m == 9 {} else if m == 10 {} else if m == 11 {} else {}
  }

  predicate YearParts(y: int, era: int, c: int, q: int, r: int) {
    0 <= c < 4 && 0 <= q < 25 && 0 <= r < 4 && y == 400 * era + 100 * c + 4 * q + r
  }

  lemma PartsExist(y: int) returns (era: int, c: int, q: int, r: int)
    ensures YearParts(y, era, c, q, r)
  {
    era := y / 400;
    var yoe := y - 400 * era;
    c := yoe / 100;
    var yoc := yoe - 100 * c;
    q := yoc / 4;
    r := yoc - 4 * q;
  }

  lemma PartsCount(y: int, era: int, c: int, q: int, r: int)
    requires YearParts(y, era, c, q, r)
    ensures MarchDays(y) == 146097 * era + 36524 * c + 1461 * q + 365 * r
  {
    DivIs(y, 4, 100 * era + 25 * c + q);
    DivIs(y, 100, 4 * era + c);
    DivIs(y, 400, era);
  }

  /** The leap rule reads off the parts: the fourth year of its cycle, unless it ends a century other than the last. */
  lemma PartsLeap(y: int, era: int, c: int, q: int, r: int)
    requires YearParts(y, era, c, q, r)
    ensures Leap(y + 1) <==> r == 3 && (q == 24 ==> c == 3)
  {
    if r < 3 {
      ModIs(y + 1, 4, 100 * era + 25 * c + q);
    } else if q < 24 {
      ModIs(y + 1, 4, 100 * era + 25 * c + q + 1);
      ModIs(y + 1, 100, 4 * era + c);
    } else if c < 3 {
      ModIs(y + 1, 100, 4 * era + c + 1);
      ModIs(y + 1, 400, era);
    } else {
      ModIs(y + 1, 4, 100 * era + 100);
      ModIs(y + 1, 400, era + 1);
    }
  }

  lemma DoyFits(y: int, m: int, d: int)
    requires Valid(Date(if m <= 2 then y + 1 else y, m, d))
    ensures 0 <= MonthStart(m) + d - 1 < 366
    ensures MonthStart(m) + d - 1 == 365 ==> Leap(y + 1)
  {
    MonthTable();
    if m == 2 {} else {
      MonthOfDay(m, d - 1);
      assert MonthStart(m) + d - 1 < 337;
    }
  }

  lemma CivilInEraOfParts(era: int, c: int, q: int, r: int, doy: int)
    requires 0 <= c < 4 && 0 <= q < 25 && 0 <= r < 4
    requires 0 <= doy < 366 && (doy == 365 ==> r == 3 && (q == 24 ==> c == 3))
    ensures CivilInEra(era, 36524 * c + 1461 * q + 365 * r + doy) == MonthAndDay(400 * era + 100 * c + 4 * q + r, doy)
  {
    hide YearInEra, MonthAndDay;
    var yoe := 100 * c + 4 * q + r;
    YearOfEra(c, q, r, doy);
    DivIs(yoe, 4, 25 * c + q);
    DivIs(yoe, 100, c);
  }

  lemma EraOfParts(z: int, era: int, doe: int)
    requires z == 146097 * era + doe && 0 <= doe < 146097
    ensures EraOfDay(z) == era && z - EraOfDay(z) * 146097 == doe
  {
    DayEraIsFloor(z);
    DivIs(z, 146097, era);
  }

  lemma CivilOfEra(z: int, era: int, doe: int)
    requires z + 719468 == 146097 * era + doe && 0 <= doe < 146097
    ensures CivilFromDays(z) == CivilInEra(era, doe)
  {
    EraOfParts(z + 719468, era, doe);
  }

  /** What civil_from_days computes from an era, a year of the era and a day of that year. */
  lemma CivilOfParts(y: int, era: int, c: int, q: int, r: int, doy: int, z: int)
    requires YearParts(y, era, c, q, r)
    requires 0 <= doy < 366 && (doy == 365 ==> r == 3 && (q == 24 ==> c == 3))
    requires z + 719468 == 146097 * era + 36524 * c + 1461 * q + 365 * r + doy
    ensures CivilFromDays(z) == MonthAndDay(y, doy)
  {
    hide CivilFromDays, CivilInEra, MonthAndDay;
    CivilInEraOfParts(era, c, q, r, doy);
    CivilOfEra(z, era, 36524 * c + 1461 * q + 365 * r + doy);
  }

  lemma MonthAndDayInverts(y: int, m: int, d: int)
    requires Valid(Date(if m <= 2 then y + 1 else y, m, d))
    ensures MonthAndDay(y, MonthStart(m) + d - 1) == Date(if m <= 2 then y + 1 else y, m, d)
  {
    MonthOfDay(m, d - 1);
  }

  /** Date to days and back, on every valid date of every year. */
  lemma CivilInvertsDays(date: Date)
    requires Valid(date)
    ensures CivilFromDays(Days(date)) == date
  {
    hide CivilFromDays, DaysFromCivil, MonthAndDay, MonthStart, MarchDays;
    var y := if date.month <= 2 then date.year - 1 else date.year;
    var doy := MonthStart(date.month) + date.day - 1;
    DaysClosedForm(date.year, date.month, date.day);
    var era, c, q, r := PartsExist(y);
    PartsCount(y, era, c, q, r);
    PartsLeap(y, era, c, q, r);
    DoyFits(y, date.month, date.day);
    CivilOfParts(y, era, c, q, r, doy, Days(date));
    MonthAndDayInverts(y, date.month, date.day);
  }

  function PrevDay(date: Date): Date {
    if date.day > 1 then date.(day := date.day - 1)
    else if date.month > 1 then Date(date.year, date.month - 1, DaysInMonth(date.year, date.month - 1))
    else Date(date.year - 1, 12, 31)
  }

  /** Every day number is some valid date's, found by counting from the epoch. */
  lemma {:induction false} DateOf(z: int) returns (date: Date)
    ensures Valid(date) && Days(date) == z
    decreases if z < 0 then -z else z
  {
    if z == 0 {
      date := Date(1970, 1, 1);
      CountsDays(date);
    } else if z > 0 {
      var before := DateOf(z - 1);
      date := NextDay(before);
      CountsDays(before);
    } else {
      var after := DateOf(z + 1);
      date := PrevDay(after);
      assert Valid(date) && NextDay(date) == after;
      CountsDays(date);
    }
  }

  /** Days to date and back, on every day number, and the date is a valid one. */
  lemma DaysInvertsCivil(z: int)
    ensures Valid(CivilFromDays(z)) && Days(CivilFromDays(z)) == z
  {
    var date := DateOf(z);
    CivilInvertsDays(date);
  }

  lemma SuccessorOf(today: Date, z: int)
    requires Valid(today) && Days(today) == z
    ensures CivilFromDays(z + 1) == NextDay(today)
  {
    hide CivilFromDays;
    hide DaysFromCivil;
    CountsDays(today);
    CivilInvertsDays(NextDay(today));
  }

  /** The day after a day number's date is the next day number's date. */
  lemma CivilSuccessor(z: int)
    ensures CivilFromDays(z + 1) == NextDay(CivilFromDays(z))
  {
    var today := DateOf(z);
    assert CivilFromDays(z) == today by {
      CivilInvertsDays(today);
    }
    SuccessorOf(today, z);
  }
}
