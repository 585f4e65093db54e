/** Days since the Unix epoch to a proleptic Gregorian date, for every integer, against the calendar's own
    rules. */
module Civil {
  datatype Date = Date(year: int, month: int, day: int)

  // ---- the calendar ----

  predicate IsLeap(y: int) {
    y % 4 == 0 && (y % 100 != 0 || y % 400 == 0)
  }

  function MonthLength(y: int, m: int): int {
    if m == 2 then (if IsLeap(y) then 29 else 28)
    else if m in {4, 6, 9, 11} then 30
    else 31
  }

  predicate ValidDate(d: Date) {
    1 <= d.month <= 12 && 1 <= d.day <= MonthLength(d.year, d.month)
  }

  function NextDay(d: Date): Date {
    if d.day < MonthLength(d.year, d.month) then d.(day := d.day + 1)
    else if d.month < 12 then Date(d.year, d.month + 1, 1)
    else Date(d.year + 1, 1, 1)
  }

  function Leaps(y: int): int {
    y / 4 - y / 100 + y / 400
  }

  /** Days from the epoch to the first of January. */
  function DaysToYear(y: int): int {
    365 * (y - 1970) + Leaps(y - 1) - Leaps(1969)
  }

  function DaysBeforeMonth(y: int, m: int): int
    requires 1 <= m <= 12
  {
    if m == 1 then 0 else DaysBeforeMonth(y, m - 1) + MonthLength(y, m - 1)
  }

  /** The day's number, counted by the calendar's rules: `days_from_civil`. */
  function DayNumber(d: Date): int
    requires ValidDate(d)
  {
    DaysToYear(d.year) + DaysBeforeMonth(d.year, d.month) + d.day - 1
  }

  lemma Quarters(y: int)
    ensures y / 4 == (y - 1) / 4 + if y % 4 == 0 then 1 else 0
    ensures y % 100 == 0 ==> y % 4 == 0
  {
  }

  lemma Centuries(y: int)
    ensures y / 100 == (y - 1) / 100 + if y % 100 == 0 then 1 else 0
    ensures y % 400 == 0 ==> y % 100 == 0
  {
  }

  lemma Eras(y: int)
    ensures y / 400 == (y - 1) / 400 + if y % 400 == 0 then 1 else 0
  {
  }

  lemma LeapStep(y: int)
    ensures Leaps(y) == Leaps(y - 1) + if IsLeap(y) then 1 else 0
  {
    Quarters(y);
    Centuries(y);
    Eras(y);
  }

  lemma MonthOffsets(y: int)
    ensures DaysBeforeMonth(y, 2) == 31
    ensures var march := 59 + if IsLeap(y) then 1 else 0;
            && DaysBeforeMonth(y, 3) == march && DaysBeforeMonth(y, 4) == march + 31
            && DaysBeforeMonth(y, 5) == march + 61 && DaysBeforeMonth(y, 6) == march + 92
            && DaysBeforeMonth(y, 7) == march + 122 && DaysBeforeMonth(y, 8) == march + 153
            && DaysBeforeMonth(y, 9) == march + 184 && DaysBeforeMonth(y, 10) == march + 214
            && DaysBeforeMonth(y, 11) == march + 245 && DaysBeforeMonth(y, 12) == march + 275
  {
    assert DaysBeforeMonth(y, 2) == DaysBeforeMonth(y, 1) + MonthLength(y, 1);
    assert DaysBeforeMonth(y, 3) == DaysBeforeMonth(y, 2) + MonthLength(y, 2);
    assert DaysBeforeMonth(y, 4) == DaysBeforeMonth(y, 3) + MonthLength(y, 3);
    assert DaysBeforeMonth(y, 5) == DaysBeforeMonth(y, 4) + MonthLength(y, 4);
    assert DaysBeforeMonth(y, 6) == DaysBeforeMonth(y, 5) + MonthLength(y, 5);
    assert DaysBeforeMonth(y, 7) == DaysBeforeMonth(y, 6) + MonthLength(y, 6);
    assert DaysBeforeMonth(y, 8) == DaysBeforeMonth(y, 7) + MonthLength(y, 7);
    assert DaysBeforeMonth(y, 9) == DaysBeforeMonth(y, 8) + MonthLength(y, 8);
    assert DaysBeforeMonth(y, 10) == DaysBeforeMonth(y, 9) + MonthLength(y, 9);
    assert DaysBeforeMonth(y, 11) == DaysBeforeMonth(y, 10) + MonthLength(y, 10);
  }

  /** The count is a count: it goes up by one from each day to the next, through every month and year. */
  lemma NextDayCounts(d: Date)
    requires ValidDate(d)
    ensures ValidDate(NextDay(d)) && DayNumber(NextDay(d)) == DayNumber(d) + 1
  {
    if d.day == MonthLength(d.year, d.month) && d.month == 12 {
      LeapStep(d.year);
      MonthOffsets(d.year);
    }
  }

  // ---- the conversion ----

  /** Division that truncates toward zero. */
  function TruncDiv(a: int, b: int): int
    requires b > 0
  {
    if a >= 0 then a / b else -((-a) / b)
  }

  function Era(z: int): int {
    TruncDiv(if z >= 0 then z else z - 146_096, 146_097)
  }

  function YearOfEra(doe: int): int {
    (doe - doe / 1460 + doe / 36_524 - doe / 146_096) / 365
  }

  /** The civil date of a day of a year that starts in March. */
  function FromMarchDay(year: int, doy: int): Date {
    var mp := (5 * doy + 2) / 153;
    var day := doy - (153 * mp + 2) / 5 + 1;
    var month := if mp < 10 then mp + 3 else mp - 9;
    Date(if month <= 2 then year + 1 else year, month, day)
  }

  /** `civil_from_days`. */
  function CivilFromDays(days: int): Date {
    var z := days + 719_468;
    var era := Era(z);
    var doe := z - era * 146_097;
    var yoe := YearOfEra(doe);
    FromMarchDay(yoe + era * 400, doe - (365 * yoe + yoe / 4 - yoe / 100))
  }

  /** The two-branch truncating division is the floor. */
  lemma EraIsFloor(z: int)
    ensures Era(z) == z / 146_097
  {
    if z < 0 {
      var q := (-z + 146_096) / 146_097;
      assert 146_097 * q <= -z + 146_096 < 146_097 * q + 146_097;
    }
  }

  /** A day of the 400-year era, by century, four-year cycle, year and day, in years that start in March.
      Only the last year of a cycle has a 366th day, and of a century only in the last. */
  predicate InEra(c: int, q: int, r: int, d: int) {
    && 0 <= c < 4 && 0 <= q < 25 && 0 <= r < 4 && 0 <= d
    && d < 365 + if r == 3 && (q < 24 || c == 3) then 1 else 0
  }

  /** The closed form finds the year. */
  lemma YearFound(c: int, q: int, r: int, d: int)
    requires InEra(c, q, r, d)
    ensures var doe := 36_524 * c + 1461 * q + 365 * r + d;
            && 0 <= doe < 146_097
            && YearOfEra(doe) == 100 * c + 4 * q + r
  {
    var doe := 36_524 * c + 1461 * q + 365 * r + d;
    var over := 24 * c + q + 365 * r + d;
    var e := if over >= 1460 then 1 else 0;
    assert doe == 1460 * (25 * c + q) + over && 0 <= over < 2920;
    assert doe / 1460 == 25 * c + q + e;
    var last := if doe == 146_096 then 1 else 0;
    assert doe / 146_096 == last;
    assert doe / 36_524 == c + last;
    assert 0 <= d - e < 365;
    var y := 100 * c + 4 * q + r;
    assert doe - doe / 1460 + doe / 36_524 - doe / 146_096 == 365 * y + (d - e);
  }

  /** Every day of the era is in one of its years. */
  lemma EraSplits(doe: int) returns (c: int, q: int, r: int, d: int)
    requires 0 <= doe < 146_097
    ensures InEra(c, q, r, d) && doe == 36_524 * c + 1461 * q + 365 * r + d
  {
    c := if doe / 36_524 == 4 then 3 else doe / 36_524;
    var a := doe - 36_524 * c;
    q := a / 1461;
    var b := a - 1461 * q;
    r := if b / 365 == 4 then 3 else b / 365;
    d := b - 365 * r;
  }

  /** Days from the epoch to the first of March. */
  function DaysToMarch(year: int): int {
    365 * (year - 1970) + Leaps(year) - Leaps(1969) + 59
  }

  lemma MarchOfEra(era: int, c: int, q: int, r: int)
    requires 0 <= c < 4 && 0 <= q < 25 && 0 <= r < 4
    ensures DaysToMarch(400 * era + 100 * c + 4 * q + r) == 146_097 * era + 36_524 * c + 1461 * q + 365 * r - 719_468
  {
    var year := 400 * era + 100 * c + 4 * q + r;
    assert year / 4 == 100 * era + 25 * c + q;
    assert year / 100 == 4 * era + c;
    assert year / 400 == era;
  }

  /** A day counted from March is the calendar's day. */
  lemma MarchDayIs(year: int, doy: int)
    requires 0 <= doy < 365 + if IsLeap(year + 1) then 1 else 0
    ensures ValidDate(FromMarchDay(year, doy))
    ensures DayNumber(FromMarchDay(year, doy)) == DaysToMarch(year) + doy
  {
    var date := FromMarchDay(year, doy);
    MonthOffsets(year);
    MonthOffsets(year + 1);
    LeapStep(year);
    hide IsLeap, Leaps;
    MarchMonth(doy);
    assert ValidDate(date);
  }

  /** The month formula, month by month: 153 days to every five months from March on. */
  lemma MarchMonth(doy: int)
    requires 0 <= doy < 366
    ensures var mp := (5 * doy + 2) / 153;
            var start := (153 * mp + 2) / 5;
            && 0 <= mp < 12
            && start == [0, 31, 61, 92, 122, 153, 184, 214, 245, 275, 306, 337][mp]
            && start <= doy
            && (mp < 11 ==> doy < [0, 31, 61, 92, 122, 153, 184, 214, 245, 275, 306, 337][mp + 1])
  {
    var mp := (5 * doy + 2) / 153;
    assert mp in {0, 1, 2, 3, 4, 5, 6, 7, 8, 9, 10, 11};
  }

  /** Sorting a day into its March year, and back. */
  lemma CivilOf(era: int, c: int, q: int, r: int, d: int)
    requires InEra(c, q, r, d)
    ensures var year := 400 * era + 100 * c + 4 * q + r;
            var n := DaysToMarch(year) + d;
            && (IsLeap(year + 1) <==> r == 3 && (q < 24 || c == 3))
            && CivilFromDays(n) == FromMarchDay(year, d)
  {
    hide IsLeap, Leaps, DaysToMarch, YearOfEra, Era, FromMarchDay;
    var doe := 36_524 * c + 1461 * q + 365 * r + d;
    MarchOfEra(era, c, q, r);
    YearFound(c, q, r, d);
    EraOf(era, doe);
    YearParts(c, q, r);
    LeapOfEra(era, c, q, r);
  }

  lemma EraOf(era: int, doe: int)
    requires 0 <= doe < 146_097
    ensures Era(146_097 * era + doe) == era
  {
    EraIsFloor(146_097 * era + doe);
  }

  lemma YearParts(c: int, q: int, r: int)
    requires 0 <= c < 4 && 0 <= q < 25 && 0 <= r < 4
    ensures var yoe := 100 * c + 4 * q + r; yoe / 4 == 25 * c + q && yoe / 100 == c
  {
  }

  lemma NoCycleEnd(n: int, r: int)
    requires 0 <= r < 3
    ensures (4 * n + r + 1) % 4 == r + 1
  {
  }

  lemma CycleEnd(n: int, q: int)
    requires 0 <= q < 25
    ensures (100 * n + 4 * q + 4) % 4 == 0
    ensures (100 * n + 4 * q + 4) % 100 == 0 <==> q == 24
  {
    assert 100 * n + 4 * q + 4 == 4 * (25 * n + q + 1);
  }

  lemma CenturyEnd(era: int, c: int, q: int)
    requires 0 <= c < 4 && 0 <= q < 25
    ensures (400 * era + 100 * c + 4 * q + 4) % 400 == 0 <==> q == 24 && c == 3
  {
  }

  lemma LeapOfEra(era: int, c: int, q: int, r: int)
    requires 0 <= c < 4 && 0 <= q < 25 && 0 <= r < 4
    ensures IsLeap(400 * era + 100 * c + 4 * q + r + 1) <==> r == 3 && (q < 24 || c == 3)
  {
    if r == 3 {
      CycleEnd(4 * era + c, q);
      CenturyEnd(era, c, q);
    } else {
      NoCycleEnd(100 * era + 25 * c + q, r);
    }
  }

  // ---- the theorems ----

  /** Every integer gives a valid date, and counting that date's days gives the integer back. */
  lemma RoundTrip(n: int)
    ensures ValidDate(CivilFromDays(n)) && DayNumber(CivilFromDays(n)) == n
  {
    hide CivilFromDays, FromMarchDay, DaysToMarch, DayNumber, IsLeap, ValidDate;
    var z := n + 719_468;
    var era := z / 146_097;
    var c, q, r, d := EraSplits(z - 146_097 * era);
    MarchOfEra(era, c, q, r);
    CivilOf(era, c, q, r, d);
    MarchDayIs(400 * era + 100 * c + 4 * q + r, d);
  }

  /** A date is a day of the year that starts in the March before it. */
  lemma DateIsMarchDay(date: Date) returns (year: int, doy: int)
    requires ValidDate(date)
    ensures 0 <= doy < 365 + if IsLeap(year + 1) then 1 else 0
    ensures FromMarchDay(year, doy) == date
  {
    var mp := if date.month > 2 then date.month - 3 else date.month + 9;
    year := if date.month > 2 then date.year else date.year - 1;
    doy := (153 * mp + 2) / 5 + date.day - 1;
    hide IsLeap;
    assert mp in {0, 1, 2, 3, 4, 5, 6, 7, 8, 9, 10, 11};
    assert (5 * doy + 2) / 153 == mp;
  }

  lemma YearSplits(year: int) returns (era: int, c: int, q: int, r: int)
    ensures year == 400 * era + 100 * c + 4 * q + r && 0 <= c < 4 && 0 <= q < 25 && 0 <= r < 4
  {
    era := year / 400;
    var y := year - 400 * era;
    c := y / 100;
    var rest := y - 100 * c;
    q, r := rest / 4, rest % 4;
  }

  /** Every valid date is the date of its own day number. */
  lemma RoundTripDate(date: Date)
    requires ValidDate(date)
    ensures CivilFromDays(DayNumber(date)) == date
  {
    hide CivilFromDays, FromMarchDay, DaysToMarch, DayNumber, IsLeap, ValidDate;
    var year, doy := DateIsMarchDay(date);
    MarchDayIs(year, doy);
    var era, c, q, r := YearSplits(year);
    LeapOfEra(era, c, q, r);
    CivilOf(era, c, q, r, doy);
  }

  /** Day zero is the first of January 1970, and every day's date is the one after the day before's. */
  lemma EveryDayFollows(n: int)
    ensures CivilFromDays(0) == Date(1970, 1, 1)
    ensures CivilFromDays(n + 1) == NextDay(CivilFromDays(n))
  {
    hide CivilFromDays;
    var epoch := Date(1970, 1, 1);
    assert DayNumber(epoch) == 0;
    RoundTripDate(epoch);
    RoundTrip(n);
    NextDayCounts(CivilFromDays(n));
    RoundTripDate(NextDay(CivilFromDays(n)));
  }
}
