/** The build timestamp: seconds since the epoch as text, against the date-time grammar of section 5.6 of
    RFC 3339. */
module Timestamp {
  import opened Civil

  function Digit(n: nat): char
    requires n < 10
  {
    ('0' as int + n) as char
  }

  /** The low `w` decimal digits. */
  function Digits(n: nat, w: nat): (s: string)
    ensures |s| == w
  {
    if w == 0 then "" else Digits(n / 10, w - 1) + [Digit(n % 10)]
  }

  function Width(n: nat): (w: nat)
    ensures w > 0
  {
    if n < 10 then 1 else 1 + Width(n / 10)
  }

  /** Zero-padded to at least `w` digits. */
  function Padded(n: nat, w: nat): string {
    Digits(n, if Width(n) < w then w else Width(n))
  }

  /** A signed number, zero-padded to at least four characters. */
  function FormatYear(y: int): string {
    if y >= 0 then Padded(y, 4) else "-" + Padded(-y, 3)
  }

  function Seconds(epoch: int): int {
    epoch % 86_400
  }

  /** `rfc3339_utc`. */
  function Rfc3339(epoch: int): string {
    var date := CivilFromDays(epoch / 86_400);
    RoundTrip(epoch / 86_400);
    var secs := Seconds(epoch);
    FormatYear(date.year) + "-" + Padded(date.month, 2) + "-" + Padded(date.day, 2) + "T"
    + Padded(secs / 3600, 2) + ":" + Padded(secs % 3600 / 60, 2) + ":" + Padded(secs % 60, 2) + "Z"
  }

  // ---- the grammar ----

  predicate IsDigit(c: char) {
    '0' <= c <= '9'
  }

  predicate AllDigits(s: string) {
    forall i :: 0 <= i < |s| ==> IsDigit(s[i])
  }

  function Number(s: string): nat
    requires AllDigits(s)
  {
    if s == "" then 0 else Number(s[..|s| - 1]) * 10 + (s[|s| - 1] as int - '0' as int)
  }

  /** A full-date, a separator and a time without its fraction and offset: punctuation and digits. */
  predicate Shaped(s: string) {
    && |s| >= 19
    && s[4] == '-' && s[7] == '-' && s[10] in {'T', 't'} && s[13] == ':' && s[16] == ':'
    && AllDigits(s[0..4]) && AllDigits(s[5..7]) && AllDigits(s[8..10])
    && AllDigits(s[11..13]) && AllDigits(s[14..16]) && AllDigits(s[17..19])
  }

  function DateIn(s: string): Date
    requires Shaped(s)
  {
    Date(Number(s[0..4]), Number(s[5..7]), Number(s[8..10]))
  }

  /** Where the digits from `i` on end. */
  function DigitsEnd(s: string, i: nat): (e: nat)
    requires i <= |s|
    ensures i <= e <= |s|
    decreases |s| - i
  {
    if i == |s| || !IsDigit(s[i]) then i else DigitsEnd(s, i + 1)
  }

  /** A time-offset: UTC, or a signed hour and minute. */
  predicate IsOffset(s: string) {
    || s == "Z" || s == "z"
    || (&& |s| == 6 && s[0] in {'+', '-'} && s[3] == ':' && AllDigits(s[1..3]) && AllDigits(s[4..6])
        && Number(s[1..3]) < 24 && Number(s[4..6]) < 60)
  }

  /** An optional fraction of at least one digit, then the offset. */
  predicate IsTail(s: string) {
    if s != "" && s[0] == '.' then DigitsEnd(s, 1) > 1 && IsOffset(s[DigitsEnd(s, 1)..]) else IsOffset(s)
  }

  /** The whole date-time rule: a day of the calendar, a time of day, a fraction or none, and an offset. */
  predicate IsDateTime(s: string) {
    && Shaped(s)
    && ValidDate(DateIn(s))
    && Number(s[11..13]) < 24 && Number(s[14..16]) < 60 && Number(s[17..19]) <= 60
    && IsTail(s[19..])
  }

  /** The instant a date-time in UTC without a fraction names. */
  function Instant(s: string): int
    requires IsDateTime(s) && s[19..] == "Z"
  {
    86_400 * DayNumber(DateIn(s)) + 3600 * Number(s[11..13]) + 60 * Number(s[14..16]) + Number(s[17..19])
  }

  // ---- digits ----

  function Pow10(w: nat): (p: nat)
    ensures p > 0
  {
    if w == 0 then 1 else 10 * Pow10(w - 1)
  }

  lemma {:induction false} DigitsRead(n: nat, w: nat)
    ensures AllDigits(Digits(n, w))
    ensures n < Pow10(w) ==> Number(Digits(n, w)) == n
  {
    if w > 0 {
      DigitsRead(n / 10, w - 1);
      assert Digits(n, w)[..w - 1] == Digits(n / 10, w - 1);
    }
  }

  lemma {:induction false} WidthBound(n: nat, w: nat)
    requires w > 0
    ensures Width(n) <= w <==> n < Pow10(w)
  {
    if n >= 10 && w > 1 {
      WidthBound(n / 10, w - 1);
    } else if w == 1 {
      assert Pow10(1) == 10 * Pow10(0);
    } else {
      assert Pow10(w) >= 10 by {
        assert Pow10(w) == 10 * Pow10(w - 1);
      }
    }
  }

  lemma PaddedReads(n: nat, w: nat)
    requires 0 < w && n < Pow10(w)
    ensures |Padded(n, w)| == w && AllDigits(Padded(n, w)) && Number(Padded(n, w)) == n
  {
    WidthBound(n, w);
    DigitsRead(n, w);
  }

  lemma Powers()
    ensures Pow10(2) == 100 && Pow10(4) == 10_000
  {
    assert Pow10(1) == 10 && Pow10(2) == 100 && Pow10(3) == 1000;
  }

  /** The year takes four digits exactly when it has at most four and is not negative. */
  lemma YearDigits(y: int)
    ensures 0 <= y <= 9999 ==> |FormatYear(y)| == 4 && AllDigits(FormatYear(y)) && Number(FormatYear(y)) == y
    ensures y > 9999 ==> |FormatYear(y)| > 4 && IsDigit(FormatYear(y)[4])
    ensures y < 0 ==> |FormatYear(y)| >= 4 && FormatYear(y)[0] == '-'
  {
    Powers();
    if 0 <= y {
      WidthBound(y, 4);
      if y <= 9999 {
        PaddedReads(y, 4);
      } else {
        DigitsRead(y, Width(y));
      }
    }
  }

  /** The parts of the text, at their places. */
  lemma Parts(year: string, m: string, d: string, h: string, mi: string, sec: string)
    requires |m| == |d| == |h| == |mi| == |sec| == 2
    ensures var s := year + "-" + m + "-" + d + "T" + h + ":" + mi + ":" + sec + "Z";
            && |s| == |year| + 16
            && (|year| == 4 ==>
                  && s[0..4] == year && s[4] == '-' && s[5..7] == m && s[7] == '-' && s[8..10] == d && s[10] == 'T'
                  && s[11..13] == h && s[13] == ':' && s[14..16] == mi && s[16] == ':' && s[17..19] == sec
                  && s[19..] == "Z")
            && (|year| > 4 ==> s[4] == year[4])
            && (year != "" ==> s[0] == year[0])
  {
  }

  // ---- the theorems ----

  /** The text is a date-time if and only if the year is from 0 to 9999, and then it is one in UTC without a
      fraction that names the instant it was made from. */
  lemma ConformsExactly(epoch: int)
    ensures IsDateTime(Rfc3339(epoch)) <==> 0 <= CivilFromDays(epoch / 86_400).year <= 9999
    ensures IsDateTime(Rfc3339(epoch)) ==> Rfc3339(epoch)[19..] == "Z" && Instant(Rfc3339(epoch)) == epoch
  {
    hide CivilFromDays, FormatYear, Padded, AllDigits, Number, DayNumber, MonthLength;
    RoundTrip(epoch / 86_400);
    var date, secs := CivilFromDays(epoch / 86_400), Seconds(epoch);
    var h, mi, sec := secs / 3600, secs % 3600 / 60, secs % 60;
    assert secs == 3600 * h + 60 * mi + sec && 0 <= h < 24 && 0 <= mi < 60 && 0 <= sec < 60;
    assert date.day <= 31 by {
      ShortMonths(date);
    }
    Powers();
    PaddedReads(date.month, 2);
    PaddedReads(date.day, 2);
    PaddedReads(h, 2);
    PaddedReads(mi, 2);
    PaddedReads(sec, 2);
    YearDigits(date.year);
    Parts(FormatYear(date.year), Padded(date.month, 2), Padded(date.day, 2), Padded(h, 2), Padded(mi, 2),
          Padded(sec, 2));
    if date.year < 0 {
      SignIsNoDigit(Rfc3339(epoch));
    }
  }

  lemma ShortMonths(date: Date)
    requires ValidDate(date)
    ensures date.day <= 31
  {
  }

  lemma SignIsNoDigit(s: string)
    requires s != "" && s[0] == '-'
    ensures !Shaped(s)
  {
    if |s| >= 19 {
      assert s[0..4][0] == '-';
    }
  }

  /** Years in terms of days: a day is in or after a year exactly when it is not before its first. */
  lemma YearAtLeast(n: int, y: int)
    ensures CivilFromDays(n).year >= y <==> n >= DaysToYear(y)
  {
    hide CivilFromDays;
    RoundTrip(n);
    var date := CivilFromDays(n);
    MonthOffsets(date.year);
    LeapStep(date.year);
    assert DaysToYear(date.year) <= n < DaysToYear(date.year + 1);
    hide DaysToYear, DayNumber, DaysBeforeMonth, MonthLength, IsLeap;
    if date.year >= y {
      YearsGrow(y, date.year);
    } else {
      YearsGrow(date.year + 1, y);
    }
  }

  lemma YearsGrow(a: int, b: int)
    requires a <= b
    ensures DaysToYear(a) <= DaysToYear(b)
  {
  }

  lemma FourDigitYears()
    ensures DaysToYear(0) == -719_528 && DaysToYear(10_000) == 2_932_897
  {
  }

  /** The seconds for which the timestamp conforms. */
  lemma ConformingRange(epoch: int)
    ensures IsDateTime(Rfc3339(epoch)) <==> -62_167_219_200 <= epoch <= 253_402_300_799
  {
    hide *;
    ConformsExactly(epoch);
    YearAtLeast(epoch / 86_400, 0);
    YearAtLeast(epoch / 86_400, 10_000);
    FourDigitYears();
  }
}
