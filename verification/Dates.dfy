/** The approximate day count used for the full-send interval, against the calendar. */
module Dates {
  import opened Prelude
  import opened Order
  import opened Decimals

  /** Integer parsing as the standard library does it: an optional sign, then at least one digit. */
  function ParseInt(s: string): Option<int> {
    if s == "" then None
    else if s[0] == '-' then
      if s[1..] != "" && AllDigits(s[1..]) then Some(-(Decimal(s[1..]) as int)) else None
    else if s[0] == '+' then
      if s[1..] != "" && AllDigits(s[1..]) then Some(Decimal(s[1..])) else None
    else if AllDigits(s) then Some(Decimal(s))
    else None
  }

  /** A number as it may be written: an optional sign and at least one digit. */
  ghost predicate WritesInt(s: string, sign: string, digits: string) {
    sign in {"", "+", "-"} && digits != "" && AllDigits(digits) && s == sign + digits
  }

  ghost function Signed(sign: string, digits: string): int
    requires AllDigits(digits)
  {
    if sign == "-" then -(Decimal(digits) as int) else Decimal(digits)
  }

  /** Parsing reads exactly the texts that write a number. */
  lemma ParseIntReads(s: string)
    ensures ParseInt(s).None? <==> !exists sign, digits :: WritesInt(s, sign, digits)
    ensures forall sign, digits :: WritesInt(s, sign, digits) ==> ParseInt(s) == Some(Signed(sign, digits))
  {
    if s != "" && s[0] in {'+', '-'} && s[1..] != "" && AllDigits(s[1..]) {
      assert WritesInt(s, [s[0]], s[1..]);
    } else if s != "" && AllDigits(s) {
      assert WritesInt(s, "", s);
    }
    forall sign, digits | WritesInt(s, sign, digits) ensures ParseInt(s) == Some(Signed(sign, digits)) {
      if sign == "" { assert s == digits && s[0] == digits[0]; } else { assert s[0] == sign[0] && s[1..] == digits; }
    }
  }

  /** 365-day years and 30-day months; only the first eight characters count. */
  function ParseDateToDays(timestamp: string): Option<int> {
    if |timestamp| < 8 then None
    else
      var year := ParseInt(timestamp[0..4]);
      var month := ParseInt(timestamp[4..6]);
      var day := ParseInt(timestamp[6..8]);
      if year.None? || month.None? || day.None? then None
      else Some(year.value * 365 + month.value * 30 + day.value)
  }

  ghost predicate ReadsAsInt(s: string) { exists sign, digits :: WritesInt(s, sign, digits) }

  /** There is no day count, and so a full is forced, exactly for text that is too short or no date. */
  lemma UnreadableDate(s: string)
    ensures ParseDateToDays(s).None? <==>
      |s| < 8 || !ReadsAsInt(s[0..4]) || !ReadsAsInt(s[4..6]) || !ReadsAsInt(s[6..8])
  {
    if |s| >= 8 {
      ParseIntReads(s[0..4]);
      ParseIntReads(s[4..6]);
      ParseIntReads(s[6..8]);
    }
  }

  // ---------------------------------------------------------------- the Gregorian calendar

  datatype Date = Date(year: nat, month: nat, day: nat)

  predicate IsLeap(year: nat) { year % 4 == 0 && (year % 100 != 0 || year % 400 == 0) }

  function DaysInMonth(year: nat, month: nat): nat {
    if month == 2 then (if IsLeap(year) then 29 else 28)
    else if month in {4, 6, 9, 11} then 30
    else 31
  }

  ghost predicate IsDate(d: Date) {
    1 <= d.month <= 12 && 1 <= d.day <= DaysInMonth(d.year, d.month)
  }

  function DaysBeforeMonth(year: nat, month: nat): nat {
    if month <= 1 then 0 else DaysBeforeMonth(year, month - 1) + DaysInMonth(year, month - 1)
  }

  function LeapDay(year: nat): nat { if IsLeap(year) then 1 else 0 }

  function YearDays(year: nat): nat { 365 + LeapDay(year) }

  function DaysBeforeYear(year: nat): nat {
    if year == 0 then 0 else DaysBeforeYear(year - 1) + YearDays(year - 1)
  }

  /** Days from the start of year 0 through `d`. */
  function DayNumber(d: Date): nat {
    DaysBeforeYear(d.year) + DaysBeforeMonth(d.year, d.month) + d.day
  }

  /** Years before `year` that have a 29 February. */
  function LeapYearsBefore(year: nat): nat {
    if year == 0 then 0 else LeapYearsBefore(year - 1) + LeapDay(year - 1)
  }

  /** How many 29 Februaries fall on or before `d`. */
  function LeapDaysThrough(d: Date): nat {
    LeapYearsBefore(d.year) + (if IsLeap(d.year) && (d.month > 2 || (d.month == 2 && d.day == 29)) then 1 else 0)
  }

  function Approximate(d: Date): int { d.year * 365 + d.month * 30 + d.day }

  /** `s` starts with `d` written as YYYYMMDD. */
  ghost predicate Writes(s: string, d: Date) {
    && |s| >= 8
    && AllDigits(s[..8])
    && Decimal(s[0..4]) == d.year && Decimal(s[4..6]) == d.month && Decimal(s[6..8]) == d.day
  }

  /** Days before each month of a common year, from March on; a leap year has one more. */
  lemma MonthStarts(year: nat)
    ensures DaysBeforeMonth(year, 1) == 0 && DaysBeforeMonth(year, 2) == 31
    ensures DaysBeforeMonth(year, 3) == 59 + LeapDay(year) && DaysBeforeMonth(year, 4) == 90 + LeapDay(year)
    ensures DaysBeforeMonth(year, 5) == 120 + LeapDay(year) && DaysBeforeMonth(year, 6) == 151 + LeapDay(year)
    ensures DaysBeforeMonth(year, 7) == 181 + LeapDay(year) && DaysBeforeMonth(year, 8) == 212 + LeapDay(year)
    ensures DaysBeforeMonth(year, 9) == 243 + LeapDay(year) && DaysBeforeMonth(year, 10) == 273 + LeapDay(year)
    ensures DaysBeforeMonth(year, 11) == 304 + LeapDay(year) && DaysBeforeMonth(year, 12) == 334 + LeapDay(year)
  {
  }

  lemma {:induction false} YearsAndLeapYears(year: nat)
    ensures DaysBeforeYear(year) == 365 * year + LeapYearsBefore(year)
  {
    if year > 0 { YearsAndLeapYears(year - 1); }
  }

  /** Without leap days, the true count runs at most one day behind and four ahead of the approximate one. */
  lemma Drift(d: Date)
    requires IsDate(d)
    ensures -31 <= (DayNumber(d) - LeapDaysThrough(d)) - Approximate(d) <= -26
  {
    YearsAndLeapYears(d.year);
    MonthStarts(d.year);
  }

  /** The true distance, leaving out leap days, is within five days of the approximate distance. */
  lemma DistanceWithinFiveDays(a: Date, b: Date)
    requires IsDate(a) && IsDate(b)
    ensures -5 <= ((DayNumber(b) - DayNumber(a)) - (LeapDaysThrough(b) - LeapDaysThrough(a)))
                  - (Approximate(b) - Approximate(a)) <= 5
  {
    Drift(a);
    Drift(b);
  }

  /** Five days do occur: from 1 March to 1 November. */
  lemma FiveDaysOccur(year: nat)
    ensures (DayNumber(Date(year, 11, 1)) - DayNumber(Date(year, 3, 1)))
            - (Approximate(Date(year, 11, 1)) - Approximate(Date(year, 3, 1))) == 5
  {
    MonthStarts(year);
  }

  lemma WrittenDateParses(s: string, d: Date)
    requires Writes(s, d)
    ensures ParseDateToDays(s) == Some(Approximate(d))
  {
    assert s[0..4] == s[..8][0..4] && s[4..6] == s[..8][4..6] && s[6..8] == s[..8][6..8];
  }

  /** The first differing digit decides. */
  lemma {:induction false} SmallerDigit(a: string, b: string, i: nat)
    requires |a| == |b| && AllDigits(a) && AllDigits(b) && i < |a|
    requires a[..i] == b[..i] && a[i] < b[i]
    ensures Decimal(a) < Decimal(b)
    decreases |a|
  {
    var n := |a|;
    if i == n - 1 {
      assert a[..n - 1] == a[..i] && b[..n - 1] == b[..i];
    } else {
      assert a[..n - 1][..i] == a[..i] && b[..n - 1][..i] == b[..i];
      SmallerDigit(a[..n - 1], b[..n - 1], i);
    }
  }

  /** On digit strings of equal length, string order is numeric order. */
  lemma {:induction false} LessIsNumeric(a: string, b: string, i: nat)
    requires i <= |a| == |b| && AllDigits(a) && AllDigits(b)
    requires a[..i] == b[..i] && LessFrom(a, b, i)
    ensures Decimal(a) < Decimal(b)
    decreases |a| - i
  {
    if a[i] == b[i] {
      assert a[..i + 1] == a[..i] + [a[i]] && b[..i + 1] == b[..i] + [b[i]];
      LessIsNumeric(a, b, i + 1);
    } else {
      SmallerDigit(a, b, i);
    }
  }

  /** Cutting both texts keeps their order, unless it makes them equal. */
  lemma {:induction false} CutKeepsOrder(a: string, b: string, i: nat, n: nat)
    requires i <= n <= |a| && n <= |b| && a[..i] == b[..i] && LessFrom(a, b, i)
    ensures a[..n] == b[..n] || LessFrom(a[..n], b[..n], i)
    decreases n - i
  {
    if i < n && a[i] == b[i] {
      assert a[..i + 1] == a[..i] + [a[i]] && b[..i + 1] == b[..i] + [b[i]];
      CutKeepsOrder(a, b, i + 1, n);
    }
  }

  lemma EightDigits(s: string, d: Date)
    requires Writes(s, d)
    ensures Decimal(s[..8]) == d.year * 10000 + d.month * 100 + d.day
  {
    var t := s[..8];
    AppendTwoDigits(t[..6], t[6], t[7]);
    AppendTwoDigits(t[..4], t[4], t[5]);
    assert t == t[..6] + [t[6], t[7]] && t[..6] == t[..4] + [t[4], t[5]];
    assert t[..4] == s[0..4] && [t[4], t[5]] == s[4..6] && [t[6], t[7]] == s[6..8];
  }

  lemma SmallerDateFewerDays(a: Date, b: Date)
    requires 1 <= a.month <= 12 && 1 <= a.day <= 31 && 1 <= b.month <= 12 && 1 <= b.day <= 31
    requires a.year * 10000 + a.month * 100 + a.day <= b.year * 10000 + b.month * 100 + b.day
    ensures Approximate(a) <= Approximate(b)
  {
    assert a.year <= b.year;
    if a.year == b.year { assert a.month <= b.month; }
  }

  /** Later text never gets a smaller approximate day count. */
  lemma TextOrderIsDayOrder(a: string, b: string, da: Date, db: Date)
    requires Writes(a, da) && Writes(b, db) && IsDate(da) && IsDate(db)
    requires Less(a, b)
    ensures ParseDateToDays(a).Some? && ParseDateToDays(b).Some?
    ensures ParseDateToDays(a).value <= ParseDateToDays(b).value
  {
    WrittenDateParses(a, da);
    WrittenDateParses(b, db);
    assert Decimal(a[..8]) <= Decimal(b[..8]) by {
      CutKeepsOrder(a, b, 0, 8);
      if a[..8] != b[..8] { LessIsNumeric(a[..8], b[..8], 0); }
    }
    EightDigits(a, da);
    EightDigits(b, db);
    SmallerDateFewerDays(da, db);
  }
}
