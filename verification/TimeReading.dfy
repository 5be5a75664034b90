/** A stored time read back by its layout: fields at fixed places, a calendar in closed form, and a fraction without
    trailing zeros. */
module TimeReading {
  import opened StoredTime

  /** The number a text of decimal digits stands for. */
  function Number(s: string): int {
    if s == "" then 0 else 10 * Number(s[..|s| - 1]) + (s[|s| - 1] as int - '0' as int)
  }

  /** The days before the first of January of a year, counted from year 1 of the Gregorian calendar. */
  function DaysBeforeYear(year: int): int {
    365 * (year - 1) + (year - 1) / 4 - (year - 1) / 100 + (year - 1) / 400
  }

  /** The days before the first of a month in its year. */
  function DaysBeforeMonth(year: int, month: int): int
    requires 1 <= month <= 12
  {
    [0, 31, 59, 90, 120, 151, 181, 212, 243, 273, 304, 334][month - 1]
    + if month > 2 && year % 4 == 0 && (year % 100 != 0 || year % 400 == 0) then 1 else 0
  }

  /** The layout `YYYY-MM-DDTHH:MM:SS`, then perhaps a point and digits, then `Z`. */
  predicate LaidOut(text: string) {
    && |text| >= 20 && text[4] == text[7] == '-' && text[10] == 'T' && text[13] == text[16] == ':'
    && text[|text| - 1] == 'Z' && (|text| > 20 ==> |text| > 21 && text[19] == '.' && text[|text| - 2] != '0')
  }

  function Days(text: string): int
    requires |text| >= 10 && 1 <= Number(text[5..7]) <= 12
  {
    var year := Number(text[0..4]);
    DaysBeforeYear(year) + DaysBeforeMonth(year, Number(text[5..7])) + Number(text[8..10]) - 1
  }

  function Seconds(text: string): int
    requires |text| >= 19
  {
    3600 * Number(text[11..13]) + 60 * Number(text[14..16]) + Number(text[17..19])
  }

  /** The digits between the point and the `Z`. */
  function FractionOf(text: string): string
    requires |text| >= 20
  {
    if |text| == 20 then "" else text[20..|text| - 1]
  }

  /** The text shows the time. */
  predicate Shows(text: string, t: Instant) {
    && LaidOut(text) && 1 <= Number(text[5..7]) <= 12
    && t.sec == 86400 * Days(text) + Seconds(text) && 0 <= Seconds(text) < 86400
    && Number(text[14..16]) < 60 && Number(text[17..19]) < 60 && 1 <= Number(text[8..10])
    && |FractionOf(text)| <= 9 && t.nanos == Number(FractionOf(text)) * Power10(9 - |FractionOf(text)|)
  }

  // ----- digits -----

  lemma {:induction false} NumberOfDigits(n: nat, width: nat)
    requires n < Power10(width)
    ensures Number(Digits(n, width)) == n
  {
    if width > 0 {
      NumberOfDigits(n / 10, width - 1);
      var s := Digits(n, width);
      assert s[..|s| - 1] == Digits(n / 10, width - 1);
    }
  }

  lemma ShortNumbers(n: nat)
    ensures n < 100 ==> Number(Digits(n, 2)) == n
    ensures n < 10000 ==> Number(Digits(n, 4)) == n
  {
    assert Power10(2) == 100 && Power10(4) == 10000;
    if n < 100 {
      NumberOfDigits(n, 2);
    }
    if n < 10000 {
      NumberOfDigits(n, 4);
    }
  }

  // ----- the calendar -----

  lemma YearAdds(year: nat)
    requires year >= 1
    ensures DaysBeforeYear(year + 1) == DaysBeforeYear(year) + YearLength(year)
  {
    Quotients(year);
    Multiples(year);
    LeapSteps(year, year % 4 == 0, year % 100 == 0, year % 400 == 0);
  }

  lemma Multiples(n: nat)
    ensures n % 400 == 0 ==> n % 100 == 0
    ensures n % 100 == 0 ==> n % 4 == 0
  {
    if n % 100 == 0 {
      assert n == 4 * (25 * (n / 100));
    }
    if n % 400 == 0 {
      assert n == 100 * (4 * (n / 400));
    }
  }

  /** Of the three corrections those that apply nest: a year is leap when they add up to one. */
  lemma LeapSteps(year: nat, four: bool, hundred: bool, fourHundred: bool)
    requires four == (year % 4 == 0) && hundred == (year % 100 == 0) && fourHundred == (year % 400 == 0)
    requires (fourHundred ==> hundred) && (hundred ==> four)
    ensures YearLength(year)
         == 365 + (if four then 1 else 0) - (if hundred then 1 else 0) + (if fourHundred then 1 else 0)
  {
  }

  lemma Quotients(n: nat)
    requires n >= 1
    ensures n / 4 == (n - 1) / 4 + if n % 4 == 0 then 1 else 0
    ensures n / 100 == (n - 1) / 100 + if n % 100 == 0 then 1 else 0
    ensures n / 400 == (n - 1) / 400 + if n % 400 == 0 then 1 else 0
  {
  }

  lemma {:induction false} YearCounts(day: nat, year: nat)
    requires year >= 1
    ensures var (y, rest) := YearFrom(day, year);
            DaysBeforeYear(year) + day == DaysBeforeYear(y) + rest
    decreases day
  {
    hide DaysBeforeYear;
    if day >= YearLength(year) {
      YearAdds(year);
      YearCounts(day - YearLength(year), year + 1);
    }
  }

  lemma MonthAdds(year: nat, month: nat)
    requires 1 <= month < 12
    ensures DaysBeforeMonth(year, month + 1) == DaysBeforeMonth(year, month) + MonthLength(year, month)
  {
  }

  lemma {:induction false} MonthCounts(year: nat, day: nat, month: nat)
    requires 1 <= month && MonthFrom(year, day, month).0 <= 12
    ensures var (m, rest) := MonthFrom(year, day, month);
            DaysBeforeMonth(year, month) + day == DaysBeforeMonth(year, m) + rest
    decreases day
  {
    hide DaysBeforeMonth;
    if day >= MonthLength(year, month) {
      MonthCounts(year, day - MonthLength(year, month), month + 1);
      MonthAdds(year, month);
    }
  }

  lemma DateFieldsRead(year: nat, month: nat, day: nat)
    requires year <= 9999 && month < 100 && day < 99
    ensures var s := DateFields(year, month, day);
            && |s| == 10 && s[4] == s[7] == '-'
            && Number(s[0..4]) == year && Number(s[5..7]) == month && Number(s[8..10]) == day + 1
  {
    ShortNumbers(year);
    ShortNumbers(month);
    ShortNumbers(day + 1);
    hide Digits, Number;
    var s := DateFields(year, month, day);
    assert s[0..4] == Digits(year, 4) && s[5..7] == Digits(month, 2) && s[8..10] == Digits(day + 1, 2);
  }

  lemma DateReads(day: nat)
    requires YearFrom(day, 1).0 <= 9999
    ensures var s := DateText(day);
            && |s| == 10 && s[4] == s[7] == '-' && 1 <= Number(s[5..7]) <= 12
            && Days(s) == day && 1 <= Number(s[8..10])
  {
    var (year, inYear) := YearFrom(day, 1);
    YearCounts(day, 1);
    TwelveMonths(year, inYear);
    var (month, inMonth) := MonthFrom(year, inYear, 1);
    MonthCounts(year, inYear, 1);
    FirstOfMonth(year);
    hide YearFrom, MonthFrom, Number, DaysBeforeMonth, DaysBeforeYear, DateFields;
    DateFieldsRead(year, month, inMonth);
  }

  lemma FirstOfMonth(year: nat)
    ensures DaysBeforeMonth(year, 1) == 0 && DaysBeforeYear(1) == 0
  {
  }

  lemma ClockReads(second: nat)
    requires second < DAY
    ensures var s := ClockText(second);
            && |s| == 8 && s[2] == s[5] == ':'
            && 3600 * Number(s[0..2]) + 60 * Number(s[3..5]) + Number(s[6..8]) == second
            && Number(s[3..5]) < 60 && Number(s[6..8]) < 60
  {
    var hour, minute, rest := second / 3600, second / 60 % 60, second % 60;
    Sexagesimal(second);
    ShortNumbers(hour);
    ShortNumbers(minute);
    ShortNumbers(rest);
    hide Digits, Number;
    var s := ClockText(second);
    assert s[0..2] == Digits(hour, 2) && s[3..5] == Digits(minute, 2) && s[6..8] == Digits(rest, 2);
  }

  lemma Sexagesimal(second: nat)
    requires second < DAY
    ensures second == 3600 * (second / 3600) + 60 * (second / 60 % 60) + second % 60
    ensures second / 3600 < 100
  {
    assert second / 60 / 60 == second / 3600;
  }

  // ----- the fraction -----

  lemma {:induction false} TrimZerosValue(s: string)
    ensures |TrimZeros(s)| <= |s| && Number(s) == Number(TrimZeros(s)) * Power10(|s| - |TrimZeros(s)|)
    ensures TrimZeros(s) == "" || TrimZeros(s)[|TrimZeros(s)| - 1] != '0'
  {
    if s != "" && s[|s| - 1] == '0' {
      TrimZerosValue(s[..|s| - 1]);
      var n := |s| - 1 - |TrimZeros(s)|;
      assert Power10(n + 1) == 10 * Power10(n);
    } else {
      assert Power10(0) == 1;
    }
  }

  lemma FractionReads(nanos: nat)
    requires nanos < 1_000_000_000
    ensures var f := Fraction(nanos);
            |f| <= 9 && Number(f) * Power10(9 - |f|) == nanos && (f == "" || f[|f| - 1] != '0')
  {
    assert Power10(9) == 1_000_000_000;
    NumberOfDigits(nanos, 9);
    TrimZerosValue(Digits(nanos, 9));
  }

  lemma Assembled(date: string, clock: string, fraction: string)
    requires |date| == 10 && date[4] == date[7] == '-' && |clock| == 8 && clock[2] == clock[5] == ':'
    requires fraction == "" || fraction[|fraction| - 1] != '0'
    ensures var text := date + ("T" + clock) + ((if fraction == "" then "" else "." + fraction) + "Z");
            && LaidOut(text) && text[..10] == date && text[11..19] == clock && FractionOf(text) == fraction
  {
  }

  lemma SliceOfSlice(text: string, low: nat, high: nat, i: nat, j: nat)
    requires low <= high <= |text| && i <= j <= high - low
    ensures text[low..high][i..j] == text[low + i..low + j]
  {
    var a, b := text[low..high][i..j], text[low + i..low + j];
    assert forall k | 0 <= k < |a| :: a[k] == text[low..high][i + k] == b[k];
  }

  /** The parts of a text keep their slices. */
  lemma PartsRead(text: string, date: string, clock: string)
    requires |text| >= 19 && |date| == 10 && |clock| == 8 && text[..10] == date && text[11..19] == clock
    ensures text[0..4] == date[0..4] && text[5..7] == date[5..7] && text[8..10] == date[8..10]
    ensures text[11..13] == clock[0..2] && text[14..16] == clock[3..5] && text[17..19] == clock[6..8]
  {
    assert text[0..10] == date;
    SliceOfSlice(text, 0, 10, 0, 4);
    SliceOfSlice(text, 0, 10, 5, 7);
    SliceOfSlice(text, 0, 10, 8, 10);
    SliceOfSlice(text, 11, 19, 0, 2);
    SliceOfSlice(text, 11, 19, 3, 5);
    SliceOfSlice(text, 11, 19, 6, 8);
  }

  /** A text put together from a day, a time of day and a fraction shows the time they make up. */
  lemma PartsShow(text: string, date: string, clock: string, fraction: string, t: Instant)
    requires LaidOut(text) && |date| == 10 && |clock| == 8 && FractionOf(text) == fraction
    requires text[..10] == date && text[11..19] == clock
    requires 1 <= Number(date[5..7]) <= 12 && Days(date) == t.sec / DAY && 1 <= Number(date[8..10])
    requires 3600 * Number(clock[0..2]) + 60 * Number(clock[3..5]) + Number(clock[6..8]) == t.sec % DAY
    requires Number(clock[3..5]) < 60 && Number(clock[6..8]) < 60
    requires |fraction| <= 9 && Number(fraction) * Power10(9 - |fraction|) == t.nanos
    ensures Shows(text, t)
  {
    hide Number, Power10, DaysBeforeYear, DaysBeforeMonth, LaidOut, FractionOf;
    LaidOutLength(text);
    PartsRead(text, date, clock);
    assert Days(text) == Days(date);
  }

  /** Every stored text shows the time it was made from. */
  lemma FormatShows(t: Instant)
    requires Valid(t)
    ensures Shows(Format(t), t)
  {
    var date, clock, fraction := DateText(t.sec / DAY), ClockText(t.sec % DAY), Fraction(t.nanos);
    DateReads(t.sec / DAY);
    ClockReads(t.sec % DAY);
    FractionReads(t.nanos);
    Assembled(date, clock, fraction);
    hide DateText, ClockText, Fraction, Number, Power10, Days, YearOf, LaidOut, FractionOf, Shows;
    PartsShow(Format(t), date, clock, fraction, t);
  }

  lemma LaidOutLength(text: string)
    requires LaidOut(text)
    ensures |text| >= 20
  {
  }
}
