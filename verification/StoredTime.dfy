/** Times as the store keeps them: `formatTime` writes RFC 3339 text in UTC with the trailing zeros of the
    fraction removed, and SQLite compares the texts byte by byte. */
module StoredTime {

  /** Seconds since 0001-01-01T00:00:00Z, and nanoseconds within the second. */
  datatype Instant = Instant(sec: nat, nanos: nat)

  // ----- the byte order of texts -----

  predicate Less(s: string, t: string) {
    t != "" && (s == "" || s[0] < t[0] || (s[0] == t[0] && Less(s[1..], t[1..])))
  }

  predicate AtMost(s: string, t: string) {
    s == t || Less(s, t)
  }

  lemma {:induction false} LessTotal(s: string, t: string)
    ensures Less(s, t) ==> !Less(t, s) && s != t
    ensures !Less(s, t) ==> Less(t, s) || s == t
  {
    if s != "" && t != "" && s[0] == t[0] {
      LessTotal(s[1..], t[1..]);
      assert s == [s[0]] + s[1..] && t == [t[0]] + t[1..];
    }
  }

  lemma {:induction false} LessAfterPrefix(p: string, s: string, t: string)
    ensures Less(p + s, p + t) <==> Less(s, t)
  {
    if p == "" {
      assert p + s == s && p + t == t;
    } else {
      assert (p + s)[1..] == p[1..] + s && (p + t)[1..] == p[1..] + t;
      LessAfterPrefix(p[1..], s, t);
    }
  }

  lemma {:induction false} LessDecided(a: string, b: string, s: string, t: string)
    requires |a| == |b| && Less(a, b)
    ensures Less(a + s, b + t)
  {
    if a[0] == b[0] {
      assert (a + s)[1..] == a[1..] + s && (b + t)[1..] == b[1..] + t;
      LessDecided(a[1..], b[1..], s, t);
    }
  }

  /** Texts of one length differ first where the smaller one has the smaller byte. */
  lemma {:induction false} FirstDifference(a: string, b: string) returns (i: nat)
    requires |a| == |b| && Less(a, b)
    ensures i < |a| && a[..i] == b[..i] && a[i] < b[i]
  {
    if a[0] < b[0] {
      i := 0;
    } else {
      var k := FirstDifference(a[1..], b[1..]);
      i := k + 1;
      assert a[..i] == [a[0]] + a[1..][..k] && b[..i] == [b[0]] + b[1..][..k];
    }
  }

  lemma LessAt(a: string, b: string, i: nat)
    requires i < |a| && i < |b| && a[..i] == b[..i]
    ensures a[i] < b[i] ==> Less(a, b)
    ensures a[i] > b[i] ==> !Less(a, b)
  {
    assert a == a[..i] + a[i..] && b == a[..i] + b[i..];
    LessAfterPrefix(a[..i], a[i..], b[i..]);
  }

  // ----- decimal digits -----

  function Power10(n: nat): nat {
    if n == 0 then 1 else 10 * Power10(n - 1)
  }

  function Digit(d: nat): char
    requires d < 10
  {
    '0' + d as char
  }

  /** The last `width` decimal digits of a number. */
  function Digits(n: nat, width: nat): (s: string)
    ensures |s| == width && forall c | c in s :: '0' <= c <= '9'
  {
    if width == 0 then "" else Digits(n / 10, width - 1) + [Digit(n % 10)]
  }

  lemma {:induction false} DigitsIncrease(a: nat, b: nat, width: nat)
    requires a < b < Power10(width)
    ensures Less(Digits(a, width), Digits(b, width))
  {
    var x, y := [Digit(a % 10)], [Digit(b % 10)];
    if a / 10 == b / 10 {
      LessAfterPrefix(Digits(a / 10, width - 1), x, y);
    } else {
      DigitsIncrease(a / 10, b / 10, width - 1);
      LessDecided(Digits(a / 10, width - 1), Digits(b / 10, width - 1), x, y);
    }
  }

  // ----- the calendar -----

  predicate IsLeap(year: nat) {
    year % 4 == 0 && (year % 100 != 0 || year % 400 == 0)
  }

  function YearLength(year: nat): nat {
    if IsLeap(year) then 366 else 365
  }

  function MonthLength(year: nat, month: nat): nat {
    if month == 2 then (if IsLeap(year) then 29 else 28)
    else if month == 4 || month == 6 || month == 9 || month == 11 then 30
    else 31
  }

  /** The year of a day counted from the first of January of `year`, and the day within it. */
  function YearFrom(day: nat, year: nat): (r: (nat, nat))
    ensures r.0 >= year && r.1 < YearLength(r.0)
    decreases day
  {
    if day < YearLength(year) then (year, day) else YearFrom(day - YearLength(year), year + 1)
  }

  /** The month of a day counted from the first of `month`, and the day within it. */
  function MonthFrom(year: nat, day: nat, month: nat): (r: (nat, nat))
    ensures r.0 >= month && r.1 < MonthLength(year, r.0)
    decreases day
  {
    if day < MonthLength(year, month) then (month, day) else MonthFrom(year, day - MonthLength(year, month), month + 1)
  }

  /** A year has twelve months. */
  lemma TwelveMonths(year: nat, day: nat)
    requires day < YearLength(year)
    ensures MonthFrom(year, day, 1).0 <= 12
  {
    MonthsLeft(year, day, 1);
  }

  /** The days from the first of a month to the end of the year. */
  function DaysFrom(year: nat, month: nat): nat
    requires month <= 13
    decreases 13 - month
  {
    if month == 13 then 0 else MonthLength(year, month) + DaysFrom(year, month + 1)
  }

  lemma DaysOfYear(year: nat)
    ensures DaysFrom(year, 1) == YearLength(year)
  {
    assert DaysFrom(year, 10) == 31 + 30 + 31 + DaysFrom(year, 13);
    assert DaysFrom(year, 7) == 31 + 31 + 30 + DaysFrom(year, 10);
    assert DaysFrom(year, 4) == 30 + 31 + 30 + DaysFrom(year, 7);
    assert DaysFrom(year, 1) == 31 + MonthLength(year, 2) + 31 + DaysFrom(year, 4);
  }

  lemma {:induction false} MonthsLeft(year: nat, day: nat, month: nat)
    requires 1 <= month <= 12 && (month == 1 ==> day < YearLength(year)) && (month > 1 ==> day < DaysFrom(year, month))
    ensures MonthFrom(year, day, month).0 <= 12
    decreases 12 - month
  {
    if month == 1 {
      DaysOfYear(year);
    }
    if day >= MonthLength(year, month) {
      assert DaysFrom(year, month) == MonthLength(year, month) + DaysFrom(year, month + 1);
      MonthsLeft(year, day - MonthLength(year, month), month + 1);
    }
  }

  predicate Before2(a: (nat, nat), b: (nat, nat)) {
    a.0 < b.0 || (a.0 == b.0 && a.1 < b.1)
  }

  lemma {:induction false} YearFromIncreases(a: nat, b: nat, year: nat)
    requires a < b
    ensures Before2(YearFrom(a, year), YearFrom(b, year))
    decreases a
  {
    if a >= YearLength(year) {
      YearFromIncreases(a - YearLength(year), b - YearLength(year), year + 1);
    }
  }

  lemma {:induction false} MonthFromIncreases(year: nat, a: nat, b: nat, month: nat)
    requires a < b
    ensures Before2(MonthFrom(year, a, month), MonthFrom(year, b, month))
    decreases a
  {
    if a >= MonthLength(year, month) {
      MonthFromIncreases(year, a - MonthLength(year, month), b - MonthLength(year, month), month + 1);
    }
  }

  // ----- the stored text -----

  const DAY := 86400

  function YearOf(sec: nat): nat {
    YearFrom(sec / DAY, 1).0
  }

  /** Two numbers of two digits each. */
  function Two(separator: string, a: nat, b: nat): string {
    Digits(a, 2) + (separator + Digits(b, 2))
  }

  function DateFields(year: nat, month: nat, day: nat): string {
    Digits(year, 4) + ("-" + Two("-", month, day + 1))
  }

  /** `YYYY-MM-DD`, for years below 10000. */
  function DateText(day: nat): string {
    var (year, inYear) := YearFrom(day, 1);
    var (month, inMonth) := MonthFrom(year, inYear, 1);
    DateFields(year, month, inMonth)
  }

  /** `HH:MM:SS`. */
  function ClockText(s: nat): string {
    Digits(s / 3600, 2) + (":" + Two(":", s / 60 % 60, s % 60))
  }

  function SecondText(sec: nat): string {
    DateText(sec / DAY) + ("T" + ClockText(sec % DAY))
  }

  function TrimZeros(s: string): string {
    if s != "" && s[|s| - 1] == '0' then TrimZeros(s[..|s| - 1]) else s
  }

  /** The digits of the fraction without trailing zeros; empty for a whole second. */
  function Fraction(nanos: nat): string {
    TrimZeros(Digits(nanos, 9))
  }

  function FractionText(nanos: nat): string {
    (if Fraction(nanos) == "" then "" else "." + Fraction(nanos)) + "Z"
  }

  /** `formatTime`. */
  function Format(t: Instant): string {
    SecondText(t.sec) + FractionText(t.nanos)
  }

  /** Times the four-digit year can hold. */
  predicate Valid(t: Instant) {
    YearOf(t.sec) <= 9999 && t.nanos < 1_000_000_000
  }

  // ----- different seconds -----

  /** Texts made of a part of fixed length and a rest compare by the part first. */
  lemma Lexicographic(a: string, b: string, separator: string, s: string, t: string)
    requires |a| == |b| && (Less(a, b) || (a == b && Less(s, t)))
    ensures Less(a + (separator + s), b + (separator + t))
  {
    hide Less;
    LessTotal(a, b);
    if a == b {
      LessAfterPrefix(separator, s, t);
      LessAfterPrefix(a, separator + s, separator + t);
    } else {
      LessDecided(a, b, separator + s, separator + t);
    }
  }

  lemma TwoIncreases(separator: string, a: (nat, nat), b: (nat, nat))
    requires Before2(a, b) && b.0 < 100 && b.1 < 100
    ensures Less(Two(separator, a.0, a.1), Two(separator, b.0, b.1))
  {
    hide Less, Digits;
    assert Power10(2) == 100;
    if a.0 < b.0 {
      DigitsIncrease(a.0, b.0, 2);
    } else {
      DigitsIncrease(a.1, b.1, 2);
    }
    Lexicographic(Digits(a.0, 2), Digits(b.0, 2), separator, Digits(a.1, 2), Digits(b.1, 2));
  }

  /** A day later in the calendar has a later year, or a later month and day of the same year. */
  lemma DateParts(a: nat, b: nat, x: (nat, nat), y: (nat, nat))
    requires a < b && x == YearFrom(a, 1) && y == YearFrom(b, 1)
    ensures x.0 <= y.0
    ensures x.0 == y.0 ==> Before2(MonthFrom(x.0, x.1, 1), MonthFrom(y.0, y.1, 1))
    ensures MonthFrom(y.0, y.1, 1).0 <= 12 && MonthFrom(y.0, y.1, 1).1 < 31
  {
    hide YearFrom, MonthFrom;
    YearFromIncreases(a, b, 1);
    TwelveMonths(y.0, y.1);
    if x.0 == y.0 {
      MonthFromIncreases(x.0, x.1, y.1, 1);
    }
  }

  lemma DateFieldsIncrease(y: nat, m: (nat, nat), z: nat, n: (nat, nat))
    requires y <= z <= 9999 && (y == z ==> Before2(m, n)) && n.0 <= 12 && n.1 < 31
    ensures Less(DateFields(y, m.0, m.1), DateFields(z, n.0, n.1))
  {
    assert Power10(4) == 10000;
    hide Less, Digits, Two;
    if y < z {
      DigitsIncrease(y, z, 4);
    } else {
      TwoIncreases("-", (m.0, m.1 + 1), (n.0, n.1 + 1));
    }
    Lexicographic(Digits(y, 4), Digits(z, 4), "-", Two("-", m.0, m.1 + 1), Two("-", n.0, n.1 + 1));
  }

  lemma DateIncreases(a: nat, b: nat)
    requires a < b && YearFrom(b, 1).0 <= 9999
    ensures Less(DateText(a), DateText(b)) && |DateText(a)| == |DateText(b)| == 10
  {
    var x, y := YearFrom(a, 1), YearFrom(b, 1);
    DateParts(a, b, x, y);
    DateLength(a);
    DateLength(b);
    hide Less, DateFields, YearFrom, MonthFrom;
    DateFieldsIncrease(x.0, MonthFrom(x.0, x.1, 1), y.0, MonthFrom(y.0, y.1, 1));
  }

  lemma ClockParts(a: nat, b: nat)
    requires a < b < DAY
    ensures a / 3600 <= b / 3600 < 24
    ensures a / 3600 == b / 3600 ==> Before2((a / 60 % 60, a % 60), (b / 60 % 60, b % 60))
  {
    var m, n := a / 60, b / 60;
    assert a == 60 * m + a % 60 && b == 60 * n + b % 60;
    assert m == 60 * (m / 60) + m % 60 && n == 60 * (n / 60) + n % 60;
    assert a / 3600 == m / 60 && b / 3600 == n / 60;
  }

  lemma ClockIncreases(a: nat, b: nat)
    requires a < b < DAY
    ensures Less(ClockText(a), ClockText(b)) && |ClockText(a)| == |ClockText(b)| == 8
  {
    ClockParts(a, b);
    ClockLength(a);
    ClockLength(b);
    assert Power10(2) == 100;
    hide Less, Digits, Two, Power10;
    if a / 3600 < b / 3600 {
      DigitsIncrease(a / 3600, b / 3600, 2);
    } else {
      TwoIncreases(":", (a / 60 % 60, a % 60), (b / 60 % 60, b % 60));
    }
    Lexicographic(Digits(a / 3600, 2), Digits(b / 3600, 2), ":", Two(":", a / 60 % 60, a % 60),
                  Two(":", b / 60 % 60, b % 60));
  }

  lemma SecondIncreases(a: nat, b: nat)
    requires a < b && YearOf(b) <= 9999
    ensures Less(SecondText(a), SecondText(b)) && |SecondText(a)| == |SecondText(b)| == 19
  {
    hide DateText, ClockText, Less;
    DateLength(a / DAY);
    DateLength(b / DAY);
    ClockLength(a % DAY);
    ClockLength(b % DAY);
    if a / DAY < b / DAY {
      DateIncreases(a / DAY, b / DAY);
    } else {
      ClockIncreases(a % DAY, b % DAY);
    }
    Lexicographic(DateText(a / DAY), DateText(b / DAY), "T", ClockText(a % DAY), ClockText(b % DAY));
  }

  lemma DateLength(day: nat)
    ensures |DateText(day)| == 10
  {
  }

  lemma ClockLength(s: nat)
    ensures |ClockText(s)| == 8
  {
  }

  // ----- one second -----

  lemma {:induction false} TrimZerosMeans(s: string)
    ensures TrimZeros(s) <= s
    ensures forall i | |TrimZeros(s)| <= i < |s| :: s[i] == '0'
  {
    if s != "" && s[|s| - 1] == '0' {
      TrimZerosMeans(s[..|s| - 1]);
    }
  }

  /** The digit texts of two fractions agree up to a digit where the smaller fraction has the smaller one. */
  lemma FractionsDiffer(a: nat, b: nat) returns (i: nat)
    requires a < b < 1_000_000_000
    ensures i < |Fraction(b)| && (forall k | 0 <= k < i && k < |Fraction(a)| :: Fraction(a)[k] == Fraction(b)[k])
    ensures i < |Fraction(a)| ==> Fraction(a)[i] < Fraction(b)[i]
  {
    var x, y := Digits(a, 9), Digits(b, 9);
    assert Power10(9) == 1_000_000_000;
    DigitsIncrease(a, b, 9);
    TrimZerosMeans(x);
    TrimZerosMeans(y);
    i := FirstDifference(x, y);
    assert x[i] in x && y[i] in y;
    assert x[..i] == y[..i];
    forall k | 0 <= k < i && k < |Fraction(a)| ensures Fraction(a)[k] == Fraction(b)[k] {
      assert x[k] == x[..i][k] == y[..i][k] == y[k];
    }
  }

  lemma FractionOrder(a: nat, b: nat)
    requires a < b < 1_000_000_000
    ensures Less(FractionText(a), FractionText(b)) <==> !(Fraction(a) < Fraction(b))
  {
    hide Less, Fraction;
    var x, y := Fraction(a), Fraction(b);
    var i := FractionsDiffer(a, b);
    assert FractionText(b) == "." + (y + "Z");
    if x == "" {
      assert FractionText(a) == "Z" && x < y;
      LessAt("Z", FractionText(b), 0);
    } else {
      assert FractionText(a) == "." + (x + "Z");
      LessAfterPrefix(".", x + "Z", y + "Z");
      if i < |x| {
        assert (x + "Z")[..i] == (y + "Z")[..i];
        LessAt(x + "Z", y + "Z", i);
      } else {
        FractionDigits(b, |x|);
        assert (x + "Z")[..|x|] == (y + "Z")[..|x|];
        LessAt(x + "Z", y + "Z", |x|);
      }
    }
  }

  lemma FractionDigits(n: nat, i: nat)
    requires i < |Fraction(n)|
    ensures Fraction(n)[i] <= '9'
  {
    TrimZerosMeans(Digits(n, 9));
    assert Fraction(n)[i] == Digits(n, 9)[i] && Digits(n, 9)[i] in Digits(n, 9);
  }

  // ----- the order of stored times -----

  /** Time order, except inside one second when the shorter fraction is a proper prefix of the longer one. */
  predicate Before(a: Instant, b: Instant) {
    || a.sec < b.sec
    || (a.sec == b.sec && a.nanos < b.nanos && !(Fraction(a.nanos) < Fraction(b.nanos)))
    || (a.sec == b.sec && a.nanos > b.nanos && Fraction(b.nanos) < Fraction(a.nanos))
  }

  /** Comparing stored texts is exactly this order. */
  lemma OrderExact(a: Instant, b: Instant)
    requires Valid(a) && Valid(b)
    ensures Less(Format(a), Format(b)) <==> Before(a, b)
  {
    hide Less, SecondText, FractionText, Fraction;
    if a.sec == b.sec {
      LessAfterPrefix(SecondText(a.sec), FractionText(a.nanos), FractionText(b.nanos));
      if a.nanos < b.nanos {
        FractionOrder(a.nanos, b.nanos);
      } else if b.nanos < a.nanos {
        FractionOrder(b.nanos, a.nanos);
        FractionTextsDiffer(b.nanos, a.nanos);
        LessTotal(FractionText(a.nanos), FractionText(b.nanos));
      } else {
        LessTotal(FractionText(a.nanos), FractionText(b.nanos));
      }
    } else if a.sec < b.sec {
      SecondIncreases(a.sec, b.sec);
      LessDecided(SecondText(a.sec), SecondText(b.sec), FractionText(a.nanos), FractionText(b.nanos));
    } else {
      SecondIncreases(b.sec, a.sec);
      LessDecided(SecondText(b.sec), SecondText(a.sec), FractionText(b.nanos), FractionText(a.nanos));
      LessTotal(Format(b), Format(a));
    }
  }

  lemma FractionTextsDiffer(a: nat, b: nat)
    requires a < b < 1_000_000_000
    ensures FractionText(a) != FractionText(b)
  {
    hide Less, Fraction;
    var x, y := Fraction(a), Fraction(b);
    var i := FractionsDiffer(a, b);
    assert FractionText(b) == "." + (y + "Z");
    if x != "" {
      assert FractionText(a) == "." + (x + "Z");
      assert i < |x| ==> FractionText(a)[i + 1] == x[i] && FractionText(b)[i + 1] == y[i];
    }
  }

  /** The order is right whenever the seconds differ. */
  lemma SecondsAreOrdered(a: Instant, b: Instant)
    requires Valid(a) && Valid(b) && a.sec != b.sec
    ensures AtMost(Format(a), Format(b)) <==> a.sec < b.sec
  {
    hide Less, Format;
    OrderExact(a, b);
    OrderExact(b, a);
    LessTotal(Format(a), Format(b));
    LessTotal(Format(b), Format(a));
  }

  /** Stored texts name their time: no two times share one. */
  lemma FormatInjective(a: Instant, b: Instant)
    requires Valid(a) && Valid(b) && Format(a) == Format(b)
    ensures a == b
  {
    hide Less, Format, Fraction;
    OrderExact(a, b);
    OrderExact(b, a);
    LessTotal(Format(a), Format(b));
  }

  /** Whole seconds, and so whole hours, compare exactly. */
  lemma WholeSecondsExact(a: nat, b: nat)
    requires YearOf(a) <= 9999 && YearOf(b) <= 9999
    ensures Less(Format(Instant(a, 0)), Format(Instant(b, 0))) <==> a < b
    ensures AtMost(Format(Instant(a, 0)), Format(Instant(b, 0))) <==> a <= b
  {
    OrderExact(Instant(a, 0), Instant(b, 0));
    OrderExact(Instant(b, 0), Instant(a, 0));
    hide Less, Format;
    LessTotal(Format(Instant(a, 0)), Format(Instant(b, 0)));
  }

  /** Within a second the whole second reads as later than every other time of it. */
  lemma WholeSecondReadsLast(sec: nat, nanos: nat)
    requires YearOf(sec) <= 9999 && 0 < nanos < 1_000_000_000
    ensures Less(Format(Instant(sec, nanos)), Format(Instant(sec, 0)))
  {
    NoFraction(9);
    var i := FractionsDiffer(0, nanos);
    hide Less, Format, Fraction;
    assert Fraction(0) < Fraction(nanos);
    OrderExact(Instant(sec, nanos), Instant(sec, 0));
  }

  lemma {:induction false} NoFraction(width: nat)
    ensures TrimZeros(Digits(0, width)) == ""
  {
    if width > 0 {
      NoFraction(width - 1);
      assert Digits(0, width)[..width - 1] == Digits(0, width - 1);
    }
  }
}
