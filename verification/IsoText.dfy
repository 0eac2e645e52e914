/** Timestamps as stored text. */
module IsoText {
  import Text

  /** A UTC timestamp with the fields a stored text shows. */
  datatype Stamp = Stamp(year: int, month: int, day: int, hour: int, minute: int, second: int, micro: int)

  predicate IsLeap(year: int) {
    year % 4 == 0 && (year % 100 != 0 || year % 400 == 0)
  }

  /** Days of the year before the month begins. */
  function DaysBeforeMonth(year: int, month: int): int
    requires 1 <= month <= 13
  {
    [0, 31, 59, 90, 120, 151, 181, 212, 243, 273, 304, 334, 365][month - 1] + if month > 2 && IsLeap(year) then 1 else 0
  }

  /** Days before the year begins, in the proleptic Gregorian calendar. */
  function DaysBeforeYear(year: int): int {
    (year - 1) * 365 + (year - 1) / 4 - (year - 1) / 100 + (year - 1) / 400
  }

  predicate IsStamp(s: Stamp) {
    && 1 <= s.year <= 9999 && 1 <= s.month <= 12
    && 1 <= s.day <= DaysBeforeMonth(s.year, s.month + 1) - DaysBeforeMonth(s.year, s.month)
    && 0 <= s.hour < 24 && 0 <= s.minute < 60 && 0 <= s.second < 60 && 0 <= s.micro < 1_000_000
  }

  function DayNumber(s: Stamp): int
    requires 1 <= s.month <= 12
  {
    DaysBeforeYear(s.year) + DaysBeforeMonth(s.year, s.month) + s.day
  }

  /** The instant a timestamp denotes, in microseconds. */
  function Instant(s: Stamp): int
    requires 1 <= s.month <= 12
  {
    (((DayNumber(s) * 24 + s.hour) * 60 + s.minute) * 60 + s.second) * 1_000_000 + s.micro
  }

  /** The bound used where an open incident has no end. */
  function FarFuture(): int {
    Instant(Stamp(9999, 12, 31, 23, 59, 59, 0))
  }

  /** `n` in decimal, padded with zeros to a width. */
  function Digits(n: int, width: nat): (text: string)
    requires n >= 0
    ensures |text| == width
    decreases width
  {
    if width == 0 then "" else Digits(n / 10, width - 1) + [('0' as int + n % 10) as char]
  }

  function Fraction(micro: int): string
    requires micro >= 0
  {
    (if micro == 0 then "" else "." + Digits(micro, 6)) + "+00:00"
  }

  /** The text of the time of day. */
  function ClockText(s: Stamp): string
    requires IsStamp(s)
  {
    Digits(s.hour, 2) + (":" + (Digits(s.minute, 2) + (":" + (Digits(s.second, 2) + Fraction(s.micro)))))
  }

  /** A date text followed by a tail. */
  function DateText(s: Stamp, tail: string): string
    requires IsStamp(s)
  {
    Digits(s.year, 4) + ("-" + (Digits(s.month, 2) + ("-" + (Digits(s.day, 2) + tail))))
  }

  /** `datetime.isoformat()`: the fraction is written only when there is one. */
  function Iso(s: Stamp): string
    requires IsStamp(s)
  {
    DateText(s, "T" + ClockText(s))
  }

  function Power10(width: nat): int {
    if width == 0 then 1 else 10 * Power10(width - 1)
  }

  /** Fixed-width decimals are ordered as the numbers are. */
  lemma {:induction false} DigitsKeepOrder(a: int, b: int, width: nat)
    requires 0 <= a < Power10(width) && 0 <= b < Power10(width)
    ensures Text.Less(Digits(a, width), Digits(b, width)) <==> a < b
    ensures Digits(a, width) == Digits(b, width) <==> a == b
  {
    if width > 0 {
      DigitsKeepOrder(a / 10, b / 10, width - 1);
      var x := [('0' as int + a % 10) as char];
      var y := [('0' as int + b % 10) as char];
      Text.LessByParts(Digits(a / 10, width - 1), Digits(b / 10, width - 1), x, y);
      assert Text.Less(x, y) <==> a % 10 < b % 10 by {
        assert Text.Less(x, y) <==> x[0] < y[0] || (x[0] == y[0] && Text.Less(x[1..], y[1..]));
      }
      assert Digits(a, width)[..width - 1] == Digits(a / 10, width - 1) && Digits(a, width)[width - 1..] == x;
      assert Digits(b, width)[..width - 1] == Digits(b / 10, width - 1) && Digits(b, width)[width - 1..] == y;
      assert a == 10 * (a / 10) + a % 10 && b == 10 * (b / 10) + b % 10;
    }
  }

  /** Texts that share a first character are ordered by the rest. */
  lemma {:induction false} SkipCommon(c: string, s: string, t: string)
    requires |c| == 1
    ensures Text.Less(c + s, c + t) <==> Text.Less(s, t)
    ensures c + s == c + t <==> s == t
  {
    Text.LessByParts(c, c, s, t);
    Text.LessIsStrictTotal(c, c);
    assert (c + s)[1..] == s && (c + t)[1..] == t;
  }

  /** A fixed-width decimal decides the order unless it is the same on both sides. */
  lemma {:induction false} FieldFirst(a: int, b: int, width: nat, s: string, t: string)
    requires 0 <= a < Power10(width) && 0 <= b < Power10(width)
    ensures Text.Less(Digits(a, width) + s, Digits(b, width) + t) <==> a < b || (a == b && Text.Less(s, t))
    ensures Digits(a, width) + s == Digits(b, width) + t <==> a == b && s == t
  {
    DigitsKeepOrder(a, b, width);
    Text.LessByParts(Digits(a, width), Digits(b, width), s, t);
    assert (Digits(a, width) + s)[..width] == Digits(a, width) && (Digits(a, width) + s)[width..] == s;
    assert (Digits(b, width) + t)[..width] == Digits(b, width) && (Digits(b, width) + t)[width..] == t;
  }

  /** A missing fraction sorts before every written one: `+` comes before `.`. */
  lemma FractionsKeepOrder(a: int, b: int)
    requires 0 <= a < 1_000_000 && 0 <= b < 1_000_000
    ensures Text.Less(Fraction(a), Fraction(b)) <==> a < b
    ensures Fraction(a) == Fraction(b) <==> a == b
  {
    var zone := "+00:00";
    assert Power10(6) == 1_000_000;
    Text.LessIsStrictTotal(zone, zone);
    assert a != 0 ==> Fraction(a) == "." + (Digits(a, 6) + zone);
    assert b != 0 ==> Fraction(b) == "." + (Digits(b, 6) + zone);
    assert Fraction(0) == zone;
    if a != 0 && b != 0 {
      SkipCommon(".", Digits(a, 6) + zone, Digits(b, 6) + zone);
      FieldFirst(a, b, 6, zone, zone);
    } else {
      assert zone[0] == '+' && '+' < '.';
      assert a != 0 ==> Fraction(a)[0] == '.';
      assert b != 0 ==> Fraction(b)[0] == '.';
    }
  }

  /** The time of day in microseconds. */
  function Clock(s: Stamp): int {
    ((s.hour * 60 + s.minute) * 60 + s.second) * 1_000_000 + s.micro
  }

  lemma ClockTextKeepsOrder(a: Stamp, b: Stamp)
    requires IsStamp(a) && IsStamp(b)
    ensures Text.Less(ClockText(a), ClockText(b)) <==> Clock(a) < Clock(b)
    ensures ClockText(a) == ClockText(b) <==> Clock(a) == Clock(b)
  {
    assert Power10(2) == 100;
    FractionsKeepOrder(a.micro, b.micro);
    var s2, t2 := Digits(a.second, 2) + Fraction(a.micro), Digits(b.second, 2) + Fraction(b.micro);
    FieldFirst(a.second, b.second, 2, Fraction(a.micro), Fraction(b.micro));
    SkipCommon(":", s2, t2);
    FieldFirst(a.minute, b.minute, 2, ":" + s2, ":" + t2);
    var s1, t1 := Digits(a.minute, 2) + (":" + s2), Digits(b.minute, 2) + (":" + t2);
    SkipCommon(":", s1, t1);
    FieldFirst(a.hour, b.hour, 2, ":" + s1, ":" + t1);
  }

  predicate EarlierDate(a: Stamp, b: Stamp) {
    a.year < b.year || (a.year == b.year && (a.month < b.month || (a.month == b.month && a.day < b.day)))
  }

  predicate SameDate(a: Stamp, b: Stamp) {
    a.year == b.year && a.month == b.month && a.day == b.day
  }

  lemma {:induction false} YearsKeepOrder(a: int, b: int)
    requires a < b
    ensures DaysBeforeYear(a) + 365 + (if IsLeap(a) then 1 else 0) <= DaysBeforeYear(b)
    decreases b - a
  {
    YearLength(a);
    if a + 1 < b {
      YearsKeepOrder(a + 1, b);
    }
  }

  lemma YearLength(y: int)
    ensures DaysBeforeYear(y + 1) == DaysBeforeYear(y) + 365 + if IsLeap(y) then 1 else 0
  {
    NextQuotient(y, 4);
    NextQuotient(y, 100);
    NextQuotient(y, 400);
    CenturiesNest(y);
  }

  lemma CenturiesNest(y: int)
    ensures y % 400 == 0 ==> y % 100 == 0
    ensures y % 100 == 0 ==> y % 4 == 0
  {
    if y % 400 == 0 {
      MultipleOf100(y, 4 * (y / 400));
    }
    if y % 100 == 0 {
      MultipleOf4(y, 25 * (y / 100));
    }
  }

  lemma MultipleOf100(y: int, k: int)
    requires y == 100 * k
    ensures y % 100 == 0
  {
  }

  lemma MultipleOf4(y: int, k: int)
    requires y == 4 * k
    ensures y % 4 == 0
  {
  }

  lemma NextQuotient(y: int, d: int)
    requires d == 4 || d == 100 || d == 400
    ensures y / d == (y - 1) / d + if y % d == 0 then 1 else 0
  {
    if d == 4 {
      assert y == 4 * (y / 4) + y % 4;
    } else if d == 100 {
      assert y == 100 * (y / 100) + y % 100;
    } else {
      assert y == 400 * (y / 400) + y % 400;
    }
  }

  lemma MonthsKeepOrder(year: int, a: int, b: int)
    requires 1 <= a < b <= 12
    ensures DaysBeforeMonth(year, a + 1) <= DaysBeforeMonth(year, b)
  {
  }

  /** Later dates have larger day numbers. */
  lemma DatesKeepOrder(a: Stamp, b: Stamp)
    requires IsStamp(a) && IsStamp(b) && EarlierDate(a, b)
    ensures DayNumber(a) < DayNumber(b)
  {
    if a.year < b.year {
      YearsKeepOrder(a.year, b.year);
      assert DaysBeforeMonth(a.year, a.month + 1) <= 365 + if IsLeap(a.year) then 1 else 0;
    } else if a.month < b.month {
      MonthsKeepOrder(a.year, a.month, b.month);
    }
  }

  lemma {:induction false} DateDecidesFirst(a: Stamp, b: Stamp, s: string, t: string)
    requires IsStamp(a) && IsStamp(b)
    ensures Text.Less(DateText(a, s), DateText(b, t)) <==> EarlierDate(a, b) || (SameDate(a, b) && Text.Less(s, t))
    ensures DateText(a, s) == DateText(b, t) <==> SameDate(a, b) && s == t
  {
    assert Power10(2) == 100 && Power10(4) == 10000;
    FieldFirst(a.day, b.day, 2, s, t);
    var s2, t2 := Digits(a.day, 2) + s, Digits(b.day, 2) + t;
    SkipCommon("-", s2, t2);
    FieldFirst(a.month, b.month, 2, "-" + s2, "-" + t2);
    var s1, t1 := Digits(a.month, 2) + ("-" + s2), Digits(b.month, 2) + ("-" + t2);
    SkipCommon("-", s1, t1);
    FieldFirst(a.year, b.year, 4, "-" + s1, "-" + t1);
  }

  /** The order of the stored texts, which SQL compares, is the order of the instants, although the
      fraction is only sometimes written. */
  lemma TextOrderIsTimeOrder(a: Stamp, b: Stamp)
    requires IsStamp(a) && IsStamp(b)
    ensures Text.Less(Iso(a), Iso(b)) <==> Instant(a) < Instant(b)
    ensures Iso(a) == Iso(b) <==> Instant(a) == Instant(b)
    ensures Instant(a) == Instant(b) <==> a == b
  {
    ClockTextKeepsOrder(a, b);
    SkipCommon("T", ClockText(a), ClockText(b));
    DateDecidesFirst(a, b, "T" + ClockText(a), "T" + ClockText(b));
    InstantsByDateAndClock(a, b);
    ClocksByFields(a, b);
  }

  lemma ClocksByFields(a: Stamp, b: Stamp)
    requires IsStamp(a) && IsStamp(b)
    ensures Clock(a) == Clock(b) <==>
            a.hour == b.hour && a.minute == b.minute && a.second == b.second && a.micro == b.micro
  {
  }

  lemma InstantsByDateAndClock(a: Stamp, b: Stamp)
    requires IsStamp(a) && IsStamp(b)
    ensures Instant(a) < Instant(b) <==> EarlierDate(a, b) || (SameDate(a, b) && Clock(a) < Clock(b))
    ensures Instant(a) == Instant(b) <==> SameDate(a, b) && Clock(a) == Clock(b)
  {
    if EarlierDate(a, b) { DatesKeepOrder(a, b); }
    if EarlierDate(b, a) { DatesKeepOrder(b, a); }
    assert Instant(a) == DayNumber(a) * 86_400_000_000 + Clock(a);
    assert Instant(b) == DayNumber(b) * 86_400_000_000 + Clock(b);
    assert 0 <= Clock(a) < 86_400_000_000 && 0 <= Clock(b) < 86_400_000_000;
  }
}
