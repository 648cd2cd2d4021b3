/** Timestamps as text: the form written by `format_time`, its reading, and why
    comparing the text in SQL compares the instants (sections 5.1 and 5.6 of
    RFC 3339). */
module Timestamps {
  import opened Wrappers
  import Calendar
  import Text

  /** A UTC date and time of day, as the time library holds it; leap seconds apart. */
  datatype DateTime = DateTime(year: int, month: nat, day: nat, hour: nat, minute: nat, second: nat, nanos: nat)

  predicate Leap(year: int) {
    year % 4 == 0 && (year % 100 != 0 || year % 400 == 0)
  }

  function YearLength(year: int): nat {
    if Leap(year) then 366 else 365
  }

  function MonthLength(year: int, month: nat): nat {
    if month == 2 then (if Leap(year) then 29 else 28)
    else if month == 4 || month == 6 || month == 9 || month == 11 then 30
    else 31
  }

  predicate Valid(t: DateTime) {
    && 1 <= t.month <= 12 && 1 <= t.day <= MonthLength(t.year, t.month)
    && t.hour <= 23 && t.minute <= 59 && t.second <= 59 && t.nanos <= 999_999_999
  }

  // ----------------------------------------------------------------- the instant

  /** Days from 1 January of year 0 to 1 January of `year`: a leap day for each leap
      year among those before it. */
  function DaysBeforeYear(year: int): int {
    365 * year + (year + 3) / 4 - (year + 99) / 100 + (year + 399) / 400
  }

  function DaysBeforeMonth(year: int, month: nat): nat {
    if month <= 1 then 0 else DaysBeforeMonth(year, month - 1) + MonthLength(year, month - 1)
  }

  /** Days since 1 January 1970. */
  function DayNumber(t: DateTime): int {
    DaysBeforeYear(t.year) + DaysBeforeMonth(t.year, t.month) + t.day - 1 - 719_528
  }

  /** Microseconds since the epoch, rounded down: what the tables of the model hold. */
  function Micros(t: DateTime): int {
    DayNumber(t) * 86_400_000_000 + t.hour * 3_600_000_000 + t.minute * 60_000_000 + t.second * 1_000_000
        + t.nanos / 1000
  }

  function Truncated(t: DateTime): DateTime {
    t.(nanos := t.nanos / 1000 * 1000)
  }

  // ------------------------------------------------------------------- the text

  function Pow10(w: nat): (p: nat)
    ensures p > 0
  {
    if w == 0 then 1 else 10 * Pow10(w - 1)
  }

  function Pad(n: nat, w: nat): (s: string)
    requires n < Pow10(w)
    ensures |s| == w && forall k | 0 <= k < w :: Calendar.IsDigit(s[k])
  {
    if w == 0 then "" else Pad(n / 10, w - 1) + [Calendar.Digit(n % 10)]
  }

  function FormatTail(t: DateTime): string
    requires Valid(t)
  {
    assert Pow10(2) == 100 && Pow10(6) == 1_000_000;
    Pad(t.month, 2) + ("-" + (Pad(t.day, 2) + ("T" + (Pad(t.hour, 2) + (":" + (Pad(t.minute, 2)
      + (":" + (Pad(t.second, 2) + ("." + (Pad(t.nanos / 1000, 6) + "Z"))))))))))
  }

  /** Years outside 0 to 9999 are written with a sign. */
  function FormatTime(t: DateTime): string
    requires Valid(t)
  {
    assert Pow10(4) == 10_000;
    (if 0 <= t.year <= 9999 then Pad(t.year, 4) else Signed(t.year)) + ("-" + FormatTail(t))
  }

  function Signed(year: int): string {
    if year >= 0 then "+" + Decimal(year) else "-" + (if -year < 1000 then Pad4(-year) else Decimal(-year))
  }

  function Pad4(n: nat): string
    requires n < 1000
  {
    assert Pow10(4) == 10_000;
    Pad(n, 4)
  }

  function Decimal(n: nat): string {
    if n < 10 then [Calendar.Digit(n)] else Decimal(n / 10) + [Calendar.Digit(n % 10)]
  }

  // ----------------------------------------------------------------- the reading

  function Value(digits: string): (n: nat)
    requires forall k | 0 <= k < |digits| :: Calendar.IsDigit(digits[k])
  {
    if digits == "" then 0
    else Value(digits[..|digits| - 1]) * 10 + DigitValue(digits[|digits| - 1])
  }

  function DigitValue(c: char): nat
    requires Calendar.IsDigit(c)
  {
    c as int - '0' as int
  }

  function LeadingDigits(s: string): (n: nat)
    ensures n <= |s| && forall k | 0 <= k < n :: Calendar.IsDigit(s[k])
    ensures n < |s| ==> !Calendar.IsDigit(s[n])
  {
    if s == "" || !Calendar.IsDigit(s[0]) then 0 else 1 + LeadingDigits(s[1..])
  }

  function TakeNumber(s: string, w: nat): Option<(nat, string)> {
    if LeadingDigits(s) < w then None else Some((Value(s[..w]), s[w..]))
  }

  function TakeOne(s: string, allowed: string): Option<string> {
    if s != "" && s[0] in allowed then Some(s[1..]) else None
  }

  /** An optional fraction of at least one digit; digits past the ninth are dropped. */
  function TakeFraction(s: string): Option<(nat, string)> {
    if s == "" || s[0] != '.' then Some((0, s))
    else
      var n := LeadingDigits(s[1..]);
      if n == 0 then None
      else
        var kept := if n > 9 then 9 else n;
        Some((Value(s[1..][..kept]) * Pow10(9 - kept), s[1..][n..]))
  }

  /** The offset in minutes. */
  function TakeOffset(s: string): Option<(int, string)> {
    if s != "" && (s[0] == 'Z' || s[0] == 'z') then Some((0, s[1..]))
    else
      var rest :- TakeOne(s, "+-");
      var (hours, rest1) :- TakeNumber(rest, 2);
      var rest2 :- TakeOne(rest1, ":");
      var (minutes, rest3) :- TakeNumber(rest2, 2);
      if minutes > 59 then None
      else Some((if s[0] == '+' then hours * 60 + minutes else -(hours * 60 + minutes), rest3))
  }

  function TakeDate(s: string): Option<(nat, nat, nat, string)> {
    var (year, s1) :- TakeNumber(s, 4);
    var s2 :- TakeOne(s1, "-");
    var (month, s3) :- TakeNumber(s2, 2);
    var s4 :- TakeOne(s3, "-");
    var (day, s5) :- TakeNumber(s4, 2);
    Some((year, month, day, s5))
  }

  function TakeClock(s: string): Option<(nat, nat, nat, nat, string)> {
    var (hour, s1) :- TakeNumber(s, 2);
    var s2 :- TakeOne(s1, ":");
    var (minute, s3) :- TakeNumber(s2, 2);
    var s4 :- TakeOne(s3, ":");
    var (second, s5) :- TakeNumber(s4, 2);
    var (nanos, s6) :- TakeFraction(s5);
    Some((hour, minute, second, nanos, s6))
  }

  /** Local fields and offset of an RFC 3339 date-time. */
  function ParseTime(s: string): Option<(DateTime, int)> {
    var (year, month, day, s1) :- TakeDate(s);
    var s2 :- TakeOne(s1, "Tt ");
    var (hour, minute, second, nanos, s3) :- TakeClock(s2);
    var (offset, s4) :- TakeOffset(s3);
    var t := DateTime(year, month, day, hour, minute, second, nanos);
    if s4 == "" && Valid(t) then Some((t, offset)) else None
  }

  // ------------------------------------------------------------------ round trip

  lemma {:induction false} ValueOfPad(n: nat, w: nat)
    requires n < Pow10(w)
    ensures Value(Pad(n, w)) == n
  {
    if w > 0 {
      ValueOfPad(n / 10, w - 1);
      assert Pad(n, w)[..w - 1] == Pad(n / 10, w - 1);
    }
  }

  lemma {:induction false} LeadingDigitsOf(digits: string, rest: string)
    requires forall k | 0 <= k < |digits| :: Calendar.IsDigit(digits[k])
    ensures LeadingDigits(digits + rest) == |digits| + LeadingDigits(rest)
  {
    if digits == "" {
      assert digits + rest == rest;
    } else {
      assert (digits + rest)[1..] == digits[1..] + rest;
      LeadingDigitsOf(digits[1..], rest);
    }
  }

  lemma {:induction false} TakePadded(n: nat, w: nat, rest: string)
    requires n < Pow10(w)
    ensures TakeNumber(Pad(n, w) + rest, w) == Some((n, rest))
  {
    LeadingDigitsOf(Pad(n, w), rest);
    ValueOfPad(n, w);
    assert (Pad(n, w) + rest)[..w] == Pad(n, w) && (Pad(n, w) + rest)[w..] == rest;
  }

  lemma {:induction false} TakeSeparator(c: char, rest: string, allowed: string)
    requires c in allowed
    ensures TakeOne([c] + rest, allowed) == Some(rest)
  {
  }

  lemma {:induction false} TakeMicros(micros: nat)
    requires micros < 1_000_000
    ensures Pow10(6) == 1_000_000
    ensures TakeFraction("." + (Pad(micros, 6) + "Z")) == Some((micros * 1000, "Z"))
  {
    assert Pow10(6) == 1_000_000 && Pow10(3) == 1000;
    var s := Pad(micros, 6) + "Z";
    assert ("." + s)[1..] == s;
    LeadingDigitsOf(Pad(micros, 6), "Z");
    ValueOfPad(micros, 6);
    assert s[..6] == Pad(micros, 6) && s[6..] == "Z";
  }

  function FormatClock(t: DateTime): string
    requires Valid(t)
  {
    assert Pow10(2) == 100 && Pow10(6) == 1_000_000;
    Pad(t.hour, 2) + (":" + (Pad(t.minute, 2) + (":" + (Pad(t.second, 2) + ("." + (Pad(t.nanos / 1000, 6) + "Z"))))))
  }

  lemma {:induction false} TakeFormattedClock(t: DateTime)
    requires Valid(t)
    ensures TakeClock(FormatClock(t)) == Some((t.hour, t.minute, t.second, t.nanos / 1000 * 1000, "Z"))
  {
    assert Pow10(2) == 100 && Pow10(6) == 1_000_000;
    hide Pad, TakeNumber, TakeOne, TakeFraction, Pow10;
    var f := "." + (Pad(t.nanos / 1000, 6) + "Z");
    var s := Pad(t.second, 2) + f;
    var mi := Pad(t.minute, 2) + (":" + s);
    TakePadded(t.hour, 2, ":" + mi);
    TakeSeparator(':', mi, ":");
    TakePadded(t.minute, 2, ":" + s);
    TakeSeparator(':', s, ":");
    TakePadded(t.second, 2, f);
    TakeMicros(t.nanos / 1000);
  }

  lemma {:induction false} TakeFormattedDate(year: nat, month: nat, day: nat, rest: string)
    requires year <= 9999 && month < 100 && day < 100
    ensures Pow10(4) == 10_000 && Pow10(2) == 100
    ensures TakeDate(Pad(year, 4) + ("-" + (Pad(month, 2) + ("-" + (Pad(day, 2) + rest)))))
        == Some((year, month, day, rest))
  {
    assert Pow10(2) == 100 && Pow10(4) == 10_000;
    hide Pad, TakeNumber, TakeOne, Pow10;
    var d := Pad(day, 2) + rest;
    var mo := Pad(month, 2) + ("-" + d);
    TakePadded(year, 4, "-" + mo);
    TakeSeparator('-', mo, "-");
    TakePadded(month, 2, "-" + d);
    TakeSeparator('-', d, "-");
    TakePadded(day, 2, rest);
  }

  lemma {:induction false} TruncatedKeeps(t: DateTime)
    requires Valid(t)
    ensures Valid(Truncated(t)) && Micros(Truncated(t)) == Micros(t)
  {
    hide DaysBeforeYear, DaysBeforeMonth, MonthLength;
  }

  lemma {:induction false} FormattedIsDateAndClock(t: DateTime)
    requires Valid(t) && 0 <= t.year <= 9999
    ensures Pow10(2) == 100 && Pow10(4) == 10_000
    ensures FormatTime(t)
            == Pad(t.year, 4) + ("-" + (Pad(t.month, 2) + ("-" + (Pad(t.day, 2) + ("T" + FormatClock(t))))))
  {
    assert Pow10(2) == 100 && Pow10(4) == 10_000;
    hide Pad;
  }

  lemma {:induction false} ParseInSteps(s: string, t: DateTime, clock: string)
    requires TakeDate(s) == Some((t.year, t.month, t.day, "T" + clock))
    requires TakeClock(clock) == Some((t.hour, t.minute, t.second, t.nanos, "Z"))
    requires Valid(t)
    ensures ParseTime(s) == Some((t, 0))
  {
    hide TakeDate, TakeClock, Valid;
    TakeSeparator('T', clock, "Tt ");
    assert "Z"[1..] == "" && TakeOffset("Z") == Some((0, ""));
  }

  /** Reading back what was written gives the instant truncated to microseconds. */
  lemma {:induction false} FormatThenParse(t: DateTime)
    requires Valid(t) && 0 <= t.year <= 9999
    ensures ParseTime(FormatTime(t)) == Some((Truncated(t), 0))
    ensures Micros(Truncated(t)) == Micros(t)
  {
    FormattedIsDateAndClock(t);
    TakeFormattedDate(t.year, t.month, t.day, "T" + FormatClock(t));
    TakeFormattedClock(t);
    TruncatedKeeps(t);
    hide Pad, TakeDate, TakeClock, FormatClock, FormatTime, Pow10, Micros, ParseTime, Valid;
    ParseInSteps(FormatTime(t), Truncated(t), FormatClock(t));
  }

  // ----------------------------------------------------------------------- order

  lemma {:induction false} PadOrder(m: nat, n: nat, w: nat)
    requires m < Pow10(w) && n < Pow10(w)
    ensures Text.Less(Pad(m, w), Pad(n, w)) <==> m < n
    ensures Pad(m, w) == Pad(n, w) <==> m == n
  {
    if w > 0 {
      PadOrder(m / 10, n / 10, w - 1);
      var x, y := [Calendar.Digit(m % 10)], [Calendar.Digit(n % 10)];
      Text.LessConcat(Pad(m / 10, w - 1), Pad(n / 10, w - 1), x, y);
      LastDigit(m / 10, n / 10, m % 10, n % 10, Pad(m / 10, w - 1), Pad(n / 10, w - 1));
    }
  }

  lemma {:induction false} LastDigit(m: nat, n: nat, a: nat, b: nat, x: string, y: string)
    requires a < 10 && b < 10 && |x| == |y|
    ensures Text.Less([Calendar.Digit(a)], [Calendar.Digit(b)]) <==> a < b
    ensures 10 * m + a < 10 * n + b <==> m < n || (m == n && a < b)
    ensures x + [Calendar.Digit(a)] == y + [Calendar.Digit(b)] <==> x == y && a == b
  {
    var s, t := x + [Calendar.Digit(a)], y + [Calendar.Digit(b)];
    if s == t {
      assert s[..|x|] == x && t[..|y|] == y && s[|x|] == Calendar.Digit(a) && t[|y|] == Calendar.Digit(b);
    }
    assert [Calendar.Digit(a)][1..] == "" == [Calendar.Digit(b)][1..];
  }

  /** A padded field and its separator decide the order unless the fields agree. */
  lemma {:induction false} FieldOrder(m: nat, n: nat, w: nat, sep: char, x: string, y: string)
    requires m < Pow10(w) && n < Pow10(w)
    ensures Text.Less(Pad(m, w) + ([sep] + x), Pad(n, w) + ([sep] + y)) <==> m < n || (m == n && Text.Less(x, y))
  {
    PadOrder(m, n, w);
    Text.LessConcat(Pad(m, w), Pad(n, w), [sep] + x, [sep] + y);
    Text.LessConcat([sep], [sep], x, y);
    Text.LessIrreflexive([sep]);
  }

  /** Field by field, most significant first, down to microseconds. */
  predicate EarlierFields(a: DateTime, b: DateTime) {
    a.year < b.year || (a.year == b.year && EarlierInYear(a, b))
  }

  predicate EarlierInYear(a: DateTime, b: DateTime) {
    a.month < b.month || (a.month == b.month && (a.day < b.day || (a.day == b.day && EarlierInDay(a, b))))
  }

  predicate EarlierInDay(a: DateTime, b: DateTime) {
    a.hour < b.hour || (a.hour == b.hour && (a.minute < b.minute || (a.minute == b.minute &&
      (a.second < b.second || (a.second == b.second && a.nanos / 1000 < b.nanos / 1000)))))
  }

  lemma {:induction false} TailOrder(a: DateTime, b: DateTime)
    requires Valid(a) && Valid(b)
    ensures Text.Less(FormatTail(a), FormatTail(b)) <==> EarlierInYear(a, b)
  {
    assert Pow10(2) == 100 && Pow10(6) == 1_000_000;
    hide Pad, Text.Less, Pow10;
    var fa, fb := Pad(a.nanos / 1000, 6) + "Z", Pad(b.nanos / 1000, 6) + "Z";
    var sa, sb := Pad(a.second, 2) + ("." + fa), Pad(b.second, 2) + ("." + fb);
    var ma, mb := Pad(a.minute, 2) + (":" + sa), Pad(b.minute, 2) + (":" + sb);
    var ha, hb := Pad(a.hour, 2) + (":" + ma), Pad(b.hour, 2) + (":" + mb);
    var da, db := Pad(a.day, 2) + ("T" + ha), Pad(b.day, 2) + ("T" + hb);
    FieldOrder(a.month, b.month, 2, '-', da, db);
    FieldOrder(a.day, b.day, 2, 'T', ha, hb);
    FieldOrder(a.hour, b.hour, 2, ':', ma, mb);
    FieldOrder(a.minute, b.minute, 2, ':', sa, sb);
    FieldOrder(a.second, b.second, 2, '.', fa, fb);
    assert fa == Pad(a.nanos / 1000, 6) + (['Z'] + "") && fb == Pad(b.nanos / 1000, 6) + (['Z'] + "");
    FieldOrder(a.nanos / 1000, b.nanos / 1000, 6, 'Z', "", "");
    Text.LessIrreflexive("");
  }

  lemma {:induction false} YearStep(year: int)
    ensures DaysBeforeYear(year + 1) == DaysBeforeYear(year) + YearLength(year)
  {
    EveryFour(year);
    EveryHundred(year);
    EveryFourHundred(year);
    HundredsAreFourths(year);
    FourHundredsAreHundreds(year);
  }

  lemma {:induction false} EveryFour(year: int)
    ensures (year + 4) / 4 == (year + 3) / 4 + if year % 4 == 0 then 1 else 0
  {
  }

  lemma {:induction false} EveryHundred(year: int)
    ensures (year + 100) / 100 == (year + 99) / 100 + if year % 100 == 0 then 1 else 0
  {
  }

  lemma {:induction false} EveryFourHundred(year: int)
    ensures (year + 400) / 400 == (year + 399) / 400 + if year % 400 == 0 then 1 else 0
  {
  }

  lemma {:induction false} HundredsAreFourths(year: int)
    ensures year % 100 == 0 ==> year % 4 == 0
  {
    if year % 100 == 0 {
      var q := 25 * (year / 100);
      assert year == 4 * q;
    }
  }

  lemma {:induction false} FourHundredsAreHundreds(year: int)
    ensures year % 400 == 0 ==> year % 100 == 0
  {
    if year % 400 == 0 {
      var q := 4 * (year / 400);
      assert year == 100 * q;
    }
  }

  lemma {:induction false} YearsGrow(a: int, b: int)
    requires a < b
    ensures DaysBeforeYear(a) + YearLength(a) <= DaysBeforeYear(b)
    decreases b - a
  {
    hide DaysBeforeYear, YearLength;
    YearStep(b - 1);
    YearStep(a);
    if a < b - 1 {
      YearsGrow(a, b - 1);
      YearLengthPositive(b - 1);
    }
  }

  lemma {:induction false} YearLengthPositive(year: int)
    ensures YearLength(year) > 0
  {
  }

  lemma {:induction false} MonthsGrow(year: int, a: nat, b: nat)
    requires 1 <= a < b
    ensures DaysBeforeMonth(year, a) + MonthLength(year, a) <= DaysBeforeMonth(year, b)
    decreases b
  {
    if a < b - 1 {
      MonthsGrow(year, a, b - 1);
    }
  }

  /** A valid date lies within its year. */
  lemma {:induction false} DayOfYear(year: int, month: nat, day: nat)
    requires 1 <= month <= 12 && 1 <= day <= MonthLength(year, month)
    ensures 1 <= DaysBeforeMonth(year, month) + day <= YearLength(year)
  {
    assert DaysBeforeMonth(year, 13) == YearLength(year) by {
      TwelveMonths(year);
    }
    MonthsGrow(year, month, 13);
  }

  lemma {:induction false} TwelveMonths(year: int)
    ensures DaysBeforeMonth(year, 13) == YearLength(year)
  {
    var leap := if Leap(year) then 1 else 0;
    hide Leap;
    assert DaysBeforeMonth(year, 2) == 31;
    assert DaysBeforeMonth(year, 3) == 59 + leap;
    assert DaysBeforeMonth(year, 4) == 90 + leap;
    assert DaysBeforeMonth(year, 5) == 120 + leap;
    assert DaysBeforeMonth(year, 6) == 151 + leap;
    assert DaysBeforeMonth(year, 7) == 181 + leap;
    assert DaysBeforeMonth(year, 8) == 212 + leap;
    assert DaysBeforeMonth(year, 9) == 243 + leap;
    assert DaysBeforeMonth(year, 10) == 273 + leap;
    assert DaysBeforeMonth(year, 11) == 304 + leap;
    assert DaysBeforeMonth(year, 12) == 334 + leap;
  }

  predicate EarlierDate(a: DateTime, b: DateTime) {
    a.year < b.year || (a.year == b.year && (a.month < b.month || (a.month == b.month && a.day < b.day)))
  }

  lemma {:induction false} EarlierDateSmallerDay(a: DateTime, b: DateTime)
    requires Valid(a) && Valid(b) && EarlierDate(a, b)
    ensures DayNumber(a) < DayNumber(b)
  {
    DayOfYear(a.year, a.month, a.day);
    DayOfYear(b.year, b.month, b.day);
    hide DaysBeforeYear, DaysBeforeMonth, YearLength, MonthLength;
    if a.year < b.year {
      YearsGrow(a.year, b.year);
    } else if a.month < b.month {
      MonthsGrow(a.year, a.month, b.month);
    }
  }

  lemma {:induction false} EarlierIsSmaller(a: DateTime, b: DateTime)
    requires Valid(a) && Valid(b) && EarlierFields(a, b)
    ensures Micros(a) < Micros(b)
  {
    hide DayNumber, MonthLength;
    if EarlierDate(a, b) {
      EarlierDateSmallerDay(a, b);
    } else {
      assert DayNumber(a) == DayNumber(b) by {
        SameDateSameDay(a, b);
      }
    }
  }

  lemma {:induction false} SameDateSameDay(a: DateTime, b: DateTime)
    requires a.year == b.year && a.month == b.month && a.day == b.day
    ensures DayNumber(a) == DayNumber(b)
  {
    hide DaysBeforeYear, DaysBeforeMonth;
  }

  lemma {:induction false} NotEarlierEitherWay(a: DateTime, b: DateTime)
    requires Valid(a) && Valid(b) && !EarlierFields(a, b) && !EarlierFields(b, a)
    ensures Truncated(a) == Truncated(b) && Micros(a) == Micros(b)
  {
    hide DaysBeforeYear, DaysBeforeMonth;
  }

  /** For years 0 to 9999 text order is time order, and equal text means the same
      microsecond: every comparison and ORDER BY on a stored timestamp compares the
      instants. */
  lemma {:induction false} TextOrderIsTimeOrder(a: DateTime, b: DateTime)
    requires Valid(a) && Valid(b) && 0 <= a.year <= 9999 && 0 <= b.year <= 9999
    ensures Text.Less(FormatTime(a), FormatTime(b)) <==> Micros(a) < Micros(b)
    ensures FormatTime(a) == FormatTime(b) <==> Micros(a) == Micros(b)
  {
    assert Pow10(4) == 10_000;
    FieldOrder(a.year, b.year, 4, '-', FormatTail(a), FormatTail(b));
    TailOrder(a, b);
    FormatThenParse(a);
    FormatThenParse(b);
    hide Pad, Text.Less, Pow10, FormatTail, Valid, Micros, EarlierInYear, ParseTime;
    if EarlierFields(a, b) {
      EarlierIsSmaller(a, b);
    } else if EarlierFields(b, a) {
      EarlierIsSmaller(b, a);
    } else {
      NotEarlierEitherWay(a, b);
      SameFieldsSameText(a, b);
    }
  }

  lemma {:induction false} SameFieldsSameText(a: DateTime, b: DateTime)
    requires Valid(a) && Valid(b) && Truncated(a) == Truncated(b)
    ensures FormatTime(a) == FormatTime(b)
  {
    hide Pad, Signed;
    assert a.nanos / 1000 == b.nanos / 1000;
  }

  /** From year 10000 on the order breaks: such a timestamp sorts before every one
      of the years 0 to 9999. */
  lemma {:induction false} FiveDigitYearsSortFirst(a: DateTime, b: DateTime)
    requires Valid(a) && Valid(b) && 0 <= a.year <= 9999 && b.year > 9999
    ensures Text.Less(FormatTime(b), FormatTime(a)) && Micros(a) < Micros(b)
  {
    EarlierIsSmaller(a, b);
    assert Pow10(4) == 10_000;
    assert FormatTime(b)[0] == '+';
    assert FormatTime(a)[0] == Pad(a.year, 4)[0];
    assert Calendar.IsDigit(FormatTime(a)[0]);
  }
}
