/** The `YYYYMMDDTHHMMSSZ` stamps of `data_source.rs` as text: what they spell, that text order is
time order up to the year 9999, and that a stamp tells its second; each stamp is read as two decimal
numbers, the date and the time of day. */
module Stamps {
  import opened Wrappers
  import opened CivilDate

  // ---------- decimal numbers ----------

  function DigitChar(d: nat): char
    requires d < 10
  {
    ('0' as int + d) as char
  }

  predicate IsDigit(c: char) {
    '0' <= c <= '9'
  }

  predicate AllDigits(s: string) {
    forall i :: 0 <= i < |s| ==> IsDigit(s[i])
  }

  /** `n` in decimal, padded with zeros to at least `width` digits. */
  function Dec(n: nat, width: nat): (s: string)
    ensures |s| >= width && s != "" && AllDigits(s)
    decreases n, width
  {
    if n < 10 && width <= 1 then [DigitChar(n)]
    else Dec(n / 10, if width == 0 then 0 else width - 1) + [DigitChar(n % 10)]
  }

  /** The number a run of digits spells. */
  function Value(s: string): nat
    requires AllDigits(s)
  {
    if s == "" then 0 else 10 * Value(s[..|s| - 1]) + (s[|s| - 1] as int - '0' as int)
  }

  lemma {:induction false} ValueOfDec(n: nat, width: nat)
    ensures Value(Dec(n, width)) == n
    decreases n, width
  {
    var s := Dec(n, width);
    if n < 10 && width <= 1 {
      assert s[..0] == "";
    } else {
      var w := if width == 0 then 0 else width - 1;
      ValueOfDec(n / 10, w);
      assert s[..|s| - 1] == Dec(n / 10, w);
    }
  }

  function Pow10(w: nat): nat {
    if w == 0 then 1 else 10 * Pow10(w - 1)
  }

  /** The padding is exact while the number fits. */
  lemma {:induction false} DecWidth(n: nat, width: nat)
    requires width >= 1
    ensures n < Pow10(width) <==> |Dec(n, width)| == width
    decreases width
  {
    if width == 1 {
      assert Pow10(1) == 10;
      if n >= 10 {
        assert |Dec(n / 10, 0)| >= 1;
      }
    } else {
      DecWidth(n / 10, width - 1);
      assert Pow10(width) == 10 * Pow10(width - 1);
    }
  }

  /** Two more digits. */
  lemma DecTwo(n: nat, k: nat, width: nat)
    requires k < 100 && width >= 1
    ensures Dec(100 * n + k, width + 2) == Dec(n, width) + Dec(k, 2)
  {
    var m := 100 * n + k;
    assert m / 10 / 10 == n && m / 10 % 10 == k / 10 && m % 10 == k % 10;
    assert Dec(m, width + 2) == Dec(m / 10, width + 1) + [DigitChar(m % 10)];
    assert Dec(m / 10, width + 1) == Dec(n, width) + [DigitChar(m / 10 % 10)];
    assert Dec(k, 2) == Dec(k / 10, 1) + [DigitChar(k % 10)];
    assert Dec(k / 10, 1) == [DigitChar(k / 10)];
  }

  // ---------- text order ----------

  /** Byte order of ASCII text. */
  predicate Less(a: string, b: string) {
    if b == "" then false
    else if a == "" then true
    else a[0] < b[0] || (a[0] == b[0] && Less(a[1..], b[1..]))
  }

  lemma {:induction false} LessConcat(a: string, b: string, c: string, d: string)
    requires |a| == |b|
    ensures Less(a + c, b + d) <==> Less(a, b) || (a == b && Less(c, d))
    decreases |a|
  {
    if a == "" {
      assert a + c == c && b + d == d;
    } else {
      assert (a + c)[1..] == a[1..] + c && (b + d)[1..] == b[1..] + d;
      LessConcat(a[1..], b[1..], c, d);
      assert a == [a[0]] + a[1..] && b == [b[0]] + b[1..];
    }
  }

  lemma {:induction false} NotLessItself(a: string)
    ensures !Less(a, a)
    decreases |a|
  {
    if a != "" {
      NotLessItself(a[1..]);
    }
  }

  /** Digits of one length compare as the numbers they spell. */
  lemma {:induction false} DigitsCompare(a: string, b: string)
    requires |a| == |b| && AllDigits(a) && AllDigits(b)
    ensures Less(a, b) <==> Value(a) < Value(b)
    ensures a == b <==> Value(a) == Value(b)
    decreases |a|
  {
    if a != "" {
      var n := |a| - 1;
      var x, y := a[..n], b[..n];
      DigitsCompare(x, y);
      assert a == x + [a[n]] && b == y + [b[n]];
      LessConcat(x, y, [a[n]], [b[n]]);
      LastDigit(a[n], b[n]);
    }
  }

  lemma LastDigit(p: char, q: char)
    ensures Less([p], [q]) <==> p < q
  {
    assert [p][1..] == "" && [q][1..] == "";
  }

  // ---------- stamps ----------

  const DAY_SECS := 86400

  function StampOf(t: Date, tod: nat): string
    requires t.y >= 0 && t.m >= 0 && t.d >= 0
  {
    Dec(t.y, 4) + Dec(t.m, 2) + Dec(t.d, 2) + "T" + Dec(tod / 3600, 2) + Dec(tod % 3600 / 60, 2) + Dec(tod % 60, 2) + "Z"
  }

  function DateAt(ms: int): Date {
    CivilFromDays(ms / 1000 / DAY_SECS)
  }

  /** A date from the epoch on is written with non-negative numbers. */
  lemma DateAtIsValid(ms: int)
    requires ms > 0
    ensures ValidDate(DateAt(ms)) && DateAt(ms).y >= 1970 && DateAt(ms) == DateAfter(ms / 1000 / DAY_SECS)
  {
    hide CivilFromDays;
    CivilIsCalendar(ms / 1000 / DAY_SECS);
    YearFloor(ms / 1000 / DAY_SECS);
  }

  lemma {:induction false} YearFloor(days: nat)
    ensures DateAfter(days).y >= 1970
  {
    if days > 0 {
      YearFloor(days - 1);
    }
  }

  /** The stamp of an instant; none for an unset clock. */
  function UtcStamp(ms: int): Option<string> {
    if ms <= 0 then None
    else
      DateAtIsValid(ms);
      Some(StampOf(DateAt(ms), ms / 1000 % DAY_SECS))
  }

  // ---------- order ----------

  function DateNumber(t: Date): nat
    requires t.y >= 0 && t.m >= 0 && t.d >= 0
  {
    10000 * t.y + 100 * t.m + t.d
  }

  function TimeNumber(tod: nat): nat {
    10000 * (tod / 3600) + 100 * (tod % 3600 / 60) + tod % 60
  }

  lemma DateIsOneNumber(t: Date)
    requires t.y >= 0 && 0 <= t.m < 100 && 0 <= t.d < 100
    ensures Dec(t.y, 4) + Dec(t.m, 2) + Dec(t.d, 2) == Dec(DateNumber(t), 8)
  {
    hide Dec;
    DecTwo(t.y, t.m, 4);
    DecTwo(100 * t.y + t.m, t.d, 6);
  }

  lemma TimeIsOneNumber(h: nat, mi: nat, s: nat)
    requires mi < 100 && s < 100
    ensures Dec(h, 2) + Dec(mi, 2) + Dec(s, 2) == Dec(10000 * h + 100 * mi + s, 6)
  {
    hide Dec;
    DecTwo(h, mi, 2);
    DecTwo(100 * h + mi, s, 4);
  }

  lemma Regroup(date: string, h: string, mi: string, s: string)
    ensures date + "T" + h + mi + s + "Z" == date + "T" + (h + mi + s) + "Z"
  {
    assert date + "T" + h + mi + s == date + "T" + (h + mi + s);
  }

  lemma TimeOrder(a: nat, b: nat)
    requires a < b < DAY_SECS
    ensures TimeNumber(a) < TimeNumber(b) < 1000000
  {
    var ha, hb := a / 3600, b / 3600;
    assert ha <= hb;
    assert a % 3600 / 60 <= 59 && a % 60 <= 59;
    if ha == hb {
      assert a % 3600 < b % 3600;
      assert a % 3600 / 60 <= b % 3600 / 60;
      assert a % 3600 % 60 == a % 60 && b % 3600 % 60 == b % 60;
    }
  }

  lemma {:induction false} DateOrder(a: nat, b: nat)
    requires a < b
    ensures ValidDate(DateAfter(a)) && ValidDate(DateAfter(b)) && DateAfter(a).y >= 1970 && DateAfter(b).y >= 1970
    ensures DateNumber(DateAfter(a)) < DateNumber(DateAfter(b))
    decreases b
  {
    hide CivilFromDays;
    CivilIsCalendar(b - 1);
    CivilIsCalendar(b);
    YearFloor(b - 1);
    assert DateNumber(DateAfter(b - 1)) < DateNumber(DateAfter(b));
    if a < b - 1 {
      DateOrder(a, b - 1);
    }
  }

  /** The stamp fits its sixteen characters. */
  predicate FourDigitYear(ms: int) {
    DateAt(ms).y <= 9999
  }

  function Secs(ms: int): int {
    ms / 1000
  }

  function DayNumber(ms: int): (n: nat)
    requires ms > 0
  {
    DateAtIsValid(ms);
    DateNumber(DateAt(ms))
  }

  function ClockNumber(ms: int): (n: nat)
    ensures n < 1000000
  {
    var tod := Secs(ms) % DAY_SECS;
    assert tod / 3600 < 24 && tod % 3600 / 60 < 60;
    TimeNumber(tod)
  }

  /** A stamp is the date and the time as two numbers. */
  function TwoNumbers(date: nat, clock: nat): string {
    Dec(date, 8) + "T" + Dec(clock, 6) + "Z"
  }

  lemma StampIsTwoNumbers(ms: int)
    requires ms > 0
    ensures UtcStamp(ms) == Some(TwoNumbers(DayNumber(ms), ClockNumber(ms)))
  {
    hide CivilFromDays, Dec;
    DateAtIsValid(ms);
    var t, tod := DateAt(ms), Secs(ms) % DAY_SECS;
    DateIsOneNumber(t);
    TimeIsOneNumber(tod / 3600, tod % 3600 / 60, tod % 60);
    Regroup(Dec(t.y, 4) + Dec(t.m, 2) + Dec(t.d, 2), Dec(tod / 3600, 2), Dec(tod % 3600 / 60, 2), Dec(tod % 60, 2));
  }

  lemma Pow10Values()
    ensures Pow10(6) == 1000000 && Pow10(8) == 100000000
  {
    assert Pow10(3) == 1000;
    assert Pow10(6) == 1000000;
  }

  lemma NumberWidths(ms: int)
    requires ms > 0
    ensures |Dec(ClockNumber(ms), 6)| == 6 && (|Dec(DayNumber(ms), 8)| == 8 <==> FourDigitYear(ms))
  {
    hide CivilFromDays, Dec, DateAt, TimeNumber;
    DateAtIsValid(ms);
    Pow10Values();
    DecWidth(ClockNumber(ms), 6);
    DecWidth(DayNumber(ms), 8);
  }

  /** Later second, greater pair of numbers. */
  lemma NumbersIncrease(a: int, b: int)
    requires 0 < a && 0 < b && Secs(a) < Secs(b)
    ensures DayNumber(a) < DayNumber(b) || (DayNumber(a) == DayNumber(b) && ClockNumber(a) < ClockNumber(b))
  {
    hide CivilFromDays;
    var da, db := Secs(a) / DAY_SECS, Secs(b) / DAY_SECS;
    var ta, tb := Secs(a) % DAY_SECS, Secs(b) % DAY_SECS;
    DateAtIsValid(a);
    DateAtIsValid(b);
    assert da < db || (da == db && ta < tb);
    if da < db {
      DateOrder(da, db);
    } else {
      TimeOrder(ta, tb);
    }
  }

  lemma StampTextOrder(x: nat, p: nat, y: nat, q: nat)
    requires |Dec(x, 8)| == |Dec(y, 8)| == 8 && |Dec(p, 6)| == |Dec(q, 6)| == 6
    requires x < y || (x == y && p < q)
    ensures Less(TwoNumbers(x, p), TwoNumbers(y, q))
  {
    hide Dec;
    var a, b, c, d := Dec(x, 8), Dec(y, 8), Dec(p, 6), Dec(q, 6);
    ValueOfDec(x, 8);
    ValueOfDec(y, 8);
    ValueOfDec(p, 6);
    ValueOfDec(q, 6);
    hide Value, Less;
    DigitsCompare(a, b);
    DigitsCompare(c, d);
    LessConcat(c, d, "Z", "Z");
    LessConcat("T", "T", c + "Z", d + "Z");
    LessConcat(a, b, "T" + (c + "Z"), "T" + (d + "Z"));
    assert a + "T" + c + "Z" == a + ("T" + (c + "Z"));
    assert b + "T" + d + "Z" == b + ("T" + (d + "Z"));
  }

  lemma StampsIncrease(a: int, b: int)
    requires 0 < a && 0 < b && Secs(a) < Secs(b) && FourDigitYear(a) && FourDigitYear(b)
    ensures Less(UtcStamp(a).value, UtcStamp(b).value)
  {
    hide CivilFromDays, Dec, Less, UtcStamp, TwoNumbers, DayNumber, ClockNumber, DateAt;
    StampIsTwoNumbers(a);
    StampIsTwoNumbers(b);
    NumberWidths(a);
    NumberWidths(b);
    NumbersIncrease(a, b);
    StampTextOrder(DayNumber(a), ClockNumber(a), DayNumber(b), ClockNumber(b));
  }

  lemma {:induction false} LessAsymmetric(a: string, b: string)
    requires Less(a, b)
    ensures !Less(b, a)
    decreases |a|
  {
    if a != "" && a[0] == b[0] {
      LessAsymmetric(a[1..], b[1..]);
    }
  }

  /** Up to the year 9999 stamps order as text the way their seconds do, so a stamp tells its second. */
  lemma StampOrder(a: int, b: int)
    requires a > 0 && b > 0 && FourDigitYear(a) && FourDigitYear(b)
    ensures Less(UtcStamp(a).value, UtcStamp(b).value) <==> Secs(a) < Secs(b)
    ensures UtcStamp(a) == UtcStamp(b) <==> Secs(a) == Secs(b)
  {
    hide CivilFromDays, StampOf, Less;
    NotLessItself(UtcStamp(a).value);
    if Secs(a) < Secs(b) {
      StampsIncrease(a, b);
    } else if Secs(b) < Secs(a) {
      StampsIncrease(b, a);
      LessAsymmetric(UtcStamp(b).value, UtcStamp(a).value);
    }
  }

  const YEAR_10000_MS := 253_402_300_800_000

  lemma YearTenThousand()
    ensures CivilFromDays(2932897) == Date(10000, 1, 1)
  {
    assert YearStart(399) + 306 == 146037;
    CivilSplit(2932897, 24, 399, 306);
    assert MonthIndex(306) == 10;
  }

  /** The stamps of four-digit years are those of the instants before the year 10000. */
  lemma FourDigitYears(ms: int)
    requires ms > 0
    ensures FourDigitYear(ms) <==> ms < YEAR_10000_MS
  {
    hide CivilFromDays;
    var days := ms / 1000 / DAY_SECS;
    DateAtIsValid(ms);
    YearTenThousand();
    CivilIsCalendar(2932897);
    if days < 2932897 {
      DateOrder(days, 2932897);
    } else if days > 2932897 {
      DateOrder(2932897, days);
    }
    assert ms < YEAR_10000_MS <==> days < 2932897;
  }
}
