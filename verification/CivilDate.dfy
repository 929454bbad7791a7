/** The UTC conversion of `data_source.rs`. */
module CivilDate {
  /* The hand-rolled conversion against the calendar of RFC 3339 (section 5.7 and appendix C) counted
  day by day. */

  // ---------- the calendar ----------

  datatype Date = Date(y: int, m: int, d: int)

  predicate Leap(y: int) {
    y % 4 == 0 && (y % 100 != 0 || y % 400 == 0)
  }

  function MonthDays(y: int, m: int): int {
    if m == 2 then (if Leap(y) then 29 else 28)
    else if m == 4 || m == 6 || m == 9 || m == 11 then 30
    else 31
  }

  predicate ValidDate(t: Date) {
    1 <= t.m <= 12 && 1 <= t.d <= MonthDays(t.y, t.m)
  }

  function Tomorrow(t: Date): Date {
    if t.d < MonthDays(t.y, t.m) then Date(t.y, t.m, t.d + 1)
    else if t.m < 12 then Date(t.y, t.m + 1, 1)
    else Date(t.y + 1, 1, 1)
  }

  /** The date `days` days after 1 January 1970. */
  function DateAfter(days: nat): Date {
    if days == 0 then Date(1970, 1, 1) else Tomorrow(DateAfter(days - 1))
  }

  // ---------- the conversion ----------

  /** A day split the way the conversion splits it: 400-year eras of years that start in March. */
  function YearOfEra(doe: int): int {
    (doe - doe / 1460 + doe / 36524 - doe / 146096) / 365
  }

  function MonthIndex(doy: int): int {
    (5 * doy + 2) / 153
  }

  function FromMarch(year: int, doy: int): Date {
    var mp := MonthIndex(doy);
    var d := doy - (153 * mp + 2) / 5 + 1;
    var m := if mp < 10 then mp + 3 else mp - 9;
    Date(if m <= 2 then year + 1 else year, m, d)
  }

  function CivilFromDays(days: int): Date {
    var z := days + 719468;
    var era := z / 146097;
    var doe := z % 146097;
    var yoe := YearOfEra(doe);
    FromMarch(yoe + era * 400, doe - (365 * yoe + yoe / 4 - yoe / 100))
  }

  // ---------- years that start in March ----------

  /** Days of an era before its year `yoe`. */
  function YearStart(yoe: int): int {
    365 * yoe + yoe / 4 - yoe / 100
  }

  /** The year of era found is the one whose days contain the day of era. */
  lemma YearContainsDay(doe: int)
    requires 0 <= doe < 146097
    ensures 0 <= YearOfEra(doe) < 400
    ensures YearStart(YearOfEra(doe)) <= doe
    ensures YearOfEra(doe) < 399 ==> doe < YearStart(YearOfEra(doe) + 1)
  {
    if doe == 146096 {
      assert YearOfEra(doe) == 399;
    } else {
      var cent := doe / 36524;
      var n := doe % 36524;
      var quad := n / 1461;
      var r := n % 1461;
      YearSplit(cent, quad, r);
    }
  }

  lemma YearSplit(cent: int, quad: int, r: int)
    requires 0 <= cent < 4 && 0 <= quad < 25 && 0 <= r < 1461 && 1461 * quad + r < 36524
    ensures var doe := 36524 * cent + 1461 * quad + r;
            var yq := if r == 1460 then 3 else r / 365;
            && YearOfEra(doe) == 100 * cent + 4 * quad + yq
            && YearStart(YearOfEra(doe)) == 36524 * cent + 1461 * quad + 365 * yq
            && (YearOfEra(doe) < 399 ==> doe < YearStart(YearOfEra(doe) + 1))
  {
    var doe := 36524 * cent + 1461 * quad + r;
    var yq := if r == 1460 then 3 else r / 365;
    var over := if 24 * cent + quad + r >= 1460 then 1 else 0;
    assert doe == 1460 * (25 * cent + quad) + (24 * cent + quad + r);
    assert doe / 1460 == 25 * cent + quad + over;
    assert doe / 36524 == cent;
    assert doe / 146096 == 0;
    assert doe - doe / 1460 + doe / 36524 == 365 * (100 * cent + 4 * quad) + (r - over);
    assert (r - over) / 365 == yq;
    var yoe := 100 * cent + 4 * quad + yq;
    assert YearOfEra(doe) == yoe;
    assert yoe / 4 == 25 * cent + quad && yoe / 100 == cent;
    if yoe < 399 {
      assert (yoe + 1) / 4 == 25 * cent + quad + (if yq == 3 then 1 else 0);
      assert (yoe + 1) / 100 == cent + (if quad == 24 && yq == 3 then 1 else 0);
    }
  }

  lemma YearUnique(doe: int, yoe: int)
    requires 0 <= doe < 146097 && 0 <= yoe < 400
    requires YearStart(yoe) <= doe && (yoe < 399 ==> doe < YearStart(yoe + 1))
    ensures YearOfEra(doe) == yoe
  {
    YearContainsDay(doe);
    var found := YearOfEra(doe);
    if found < yoe {
      StartsGrow(found + 1, yoe);
    } else if yoe < found {
      StartsGrow(yoe + 1, found);
    }
  }

  lemma StartsGrow(a: int, b: int)
    requires 0 <= a <= b
    ensures YearStart(a) <= YearStart(b)
  {
  }

  /** A March year has its leap day at its end, in February of the next civil year. */
  function MarchYearDays(year: int): int {
    if Leap(year + 1) then 366 else 365
  }

  lemma ShiftMod4(x: int, t: int)
    ensures (x + 4 * t) % 4 == x % 4
  {
  }

  lemma ShiftMod100(x: int, t: int)
    ensures (x + 100 * t) % 100 == x % 100
  {
  }

  lemma ShiftMod400(x: int, t: int)
    ensures (x + 400 * t) % 400 == x % 400
  {
  }

  /** Leap years repeat with the era. */
  lemma LeapByEra(era: int, y: int)
    ensures Leap(y + era * 400) <==> Leap(y)
  {
    ShiftMod4(y, era * 100);
    ShiftMod100(y, era * 4);
    ShiftMod400(y, era);
  }

  lemma YearLength(yoe: int)
    requires 0 <= yoe < 400
    ensures (if yoe == 399 then 146097 else YearStart(yoe + 1)) - YearStart(yoe) == MarchYearDays(yoe)
  {
  }

  lemma MarchYearLength(era: int, yoe: int)
    requires 0 <= yoe < 400
    ensures (if yoe == 399 then 146097 else YearStart(yoe + 1)) - YearStart(yoe) == MarchYearDays(yoe + era * 400)
  {
    YearLength(yoe);
    LeapByEra(era, yoe + 1);
    assert yoe + 1 + era * 400 == yoe + era * 400 + 1;
  }

  // ---------- months ----------

  function MonthStart(mp: int): int {
    (153 * mp + 2) / 5
  }

  /** Within a March year, the next day is tomorrow. */
  lemma NextDayInYear(year: int, doy: int)
    requires 0 <= doy && doy + 1 < MarchYearDays(year)
    ensures ValidDate(FromMarch(year, doy))
    ensures FromMarch(year, doy + 1) == Tomorrow(FromMarch(year, doy))
  {
    var mp := MonthIndex(doy);
    assert 0 <= mp <= 11;
    assert mp == 0 || mp == 1 || mp == 2 || mp == 3 || mp == 4 || mp == 5 || mp == 6 || mp == 7 || mp == 8 || mp == 9 || mp == 10 || mp == 11;
  }

  lemma LastDayOfYear(year: int)
    ensures ValidDate(FromMarch(year, MarchYearDays(year) - 1))
    ensures FromMarch(year + 1, 0) == Tomorrow(FromMarch(year, MarchYearDays(year) - 1))
  {
    assert MonthIndex(364) == 11 && MonthIndex(365) == 11 && MonthIndex(0) == 0;
  }

  // ---------- the theorem ----------

  function EraOf(days: int): int {
    (days + 719468) / 146097
  }

  function DayOfEra(days: int): int {
    (days + 719468) % 146097
  }

  lemma CivilSplit(days: int, era: int, yoe: int, doy: int)
    requires days + 719468 == era * 146097 + YearStart(yoe) + doy
    requires 0 <= yoe < 400 && 0 <= doy < MarchYearDays(yoe + era * 400)
    ensures CivilFromDays(days) == FromMarch(yoe + era * 400, doy)
  {
    var doe := YearStart(yoe) + doy;
    MarchYearLength(era, yoe);
    if yoe < 399 {
      StartsGrow(yoe + 1, 399);
    }
    StartsGrow(0, yoe);
    assert 0 <= doe < 146097;
    assert EraOf(days) == era && DayOfEra(days) == doe by {
      DivUnique(days + 719468, era, doe);
    }
    YearUnique(doe, yoe);
  }

  lemma DivUnique(z: int, q: int, r: int)
    requires z == q * 146097 + r && 0 <= r < 146097
    ensures z / 146097 == q && z % 146097 == r
  {
  }

  /** Every day is a day of a March year of an era. */
  lemma SplitDay(days: int) returns (era: int, yoe: int, doy: int)
    ensures days + 719468 == era * 146097 + YearStart(yoe) + doy
    ensures 0 <= yoe < 400 && 0 <= doy < MarchYearDays(yoe + era * 400)
  {
    era := EraOf(days);
    var doe := DayOfEra(days);
    YearContainsDay(doe);
    yoe := YearOfEra(doe);
    doy := doe - YearStart(yoe);
    MarchYearLength(era, yoe);
  }

  lemma StepInYear(days: int, era: int, yoe: int, doy: int)
    requires days + 719468 == era * 146097 + YearStart(yoe) + doy
    requires 0 <= yoe < 400 && 0 <= doy && doy + 1 < MarchYearDays(yoe + era * 400)
    ensures ValidDate(CivilFromDays(days)) && CivilFromDays(days + 1) == Tomorrow(CivilFromDays(days))
  {
    hide CivilFromDays, FromMarch;
    CivilSplit(days, era, yoe, doy);
    CivilSplit(days + 1, era, yoe, doy + 1);
    NextDayInYear(yoe + era * 400, doy);
  }

  lemma StepOverYear(days: int, era: int, yoe: int, era': int, yoe': int)
    requires 0 <= yoe < 400 && 0 <= yoe' < 400 && yoe' + era' * 400 == yoe + era * 400 + 1
    requires days + 719468 == era * 146097 + YearStart(yoe) + MarchYearDays(yoe + era * 400) - 1
    requires days + 1 + 719468 == era' * 146097 + YearStart(yoe')
    ensures ValidDate(CivilFromDays(days)) && CivilFromDays(days + 1) == Tomorrow(CivilFromDays(days))
  {
    hide CivilFromDays, FromMarch;
    CivilSplit(days, era, yoe, MarchYearDays(yoe + era * 400) - 1);
    CivilSplit(days + 1, era', yoe', 0);
    LastDayOfYear(yoe + era * 400);
  }

  /** The conversion moves one calendar day with every day, for every day number. */
  lemma CivilStep(days: int)
    ensures ValidDate(CivilFromDays(days)) && CivilFromDays(days + 1) == Tomorrow(CivilFromDays(days))
  {
    var era, yoe, doy := SplitDay(days);
    MarchYearLength(era, yoe);
    if doy + 1 < MarchYearDays(yoe + era * 400) {
      StepInYear(days, era, yoe, doy);
    } else if yoe < 399 {
      StepOverYear(days, era, yoe, era, yoe + 1);
    } else {
      StepOverYear(days, era, yoe, era + 1, 0);
    }
  }

  lemma Epoch()
    ensures CivilFromDays(0) == Date(1970, 1, 1)
  {
    assert YearStart(369) + 306 == 135080;
    CivilSplit(0, 4, 369, 306);
    assert MonthIndex(306) == 10;
  }

  /** The conversion counts the calendar: day `days` is the valid date `days` days after the epoch. */
  lemma {:induction false} CivilIsCalendar(days: nat)
    ensures CivilFromDays(days) == DateAfter(days) && ValidDate(DateAfter(days))
  {
    hide CivilFromDays;
    CivilStep(days);
    if days == 0 {
      Epoch();
    } else {
      CivilIsCalendar(days - 1);
      CivilStep(days - 1);
    }
  }
}
