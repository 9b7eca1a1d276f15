/**
  The conversion from days since 1970-01-01 to a date of the proleptic Gregorian calendar,
  against a day count that adds up years and months one by one.
 */
module CivilCalendar {

  datatype Date = Date(year: int, month: nat, day: nat)

  // ------------------------------------------------------------- the calendar itself

  predicate Leap(year: int) {
    year % 4 == 0 && (year % 100 != 0 || year % 400 == 0)
  }

  function MonthLength(year: int, month: nat): nat {
    if month == 2 then (if Leap(year) then 29 else 28)
    else if month == 4 || month == 6 || month == 9 || month == 11 then 30
    else 31
  }

  predicate ValidDate(d: Date) {
    1 <= d.month <= 12 && 1 <= d.day <= MonthLength(d.year, d.month)
  }

  function YearLength(year: int): nat {
    if Leap(year) then 366 else 365
  }

  /** Days from 1970-01-01 to January 1st of `year`, year by year. */
  function YearStart(year: int): int
    decreases if year < 1970 then 1970 - year else year - 1970
  {
    if year == 1970 then 0
    else if year > 1970 then YearStart(year - 1) + YearLength(year - 1)
    else YearStart(year + 1) - YearLength(year)
  }

  /** Days in the months of `year` before `month`. */
  function MonthStart(year: int, month: nat): nat {
    if month <= 1 then 0 else MonthStart(year, month - 1) + MonthLength(year, month - 1)
  }

  function DayNumber(d: Date): int {
    YearStart(d.year) + MonthStart(d.year, d.month) + d.day - 1
  }

  /** The next day of the calendar. */
  function Successor(d: Date): Date {
    if d.day < MonthLength(d.year, d.month) then Date(d.year, d.month, d.day + 1)
    else if d.month < 12 then Date(d.year, d.month + 1, 1)
    else Date(d.year + 1, 1, 1)
  }

  predicate Before(a: Date, b: Date) {
    a.year < b.year || (a.year == b.year && (a.month < b.month || (a.month == b.month && a.day < b.day)))
  }

  // ------------------------------------------------------------------ the conversion

  const EPOCH_SHIFT: int := 719468
  const ERA_DAYS: int := 146097

  /** Division of C++: toward zero. */
  function TruncDiv(a: int, b: int): int
    requires b > 0
  {
    if a >= 0 then a / b else -((-a) / b)
  }

  /** Subtraction in 32-bit unsigned arithmetic. */
  function Wrap32(x: int): nat {
    x % 0x1_0000_0000
  }

  predicate FitsInt32(x: int) {
    -0x8000_0000 <= x <= 0x7fff_ffff
  }

  function YearOfEra(doe: nat): int {
    (doe - doe / 1460 + doe / 36524 - doe / 146096) / 365
  }

  /** Days before year `yoe` of an era, years counted from March 1st. */
  function EraYearStart(yoe: int): int {
    365 * yoe + yoe / 4 - yoe / 100
  }

  /** Day `doy` of the year that begins on March 1st of `y`. */
  function MarchDate(y: int, doy: int): Date
    requires 0 <= doy <= 365
  {
    var mp := (5 * doy + 2) / 153;
    var d := doy - (153 * mp + 2) / 5 + 1;
    MonthRange(doy);
    var m := Wrap32(mp + if mp < 10 then 3 else Wrap32(-9));
    Date(y + if m <= 2 then 1 else 0, m, d)
  }

  function CivilFromDays(days: int): Date
    requires FitsInt32(days) && FitsInt32(days + EPOCH_SHIFT)
  {
    var z := days + EPOCH_SHIFT;
    var era := TruncDiv(if z >= 0 then z else z - 146096, ERA_DAYS);
    EraRange(z);
    var doe := z - era * ERA_DAYS;
    var yoe := YearOfEra(doe);
    YearOfEraRange(doe);
    MarchDate(yoe + era * 400, doe - EraYearStart(yoe))
  }

  /** The adjusted truncating division is the floor. */
  lemma EraRange(z: int)
    ensures var era := TruncDiv(if z >= 0 then z else z - 146096, ERA_DAYS);
      era == z / ERA_DAYS && 0 <= z - era * ERA_DAYS < ERA_DAYS
  {
  }

  /** Within century `c` of an era, `r` days after its first March 1st. */
  lemma YearOfCentury(c: nat, r: nat)
    requires c <= 3 && r < 36524
    ensures var y := (r - (24 * c + r) / 1460) / 365;
      0 <= y <= 99 && 365 * y + y / 4 <= r < 365 * (y + 1) + (y + 1) / 4 - (if y == 99 then 1 else 0)
  {
  }

  lemma CenturyOfEra(c: nat, r: nat)
    requires c <= 3 && r < 36524
    ensures YearOfEra(36524 * c + r) == 100 * c + (r - (24 * c + r) / 1460) / 365
  {
    var doe := 36524 * c + r;
    assert doe / 36524 == c && doe / 146096 == 0;
    assert doe / 1460 == 25 * c + (24 * c + r) / 1460;
  }

  lemma EraYearStartOf(c: nat, y: nat)
    requires c <= 3 && y <= 100
    ensures EraYearStart(100 * c + y) == 36524 * c + 365 * y + y / 4 - (if y == 100 then 1 else 0)
  {
  }

  predicate InYear(doe: nat, yoe: int) {
    0 <= yoe <= 399 && EraYearStart(yoe) <= doe < EraYearStart(yoe + 1) + if yoe == 399 then 1 else 0
  }

  lemma CenturyBrackets(c: nat, r: nat)
    requires c <= 3 && r < 36524
    ensures InYear(36524 * c + r, YearOfEra(36524 * c + r))
  {
    YearOfCentury(c, r);
    CenturyOfEra(c, r);
    hide YearOfEra, EraYearStart;
    var y := (r - (24 * c + r) / 1460) / 365;
    EraYearStartOf(c, y);
    EraYearStartOf(c, y + 1);
    assert 100 * c + (y + 1) == (100 * c + y) + 1;
  }

  lemma LastDayOfEra()
    ensures InYear(146096, YearOfEra(146096))
  {
    assert YearOfEra(146096) == 399;
  }

  /** The year found is the one whose days contain `doe`. */
  lemma YearOfEraBrackets(doe: nat)
    requires doe < ERA_DAYS
    ensures InYear(doe, YearOfEra(doe))
  {
    hide InYear, YearOfEra;
    if doe == 146096 {
      LastDayOfEra();
    } else {
      CenturyBrackets(doe / 36524, doe % 36524);
      assert 36524 * (doe / 36524) + doe % 36524 == doe;
    }
  }

  lemma YearOfEraRange(doe: nat)
    requires doe < ERA_DAYS
    ensures 0 <= YearOfEra(doe) <= 399
    ensures 0 <= doe - EraYearStart(YearOfEra(doe)) < YearLength(YearOfEra(doe) + 1)
  {
    YearOfEraBrackets(doe);
    var y := YearOfEra(doe);
    hide YearOfEra;
    EraYearLength(y);
  }

  lemma EraYearLength(y: nat)
    requires y <= 399
    ensures EraYearStart(y + 1) - EraYearStart(y) == YearLength(y + 1) - if y == 399 then 1 else 0
  {
    FloorSteps(y + 1);
    Multiples(y + 1);
    if y == 399 { Unique400(y + 1, 1, 0); } else { Unique400(y + 1, 0, y + 1); }
  }

  lemma MonthRange(doy: int)
    requires 0 <= doy <= 365
    ensures 0 <= (5 * doy + 2) / 153 <= 11
    ensures 1 <= doy - (153 * ((5 * doy + 2) / 153) + 2) / 5 + 1 <= 31
  {
  }

  // ------------------------------------------------------- both directions agree

  function LeapsBefore(year: int): int {
    (year - 1) / 4 - (year - 1) / 100 + (year - 1) / 400
  }

  lemma Unique4(x: int, q: int, r: int)
    requires x == 4 * q + r && 0 <= r < 4
    ensures x / 4 == q && x % 4 == r
  {
  }

  lemma Unique100(x: int, q: int, r: int)
    requires x == 100 * q + r && 0 <= r < 100
    ensures x / 100 == q && x % 100 == r
  {
  }

  lemma Unique400(x: int, q: int, r: int)
    requires x == 400 * q + r && 0 <= r < 400
    ensures x / 400 == q && x % 400 == r
  {
  }

  /** What dividing the year before leaves. */
  lemma FloorSteps(x: int)
    ensures x / 4 - (x - 1) / 4 == if x % 4 == 0 then 1 else 0
    ensures x / 100 - (x - 1) / 100 == if x % 100 == 0 then 1 else 0
    ensures x / 400 - (x - 1) / 400 == if x % 400 == 0 then 1 else 0
  {
    if x % 4 == 0 { Unique4(x - 1, x / 4 - 1, 3); } else { Unique4(x - 1, x / 4, x % 4 - 1); }
    if x % 100 == 0 { Unique100(x - 1, x / 100 - 1, 99); } else { Unique100(x - 1, x / 100, x % 100 - 1); }
    if x % 400 == 0 { Unique400(x - 1, x / 400 - 1, 399); } else { Unique400(x - 1, x / 400, x % 400 - 1); }
  }

  lemma Multiples(x: int)
    ensures x % 400 == 0 ==> x % 100 == 0
    ensures x % 100 == 0 ==> x % 4 == 0
  {
    if x % 400 == 0 { Unique100(x, 4 * (x / 400), 0); }
    if x % 100 == 0 { Unique4(x, 25 * (x / 100), 0); }
  }

  lemma LeapsStep(year: int)
    ensures LeapsBefore(year + 1) - LeapsBefore(year) == if Leap(year) then 1 else 0
  {
    FloorSteps(year);
    Multiples(year);
  }

  /** The years added up one by one, in closed form. */
  lemma {:induction false} YearStartClosed(year: int)
    ensures YearStart(year) == 365 * (year - 1970) + LeapsBefore(year) - 477
    decreases if year < 1970 then 1970 - year else year - 1970
  {
    if year == 1970 {
      assert LeapsBefore(1970) == 477;
    } else {
      hide Leap, LeapsBefore;
      if year > 1970 {
        YearStartClosed(year - 1);
        LeapsStep(year - 1);
      } else {
        YearStartClosed(year + 1);
        LeapsStep(year);
      }
    }
  }

  lemma MonthsBefore(year: int, month: nat)
    requires 1 <= month <= 12
    ensures MonthStart(year, month) ==
      if month == 1 then 0 else if month == 2 then 31
      else (if Leap(year) then 60 else 59) + (153 * (month - 3) + 2) / 5
  {
    hide Leap;
    assert MonthStart(year, 2) == 31;
    assert MonthStart(year, 3) == 31 + MonthLength(year, 2);
    assert MonthStart(year, 5) == MonthStart(year, 3) + 61;
    assert MonthStart(year, 7) == MonthStart(year, 5) + 61;
    assert MonthStart(year, 9) == MonthStart(year, 7) + 62;
    assert MonthStart(year, 11) == MonthStart(year, 9) + 61;
  }

  /** March 1st of year `yoe` of era `era`. */
  lemma MarchStart(era: int, yoe: nat)
    requires yoe <= 399
    ensures var year := yoe + era * 400;
      && YearStart(year) + (if Leap(year) then 60 else 59) == ERA_DAYS * era + EraYearStart(yoe) - EPOCH_SHIFT
      && YearStart(year + 1) == YearStart(year) + YearLength(year)
      && Leap(year + 1) == Leap(yoe + 1)
  {
    var year := yoe + era * 400;
    YearStartClosed(year);
    YearStartClosed(year + 1);
    LeapsStep(year);
    hide YearStart, LeapsBefore;
    assert LeapsBefore(year + 1) == 97 * era + yoe / 4 - yoe / 100 by { LeapsOfEra(era, yoe); }
    LeapShift(era, yoe + 1);
  }

  /** Whole eras add whole quotients and change no remainder. */
  lemma EraShift(era: int, y: int)
    ensures (y + era * 400) / 4 == 100 * era + y / 4 && (y + era * 400) % 4 == y % 4
    ensures (y + era * 400) / 100 == 4 * era + y / 100 && (y + era * 400) % 100 == y % 100
    ensures (y + era * 400) / 400 == era + y / 400 && (y + era * 400) % 400 == y % 400
  {
    var x := y + era * 400;
    Unique4(x, 100 * era + y / 4, y % 4);
    Unique100(x, 4 * era + y / 100, y % 100);
    Unique400(x, era + y / 400, y % 400);
  }

  lemma LeapsOfEra(era: int, yoe: nat)
    requires yoe <= 399
    ensures LeapsBefore(yoe + era * 400 + 1) == 97 * era + yoe / 4 - yoe / 100
  {
    EraShift(era, yoe);
  }

  lemma LeapShift(era: int, y: int)
    ensures Leap(y + era * 400) == Leap(y)
  {
    EraShift(era, y);
  }

  /** A day of a year that begins on March 1st, as month and day. */
  lemma MonthOfYearDay(year: int, doy: nat)
    requires doy < YearLength(year + 1)
    ensures var mp := (5 * doy + 2) / 153;
      var d := doy - (153 * mp + 2) / 5 + 1;
      && 0 <= mp <= 11 && 1 <= d
      && d <= (if mp < 10 then MonthLength(year, mp + 3) else MonthLength(year + 1, mp - 9))
  {
    hide Leap;
    MonthRange(doy);
  }

  lemma YearStep(year: int)
    ensures YearStart(year + 1) == YearStart(year) + YearLength(year)
  {
    YearStartClosed(year);
    YearStartClosed(year + 1);
    LeapsStep(year);
    hide Leap, LeapsBefore, YearStart;
  }

  lemma MarchDateShape(y: int, doy: nat)
    requires doy <= 365
    ensures var mp := (5 * doy + 2) / 153;
      var d := doy - (153 * mp + 2) / 5 + 1;
      0 <= mp <= 11 && 1 <= d && MarchDate(y, doy) == if mp < 10 then Date(y, mp + 3, d) else Date(y + 1, mp - 9, d)
  {
    MonthRange(doy);
  }

  lemma MarchDateIs(year: int, doy: nat)
    requires doy < YearLength(year + 1)
    ensures var r := MarchDate(year, doy);
      ValidDate(r) && DayNumber(r) == YearStart(year) + (if Leap(year) then 60 else 59) + doy
  {
    hide MarchDate, Leap, YearStart, MonthStart, MonthLength;
    MonthOfYearDay(year, doy);
    MarchDateShape(year, doy);
    YearStep(year);
    var mp := (5 * doy + 2) / 153;
    if mp < 10 {
      MonthsBefore(year, mp + 3);
    } else {
      MonthsBefore(year + 1, mp - 9);
    }
  }

  /** The era, the year of the era and the day of that year behind a date. */
  lemma CivilParts(days: int) returns (era: int, yoe: nat, doy: nat)
    requires FitsInt32(days) && FitsInt32(days + EPOCH_SHIFT)
    ensures yoe <= 399 && doy < YearLength(yoe + 1)
    ensures days == ERA_DAYS * era + EraYearStart(yoe) + doy - EPOCH_SHIFT
    ensures CivilFromDays(days) == MarchDate(yoe + era * 400, doy)
  {
    var z := days + EPOCH_SHIFT;
    EraRange(z);
    hide MarchDate, YearOfEra, EraYearStart, Leap;
    era := TruncDiv(if z >= 0 then z else z - 146096, ERA_DAYS);
    hide TruncDiv;
    var doe := z - era * ERA_DAYS;
    YearOfEraRange(doe);
    yoe := YearOfEra(doe);
    doy := doe - EraYearStart(yoe);
  }

  /** Every day maps to a valid date whose day number it is. */
  lemma CivilFromDaysInverts(days: int)
    requires FitsInt32(days) && FitsInt32(days + EPOCH_SHIFT)
    ensures ValidDate(CivilFromDays(days)) && DayNumber(CivilFromDays(days)) == days
  {
    hide CivilFromDays, ValidDate, DayNumber, YearStart, MarchDate, EraYearStart, Leap;
    var era, yoe, doy := CivilParts(days);
    MarchStart(era, yoe);
    MarchDateIs(yoe + era * 400, doy);
  }

  lemma {:induction false} YearsAscend(a: int, b: int)
    requires a < b
    ensures YearStart(a) + YearLength(a) <= YearStart(b)
    decreases b - a
  {
    YearStartClosed(a);
    YearStartClosed(a + 1);
    LeapsStep(a);
    hide YearStart, LeapsBefore, Leap;
    if a + 1 < b { YearsAscend(a + 1, b); }
  }

  lemma {:induction false} MonthsAscend(year: int, a: nat, b: nat)
    requires 1 <= a < b <= 13
    ensures MonthStart(year, a) + MonthLength(year, a) <= MonthStart(year, b)
    decreases b
  {
    hide Leap;
    if a + 1 < b { MonthsAscend(year, a, b - 1); }
  }

  lemma YearIsItsMonths(year: int)
    ensures MonthStart(year, 13) == YearLength(year)
  {
    MonthsBefore(year, 12);
  }

  /** The day count is strictly increasing along the calendar. */
  lemma DayNumberIncreases(a: Date, b: Date)
    requires ValidDate(a) && ValidDate(b) && Before(a, b)
    ensures DayNumber(a) < DayNumber(b)
  {
    hide YearStart, MonthStart, MonthLength, Leap;
    if a.year < b.year {
      YearsAscend(a.year, b.year);
      YearIsItsMonths(a.year);
      MonthsAscend(a.year, a.month, 13);
    } else if a.month < b.month {
      MonthsAscend(a.year, a.month, b.month);
    }
  }

  /** The conversion is the only inverse: each valid date comes back from its day number. */
  lemma DayNumberInverts(d: Date)
    requires ValidDate(d) && FitsInt32(DayNumber(d)) && FitsInt32(DayNumber(d) + EPOCH_SHIFT)
    ensures CivilFromDays(DayNumber(d)) == d
  {
    var r := CivilFromDays(DayNumber(d));
    CivilFromDaysInverts(DayNumber(d));
    hide CivilFromDays, DayNumber, ValidDate;
    if Before(r, d) { DayNumberIncreases(r, d); }
    if Before(d, r) { DayNumberIncreases(d, r); }
  }

  /** Later days are later dates, before 1970 as after. */
  lemma CivilFromDaysIncreases(a: int, b: int)
    requires a < b && FitsInt32(a) && FitsInt32(b + EPOCH_SHIFT)
    ensures Before(CivilFromDays(a), CivilFromDays(b))
  {
    CivilFromDaysInverts(a);
    CivilFromDaysInverts(b);
    var x, y := CivilFromDays(a), CivilFromDays(b);
    hide CivilFromDays, DayNumber, ValidDate;
    if Before(y, x) { DayNumberIncreases(y, x); }
  }

  lemma SuccessorIsNextDay(d: Date)
    requires ValidDate(d)
    ensures ValidDate(Successor(d)) && DayNumber(Successor(d)) == DayNumber(d) + 1
  {
    hide Leap;
    if d.day == MonthLength(d.year, d.month) && d.month == 12 {
      YearIsItsMonths(d.year);
      YearStartClosed(d.year);
      YearStartClosed(d.year + 1);
      LeapsStep(d.year);
      hide YearStart, LeapsBefore;
    }
  }

  /** Day `d + 1` is the calendar day after day `d`. */
  lemma NextDayIsSuccessor(days: int)
    requires FitsInt32(days) && FitsInt32(days + 1 + EPOCH_SHIFT)
    ensures CivilFromDays(days + 1) == Successor(CivilFromDays(days))
  {
    CivilFromDaysInverts(days);
    var d := CivilFromDays(days);
    hide CivilFromDays;
    SuccessorIsNextDay(d);
    DayNumberInverts(Successor(d));
  }

  lemma EpochIsDayZero()
    ensures CivilFromDays(0) == Date(1970, 1, 1)
  {
    DayNumberInverts(Date(1970, 1, 1));
  }
}
