/**
  Printing of timestamps at four resolutions and of dates, against one description of the text on
  nanoseconds, and a reader that takes the text back to the value.
 */
module TimestampText {
  import opened Basics
  import opened DecimalDigits
  import opened CivilCalendar

  const DAY: int := 86400
  const NANO: int := 1_000_000_000

  // ------------------------------------------------------------------ pieces of text

  /** A year with at least four characters, its sign counted. */
  function YearText(year: int): string {
    if year < 0 then "-" + Pad(Digits(-year), 3) else Pad(Digits(year), 4)
  }

  function Two(n: nat): string { Pad(Digits(n), 2) }

  function DateText(d: Date): string {
    YearText(d.year) + "-" + Two(d.month) + "-" + Two(d.day)
  }

  /** The time of day `second` seconds after midnight. */
  function TimeText(second: nat): string {
    Two(second / 3600) + ":" + Two(second % 3600 / 60) + ":" + Two(second % 60)
  }

  function Trim(s: string): string {
    if s != [] && s[|s| - 1] == '0' then Trim(s[..|s| - 1]) else s
  }

  /** A point and the nine digits of `nanos` without trailing zeros; nothing for a whole second. */
  function FractionText(nanos: nat): string {
    if nanos == 0 then "" else "." + Trim(LowDigits(nanos, 9))
  }

  predicate PrintableDay(days: int) {
    FitsInt32(days) && FitsInt32(days + EPOCH_SHIFT)
  }

  /** The text for `n` nanoseconds since 1970-01-01 00:00:00, before or after. */
  function TextOfNanos(n: int): string
    requires PrintableDay(n / NANO / DAY)
  {
    var seconds := n / NANO;
    DateText(CivilFromDays(seconds / DAY)) + " " + TimeText(seconds % DAY) + FractionText(n % NANO)
  }

  // ------------------------------------------------------------------ reading the text

  function IndexOf(t: string, c: char): (i: nat)
    ensures i <= |t| && (i < |t| ==> t[i] == c) && forall j :: 0 <= j < i ==> t[j] != c
  {
    if t == [] || t[0] == c then 0 else 1 + IndexOf(t[1..], c)
  }

  function ReadYear(t: string): Option<int> {
    var negative := t != [] && t[0] == '-';
    var body := if negative then t[1..] else t;
    if body == [] || !AllDigits(body) then None
    else
      var y: int := Read(body);
      Some(if negative then -y else y)
  }

  /** The day number of a date that exists. */
  function ReadDate(t: string): Option<int> {
    var n := |t|;
    if n < 7 || t[n - 6] != '-' || t[n - 3] != '-' then None
    else if !AllDigits(t[n - 5..n - 3]) || !AllDigits(t[n - 2..]) then None
    else
      var year := ReadYear(t[..n - 6]);
      if year.None? then None
      else
        var d := Date(year.value, Read(t[n - 5..n - 3]), Read(t[n - 2..]));
        if ValidDate(d) then Some(DayNumber(d)) else None
  }

  function ReadTime(t: string): Option<nat> {
    if |t| != 8 || t[2] != ':' || t[5] != ':' then None
    else if !AllDigits(t[..2]) || !AllDigits(t[3..5]) || !AllDigits(t[6..]) then None
    else
      var h, m, s := Read(t[..2]), Read(t[3..5]), Read(t[6..]);
      if h < 24 && m < 60 && s < 60 then Some(h * 3600 + m * 60 + s) else None
  }

  function ReadFraction(t: string): Option<nat> {
    if t == [] then Some(0)
    else if t[0] != '.' || |t| == 1 || |t| > 10 || !AllDigits(t[1..]) then None
    else Some(Read(t[1..] + Zeros(10 - |t|)))
  }

  /** Nanoseconds since 1970-01-01 00:00:00, or nothing when a field is out of range. */
  function ReadStamp(t: string): Option<int> {
    var p := IndexOf(t, ' ');
    if |t| < p + 9 then None
    else
      var date, time, fraction := ReadDate(t[..p]), ReadTime(t[p + 1..p + 9]), ReadFraction(t[p + 9..]);
      if date.None? || time.None? || fraction.None? then None
      else Some((date.value * DAY + time.value) * NANO + fraction.value)
  }

  // --------------------------------------------------------------- the text reads back

  lemma YearReads(year: int)
    ensures |YearText(year)| >= 1 && ReadYear(YearText(year)) == Some(year)
    ensures forall i :: 0 <= i < |YearText(year)| ==> YearText(year)[i] != ' '
  {
    hide Digits, Pad, Read;
    if year < 0 {
      PadReads(-year, 3);
      var body := Pad(Digits(-year), 3);
      assert YearText(year)[1..] == body;
    } else {
      PadReads(year, 4);
    }
  }

  lemma TwoReads(n: nat)
    requires n < 100
    ensures |Two(n)| == 2 && AllDigits(Two(n)) && Read(Two(n)) == n
  {
    assert Pow10(2) == 100 by { assert Pow10(1) == 10; }
    PadReads(n, 2);
  }

  lemma DateReads(d: Date)
    requires ValidDate(d)
    ensures ReadDate(DateText(d)) == Some(DayNumber(d))
    ensures forall i :: 0 <= i < |DateText(d)| ==> DateText(d)[i] != ' '
  {
    hide YearText, Two, ReadYear, DayNumber, Leap, Read;
    YearReads(d.year);
    TwoReads(d.month);
    TwoReads(d.day);
    var y, m, k := YearText(d.year), Two(d.month), Two(d.day);
    var t := DateText(d);
    var n := |t|;
    assert t == y + "-" + m + "-" + k;
    assert t[..n - 6] == y && t[n - 5..n - 3] == m && t[n - 2..] == k;
  }

  lemma TimeReads(second: nat)
    requires second < DAY
    ensures |TimeText(second)| == 8 && ReadTime(TimeText(second)) == Some(second)
  {
    hide Two, Read;
    var h, m, s := second / 3600, second % 3600 / 60, second % 60;
    TimeParts(second);
    TwoReads(h);
    TwoReads(m);
    TwoReads(s);
    var t := TimeText(second);
    assert t[..2] == Two(h) && t[3..5] == Two(m) && t[6..] == Two(s);
  }

  lemma TimeParts(second: nat)
    requires second < DAY
    ensures second / 3600 < 24 && 0 <= second % 3600 / 60 < 60 && second % 60 < 60
    ensures second / 3600 * 3600 + second % 3600 / 60 * 60 + second % 60 == second
  {
    var r := second % 3600;
    assert second == 3600 * (second / 3600) + r;
    assert r == 60 * (r / 60) + r % 60;
    assert second % 60 == r % 60 by {
      assert second == 60 * (60 * (second / 3600) + r / 60) + r % 60;
      Unique60(second, 60 * (second / 3600) + r / 60, r % 60);
    }
  }

  lemma Unique60(x: int, q: int, r: int)
    requires x == 60 * q + r && 0 <= r < 60
    ensures x / 60 == q && x % 60 == r
  {
  }

  lemma {:induction false} TrimRestores(s: string)
    requires AllDigits(s)
    ensures |Trim(s)| <= |s| && AllDigits(Trim(s)) && s == Trim(s) + Zeros(|s| - |Trim(s)|)
    decreases |s|
  {
    if s != [] && s[|s| - 1] == '0' {
      var init := s[..|s| - 1];
      TrimRestores(init);
      assert Zeros(|init| - |Trim(init)|) + ['0'] == Zeros(|s| - |Trim(s)|);
      assert s == init + ['0'];
    }
  }

  lemma {:induction false} LowDigitsRead(n: nat, k: nat)
    requires n < Pow10(k)
    ensures Read(LowDigits(n, k)) == n
    decreases k
  {
    if k > 0 {
      LowDigitsRead(n / 10, k - 1);
      assert LowDigits(n, k)[..k - 1] == LowDigits(n / 10, k - 1);
    }
  }

  lemma FractionReads(nanos: nat)
    requires nanos < NANO
    ensures ReadFraction(FractionText(nanos)) == Some(nanos)
  {
    if nanos > 0 {
      var s := LowDigits(nanos, 9);
      assert Pow10(9) == NANO by { Pow10Nine(); }
      LowDigitsRead(nanos, 9);
      hide LowDigits, Pow10;
      TrimRestores(s);
      if Trim(s) == [] {
        assert s == Zeros(9);
        ReadZeros(9);
      }
      hide Trim;
      assert FractionText(nanos)[1..] == Trim(s);
    }
  }

  lemma Pow10Nine()
    ensures Pow10(3) == 1000 && Pow10(6) == 1_000_000 && Pow10(9) == 1_000_000_000
  {
    assert Pow10(2) == 100 && Pow10(4) == 10_000;
    assert Pow10(5) == 100_000 && Pow10(7) == 10_000_000 && Pow10(8) == 100_000_000;
  }

  lemma {:induction false} FirstSpace(a: string, rest: string)
    requires (forall i :: 0 <= i < |a| ==> a[i] != ' ') && rest != [] && rest[0] == ' '
    ensures IndexOf(a + rest, ' ') == |a|
    decreases |a|
  {
    if a != [] {
      assert (a + rest)[1..] == a[1..] + rest;
      FirstSpace(a[1..], rest);
    }
  }

  lemma StampReads(date: string, time: string, fraction: string, days: int, second: nat, nanos: nat)
    requires (forall i :: 0 <= i < |date| ==> date[i] != ' ') && ReadDate(date) == Some(days)
    requires |time| == 8 && ReadTime(time) == Some(second) && ReadFraction(fraction) == Some(nanos)
    ensures ReadStamp(date + " " + time + fraction) == Some((days * DAY + second) * NANO + nanos)
  {
    hide ReadDate, ReadTime, ReadFraction;
    var t, p := date + " " + time + fraction, |date|;
    assert t == date + (" " + time + fraction);
    FirstSpace(date, " " + time + fraction);
    hide IndexOf;
    assert t[..p] == date && t[p + 1..p + 9] == time && t[p + 9..] == fraction;
  }

  /** Every printed timestamp reads back to its value, with every field in range. */
  lemma StampRoundTrip(n: int)
    requires PrintableDay(n / NANO / DAY)
    ensures ReadStamp(TextOfNanos(n)) == Some(n)
  {
    hide DateText, TimeText, FractionText, ReadDate, ReadTime, ReadFraction, ReadStamp;
    hide CivilFromDays, ValidDate, DayNumber;
    var seconds := n / NANO;
    var days, second, nanos := seconds / DAY, seconds % DAY, n % NANO;
    CivilFromDaysInverts(days);
    var d := CivilFromDays(days);
    DateReads(d);
    TimeReads(second);
    FractionReads(nanos);
    StampReads(DateText(d), TimeText(second), FractionText(nanos), days, second, nanos);
    assert days * DAY + second == seconds && seconds * NANO + nanos == n;
  }

  // ------------------------------------------------------------- the shape of the text

  /** At least four characters; a zero in front only as padding; no negative zero. */
  predicate YearShape(t: string) {
    if t != [] && t[0] == '-'
    then AllDigits(t[1..]) && |t| >= 4 && (|t| > 4 ==> t[1] != '0') && Read(t[1..]) > 0
    else AllDigits(t) && |t| >= 4 && (|t| > 4 ==> t[0] != '0')
  }

  /** A year, and two fields of two digits behind dashes. */
  predicate DateShape(t: string) {
    var n := |t|;
    && n >= 10 && YearShape(t[..n - 6]) && t[n - 6] == '-' && t[n - 3] == '-'
    && AllDigits(t[n - 5..n - 3]) && AllDigits(t[n - 2..])
  }

  predicate TimeShape(t: string) {
    |t| == 8 && t[2] == ':' && t[5] == ':' && AllDigits(t[..2]) && AllDigits(t[3..5]) && AllDigits(t[6..])
  }

  /** Nothing, or a point and one to nine digits of which the last is not zero. */
  predicate FractionShape(t: string) {
    t == "" || (2 <= |t| <= 10 && t[0] == '.' && AllDigits(t[1..]) && t[|t| - 1] != '0')
  }

  /** A date, a blank, eight characters of time, and a fraction. */
  predicate StampShape(t: string) {
    var p := IndexOf(t, ' ');
    p + 9 <= |t| && DateShape(t[..p]) && TimeShape(t[p + 1..p + 9]) && FractionShape(t[p + 9..])
  }

  lemma YearHasShape(year: int)
    ensures YearShape(YearText(year))
  {
    hide Pad, Read, Digits;
    var n, w := if year < 0 then -year else year, if year < 0 then 3 else 4;
    PadReads(n, w);
    PadFront(n, w);
    var body := Pad(Digits(n), w);
    if year < 0 { assert YearText(year)[1..] == body; }
  }

  lemma PadFront(n: nat, w: nat)
    requires w >= 1
    ensures |Pad(Digits(n), w)| > w ==> Pad(Digits(n), w)[0] != '0'
  {
    ReadDigits(n);
    hide Read;
    if |Digits(n)| > w { assert Pad(Digits(n), w) == Digits(n); }
  }

  lemma DateHasShape(d: Date)
    requires ValidDate(d)
    ensures DateShape(DateText(d))
  {
    hide YearText, Two, YearShape, Leap, Read;
    YearHasShape(d.year);
    YearIsLong(d.year);
    TwoReads(d.month);
    TwoReads(d.day);
    var y, m, k := YearText(d.year), Two(d.month), Two(d.day);
    var t := DateText(d);
    var n := |t|;
    assert t == y + "-" + m + "-" + k;
    assert t[..n - 6] == y && t[n - 5..n - 3] == m && t[n - 2..] == k;
  }

  lemma YearIsLong(year: int)
    ensures |YearText(year)| >= 4
  {
    hide Read, Digits;
    if year < 0 { PadReads(-year, 3); } else { PadReads(year, 4); }
  }

  lemma TimeHasShape(second: nat)
    requires second < DAY
    ensures TimeShape(TimeText(second))
  {
    hide Two, Read;
    TimeParts(second);
    var h, m, s := Two(second / 3600), Two(second % 3600 / 60), Two(second % 60);
    TwoReads(second / 3600);
    TwoReads(second % 3600 / 60);
    TwoReads(second % 60);
    var t := TimeText(second);
    assert t[..2] == h && t[3..5] == m && t[6..] == s;
  }

  lemma {:induction false} TrimEnds(s: string)
    ensures Trim(s) != [] ==> Trim(s)[|Trim(s)| - 1] != '0'
    decreases |s|
  {
    if s != [] && s[|s| - 1] == '0' { TrimEnds(s[..|s| - 1]); }
  }

  lemma FractionHasShape(nanos: nat)
    requires nanos < NANO
    ensures FractionShape(FractionText(nanos)) && (FractionText(nanos) == "" <==> nanos == 0)
  {
    if nanos > 0 {
      Pow10Nine();
      NonZeroStaysPrinted(nanos, 9);
      var s := LowDigits(nanos, 9);
      hide LowDigits, Pow10;
      TrimRestores(s);
      TrimEnds(s);
      hide Trim;
      assert FractionText(nanos)[1..] == Trim(s);
    }
  }

  lemma StampHasShape(date: string, time: string, fraction: string)
    requires (forall i :: 0 <= i < |date| ==> date[i] != ' ') && DateShape(date)
    requires TimeShape(time) && FractionShape(fraction)
    ensures StampShape(date + " " + time + fraction)
  {
    hide DateShape, FractionShape;
    var t, p := date + " " + time + fraction, |date|;
    assert t == date + (" " + time + fraction);
    FirstSpace(date, " " + time + fraction);
    hide IndexOf;
    assert |time| == 8;
    assert t[..p] == date && t[p + 1..p + 9] == time && t[p + 9..] == fraction;
  }

  /** Every printed timestamp has the shape of one; its fraction is there only for a broken second. */
  lemma TextHasShape(n: int)
    requires PrintableDay(n / NANO / DAY)
    ensures StampShape(TextOfNanos(n))
  {
    hide DateText, TimeText, FractionText, DateShape, TimeShape, FractionShape, StampShape;
    hide CivilFromDays, ValidDate, DayNumber;
    var seconds := n / NANO;
    CivilFromDaysInverts(seconds / DAY);
    DateReads(CivilFromDays(seconds / DAY));
    DateHasShape(CivilFromDays(seconds / DAY));
    TimeHasShape(seconds % DAY);
    FractionHasShape(n % NANO);
    StampHasShape(DateText(CivilFromDays(seconds / DAY)), TimeText(seconds % DAY), FractionText(n % NANO));
  }

  // -------------------------------------------------------- no other text of that shape

  lemma YearIsUnique(t: string, year: int)
    requires YearShape(t) && ReadYear(t) == Some(year)
    ensures t == YearText(year)
  {
    hide Pad, Digits, Read;
    if t[0] == '-' {
      PadOfRead(t[1..], 3);
      assert t == "-" + t[1..];
    } else {
      PadOfRead(t, 4);
    }
  }

  lemma TwoIsUnique(t: string)
    requires |t| == 2 && AllDigits(t)
    ensures t == Two(Read(t))
  {
    PadOfRead(t, 2);
  }

  lemma DateIsUnique(t: string, days: int)
    requires DateShape(t) && ReadDate(t) == Some(days) && PrintableDay(days)
    ensures t == DateText(CivilFromDays(days))
  {
    hide YearShape, ReadYear, YearText, Two, Read, CivilFromDays, DayNumber, Leap;
    var n := |t|;
    var y, m, k := t[..n - 6], t[n - 5..n - 3], t[n - 2..];
    var year := ReadYear(y).value;
    YearIsUnique(y, year);
    TwoIsUnique(m);
    TwoIsUnique(k);
    DayNumberInverts(Date(year, Read(m), Read(k)));
    assert t == y + "-" + m + "-" + k;
  }

  lemma FieldsAreUnique(h: nat, m: nat, s: nat, second: nat)
    requires m < 60 && s < 60 && second == h * 3600 + m * 60 + s
    ensures second / 3600 == h && second % 3600 / 60 == m && second % 60 == s
  {
    var r := m * 60 + s;
    assert second / 3600 == h && second % 3600 == r;
    Unique60(r, m, s);
    Unique60(second, h * 60 + m, s);
  }

  lemma TimeIsUnique(t: string, second: nat)
    requires ReadTime(t) == Some(second)
    ensures t == TimeText(second)
  {
    hide Two, Read;
    var h, m, s := t[..2], t[3..5], t[6..];
    TwoIsUnique(h);
    TwoIsUnique(m);
    TwoIsUnique(s);
    FieldsAreUnique(Read(h), Read(m), Read(s), second);
    assert t == h + ":" + m + ":" + s;
  }

  lemma LongerEndsInZero(a: string, b: string)
    requires |a| < |b| <= 9 && a + Zeros(9 - |a|) == b + Zeros(9 - |b|)
    ensures b[|b| - 1] == '0'
  {
    assert (a + Zeros(9 - |a|))[|b| - 1] == '0';
  }

  /** Digits that do not end in zero are told apart by the fractions they stand for. */
  lemma SameFraction(a: string, b: string)
    requires AllDigits(a) && AllDigits(b) && |a| <= 9 && |b| <= 9
    requires (a != [] ==> a[|a| - 1] != '0') && (b != [] ==> b[|b| - 1] != '0')
    requires Read(a + Zeros(9 - |a|)) == Read(b + Zeros(9 - |b|))
    ensures a == b
  {
    var x, y := a + Zeros(9 - |a|), b + Zeros(9 - |b|);
    SameWidthSameDigits(x, y);
    if |a| < |b| { LongerEndsInZero(a, b); }
    if |b| < |a| { LongerEndsInZero(b, a); }
    assert a == x[..|a|] && b == y[..|b|];
  }

  lemma FractionDigits(t: string, nanos: nat)
    requires FractionShape(t) && ReadFraction(t) == Some(nanos)
    ensures var a := if t == "" then "" else t[1..];
      && AllDigits(a) && |a| <= 9 && (a != [] ==> a[|a| - 1] != '0') && Read(a + Zeros(9 - |a|)) == nanos
  {
    if t == "" {
      assert "" + Zeros(9) == Zeros(9);
      ReadZeros(9);
    }
    hide Read;
  }

  lemma FractionIsUnique(t: string, nanos: nat)
    requires FractionShape(t) && ReadFraction(t) == Some(nanos) && nanos < NANO
    ensures t == FractionText(nanos)
  {
    var u := FractionText(nanos);
    FractionHasShape(nanos);
    FractionReads(nanos);
    FractionDigits(t, nanos);
    FractionDigits(u, nanos);
    hide Read, FractionText, ReadFraction;
    SameFraction(if t == "" then "" else t[1..], if u == "" then "" else u[1..]);
    if t != "" { assert t == "." + t[1..]; }
    if u != "" { assert u == "." + u[1..]; }
  }

  lemma PartsOfNanos(days: int, second: nat, nanos: nat, n: int)
    requires second < DAY && nanos < NANO && n == (days * DAY + second) * NANO + nanos
    ensures n / NANO == days * DAY + second && n % NANO == nanos && n / NANO / DAY == days && n / NANO % DAY == second
  {
    UniqueNano(n, days * DAY + second, nanos);
    UniqueDay(days * DAY + second, days, second);
  }

  lemma UniqueDay(x: int, q: int, r: int)
    requires x == DAY * q + r && 0 <= r < DAY
    ensures x / DAY == q && x % DAY == r
  {
  }

  lemma ReadingsAreInRange(t: string)
    ensures ReadTime(t).Some? ==> ReadTime(t).value < DAY
    ensures ReadFraction(t).Some? ==> ReadFraction(t).value < NANO
  {
    if ReadFraction(t).Some? && t != [] {
      ReadBound(t[1..] + Zeros(10 - |t|));
      Pow10Nine();
    }
  }

  /** The printed text is the only one of a timestamp's shape that reads back to the value. */
  lemma StampIsUnique(t: string, n: int)
    requires StampShape(t) && ReadStamp(t) == Some(n) && PrintableDay(n / NANO / DAY)
    ensures t == TextOfNanos(n)
  {
    hide DateShape, TimeShape, FractionShape, ReadDate, ReadTime, ReadFraction, DateText, TimeText, FractionText;
    hide CivilFromDays, IndexOf;
    var p := IndexOf(t, ' ');
    var date, time, fraction := t[..p], t[p + 1..p + 9], t[p + 9..];
    var days, second, nanos := ReadDate(date).value, ReadTime(time).value, ReadFraction(fraction).value;
    ReadingsAreInRange(time);
    ReadingsAreInRange(fraction);
    PartsOfNanos(days, second, nanos, n);
    DateIsUnique(date, days);
    TimeIsUnique(time, second);
    FractionIsUnique(fraction, nanos);
    assert t == date + " " + time + fraction;
  }

  // ------------------------------------------------------------------- the printers

  datatype Unit = Seconds | Millis | Micros | Nanos

  function PerSecond(u: Unit): int {
    match u
    case Seconds => 1
    case Millis => 1_000
    case Micros => 1_000_000
    case Nanos => 1_000_000_000
  }

  function FractionWidth(u: Unit): nat {
    match u case Seconds => 0 case Millis => 3 case Micros => 6 case Nanos => 9
  }

  /** Nanoseconds in one tick. */
  function Tick(u: Unit): int {
    match u
    case Seconds => 1_000_000_000
    case Millis => 1_000_000
    case Micros => 1_000
    case Nanos => 1
  }

  /** The raw value and the intermediate sums fit their types, and so does the day. */
  predicate Printable(raw: int, u: Unit) {
    && -0x8000_0000_0000_0000 <= raw <= 0x7fff_ffff_ffff_ffff
    && -0x8000_0000_0000_0000 <= raw - (PerSecond(u) - 1)
    && PrintableDay(raw / PerSecond(u) / DAY)
  }

  /** Division toward minus infinity, as the printers spell it with C++ division. */
  function FloorDiv(x: int, k: int): int
    requires k > 0
  {
    TruncDiv(if x >= 0 then x else x - (k - 1), k)
  }

  lemma FloorDivIs(x: int, u: Unit)
    ensures FloorDiv(x, PerSecond(u)) == x / PerSecond(u) && FloorDiv(x, DAY) == x / DAY
  {
    match u
    case Seconds =>
    case Millis =>
    case Micros =>
    case Nanos =>
  }

  lemma UniqueNano(x: int, q: int, r: int)
    requires x == NANO * q + r && 0 <= r < NANO
    ensures x / NANO == q && x % NANO == r
  {
  }

  /** Ticks and nanoseconds have the same whole seconds, and fractions in proportion. */
  lemma TicksAndNanos(raw: int, u: Unit)
    ensures raw * Tick(u) / NANO == raw / PerSecond(u)
    ensures raw * Tick(u) % NANO == raw % PerSecond(u) * Tick(u)
  {
    match u
    case Seconds =>
      UniqueNano(raw * Tick(u), raw, 0);
    case Millis =>
      assert raw == 1_000 * (raw / 1_000) + raw % 1_000;
      UniqueNano(raw * Tick(u), raw / 1_000, raw % 1_000 * Tick(u));
    case Micros =>
      assert raw == 1_000_000 * (raw / 1_000_000) + raw % 1_000_000;
      UniqueNano(raw * Tick(u), raw / 1_000_000, raw % 1_000_000 * Tick(u));
    case Nanos =>
  }

  lemma LowDigitsOfTen(n: nat, k: nat)
    ensures LowDigits(10 * n, k + 1) == LowDigits(n, k) + ['0']
  {
    assert 10 * n / 10 == n && 10 * n % 10 == 0;
  }

  lemma TrimZero(s: string)
    ensures Trim(s + ['0']) == Trim(s)
  {
    assert (s + ['0'])[..|s|] == s;
  }

  lemma TrimOfTen(n: nat, k: nat)
    ensures Trim(LowDigits(10 * n, k + 1)) == Trim(LowDigits(n, k))
  {
    LowDigitsOfTen(n, k);
    TrimZero(LowDigits(n, k));
  }

  lemma TrimOfThousand(n: nat, k: nat)
    ensures Trim(LowDigits(1_000 * n, k + 3)) == Trim(LowDigits(n, k))
  {
    hide LowDigits, Trim;
    TrimOfTen(n, k);
    TrimOfTen(10 * n, k + 1);
    TrimOfTen(100 * n, k + 2);
    assert 10 * (100 * n) == 1_000 * n && 10 * (10 * n) == 100 * n;
  }

  /** The digits of a fraction do not depend on the unit once trailing zeros are gone. */
  lemma FractionAgrees(frac: nat, u: Unit)
    requires frac < PerSecond(u)
    ensures frac * Tick(u) > 0 <==> frac > 0
    ensures Trim(LowDigits(frac * Tick(u), 9)) == Trim(LowDigits(frac, FractionWidth(u))) || frac == 0
  {
    hide LowDigits, Trim;
    match u
    case Seconds =>
    case Millis =>
      TrimOfThousand(frac, 3);
      TrimOfThousand(1_000 * frac, 6);
      assert 1_000 * (1_000 * frac) == frac * 1_000_000;
    case Micros =>
      TrimOfThousand(frac, 6);
      assert 1_000 * frac == frac * 1_000;
    case Nanos =>
  }

  lemma {:induction false} PadIsLow(n: nat, k: nat)
    requires k > 0 && n < Pow10(k)
    ensures Pad(Digits(n), k) == LowDigits(n, k)
    decreases k
  {
    if k == 1 {
      assert Pow10(0) == 1;
      assert LowDigits(n, 1) == LowDigits(n / 10, 0) + [DigitChar(n)];
    } else {
      PadStep(n, k - 1);
      PadIsLow(n / 10, k - 1);
    }
  }

  /** Trailing zeros popped one by one. */
  method PopZeros(digits: string) returns (text: string)
    requires Trim(digits) != []
    ensures text == "." + Trim(digits)
  {
    text := "." + digits;
    ghost var left := digits;
    while text[|text| - 1] == '0'
      invariant text == "." + left && Trim(left) == Trim(digits)
      decreases |text|
    {
      assert left != [] && left[|left| - 1] == '0';
      left := left[..|left| - 1];
      text := text[..|text| - 1];
    }
    assert left != [] && left[|left| - 1] == text[|text| - 1];
  }

  lemma NonZeroStaysPrinted(n: nat, k: nat)
    requires 0 < n < Pow10(k)
    ensures Trim(LowDigits(n, k)) != []
  {
    var s := LowDigits(n, k);
    LowDigitsRead(n, k);
    hide LowDigits, Pow10;
    TrimRestores(s);
    if Trim(s) == [] { ReadZeros(k); }
  }

  lemma FractionInNanos(frac: nat, u: Unit)
    requires frac < PerSecond(u)
    ensures 0 <= frac * Tick(u) < NANO
  {
    match u
    case Seconds =>
    case Millis =>
    case Micros =>
    case Nanos =>
  }

  /** The fraction of a second as printed, padded to the unit's width. */
  method PrintFraction(frac: nat, u: Unit) returns (text: string)
    requires 0 < frac < PerSecond(u)
    ensures text == FractionText(frac * Tick(u))
    ensures FractionShape(text) && ReadFraction(text) == Some(frac * Tick(u))
  {
    hide LowDigits, Pad, Trim;
    Pow10Nine();
    var width := FractionWidth(u);
    PadIsLow(frac, width);
    FractionAgrees(frac, u);
    FractionInNanos(frac, u);
    FractionHasShape(frac * Tick(u));
    FractionReads(frac * Tick(u));
    hide FractionShape, ReadFraction;
    NonZeroStaysPrinted(frac, width);
    hide Pow10;
    text := PopZeros(Pad(Digits(frac), width));
  }

  /** The whole text from its fields. */
  lemma TextFromFields(raw: int, u: Unit, d: Date, second: nat, frac: nat)
    requires Printable(raw, u) && d == CivilFromDays(raw / PerSecond(u) / DAY)
    requires second == raw / PerSecond(u) % DAY && frac == raw % PerSecond(u)
    ensures PrintableDay(raw * Tick(u) / NANO / DAY)
    ensures TextOfNanos(raw * Tick(u)) == DateText(d) + " " + TimeText(second) + FractionText(frac * Tick(u))
  {
    hide CivilFromDays, DateText, TimeText, FractionText;
    TicksAndNanos(raw, u);
  }

  lemma JoinFields(d: Date, second: nat)
    ensures YearText(d.year) + "-" + Two(d.month) + "-" + Two(d.day) + " " +
      Two(second / 3600) + ":" + Two(second % 3600 / 60) + ":" + Two(second % 60)
      == DateText(d) + " " + TimeText(second)
  {
    hide YearText, Two;
    var date, h, m, s := DateText(d), Two(second / 3600), Two(second % 3600 / 60), Two(second % 60);
    assert date + " " + h + ":" + m + ":" + s == date + " " + (h + ":" + m + ":" + s);
  }

  /** `format_timestamp_s`, `_ms`, `_us` and `_ns`. */
  method FormatTimestamp(raw: int, u: Unit) returns (text: string)
    requires Printable(raw, u)
    ensures PrintableDay(raw * Tick(u) / NANO / DAY) && text == TextOfNanos(raw * Tick(u))
    ensures ReadStamp(text) == Some(raw * Tick(u)) && StampShape(text)
    ensures u == Seconds ==> ReadStamp(text) == Some(raw * 1_000_000_000)
    ensures u == Millis ==> ReadStamp(text) == Some(raw * 1_000_000)
    ensures u == Micros ==> ReadStamp(text) == Some(raw * 1_000)
    ensures u == Nanos ==> ReadStamp(text) == Some(raw)
    ensures forall t :: StampShape(t) && ReadStamp(t) == Some(raw * Tick(u)) ==> t == text
  {
    hide CivilFromDays, DateText, TimeText, FractionText, YearText, Two, TextOfNanos, FloorDiv, ReadStamp, StampShape;
    FloorDivIs(raw, u);
    var totalSeconds := FloorDiv(raw, PerSecond(u));
    var frac := raw - totalSeconds * PerSecond(u);
    FloorDivIs(totalSeconds, u);
    var days := FloorDiv(totalSeconds, DAY);
    var secondsInDay := totalSeconds - days * DAY;
    Remainders(raw, u, totalSeconds);
    var d := CivilFromDays(days);
    var hh, mm, ss := secondsInDay / 3600, secondsInDay % 3600 / 60, secondsInDay % 60;
    text := YearText(d.year) + "-" + Two(d.month) + "-" + Two(d.day) + " " + Two(hh) + ":" + Two(mm) + ":" + Two(ss);
    JoinFields(d, secondsInDay);
    TextFromFields(raw, u, d, secondsInDay, frac);
    StampRoundTrip(raw * Tick(u));
    TextHasShape(raw * Tick(u));
    forall t | StampShape(t) && ReadStamp(t) == Some(raw * Tick(u)) ensures t == TextOfNanos(raw * Tick(u)) {
      StampIsUnique(t, raw * Tick(u));
    }
    if frac != 0 {
      var fraction := PrintFraction(frac, u);
      text := text + fraction;
    } else {
      assert FractionText(0) == "" by { NoFraction(); }
      assert text + "" == text;
    }
  }

  lemma NoFraction()
    ensures FractionText(0) == ""
  {
  }

  lemma Remainders(raw: int, u: Unit, seconds: int)
    requires seconds == raw / PerSecond(u)
    ensures raw - seconds * PerSecond(u) == raw % PerSecond(u) && seconds - seconds / DAY * DAY == seconds % DAY
    ensures 0 <= raw % PerSecond(u) < PerSecond(u)
  {
    match u
    case Seconds =>
    case Millis =>
    case Micros =>
    case Nanos =>
  }

  method FormatDate(days: int) returns (text: string)
    requires PrintableDay(days)
    ensures text == DateText(CivilFromDays(days)) && ReadDate(text) == Some(days) && DateShape(text)
    ensures forall t :: DateShape(t) && ReadDate(t) == Some(days) ==> t == text
  {
    hide DateShape, ReadDate, CivilFromDays, DayNumber, ValidDate, YearText, Two;
    var d := CivilFromDays(days);
    CivilFromDaysInverts(days);
    DateReads(d);
    DateHasShape(d);
    forall t | DateShape(t) && ReadDate(t) == Some(days) ensures t == DateText(d) { DateIsUnique(t, days); }
    text := YearText(d.year) + "-" + Two(d.month) + "-" + Two(d.day);
  }
}
