/** r3_stdlib_mktime.c: seconds since 1970 to broken-down time and back, with divisions done by multiplying.

    Three layers. The divisions: each multiplication by a magic number followed by a shift is compared with the
    true quotient on all 32-bit values, or up to the first value it gets wrong. The calendar: `Valid` dates,
    the day after a date, and the two day counts of _mktime, with true division and unbounded numbers; here the
    conversion of days to dates is shown to walk through the calendar and to be inverse to the Gregorian count,
    and the count that is compiled in is compared with the Gregorian one. The procedures: the 32-bit arithmetic of
    the code, with every result cut to a uint32_t, gives the values of the second layer as long as nothing
    overflows, and the round trip through both of them is exact on a range that is given to the day.

    Years are counted from March, as the formulas do: then the leap day is the last day of its year, and both
    directions are sums of whole centuries, whole years within the century, months and days.
 */
module Calendar {
  type Word = v: nat | v < 0x1_0000_0000

  /** What a uint32_t keeps of a result. */
  function U32(x: int): Word { x % 0x1_0000_0000 }

  // ----- division by multiplication (r3_stdlib_mktime.c:51-78): 64-bit product, then a shift

  function Div5(v: Word): nat { v * 0xCCCC_CCCD / 0x4_0000_0000 }
  function Div10(v: Word): nat { v * 0xCCCC_CCCD / 0x8_0000_0000 }
  function Div100(v: Word): nat { v * 0xA3D7_0A3E / 0x40_0000_0000 }
  function Div400(v: Word): nat { v * 0xA3D7_0A3E / 0x100_0000_0000 }
  function Div365(v: Word): nat { v * 0xB38C_F9B1 / 0x100_0000_0000 }
  function Div153(v: Word): nat { v * 0xD62B_80D7 / 0x80_0000_0000 }
  function Div1461(v: Word): nat { v * 0xB36D_8398 / 0x400_0000_0000 }
  function Div146097(v: Word): nat { v * 0xE5AC_1AF4 / 0x2_0000_0000_0000 }
  function Div86400(v: Word): nat { v * 0xC22E_4507 / 0x1_0000_0000_0000 }
  function Div60(v: Word): nat { v * 0x8888_8889 / 0x20_0000_0000 }

  function Rem7(v: Word): nat {
    var q := v * 0x9249_2493 / 0x4_0000_0000;
    U32(v - q * 7)
  }

  /** p * q + t lies in the q-th interval of length p. */
  lemma Quotient(p: nat, q: nat, t: nat)
    requires t < p
    ensures (p * q + t) / p == q
  {
    var d := (p * q + t) / p;
    assert d < q ==> p * (d + 1) <= p * q;
    assert d > q ==> p * d >= p * (q + 1);
  }

  lemma Div5Exact(v: Word) ensures Div5(v) == v / 5 {
    var q, r := v / 5, v % 5;
    Quotient(0x4_0000_0000, q, q * 1 + r * 0xCCCC_CCCD);
  }
  lemma Div10Exact(v: Word) ensures Div10(v) == v / 10 {
    var q, r := v / 10, v % 10;
    Quotient(0x8_0000_0000, q, q * 2 + r * 0xCCCC_CCCD);
  }
  lemma Div100Exact(v: Word) ensures Div100(v) == v / 100 {
    var q, r := v / 100, v % 100;
    Quotient(0x40_0000_0000, q, q * 56 + r * 0xA3D7_0A3E);
  }
  lemma Div400Exact(v: Word) ensures Div400(v) == v / 400 {
    var q, r := v / 400, v % 400;
    Quotient(0x100_0000_0000, q, q * 224 + r * 0xA3D7_0A3E);
  }
  lemma Div153Exact(v: Word) ensures Div153(v) == v / 153 {
    var q, r := v / 153, v % 153;
    Quotient(0x80_0000_0000, q, q * 127 + r * 0xD62B_80D7);
  }
  lemma Div1461Exact(v: Word) ensures Div1461(v) == v / 1461 {
    var q, r := v / 1461, v % 1461;
    Quotient(0x400_0000_0000, q, q * 632 + r * 0xB36D_8398);
  }
  lemma Div146097Exact(v: Word) ensures Div146097(v) == v / 146097 {
    var q, r := v / 146097, v % 146097;
    Quotient(0x2_0000_0000_0000, q, q * 125620 + r * 0xE5AC_1AF4);
  }
  lemma Div86400Exact(v: Word) ensures Div86400(v) == v / 86400 {
    var q, r := v / 86400, v % 86400;
    Quotient(0x1_0000_0000_0000, q, q * 47744 + r * 0xC22E_4507);
  }
  lemma Div60Exact(v: Word) ensures Div60(v) == v / 60 {
    var q, r := v / 60, v % 60;
    Quotient(0x20_0000_0000, q, q * 28 + r * 0x8888_8889);
  }

  /** div365 is exact up to the first value it gets wrong, which a uint32_t can hold. */
  lemma Div365Exact(v: Word)
    requires v < 3150463189
    ensures Div365(v) == v / 365
  {
    var q, r := v / 365, v % 365;
    Quotient(0x100_0000_0000, q, q * 349 + r * 0xB38C_F9B1);
  }
  lemma Div365Fails() ensures Div365(3150463189) == 3150463189 / 365 + 1 {}

  lemma Rem7Exact(v: Word)
    requires v < 3435973841
    ensures Rem7(v) == v % 7
  {
    var q, r := v / 7, v % 7;
    Quotient(0x4_0000_0000, q, q * 5 + r * 0x9249_2493);
  }
  lemma Rem7Fails() ensures Rem7(3435973841) != 3435973841 % 7 {}

  // ----- the calendar

  /** Month 0 is January, year 2010 is 2010. */
  datatype Date = Date(day: int, month: int, year: int)

  predicate Leap(year: int) { year % 4 == 0 && (year % 100 != 0 || year % 400 == 0) }

  /** g_date_is_leap_year: the century if the year ends one, else the year, must divide by four. */
  predicate LeapYear(year: Word) {
    var q := Div100(year);
    var r := year - q * 100;
    (if r != 0 then year as int else q) % 4 == 0
  }

  lemma LeapCenturies(q: nat)
    ensures Leap(100 * q) <==> q % 4 == 0
  {
    assert 100 * q == 400 * (q / 4) + 100 * (q % 4);
  }

  lemma LeapOther(q: nat, r: nat)
    requires 0 < r < 100
    ensures Leap(100 * q + r) <==> (100 * q + r) % 4 == 0
  {}

  lemma LeapYearTest(year: Word)
    ensures LeapYear(year) <==> Leap(year)
  {
    Div100Exact(year);
    hide Div100;
    var q := year / 100;
    if year == 100 * q { LeapCenturies(q); } else { LeapOther(q, year - 100 * q); }
  }

  function MonthLength(month: int, year: int): int {
    if month == 1 then (if Leap(year) then 29 else 28)
    else if month == 3 || month == 5 || month == 8 || month == 10 then 30
    else 31
  }

  predicate Valid(d: Date) { 0 <= d.month < 12 && 1 <= d.day <= MonthLength(d.month, d.year) }

  function NextDay(d: Date): Date {
    if d.day < MonthLength(d.month, d.year) then Date(d.day + 1, d.month, d.year)
    else if d.month < 11 then Date(1, d.month + 1, d.year)
    else Date(1, 0, d.year + 1)
  }

  // ----- days to a date (g_days_to_dmy)

  const EPOCH := 2440587

  /** The formula, with true division. */
  function Dmy(days: nat): Date { Stages(days + EPOCH + 32045) }

  function Stages(a: nat): Date {
    var b := (4 * a + 3) / 146097;
    var c := a - 146097 * b / 4;
    var d := (4 * c + 3) / 1461;
    var e := c - 1461 * d / 4;
    OfParts(b, d, e)
  }

  /** Day e of year d of century b, all counted from March. */
  function OfParts(b: int, d: int, e: int): Date {
    var m := (5 * e + 2) / 153;
    Date(e - (153 * m + 2) / 5 + 1, m + 2 - 12 * (m / 10), 100 * b + d - 4800 + m / 10)
  }

  /** Days from March to the first of the month. */
  function Before(month: int): int {
    if month == 0 then 306 else if month == 1 then 337 else if month == 2 then 0 else if month == 3 then 31
    else if month == 4 then 61 else if month == 5 then 92 else if month == 6 then 122 else if month == 7 then 153
    else if month == 8 then 184 else if month == 9 then 214 else if month == 10 then 245 else 275
  }

  /** The year the count of _mktime uses: it begins in March. */
  function MarchYear(d: Date): int { d.year + 4800 - (if d.month < 2 then 1 else 0) }

  /** Days before the March year y. */
  function Start(y: int): int { 365 * y + y / 4 - y / 100 + y / 400 }

  /** Days since 1 January 1970 by the full Gregorian branch of _mktime. */
  function Gregorian(d: Date): int {
    d.day + Before(d.month) + Start(MarchYear(d)) - (32046 + EPOCH)
  }

  /** By the branch that is compiled in, which knows no exceptions to the leap year every fourth. */
  function Lulian(d: Date): int {
    var y := MarchYear(d);
    d.day + Before(d.month) + 365 * y + y / 4 - (32097 + EPOCH)
  }

  // The century within the 400-year cycle, the year within the century, the day within the year.
  lemma Centuries(a: nat)
    ensures var b := (4 * a + 3) / 146097; var c := a - 146097 * b / 4;
      0 <= c <= 36524 && (c == 36524 ==> b % 4 == 3)
  {}

  lemma Years(c: nat)
    requires c <= 36524
    ensures var d := (4 * c + 3) / 1461; var e := c - 1461 * d / 4;
      0 <= d <= 99 && 0 <= e <= 365 && (e == 365 ==> d % 4 == 3) && (e == 365 && d == 99 ==> c == 36524)
  {}

  lemma Months(e: nat)
    requires e <= 365
    ensures var m := (5 * e + 2) / 153; var month := m + 2 - 12 * (m / 10);
      && 0 <= m <= 11 && 0 <= month <= 11 && (month < 2 <==> m >= 10)
      && (153 * m + 2) / 5 == Before(month) && 0 <= e - Before(month)
      && e - Before(month) + 1 <= (if month == 1 then (if e == 365 then 29 else 28) else MonthLength(month, 1))
  {}

  /** The count of the days before the century b and the year d of it. */
  lemma StartOfYear(b: int, d: int)
    requires 0 <= d <= 99
    ensures Start(100 * b + d) == 146097 * b / 4 + 1461 * d / 4
  {
    var y := 100 * b + d;
    assert y / 100 == b && y / 400 == b / 4 && y / 4 == 25 * b + d / 4;
  }

  /** Every day since 1970 gets a date that exists, and the Gregorian count of that date is the day. */
  lemma DmyIsValid(days: nat)
    ensures var d := Dmy(days); Valid(d) && Gregorian(d) == days
    ensures MarchYear(Dmy(days)) / 100 == (4 * (days + EPOCH + 32045) + 3) / 146097
  {
    var a := days + EPOCH + 32045;
    var b := (4 * a + 3) / 146097;
    var c := a - 146097 * b / 4;
    var d := (4 * c + 3) / 1461;
    var e := c - 1461 * d / 4;
    Centuries(a);
    Years(c);
    assert Dmy(days) == OfParts(b, d, e);
    hide Dmy, OfParts, Valid, Gregorian, MarchYear;
    DateOfParts(b, d, e);
    assert a == 146097 * b / 4 + 1461 * d / 4 + e;
  }

  lemma DateOfParts(b: int, d: int, e: int)
    requires 0 <= d <= 99 && 0 <= e <= 365 && (e == 365 ==> d % 4 == 3 && (d == 99 ==> b % 4 == 3))
    ensures var date := OfParts(b, d, e);
      && Valid(date) && MarchYear(date) == 100 * b + d && MarchYear(date) / 100 == b
      && Gregorian(date) == 146097 * b / 4 + 1461 * d / 4 + e - (32045 + EPOCH)
  {
    Months(e);
    StartOfYear(b, d);
    hide Start, Before, Leap, Valid;
    var m := (5 * e + 2) / 153;
    var month := m + 2 - 12 * (m / 10);
    assert m / 10 == if month < 2 then 1 else 0;
    if month == 1 && e == 365 { FebruaryHas29(b, d); }
    DateIsValid(Date(e - Before(month) + 1, month, 100 * b + d - 4800 + m / 10), if e == 365 then 29 else 28);
  }

  lemma DateIsValid(d: Date, february: int)
    requires 0 <= d.month < 12 && 1 <= d.day <= (if d.month == 1 then february else MonthLength(d.month, 1))
    requires february == 28 || (february == 29 && (d.month == 1 ==> Leap(d.year)))
    ensures Valid(d)
  {}

  lemma LeapCentury(q: int) ensures Leap(400 * q) {}

  lemma LeapFourth(q: int, p: int, r: int)
    requires 4 * q == 100 * p + r && 0 < r < 100
    ensures Leap(100 * p + r)
  {}

  lemma FebruaryHas29(b: int, d: int)
    requires 0 <= d <= 99 && d % 4 == 3 && (d == 99 ==> b % 4 == 3)
    ensures Leap(100 * b + d + 1 - 4800)
  {
    hide Leap;
    if d == 99 {
      var n := (b - 3) / 4;
      assert b == 4 * n + 3;
      LeapCentury(n - 11);
    } else {
      var n := d / 4;
      assert d == 4 * n + 3;
      LeapFourth(25 * b - 1200 + n + 1, b - 48, d + 1);
    }
  }

  /** A March year is a day longer when the February at its end has 29. */
  lemma YearLength(y: int)
    ensures Start(y + 1) == Start(y) + 365 + (if Leap(y + 1 - 4800) then 1 else 0)
  {
    var z := y + 1;
    assert z / 4 == y / 4 + (if z % 4 == 0 then 1 else 0);
    assert z / 100 == y / 100 + (if z % 100 == 0 then 1 else 0);
    assert z / 400 == y / 400 + (if z % 400 == 0 then 1 else 0);
    assert Leap(z - 4800) == (z % 4 == 0 && (z % 100 != 0 || z % 400 == 0));
  }

  /** The count goes up by one from each date to the next. */
  lemma GregorianNext(d: Date)
    requires Valid(d)
    ensures Gregorian(NextDay(d)) == Gregorian(d) + 1
  {
    YearLength(MarchYear(d));
    hide Start, Leap;
  }

  lemma DayOfYear(x: Date)
    requires Valid(x)
    ensures 1 <= x.day + Before(x.month) <= 365 + (if x.month == 1 && Leap(x.year) then 1 else 0)
    ensures x.day + Before(x.month) <= 366
  {}

  lemma {:induction false} StartGrows(y: int, z: int)
    requires y <= z
    ensures Start(y) <= Start(z)
    decreases z - y
  {
    if y < z {
      YearLength(z - 1);
      StartGrows(y, z - 1);
    }
  }

  lemma YearsGrow(y: int, z: int)
    requires y < z
    ensures Start(z) >= Start(y) + 365 + (if Leap(y + 1 - 4800) then 1 else 0)
  {
    YearLength(y);
    StartGrows(y + 1, z);
  }

  lemma SameYearSameDate(x: Date, y: Date)
    requires Valid(x) && Valid(y) && MarchYear(x) == MarchYear(y)
    requires x.day + Before(x.month) == y.day + Before(y.month)
    ensures x == y
  {}

  /** No two dates have the same count. */
  lemma GregorianInjective(x: Date, y: Date)
    requires Valid(x) && Valid(y) && Gregorian(x) == Gregorian(y)
    ensures x == y
  {
    DayOfYear(x);
    DayOfYear(y);
    hide Start, Leap, Before;
    if MarchYear(x) < MarchYear(y) { YearsGrow(MarchYear(x), MarchYear(y)); }
    if MarchYear(y) < MarchYear(x) { YearsGrow(MarchYear(y), MarchYear(x)); }
    SameYearSameDate(x, y);
  }

  lemma FirstDay()
    ensures Stages(EPOCH + 32045) == OfParts(67, 69, 306)
  {
    hide OfParts;
    var a := EPOCH + 32045;
    assert (4 * a + 3) / 146097 == 67 && a - 146097 * 67 / 4 == 25508;
    assert (4 * 25508 + 3) / 1461 == 69 && 25508 - 1461 * 69 / 4 == 306;
  }

  lemma DmyStarts()
    ensures Dmy(0) == Date(1, 0, 1970)
  {
    hide Stages;
    FirstDay();
  }

  lemma NextIsValid(d: Date)
    requires Valid(d)
    ensures Valid(NextDay(d))
  {}

  /** g_days_to_dmy is the calendar: it starts on 1 January 1970 and each day leads to the next date. */
  lemma DmyFollowsTheCalendar(days: nat)
    ensures Dmy(0) == Date(1, 0, 1970)
    ensures Dmy(days + 1) == NextDay(Dmy(days))
  {
    hide Dmy, Valid, Gregorian, NextDay, Leap;
    DmyStarts();
    DmyIsValid(days);
    DmyIsValid(days + 1);
    GregorianNext(Dmy(days));
    NextIsValid(Dmy(days));
    GregorianInjective(Dmy(days + 1), NextDay(Dmy(days)));
  }

  /** The Gregorian branch and g_days_to_dmy are inverse. */
  lemma DmyInvertsGregorian(d: Date)
    requires Valid(d) && Gregorian(d) >= 0
    ensures Dmy(Gregorian(d)) == d
  {
    DmyIsValid(Gregorian(d));
    GregorianInjective(Dmy(Gregorian(d)), d);
  }

  /** The branch that is compiled in agrees with the calendar from March 1900 to February 2100 and nowhere else. */
  lemma LulianIff(d: Date)
    ensures Lulian(d) == Gregorian(d) <==> 6700 <= MarchYear(d) <= 6899
  {}

  lemma LulianGap(d: Date)
    ensures Lulian(d) == Gregorian(d) + MarchYear(d) / 100 - MarchYear(d) / 400 - 51
  {}

  // The last day before 1 March 2100.
  const LAST_DAY := 47540

  lemma LulianOfDmy(days: nat)
    requires days <= 49710
    ensures Lulian(Dmy(days)) == days + (if days <= LAST_DAY then 0 else 1)
    ensures 0 <= Dmy(days).month < 12 && 0 <= MarchYear(Dmy(days)) < 7000
  {
    DmyIsValid(days);
    LulianGap(Dmy(days));
    var b := (4 * (days + EPOCH + 32045) + 3) / 146097;
    assert 67 <= b <= 69 && (b <= 68 <==> days <= LAST_DAY);
    hide Dmy, Gregorian, Lulian, MarchYear;
  }

  // ----- the code

  // The last day count g_days_to_dmy can take without overflowing 32 bits (Dmy32Iff).
  const LAST_COUNT := 1071269191

  /** struct tm: months from 0, years from 1900. */
  class Tm {
    var sec: int
    var min: int
    var hour: int
    var mday: int
    var mon: int
    var year: int
    var wday: int

    function When(): Date
      reads this
    {
      Date(mday, mon, year + 1900)
    }

    function Seconds(): int
      reads this
    {
      sec + min * 60 + hour * 3600
    }
  }

  /** Splits off the time of day. */
  lemma Hms(timestamp: Word)
    ensures var n := timestamp - timestamp / 86400 * 86400; var v := n / 60; var h := v / 60;
      && 0 <= n < 86400 && 0 <= n - v * 60 < 60 && 0 <= v - h * 60 < 60 && 0 <= h < 24
  {}

  method TimestampToHms(timestamp: Word, t: Tm) returns (days: Word)
    modifies t`sec, t`min, t`hour
    ensures timestamp == days * 86400 + t.Seconds()
    ensures 0 <= t.sec < 60 && 0 <= t.min < 60 && 0 <= t.hour < 24
  {
    Hms(timestamp);
    Div86400Exact(timestamp);
    days := Div86400(timestamp);
    var n: Word := timestamp - days * 86400;
    Div60Exact(n);
    var v: Word := Div60(n);
    t.sec := n - v * 60;
    Div60Exact(v);
    n := v;
    v := Div60(n);
    t.min := n - v * 60;
    t.hour := v;
    hide Div60, Div86400;
  }

  lemma Small(x: int)
    requires 0 <= x < 0x1_0000_0000
    ensures U32(x) == x
  {}

  // The three stages of g_days_to_dmy in 32 bits: century and day of the century, year and day of the year, date.

  function Century32(a: Word): (Word, Word) {
    var b := Div146097(U32(4 * a + 3));
    (U32(b), U32(a - U32(146097 * b) / 4))
  }

  function Year32(c: Word): (Word, Word) {
    var d := Div1461(U32(4 * c + 3));
    (U32(d), U32(c - U32(1461 * d) / 4))
  }

  function Date32(b: Word, d: Word, e: Word): Date {
    var m: Word := U32(Div153(U32(5 * e + 2)));
    Date(U32(e - Div5(U32(153 * m + 2)) + 1), U32(m + 2 - 12 * Div10(m)), U32(100 * b + d - 4800 + Div10(m)))
  }

  lemma Century32Exact(a: Word)
    requires a <= 1073741823
    ensures var b := (4 * a + 3) / 146097; Century32(a) == (b, a - 146097 * b / 4)
  {
    var b := (4 * a + 3) / 146097;
    Centuries(a);
    Small(4 * a + 3);
    Div146097Exact(4 * a + 3);
    Small(146097 * b); Small(b); Small(a - 146097 * b / 4);
    hide U32, Div146097;
  }

  lemma Year32Exact(c: Word)
    requires c <= 36524
    ensures var d := (4 * c + 3) / 1461; Year32(c) == (d, c - 1461 * d / 4)
  {
    var d := (4 * c + 3) / 1461;
    Years(c);
    Small(4 * c + 3);
    Div1461Exact(4 * c + 3);
    Small(1461 * d); Small(d); Small(c - 1461 * d / 4);
    hide U32, Div1461;
  }

  lemma Month32Exact(e: Word)
    requires e <= 365
    ensures var m := (5 * e + 2) / 153;
      m <= 11 && U32(Div153(U32(5 * e + 2))) == m && Div5(U32(153 * m + 2)) == (153 * m + 2) / 5 && Div10(m) == m / 10
  {
    var m := (5 * e + 2) / 153;
    Small(5 * e + 2); Div153Exact(5 * e + 2);
    Small(m); Small(153 * m + 2); Div5Exact(153 * m + 2); Div10Exact(m);
    hide U32, Div153, Div5, Div10;
  }

  lemma Date32Exact(b: Word, d: Word, e: Word)
    requires d <= 99 && e <= 365
    ensures var r := OfParts(b, d, e); Date32(b, d, e) == Date(r.day, r.month, U32(r.year))
  {
    var m := (5 * e + 2) / 153;
    Months(e);
    Month32Exact(e);
    Small(m + 2 - 12 * (m / 10)); Small(e - (153 * m + 2) / 5 + 1);
    assert (100 * b + d - 4800 + m / 10) == OfParts(b, d, e).year;
    hide Div153, Div5, Div10, Before, U32, MonthLength;
  }

  /** g_days_to_dmy as it computes. */
  function Dmy32(days: Word): Date { Stages32(U32(days + (2440587 + 32045))) }

  function Stages32(a: Word): Date {
    var (b, c) := Century32(a);
    var (d, e) := Year32(c);
    Date32(b, d, e)
  }

  lemma StagesExact(a: Word)
    requires a <= 1073741823
    ensures var r := Stages(a); Stages32(a) == Date(r.day, r.month, U32(r.year))
  {
    hide U32, Century32, Year32, Date32, OfParts;
    var b := (4 * a + 3) / 146097;
    var c := a - 146097 * b / 4;
    var d := (4 * c + 3) / 1461;
    Centuries(a);
    Century32Exact(a);
    Years(c);
    Year32Exact(c);
    Date32Exact(b, d, c - 1461 * d / 4);
  }

  lemma YearOfStages(a: nat)
    ensures var y := 100 * ((4 * a + 3) / 146097) - 4800; y <= Stages(a).year <= y + 100
  {
    var b := (4 * a + 3) / 146097;
    var c := a - 146097 * b / 4;
    var d := (4 * c + 3) / 1461;
    Centuries(a);
    Years(c);
    Months(c - 1461 * d / 4);
    assert Stages(a) == OfParts(b, d, c - 1461 * d / 4);
    hide Before, MonthLength;
  }

  lemma Dmy32Exact(days: Word)
    requires days <= LAST_COUNT
    ensures Dmy32(days) == Dmy(days)
  {
    hide Stages, Stages32;
    var a := days + EPOCH + 32045;
    Small(a);
    StagesExact(a);
    YearOfStages(a);
    Small(Stages(a).year);
  }

  // Past it 4 * a + 3 wraps around, what is left over goes into the month, and the month is none.

  lemma Wraps(x: int, q: nat)
    requires q * 0x1_0000_0000 <= x < (q + 1) * 0x1_0000_0000
    ensures U32(x) == x - q * 0x1_0000_0000
  {
    var r := x - q * 0x1_0000_0000;
    assert x == r + q * 0x1_0000_0000 && 0 <= r < 0x1_0000_0000;
  }

  lemma CenturyWraps(q: nat, a: Word)
    requires 1 <= q <= 3 && a < 0x4000_0000
    ensures var c := Century32(a); Century32(q * 0x4000_0000 + a) == (c.0, q * 0x4000_0000 + c.1)
    ensures Century32(a).1 <= 36524
  {
    Century32Exact(a);
    Centuries(a);
    Wraps(4 * (q * 0x4000_0000 + a) + 3, q);
    Small(4 * a + 3);
    var b := (4 * a + 3) / 146097;
    Div146097Exact(4 * a + 3);
    Small(b); Small(146097 * b); Small(q * 0x4000_0000 + (a - 146097 * b / 4));
    hide U32, Div146097;
  }

  lemma YearWraps(q: nat, c: Word)
    requires 1 <= q <= 3 && c <= 36524
    ensures var e := Year32(c); Year32(q * 0x4000_0000 + c) == (e.0, q * 0x4000_0000 + e.1)
    ensures Year32(c).1 <= 365
  {
    Year32Exact(c);
    Years(c);
    Wraps(4 * (q * 0x4000_0000 + c) + 3, q);
    Small(4 * c + 3);
    var d := (4 * c + 3) / 1461;
    Div1461Exact(4 * c + 3);
    Small(d); Small(1461 * d); Small(q * 0x4000_0000 + (c - 1461 * d / 4));
    hide U32, Div1461;
  }

  lemma NoSuchMonth(b: Word, d: Word, q: nat, e: Word)
    requires 1 <= q <= 3 && e <= 365
    ensures Date32(b, d, q * 0x4000_0000 + e).month > 11
  {
    var x := q * 0x4000_0000 + 5 * e + 2;
    Wraps(5 * (q * 0x4000_0000 + e) + 2, q);
    Div153Exact(x);
    var m := x / 153;
    Small(m); Div10Exact(m);
    assert 0x4000_0000 / 153 <= m < 0x1_0000_0000 / 153;
    assert -0x1_0000_0000 < m + 2 - 12 * (m / 10) < -12;
    WrapsBelow(m + 2 - 12 * (m / 10));
    hide U32, Div153, Div10, Div5;
  }

  lemma WrapsBelow(x: int)
    requires -0x1_0000_0000 <= x < 0
    ensures U32(x) == x + 0x1_0000_0000
  {
    var y := x + 0x1_0000_0000;
    assert x == y + -1 * 0x1_0000_0000;
  }

  /** g_days_to_dmy is right up to that count and for no other word. */
  lemma Dmy32Iff(days: Word)
    ensures Dmy32(days) == Dmy(days) <==> days <= LAST_COUNT
  {
    if days <= LAST_COUNT {
      Dmy32Exact(days);
    } else {
      Dmy32Fails(days);
    }
  }

  lemma Dmy32Fails(days: Word)
    requires days > LAST_COUNT
    ensures Dmy32(days) != Dmy(days)
  {
    hide U32, Stages, Stages32;
    var a := days + EPOCH + 32045;
    DmyIsValid(days);
    if a < 0x1_0000_0000 {
      Small(a);
      MonthFails(a);
    } else {
      Wraps(a, 1);
      YearFails(a - 0x1_0000_0000, a);
    }
  }

  lemma MonthFails(a: Word)
    requires a >= 0x4000_0000
    ensures Stages32(a).month > 11
  {
    hide Century32, Year32, Date32;
    var q := a / 0x4000_0000;
    var low := a - q * 0x4000_0000;
    CenturyWraps(q, low);
    var (b, c) := Century32(low);
    YearWraps(q, c);
    var (d, e) := Year32(c);
    NoSuchMonth(b, d, q, e);
  }

  lemma YearFails(low: nat, a: nat)
    requires low < EPOCH + 32045 && a == low + 0x1_0000_0000
    ensures Stages32(low).year != Stages(a).year
  {
    hide Stages, Stages32;
    StagesExact(low);
    YearOfStages(low);
    YearOfStages(a);
    var y := Stages(low).year;
    if y < 0 { WrapsBelow(y); } else { Small(y); }
    hide U32;
  }

  /** _mktime with the full Gregorian branch as it computes. */
  function Gregorian32(d: Date): Word {
    var y: Word := U32(d.year + 4800 - (if d.month < 2 then 1 else 0));
    var c := Div100(y);
    U32(d.day + Before(d.month) + 365 * y + y / 4 - c + c / 4 - (32046 + 2440587))
  }

  /** It is the Gregorian count modulo 2^32, for every year that fits. */
  lemma Gregorian32Exact(d: Date)
    requires 0 <= MarchYear(d) < 0x1_0000_0000
    ensures Gregorian32(d) == U32(Gregorian(d))
  {
    var y := MarchYear(d);
    Small(y);
    Div100Exact(y);
    assert y / 100 / 4 == y / 400;
    hide U32, Div100;
  }

  /** So it is the inverse of the true calendar on every word of days, and of the code's own conversion as long as
      that is right. */
  lemma Gregorian32InvertsDmy(days: Word)
    ensures Gregorian32(Dmy(days)) == days
    ensures days <= LAST_COUNT ==> Gregorian32(Dmy32(days)) == days
  {
    hide Dmy, Dmy32, Stages, U32, Gregorian, Gregorian32;
    DmyIsValid(days);
    if days <= LAST_COUNT { Dmy32Exact(days); }
    YearOfStages(days + EPOCH + 32045);
    Dmy32Means(days);
    Gregorian32Exact(Dmy(days));
    Small(days);
  }

  lemma Dmy32Means(days: nat)
    ensures Dmy(days) == Stages(days + EPOCH + 32045)
  {}

  method DaysToDmy(days: Word, t: Tm)
    modifies t`mday, t`mon, t`year
    ensures t.When() == Dmy32(days)
    ensures t.When() == Dmy(days) <==> days <= LAST_COUNT
  {
    Dmy32Iff(days);
    hide U32, Century32, Year32, Date32, Dmy;
    var a: Word := U32(days + (2440587 + 32045));
    var (b, c) := Century32(a);
    var (d, e) := Year32(c);
    var date := Date32(b, d, e);
    t.mon, t.mday, t.year := date.month, date.day, date.year - 1900;
  }

  /** localtime_r: the fields of the instant `timezone` seconds before. */
  method LocaltimeR(timer: Word, timezone: int, t: Tm)
    modifies t
    ensures var ts := U32(timer - timezone);
      && t.When() == Dmy(ts / 86400) && Valid(t.When())
      && t.Seconds() == ts % 86400
      && 0 <= t.sec < 60 && 0 <= t.min < 60 && 0 <= t.hour < 24
      && t.wday == (ts / 86400 + 4) % 7
  {
    hide Dmy, Valid, Rem7;
    var ts: Word := U32(timer - timezone);
    var days := TimestampToHms(ts, t);
    assert days == ts / 86400;
    DmyIsValid(days);
    Rem7Exact(days + 4);
    t.wday := Rem7(days + 4);
    DaysToDmy(days, t);
  }

  lemma U32Multiple(x: int, j: int)
    ensures U32(x + 0x1_0000_0000 * j) == U32(x)
  {}

  lemma U32Times(x: int, l: int)
    ensures U32(x + U32(l) * 86400) == U32(x + l * 86400)
  {
    var j := l / 0x1_0000_0000;
    assert l == U32(l) + 0x1_0000_0000 * j;
    U32Multiple(x + U32(l) * 86400, j * 86400);
  }

  /** _mktime. The month is an index of the table of month starts; the years are those a tm_year can count. */
  method MkTime(t: Tm, timezone: int) returns (ts: Word)
    requires 0 <= t.mon < 12 && 0 <= MarchYear(t.When()) < 0x1_0000_0000
    modifies t`wday
    ensures ts == U32(t.Seconds() + timezone + Lulian(t.When()) * 86400)
    ensures 0 <= Lulian(t.When()) < 3435973837 ==> t.wday == (Lulian(t.When()) + 4) % 7
  {
    var d := t.When();
    Small(MarchYear(d));
    var y: int := U32(t.year + 1900 + 4800 - (if t.mon < 2 then 1 else 0));
    assert y == MarchYear(d);
    var yday: int := U32(t.mday + Before(t.mon) + 365 * y + y / 4 - (32097 + 2440587));
    assert yday == U32(Lulian(d));
    hide Lulian, MarchYear, Before;
    U32Times(t.Seconds() + timezone, Lulian(d));
    if 0 <= Lulian(d) < 3435973837 {
      Small(Lulian(d)); Small(yday + 4);
      Rem7Exact(yday + 4);
    }
    hide U32, Rem7;
    t.wday := Rem7(U32(yday + 4));
    ts := U32(t.Seconds() + timezone + yday * 86400);
  }

  lemma BackAgain(timer: Word, timezone: int)
    ensures var u := U32(timer - timezone);
      && U32(u % 86400 + timezone + u / 86400 * 86400) == timer
      && U32(u % 86400 + timezone + (u / 86400 + 1) * 86400) != timer
  {
    var u := U32(timer - timezone);
    var j := (timer - timezone) / 0x1_0000_0000;
    assert timer - timezone == u + 0x1_0000_0000 * j;
    U32Multiple(timer, -j);
    U32Multiple(timer + 86400, -j);
  }

  /** From 1970 to the end of February 2100, and no further, the two conversions are inverse, in every time zone. */
  lemma RoundTripIff(timer: Word, timezone: int)
    ensures var u := U32(timer - timezone);
      U32(u % 86400 + timezone + Lulian(Dmy(u / 86400)) * 86400) == timer <==> u / 86400 <= LAST_DAY
  {
    var u := U32(timer - timezone);
    LulianOfDmy(u / 86400);
    BackAgain(timer, timezone);
    hide U32, Lulian, Dmy;
  }

  method LocaltimeThenMkTime(timer: Word, timezone: int, t: Tm) returns (ts: Word)
    modifies t
    ensures ts == timer <==> U32(timer - timezone) / 86400 <= LAST_DAY
    ensures U32(timer - timezone) / 86400 <= LAST_DAY ==> t.wday == (U32(timer - timezone) / 86400 + 4) % 7
  {
    hide U32, Lulian, Dmy, MarchYear, Valid;
    LocaltimeR(timer, timezone, t);
    var u := U32(timer - timezone);
    LulianOfDmy(u / 86400);
    RoundTripIff(timer, timezone);
    ts := MkTime(t, timezone);
  }
}
