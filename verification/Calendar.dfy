/** The calendar of the wire layer: seconds since the epoch to civil fields and
    back, over the whole proleptic Gregorian calendar.

    The reference the two conversions are proved against is the calendar itself,
    one day at a time: `Tomorrow` knows only month lengths and leap years. */
module Calendar {

  /** Integer division as the source language defines it: towards zero. */
  function TruncatingDiv(a: int, b: int): int
    requires b > 0
  {
    if a >= 0 then a / b else -((-a) / b)
  }

  datatype Date = Date(year: int, month: int, day: int)

  datatype Civil = Civil(date: Date, hour: int, minute: int, second: int)

  predicate IsLeap(year: int) {
    year % 4 == 0 && (year % 100 != 0 || year % 400 == 0)
  }

  /** Appendix C and section 5.7 of RFC 3339. */
  function MonthLength(year: int, month: int): int {
    if month == 2 then (if IsLeap(year) then 29 else 28)
    else if month == 4 || month == 6 || month == 9 || month == 11 then 30
    else 31
  }

  predicate ValidDate(d: Date) {
    1 <= d.month <= 12 && 1 <= d.day <= MonthLength(d.year, d.month)
  }

  /** The day after `d` on a wall calendar. */
  function Tomorrow(d: Date): Date {
    if d.day < MonthLength(d.year, d.month) then d.(day := d.day + 1)
    else if d.month < 12 then Date(d.year, d.month + 1, 1)
    else Date(d.year + 1, 1, 1)
  }

  // ---------------------------------------------------------------- model

  function DateOfDay(days: int): Date {
    var z := days + 719_468;
    var era := TruncatingDiv(if z >= 0 then z else z - 146_096, 146_097);
    DateInEra(era, z - era * 146_097)
  }

  function DateInEra(era: int, doe: int): Date {
    var yoe := YearOfEra(doe);
    var y := yoe + era * 400;
    var doy := doe - (365 * yoe + TruncatingDiv(yoe, 4) - TruncatingDiv(yoe, 100));
    MarchDate(y, doy)
  }

  /** Day `doy` of the March-based year `y`. */
  function MarchDate(y: int, doy: int): Date {
    var mp := TruncatingDiv(5 * doy + 2, 153);
    var d := doy - TruncatingDiv(153 * mp + 2, 5) + 1;
    var m := if mp < 10 then mp + 3 else mp - 9;
    Date(y + (if m <= 2 then 1 else 0), m, d)
  }

  function YearOfEra(doe: int): int {
    TruncatingDiv(doe - TruncatingDiv(doe, 1460) + TruncatingDiv(doe, 36_524) - TruncatingDiv(doe, 146_096), 365)
  }

  function CivilFromUnix(secs: int): Civil {
    var days := secs / 86_400;
    var rem := secs % 86_400;
    Civil(DateOfDay(days), rem / 3600, (rem % 3600) / 60, rem % 60)
  }

  function DaysFromCivil(year: int, month: int, day: int): int {
    var y := if month <= 2 then year - 1 else year;
    var era := TruncatingDiv(if y >= 0 then y else y - 399, 400);
    var yoe := y - era * 400;
    var mp := if month > 2 then month - 3 else month + 9;
    var doy := TruncatingDiv(153 * mp + 2, 5) + day - 1;
    var doe := yoe * 365 + TruncatingDiv(yoe, 4) - TruncatingDiv(yoe, 100) + doy;
    era * 146_097 + doe - 719_468
  }

  // ------------------------------------------------------- the year of an era

  /** First day, counted from the start of its era, of the year that begins in
      March of year-of-era `k`. */
  function YearStart(k: int): int {
    365 * k + k / 4 - k / 100
  }

  lemma MultipleWithin(d: int, m: int)
    requires 0 < d && -d < d * m < d
    ensures m == 0
  {
  }

  lemma QuotientIs(x: int, d: int, k: int)
    requires 0 < d && k * d <= x < k * d + d
    ensures x / d == k
  {
    var q := x / d;
    assert x == d * q + x % d;
    assert d * (q - k) == d * q - k * d;
    MultipleWithin(d, q - k);
  }

  lemma YearOfEraIs(doe: int, y4: int, c: int, last: int, k: int)
    requires 0 <= doe
    requires 1460 * y4 <= doe < 1460 * y4 + 1460
    requires 36_524 * c <= doe < 36_524 * c + 36_524
    requires 146_096 * last <= doe < 146_096 * last + 146_096
    requires 0 <= 365 * k <= doe - y4 + c - last < 365 * k + 365
    ensures YearOfEra(doe) == k
  {
    QuotientIs(doe, 1460, y4);
    QuotientIs(doe, 36_524, c);
    QuotientIs(doe, 146_096, last);
    QuotientIs(doe - y4 + c - last, 365, k);
  }

  lemma YearStartCoordinates(c: int, q: int, a: int)
    requires 0 <= c <= 3 && 0 <= q <= 24 && 0 <= a <= 3
    ensures YearStart(100 * c + 4 * q + a) == 36_524 * c + 1461 * q + 365 * a
  {
    QuotientIs(100 * c + 4 * q + a, 4, 25 * c + q);
    QuotientIs(100 * c + 4 * q + a, 100, c);
  }

  /** An era splits into centuries, four-year cycles and years; in those
      coordinates the corrections of `YearOfEra` cancel the leap days. */
  lemma YearOfEraCoordinates(c: int, q: int, a: int, t: int)
    requires 0 <= c <= 3 && 0 <= q <= 24 && 0 <= a <= 3 && 0 <= t <= 365
    requires t == 365 ==> a == 3 && (q == 24 ==> c == 3)
    ensures YearOfEra(36_524 * c + 1461 * q + 365 * a + t) == 100 * c + 4 * q + a
  {
    var doe := 36_524 * c + 1461 * q + 365 * a + t;
    var leap := if 24 * c + q + 365 * a + t >= 1460 then 1 else 0;
    var last := if doe == 146_096 then 1 else 0;
    YearOfEraIs(doe, 25 * c + q + leap, c + last, last, 100 * c + 4 * q + a);
  }

  lemma YearOfEraLocates(doe: int)
    requires 0 <= doe < 146_097
    ensures 0 <= YearOfEra(doe) < 400
    ensures YearStart(YearOfEra(doe)) <= doe
    ensures YearOfEra(doe) < 399 ==> doe < YearStart(YearOfEra(doe) + 1)
  {
    var c, q, a, t := EraCoordinates(doe);
    YearOfEraCoordinates(c, q, a, t);
    YearStartCoordinates(c, q, a);
    if a < 3 {
      YearStartCoordinates(c, q, a + 1);
    } else if q < 24 {
      YearStartCoordinates(c, q + 1, 0);
    } else if c < 3 {
      YearStartCoordinates(c + 1, 0, 0);
    }
  }

  lemma EraCoordinates(doe: int) returns (c: int, q: int, a: int, t: int)
    requires 0 <= doe < 146_097
    ensures 0 <= c <= 3 && 0 <= q <= 24 && 0 <= a <= 3 && 0 <= t <= 365
    ensures t == 365 ==> a == 3 && (q == 24 ==> c == 3)
    ensures doe == 36_524 * c + 1461 * q + 365 * a + t
  {
    c := if doe < 36_524 then 0 else if doe < 73_048 then 1 else if doe < 109_572 then 2 else 3;
    var r := doe - 36_524 * c;
    q := r / 1461;
    var s := r - 1461 * q;
    a := if s < 365 then 0 else if s < 730 then 1 else if s < 1095 then 2 else 3;
    t := s - 365 * a;
  }

  // --------------------------------------------- years that begin in March

  /** Length of the year-of-era `k`, whose last day is the end of February. */
  function YearLength(k: int): int {
    if IsLeap(k + 1) then 366 else 365
  }

  /** First day of March-based month `mp`. */
  function MonthStart(mp: int): int
    requires 0 <= mp <= 11
  {
    [0, 31, 61, 92, 122, 153, 184, 214, 245, 275, 306, 337][mp]
  }

  lemma MonthStartFormula(mp: int)
    requires 0 <= mp <= 11
    ensures TruncatingDiv(153 * mp + 2, 5) == MonthStart(mp)
  {
  }

  lemma MarchDateIs(y: int, mp: int, dom: int)
    requires 0 <= mp <= 11 && 1 <= dom <= 31
    requires mp < 11 ==> MonthStart(mp) + dom <= MonthStart(mp + 1)
    requires mp == 11 ==> dom <= 29
    ensures MarchDate(y, MonthStart(mp) + dom - 1)
         == Date(if mp < 10 then y else y + 1, if mp < 10 then mp + 3 else mp - 9, dom)
  {
    QuotientIs(5 * (MonthStart(mp) + dom - 1) + 2, 153, mp);
    MonthStartFormula(mp);
  }

  lemma MarchCoordinates(doy: int) returns (mp: int, dom: int)
    requires 0 <= doy <= 365
    ensures 0 <= mp <= 11 && 1 <= dom <= 31
    ensures doy == MonthStart(mp) + dom - 1
    ensures mp < 11 ==> MonthStart(mp) + dom <= MonthStart(mp + 1)
  {
    mp := 0;
    while mp < 11 && MonthStart(mp + 1) <= doy
      invariant 0 <= mp <= 11 && MonthStart(mp) <= doy
    {
      mp := mp + 1;
    }
    dom := doy - MonthStart(mp) + 1;
  }

  lemma LeapYearsRepeat(era: int, k: int)
    ensures IsLeap(400 * era + k) == IsLeap(k)
  {
    QuotientIs(400 * era + k, 4, 100 * era + k / 4);
    QuotientIs(400 * era + k, 100, 4 * era + k / 100);
    QuotientIs(400 * era + k, 400, era + k / 400);
  }

  lemma YearStartStep(k: int)
    requires 0 <= k < 400
    ensures YearStart(0) == 0
    ensures k < 399 ==> YearStart(k + 1) == YearStart(k) + YearLength(k)
    ensures k == 399 ==> YearStart(k) + YearLength(k) == 146_097
  {
    QuotientSteps(k, 4);
    QuotientSteps(k, 100);
    if k < 399 {
      assert (k + 1) % 400 != 0;
    }
  }

  lemma QuotientSteps(k: int, d: int)
    requires 0 <= k && (d == 4 || d == 100)
    ensures (k + 1) / d == k / d + (if (k + 1) % d == 0 then 1 else 0)
  {
    if (k + 1) % d == 0 {
      QuotientIs(k, d, (k + 1) / d - 1);
    } else {
      QuotientIs(k, d, (k + 1) / d);
    }
  }

  // ------------------------------------------------------------- day numbers

  /** A day number in coordinates: era, year of the era, day of that year. */
  predicate Located(days: int, era: int, k: int, doy: int) {
    && 0 <= k < 400
    && 0 <= doy < YearLength(k)
    && days + 719_468 == 146_097 * era + YearStart(k) + doy
  }

  lemma Locate(days: int) returns (era: int, k: int, doy: int)
    ensures Located(days, era, k, doy)
  {
    era := (days + 719_468) / 146_097;
    var doe := (days + 719_468) % 146_097;
    k := YearOfEra(doe);
    YearOfEraLocates(doe);
    YearStartStep(k);
    doy := doe - YearStart(k);
  }

  lemma YearOfEraFromStart(k: int, doy: int)
    requires 0 <= k < 400 && 0 <= doy < YearLength(k)
    ensures 0 <= YearStart(k) + doy < 146_097
    ensures YearOfEra(YearStart(k) + doy) == k
  {
    YearStartStep(k);
    YearStartMonotonic(0, k);
    if k < 399 { YearStartMonotonic(k + 1, 399); }
    var doe := YearStart(k) + doy;
    YearOfEraLocates(doe);
    var j := YearOfEra(doe);
    if j < k {
      YearStartMonotonic(j + 1, k);
    } else if k < j {
      YearStartMonotonic(k + 1, j);
    }
  }

  lemma {:induction false} YearStartMonotonic(j: int, k: int)
    requires 0 <= j <= k
    ensures YearStart(j) <= YearStart(k)
    decreases k
  {
    if j < k {
      YearStartMonotonic(j, k - 1);
    }
  }

  lemma DateInEraLocated(era: int, k: int, doy: int)
    requires 0 <= k < 400 && 0 <= doy < YearLength(k)
    ensures DateInEra(era, YearStart(k) + doy) == MarchDate(400 * era + k, doy)
  {
    YearOfEraFromStart(k, doy);
    hide YearOfEra, MarchDate, YearLength;
  }

  lemma DateOfDayLocated(days: int, era: int, k: int, doy: int)
    requires Located(days, era, k, doy)
    ensures DateOfDay(days) == MarchDate(400 * era + k, doy)
  {
    YearOfEraFromStart(k, doy);
    TruncatingEra(days + 719_468, era, 146_097);
    DateInEraLocated(era, k, doy);
    hide DateInEra, MarchDate, YearLength, YearStart, YearOfEra;
  }

  /** The guard in front of the era division turns truncation into floor. */
  lemma TruncatingEra(z: int, era: int, d: int)
    requires 1 < d && d * era <= z < d * era + d
    ensures TruncatingDiv(if z >= 0 then z else z - (d - 1), d) == era
  {
    if z >= 0 {
      QuotientIs(z, d, era);
    } else {
      QuotientIs(-(z - (d - 1)), d, -era);
    }
  }

  lemma DaysFromMarch(era: int, k: int, mp: int, dom: int)
    requires 0 <= k < 400 && 0 <= mp <= 11
    ensures DaysFromCivil(if mp < 10 then 400 * era + k else 400 * era + k + 1, if mp < 10 then mp + 3 else mp - 9, dom)
         == 146_097 * era + YearStart(k) + MonthStart(mp) + dom - 1 - 719_468
  {
    MonthStartFormula(mp);
    TruncatingEra(400 * era + k, era, 400);
    hide MonthStart;
  }

  lemma MarchIsValid(y: int, mp: int, dom: int, doy: int)
    requires 0 <= mp <= 11 && 1 <= dom <= 31 && doy == MonthStart(mp) + dom - 1
    requires mp < 11 ==> MonthStart(mp) + dom <= MonthStart(mp + 1)
    requires mp == 11 ==> doy < (if IsLeap(y + 1) then 366 else 365)
    ensures ValidDate(Date(if mp < 10 then y else y + 1, if mp < 10 then mp + 3 else mp - 9, dom))
  {
    hide IsLeap;
  }

  lemma DaysFromCivilLocated(days: int, era: int, k: int, doy: int)
    requires Located(days, era, k, doy)
    ensures ValidDate(MarchDate(400 * era + k, doy))
    ensures var d := MarchDate(400 * era + k, doy);
            DaysFromCivil(d.year, d.month, d.day) == days
  {
    var mp, dom := MarchCoordinates(doy);
    FebruaryFits(k, mp, dom, doy);
    DateIsValid(era, k, mp, dom, doy);
    DaysOfMarchDate(days, era, k, mp, dom, doy);
    hide MarchDate, DaysFromCivil, ValidDate;
  }

  lemma DaysOfMarchDate(days: int, era: int, k: int, mp: int, dom: int, doy: int)
    requires Located(days, era, k, doy) && 0 <= mp <= 11 && 1 <= dom <= 31 && doy == MonthStart(mp) + dom - 1
    requires mp < 11 ==> MonthStart(mp) + dom <= MonthStart(mp + 1)
    requires mp == 11 ==> dom <= 29
    ensures var d := MarchDate(400 * era + k, doy);
      DaysFromCivil(d.year, d.month, d.day) == days
  {
    MarchDateIs(400 * era + k, mp, dom);
    DaysFromMarch(era, k, mp, dom);
    hide MarchDate, DaysFromCivil, MonthStart, YearStart, YearLength;
  }

  lemma DateIsValid(era: int, k: int, mp: int, dom: int, doy: int)
    requires 0 <= mp <= 11 && 1 <= dom <= 31 && doy == MonthStart(mp) + dom - 1
    requires mp < 11 ==> MonthStart(mp) + dom <= MonthStart(mp + 1)
    requires mp == 11 ==> dom <= 29 && doy < (if IsLeap(k + 1) then 366 else 365)
    ensures ValidDate(MarchDate(400 * era + k, doy))
  {
    LeapYearsRepeat(era, k + 1);
    MarchDateIs(400 * era + k, mp, dom);
    assert 400 * era + k + 1 == 400 * era + (k + 1);
    hide MarchDate, IsLeap, MonthStart, ValidDate;
    MarchIsValid(400 * era + k, mp, dom, doy);
  }

  lemma FebruaryFits(k: int, mp: int, dom: int, doy: int)
    requires 0 <= mp <= 11 && doy == MonthStart(mp) + dom - 1 && doy < YearLength(k)
    ensures mp == 11 ==> dom <= 29 && doy < (if IsLeap(k + 1) then 366 else 365)
  {
    hide IsLeap;
  }

  lemma LocateDate(d: Date) returns (days: int, era: int, k: int, doy: int)
    requires ValidDate(d)
    ensures Located(days, era, k, doy)
    ensures MarchDate(400 * era + k, doy) == d
  {
    var y := if d.month <= 2 then d.year - 1 else d.year;
    era, k := y / 400, y % 400;
    var mp := if d.month > 2 then d.month - 3 else d.month + 9;
    doy := MonthStart(mp) + d.day - 1;
    days := 146_097 * era + YearStart(k) + doy - 719_468;
    LeapYearsRepeat(era, k + 1);
    MarchDateIs(y, mp, d.day);
  }

  // ------------------------------------------------------------ main results

  /** Every day number has a date that exists in the calendar. */
  lemma DateOfDayValid(days: int)
    ensures ValidDate(DateOfDay(days))
  {
    var era, k, doy := Locate(days);
    DateOfDayLocated(days, era, k, doy);
    DaysFromCivilLocated(days, era, k, doy);
  }

  lemma DayRoundTrip(days: int)
    ensures var d := DateOfDay(days); DaysFromCivil(d.year, d.month, d.day) == days
  {
    var era, k, doy := Locate(days);
    DateOfDayLocated(days, era, k, doy);
    DaysFromCivilLocated(days, era, k, doy);
  }

  lemma DateRoundTrip(d: Date)
    requires ValidDate(d)
    ensures DateOfDay(DaysFromCivil(d.year, d.month, d.day)) == d
  {
    var days, era, k, doy := LocateDate(d);
    DaysFromCivilLocated(days, era, k, doy);
    DateOfDayLocated(days, era, k, doy);
  }

  /** The conversion agrees with the calendar day by day, in every era: with
      the epoch below this determines it completely. */
  lemma NextDayIsTomorrow(days: int)
    ensures DateOfDay(days + 1) == Tomorrow(DateOfDay(days))
  {
    hide DateOfDay, MarchDate, YearStart;
    var era, k, doy := Locate(days);
    DateOfDayLocated(days, era, k, doy);
    LeapYearsRepeat(era, k + 1);
    YearStartStep(k);
    var mp, dom := MarchCoordinates(doy);
    MarchDateIs(400 * era + k, mp, dom);
    if doy + 1 < YearLength(k) {
      DateOfDayLocated(days + 1, era, k, doy + 1);
      if mp < 11 && doy + 1 == MonthStart(mp + 1) {
        MarchDateIs(400 * era + k, mp + 1, 1);
      } else {
        MarchDateIs(400 * era + k, mp, dom + 1);
      }
    } else if k < 399 {
      DateOfDayLocated(days + 1, era, k + 1, 0);
      MarchDateIs(400 * era + k + 1, 0, 1);
    } else {
      DateOfDayLocated(days + 1, era + 1, 0, 0);
      MarchDateIs(400 * (era + 1), 0, 1);
    }
  }

  lemma EpochDate()
    ensures DateOfDay(0) == Date(1970, 1, 1)
  {
  }

  /** Seconds of a civil time, by the rules of the clock. */
  function UnixFromCivil(c: Civil): int {
    DaysFromCivil(c.date.year, c.date.month, c.date.day) * 86_400 + c.hour * 3600 + c.minute * 60 + c.second
  }

  predicate ValidCivil(c: Civil) {
    ValidDate(c.date) && 0 <= c.hour < 24 && 0 <= c.minute < 60 && 0 <= c.second < 60
  }

  lemma UnixRoundTrip(secs: int)
    ensures ValidCivil(CivilFromUnix(secs))
    ensures UnixFromCivil(CivilFromUnix(secs)) == secs
  {
    hide DateOfDay, DaysFromCivil;
    DateOfDayValid(secs / 86_400);
    DayRoundTrip(secs / 86_400);
  }

  lemma CivilRoundTrip(c: Civil)
    requires ValidCivil(c)
    ensures CivilFromUnix(UnixFromCivil(c)) == c
  {
    hide DateOfDay, DaysFromCivil;
    var days := DaysFromCivil(c.date.year, c.date.month, c.date.day);
    DateRoundTrip(c.date);
    var rem := c.hour * 3600 + c.minute * 60 + c.second;
    QuotientIs(days * 86_400 + rem, 86_400, days);
    QuotientIs(rem, 3600, c.hour);
    QuotientIs(rem % 3600, 60, c.minute);
  }

  predicate DateBefore(a: Date, b: Date) {
    a.year < b.year || (a.year == b.year && (a.month < b.month || (a.month == b.month && a.day < b.day)))
  }

  predicate CivilBefore(a: Civil, b: Civil) {
    || DateBefore(a.date, b.date)
    || (a.date == b.date &&
        (a.hour < b.hour
          || (a.hour == b.hour && (a.minute < b.minute || (a.minute == b.minute && a.second < b.second)))))
  }

  lemma {:induction false} DatesAreMonotonic(a: int, b: int)
    requires a < b
    ensures DateBefore(DateOfDay(a), DateOfDay(b))
    decreases b - a
  {
    hide DateOfDay;
    DateOfDayValid(b - 1);
    NextDayIsTomorrow(b - 1);
    if a < b - 1 {
      DatesAreMonotonic(a, b - 1);
    }
  }

  /** Field order is time order. */
  lemma CivilOrderIsTimeOrder(a: int, b: int)
    ensures a < b <==> CivilBefore(CivilFromUnix(a), CivilFromUnix(b))
  {
    hide DateOfDay, DaysFromCivil, MonthLength;
    UnixRoundTrip(a);
    UnixRoundTrip(b);
    if a < b {
      if a / 86_400 < b / 86_400 {
        DatesAreMonotonic(a / 86_400, b / 86_400);
      }
    } else if b < a {
      if b / 86_400 < a / 86_400 {
        DatesAreMonotonic(b / 86_400, a / 86_400);
      }
    }
  }
}
