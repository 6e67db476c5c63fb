/** Timestamps on the wire: the printer and the parser of the RFC 3339 subset
    (section 5.6 of RFC 3339, UTC only). */
module Rfc3339 {
  import opened Basics
  import opened Calendar
  import opened Digits

  /** An instant before the epoch prints as the epoch; anything below a second
      is dropped. */
  function Print(time: Time): string {
    var secs := Age(time, 0) / SECOND;
    PrintCivil(CivilFromUnix(secs))
  }

  function PrintCivil(c: Civil): string {
    PrintDate(c.date) + "T" + PrintClock(c) + "Z"
  }

  function PrintDate(d: Date): string {
    Field(d.year, 4) + "-" + Field(d.month, 2) + "-" + Field(d.day, 2)
  }

  function PrintClock(c: Civil): string {
    Field(c.hour, 2) + ":" + Field(c.minute, 2) + ":" + Field(c.second, 2)
  }

  function Field(n: int, width: nat): string {
    if n >= 0 then Padded(n, 10, width)
    else "-" + Padded(-n, 10, if width > 0 then width - 1 else 0)
  }

  // ---------------------------------------------------------------- parsing

  /** The Unicode White_Space property, which `trim` strips. */
  predicate IsWhitespace(c: char) {
    var code := c as int;
    || 9 <= code <= 13 || code == 32 || code == 0x85 || code == 0xA0 || code == 0x1680
    || 0x2000 <= code <= 0x200A || code == 0x2028 || code == 0x2029 || code == 0x202F
    || code == 0x205F || code == 0x3000
  }

  function Trim(s: string): string {
    TrimEnd(TrimStart(s))
  }

  function TrimStart(s: string): string {
    if s != "" && IsWhitespace(s[0]) then TrimStart(s[1..]) else s
  }

  function TrimEnd(s: string): string {
    if s != "" && IsWhitespace(s[|s| - 1]) then TrimEnd(s[..|s| - 1]) else s
  }

  /** The text before and after the first `c`. */
  function SplitOnce(s: string, c: char): Option<(string, string)> {
    if s == "" then None
    else if s[0] == c then Some(("", s[1..]))
    else match SplitOnce(s[1..], c)
      case None => None
      case Some(parts) => Some(([s[0]] + parts.0, parts.1))
  }

  /** All pieces between occurrences of `c`. */
  function Split(s: string, c: char): seq<string>
    decreases |s|
  {
    match SplitOnce(s, c)
    case None => [s]
    case Some(parts) => SplitOnceShrinks(s, c); [parts.0] + Split(parts.1, c)
  }

  lemma SplitOnceShrinks(s: string, c: char)
    ensures SplitOnce(s, c).Some? ==> |SplitOnce(s, c).value.1| < |s|
  {
  }

  function DigitValue(c: char): Option<nat> {
    if '0' <= c <= '9' then Some(c as int - '0' as int) else None
  }

  function ParseDigits(s: string): Option<nat> {
    if s == "" then None
    else
      var last := DigitValue(s[|s| - 1]);
      if last.None? then None
      else if |s| == 1 then last
      else
        match ParseDigits(s[..|s| - 1])
        case None => None
        case Some(n) => Some(10 * n + last.value)
  }

  const I64_LIMIT := 0x8000_0000_0000_0000

  /** A signed 64-bit integer in decimal, with an optional sign. */
  function ParseInt(s: string): Option<int> {
    var negative := s != "" && s[0] == '-';
    var digits := if s != "" && (s[0] == '-' || s[0] == '+') then s[1..] else s;
    match ParseDigits(digits)
    case None => None
    case Some(n) =>
      var magnitude: int := n;
      var value := if negative then -magnitude else magnitude;
      if -I64_LIMIT <= value < I64_LIMIT then Some(value) else None
  }

  function ParseDate(text: string): Option<Date> {
    var parts := Split(text, '-');
    if |parts| != 3 then None
    else
      match (ParseInt(parts[0]), ParseInt(parts[1]), ParseInt(parts[2]))
      case (Some(year), Some(month), Some(day)) =>
        if 1 <= month <= 12 && 1 <= day <= 31 then Some(Date(year, month, day)) else None
      case _ => None
  }

  function ParseClock(text: string): Option<(int, int, int)> {
    var parts := Split(text, ':');
    if |parts| != 3 then None
    else
      match (ParseInt(parts[0]), ParseInt(parts[1]), ParseInt(parts[2]))
      case (Some(hour), Some(minute), Some(second)) =>
        if hour > 23 || minute > 59 || second > 60 then None else Some((hour, minute, second))
      case _ => None
  }

  function StripZulu(s: string): Option<string> {
    if s != "" && (s[|s| - 1] == 'Z' || s[|s| - 1] == 'z') then Some(s[..|s| - 1]) else None
  }

  /** The instant, or nothing when the text is refused. */
  function Parse(input: string): Option<Time> {
    match SplitOnce(Trim(input), 'T')
    case None => None
    case Some((date, rest)) =>
      match StripZulu(rest)
      case None => None
      case Some(time) =>
        var whole := match SplitOnce(time, '.') { case None => time case Some((w, _)) => w };
        match (ParseDate(date), ParseClock(whole))
        case (Some(d), Some((hour, minute, second))) =>
          var secs := DaysFromCivil(d.year, d.month, d.day) * 86_400 + hour * 3600 + minute * 60 + second;
          Some(if secs < 0 then 0 else secs * SECOND)
        case _ => None
  }

  // ------------------------------------------------------------ round trip

  predicate AllDigits(s: string) {
    forall i :: 0 <= i < |s| ==> '0' <= s[i] <= '9'
  }

  lemma {:induction false} PrintedDigits(n: nat)
    ensures var s := Unpadded(n, 10); s != "" && AllDigits(s) && ParseDigits(s) == Some(n)
  {
    if n < 10 {
      DigitReads(n);
    } else {
      var (q, d) := (n / 10, n % 10);
      PrintedDigits(q);
      assert Unpadded(n, 10) == Unpadded(q, 10) + [DigitChar(d)];
      hide Unpadded;
      AppendDigit(Unpadded(q, 10), q, d);
    }
  }

  lemma DigitReads(d: nat)
    requires d < 10
    ensures '0' <= DigitChar(d) <= '9' && DigitValue(DigitChar(d)) == Some(d)
    ensures AllDigits([DigitChar(d)]) && ParseDigits([DigitChar(d)]) == Some(d)
  {
  }

  lemma AppendDigit(s: string, n: nat, d: nat)
    requires s != "" && AllDigits(s) && ParseDigits(s) == Some(n) && d < 10
    ensures AllDigits(s + [DigitChar(d)]) && ParseDigits(s + [DigitChar(d)]) == Some(10 * n + d)
  {
    DigitReads(d);
    hide DigitChar, DigitValue;
    assert (s + [DigitChar(d)])[..|s|] == s;
  }

  lemma {:induction false} LeadingZeros(k: nat, s: string, n: nat)
    requires s != "" && AllDigits(s) && ParseDigits(s) == Some(n)
    ensures AllDigits(Zeros(k) + s) && ParseDigits(Zeros(k) + s) == Some(n)
    decreases |s|
  {
    hide DigitValue;
    if k == 0 {
      assert Zeros(k) + s == s;
    } else if |s| == 1 {
      ZerosAreZero(k);
      PrefixedLast(Zeros(k), s);
    } else {
      LeadingZeros(k, s[..|s| - 1], ParseDigits(s[..|s| - 1]).value);
      hide Zeros;
      assert (Zeros(k) + s)[..|Zeros(k) + s| - 1] == Zeros(k) + s[..|s| - 1];
    }
  }

  lemma PrefixedLast(zeros: string, s: string)
    requires zeros != "" && AllDigits(zeros) && ParseDigits(zeros) == Some(0) && |s| == 1 && AllDigits(s)
        && ParseDigits(s).Some?
    ensures AllDigits(zeros + s) && ParseDigits(zeros + s) == ParseDigits(s)
  {
    hide DigitValue;
    assert (zeros + s)[..|zeros|] == zeros;
  }

  lemma {:induction false} ZerosAreZero(k: nat)
    ensures |Zeros(k)| == k && AllDigits(Zeros(k))
    ensures k > 0 ==> ParseDigits(Zeros(k)) == Some(0)
  {
    if k > 1 {
      assert Zeros(k)[..k - 1] == Zeros(k - 1);
      ZerosAreZero(k - 1);
    }
  }

  lemma FieldRoundTrip(n: nat, width: nat)
    requires n < I64_LIMIT
    ensures Field(n, width) != "" && AllDigits(Field(n, width))
    ensures ParseInt(Field(n, width)) == Some(n)
  {
    hide ParseDigits, Unpadded, ParseInt;
    PrintedDigits(n);
    var s := Unpadded(n, 10);
    if |s| < width {
      LeadingZeros(width - |s|, s, n);
    }
    UnsignedInt(Field(n, width), n);
  }

  lemma UnsignedInt(s: string, n: nat)
    requires s != "" && AllDigits(s) && ParseDigits(s) == Some(n) && n < I64_LIMIT
    ensures ParseInt(s) == Some(n)
  {
    hide ParseDigits;
  }

  lemma {:induction false} SplitOnceAt(a: string, c: char, b: string)
    requires c !in a
    ensures SplitOnce(a + [c] + b, c) == Some((a, b))
  {
    if a == "" {
      assert a + [c] + b == [c] + b;
    } else {
      SplitOnceAt(a[1..], c, b);
      assert (a + [c] + b)[1..] == a[1..] + [c] + b;
      assert a == [a[0]] + a[1..];
    }
  }

  lemma {:induction false} SplitOnceMissing(a: string, c: char)
    requires c !in a
    ensures SplitOnce(a, c) == None
  {
    if a != "" { SplitOnceMissing(a[1..], c); }
  }

  lemma SplitThree(x: string, y: string, z: string, c: char)
    requires c !in x && c !in y && c !in z
    ensures Split(x + [c] + y + [c] + z, c) == [x, y, z]
  {
    hide SplitOnce;
    assert x + [c] + y + [c] + z == x + [c] + (y + [c] + z);
    SplitOne(z, c);
    SplitFirst(y, z, c);
    SplitFirst(x, y + [c] + z, c);
    hide Split;
  }

  lemma SplitOne(z: string, c: char)
    requires c !in z
    ensures Split(z, c) == [z]
  {
    SplitOnceMissing(z, c);
    hide SplitOnce;
  }

  lemma SplitFirst(x: string, rest: string, c: char)
    requires c !in x
    ensures Split(x + [c] + rest, c) == [x] + Split(rest, c)
  {
    SplitOnceAt(x, c, rest);
    hide SplitOnce;
  }

  lemma DateFieldsRoundTrip(d: Date)
    requires 0 <= d.year < I64_LIMIT && 1 <= d.month <= 12 && 1 <= d.day <= 31
    ensures ParseDate(PrintDate(d)) == Some(d)
    ensures 'T' !in PrintDate(d) && PrintDate(d) != "" && !IsWhitespace(PrintDate(d)[0])
  {
    hide Field, ParseInt, Split;
    FieldRoundTrip(d.year, 4);
    FieldRoundTrip(d.month, 2);
    FieldRoundTrip(d.day, 2);
    SplitThree(Field(d.year, 4), Field(d.month, 2), Field(d.day, 2), '-');
  }

  lemma ClockRoundTrip(c: Civil)
    requires 0 <= c.hour < 24 && 0 <= c.minute < 60 && 0 <= c.second < 60
    ensures ParseClock(PrintClock(c)) == Some((c.hour, c.minute, c.second))
    ensures 'T' !in PrintClock(c) && '.' !in PrintClock(c)
  {
    hide Field, ParseInt, Split;
    FieldRoundTrip(c.hour, 2);
    FieldRoundTrip(c.minute, 2);
    FieldRoundTrip(c.second, 2);
    SplitThree(Field(c.hour, 2), Field(c.minute, 2), Field(c.second, 2), ':');
  }

  lemma TrimNothing(s: string)
    requires s != "" && !IsWhitespace(s[0]) && !IsWhitespace(s[|s| - 1])
    ensures Trim(s) == s
  {
  }

  /** What follows the seconds: nothing, or a fraction of any length. */
  predicate IsFraction(s: string) {
    s == "" || s[0] == '.'
  }

  lemma ParsePrintedCivil(c: Civil, fraction: string)
    requires ValidCivil(c) && 0 <= c.date.year < I64_LIMIT && IsFraction(fraction)
    ensures Parse(PrintDate(c.date) + "T" + PrintClock(c) + fraction + "Z")
         == Some(if UnixFromCivil(c) < 0 then 0 else UnixFromCivil(c) * SECOND)
  {
    hide ParseDate, ParseClock, PrintDate, PrintClock, Trim, DaysFromCivil, SplitOnce;
    var date, clock := PrintDate(c.date), PrintClock(c);
    DateFieldsRoundTrip(c.date);
    ClockRoundTrip(c);
    var rest := clock + fraction + "Z";
    var text := date + "T" + clock + fraction + "Z";
    assert text == date + ['T'] + rest;
    assert !IsWhitespace('Z');
    TrimNothing(text);
    SplitOnceAt(date, 'T', rest);
    assert StripZulu(rest) == Some(clock + fraction) by { assert rest[..|rest| - 1] == clock + fraction; }
    if fraction == "" {
      assert clock + fraction == clock;
      SplitOnceMissing(clock, '.');
    } else {
      assert clock + fraction == clock + ['.'] + fraction[1..];
      SplitOnceAt(clock, '.', fraction[1..]);
    }
  }

  lemma {:induction false} YearNearEpoch(days: nat)
    ensures 1970 <= DateOfDay(days).year <= 1970 + days
  {
    hide DateOfDay, MonthLength;
    EpochDate();
    if days > 0 {
      YearNearEpoch(days - 1);
      NextDayIsTomorrow(days - 1);
    }
  }

  /** The instant a second began, counted from the epoch. */
  function WholeSecond(time: Time): Time {
    if time < 0 then 0 else time - time % SECOND
  }

  /** Printing and parsing back truncates to the second, with or without a
      fraction of a second in the text, for every instant a `SystemTime` can
      hold. */
  lemma RoundTrip(time: Time, fraction: string)
    requires time < I64_LIMIT * SECOND && IsFraction(fraction)
    ensures var text := Print(time);
      && text != ""
      && Parse(text[..|text| - 1] + fraction + "Z") == Some(WholeSecond(time))
  {
    var secs := Age(time, 0) / SECOND;
    WholeSeconds(time);
    hide DateOfDay, PrintDate, PrintClock, Parse, UnixFromCivil, WholeSecond;
    var c := CivilFromUnix(secs);
    UnixRoundTrip(secs);
    YearNearEpoch(secs / 86_400);
    ParsePrintedCivil(c, fraction);
    var text := Print(time);
    assert text[..|text| - 1] + fraction + "Z" == PrintDate(c.date) + "T" + PrintClock(c) + fraction + "Z";
  }

  lemma SecondsCompare(a: Time, b: Time)
    ensures Age(a, 0) / SECOND >= 0 && Age(b, 0) / SECOND >= 0
    ensures WholeSecond(a) < WholeSecond(b) <==> Age(a, 0) / SECOND < Age(b, 0) / SECOND
  {
  }

  lemma WholeSeconds(time: Time)
    requires time < I64_LIMIT * SECOND
    ensures var secs := Age(time, 0) / SECOND;
      0 <= secs < I64_LIMIT && secs * SECOND == WholeSecond(time)
  {
  }

  // ---------------------------------------------------------- string order

  lemma {:induction false} FieldOrder(a: nat, b: nat, width: nat)
    requires 0 < width && a < Pow(10, width) && b < Pow(10, width)
    ensures |Field(a, width)| == |Field(b, width)|
    ensures StringLess(Field(a, width), Field(b, width)) <==> a < b
    ensures Field(a, width) == Field(b, width) <==> a == b
  {
    PadIsFixed(a, 10, width);
    PadIsFixed(b, 10, width);
    FixedOrder(a, b, 10, width);
  }

  /** A field, a separator and the rest compare by the field first. */
  lemma FieldThenRest(a: nat, b: nat, width: nat, sep: string, x: string, y: string)
    requires 0 < width && a < Pow(10, width) && b < Pow(10, width)
    ensures StringLess(Field(a, width) + sep + x, Field(b, width) + sep + y)
       <==> a < b || (a == b && StringLess(x, y))
  {
    hide StringLess, Field;
    FieldOrder(a, b, width);
    assert Field(a, width) + sep + x == Field(a, width) + (sep + x);
    assert Field(b, width) + sep + y == Field(b, width) + (sep + y);
    ConcatOrder(Field(a, width), sep + x, Field(b, width), sep + y);
    ConcatOrder(sep, x, sep, y);
    Irreflexive(sep);
  }

  lemma CivilStringOrder(a: Civil, b: Civil)
    requires ValidCivil(a) && 0 <= a.date.year <= 9999
    requires ValidCivil(b) && 0 <= b.date.year <= 9999
    ensures StringLess(PrintCivil(a), PrintCivil(b)) <==> CivilBefore(a, b)
  {
    hide StringLess, Field;
    assert Pow(10, 2) == 100 && Pow(10, 4) == 10_000;
    var sa, sb := Field(a.second, 2) + "Z" + "", Field(b.second, 2) + "Z" + "";
    var ma, mb := Field(a.minute, 2) + ":" + sa, Field(b.minute, 2) + ":" + sb;
    var ha, hb := Field(a.hour, 2) + ":" + ma, Field(b.hour, 2) + ":" + mb;
    var da, db := Field(a.date.day, 2) + "T" + ha, Field(b.date.day, 2) + "T" + hb;
    var na, nb := Field(a.date.month, 2) + "-" + da, Field(b.date.month, 2) + "-" + db;
    assert PrintCivil(a) == Field(a.date.year, 4) + "-" + na;
    assert PrintCivil(b) == Field(b.date.year, 4) + "-" + nb;
    Irreflexive("");
    FieldThenRest(a.second, b.second, 2, "Z", "", "");
    FieldThenRest(a.minute, b.minute, 2, ":", sa, sb);
    FieldThenRest(a.hour, b.hour, 2, ":", ma, mb);
    FieldThenRest(a.date.day, b.date.day, 2, "T", ha, hb);
    FieldThenRest(a.date.month, b.date.month, 2, "-", da, db);
    FieldThenRest(a.date.year, b.date.year, 4, "-", na, nb);
  }

  lemma FieldPrinted(n: nat, width: nat)
    requires 0 < width && n < Pow(10, width)
    ensures |Field(n, width)| == width && ValueOf(Field(n, width), 10) == Some(n)
  {
    PadIsFixed(n, 10, width);
    PaddedValue(n, 10, width);
  }

  /** The form of section 5.6 of RFC 3339: four digits for the year, two for
      everything else, and the marks between them. */
  lemma PrintedForm(c: Civil)
    requires ValidCivil(c) && 0 <= c.date.year <= 9999
    ensures var s := PrintCivil(c);
      && |s| == 20 && s[4] == '-' && s[7] == '-' && s[10] == 'T' && s[13] == ':' && s[16] == ':' && s[19] == 'Z'
      && ValueOf(s[0..4], 10) == Some(c.date.year) && ValueOf(s[5..7], 10) == Some(c.date.month)
      && ValueOf(s[8..10], 10) == Some(c.date.day) && ValueOf(s[11..13], 10) == Some(c.hour)
      && ValueOf(s[14..16], 10) == Some(c.minute) && ValueOf(s[17..19], 10) == Some(c.second)
  {
    hide Field, ValueOf;
    assert Pow(10, 2) == 100 && Pow(10, 4) == 10_000;
    var (y, m, d) := (Field(c.date.year, 4), Field(c.date.month, 2), Field(c.date.day, 2));
    var (h, n, z) := (Field(c.hour, 2), Field(c.minute, 2), Field(c.second, 2));
    FieldPrinted(c.date.year, 4);
    FieldPrinted(c.date.month, 2);
    FieldPrinted(c.date.day, 2);
    FieldPrinted(c.hour, 2);
    FieldPrinted(c.minute, 2);
    FieldPrinted(c.second, 2);
    var s := PrintCivil(c);
    assert s[0..4] == y && s[5..7] == m && s[8..10] == d && s[11..13] == h && s[14..16] == n && s[17..19] == z;
  }

  /** Section 5.1 of RFC 3339: sorting the strings sorts the instants, as far
      as whole seconds tell them apart. */
  lemma StringOrderIsTimeOrder(a: Time, b: Time)
    requires CivilFromUnix(Age(a, 0) / SECOND).date.year <= 9999
    requires CivilFromUnix(Age(b, 0) / SECOND).date.year <= 9999
    ensures StringLess(Print(a), Print(b)) <==> WholeSecond(a) < WholeSecond(b)
  {
    var (p, q) := (Age(a, 0) / SECOND, Age(b, 0) / SECOND);
    SecondsCompare(a, b);
    hide StringLess, PrintCivil, DateOfDay, CivilBefore, WholeSecond;
    UnixRoundTrip(p);
    UnixRoundTrip(q);
    YearNearEpoch(p / 86_400);
    YearNearEpoch(q / 86_400);
    CivilStringOrder(CivilFromUnix(p), CivilFromUnix(q));
    CivilOrderIsTimeOrder(p, q);
  }
}
