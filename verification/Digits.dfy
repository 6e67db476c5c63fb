/** Positional notation and string order, shared by timestamps and event ids. */
module Digits {
  import opened Basics

  function DigitChar(d: nat): char
    requires d < 16
  {
    "0123456789abcdef"[d]
  }

  /** Digits of `n`, most significant first, without padding. */
  function Unpadded(n: nat, base: nat): string
    requires 2 <= base <= 16
  {
    if n < base then [DigitChar(n)] else Unpadded(n / base, base) + [DigitChar(n % base)]
  }

  function Zeros(count: nat): string {
    seq(count, _ => '0')
  }

  /** Zero-padded to a minimum width: a longer number is printed in full. */
  function Padded(n: nat, base: nat, width: nat): string
    requires 2 <= base <= 16
  {
    var digits := Unpadded(n, base);
    if |digits| < width then Zeros(width - |digits|) + digits else digits
  }

  /** Exactly `width` digits of `n`. */
  function Fixed(n: nat, base: nat, width: nat): (s: string)
    requires 2 <= base <= 16
    ensures |s| == width
  {
    if width == 0 then "" else Fixed(n / base, base, width - 1) + [DigitChar(n % base)]
  }

  function Pow(base: nat, e: nat): nat {
    if e == 0 then 1 else base * Pow(base, e - 1)
  }

  /** Byte order of ASCII strings. */
  predicate StringLess(a: string, b: string) {
    b != "" && (a == "" || a[0] < b[0] || (a[0] == b[0] && StringLess(a[1..], b[1..])))
  }

  lemma DivideBound(n: nat, base: nat, p: nat)
    requires 0 < base && n < base * p
    ensures n / base < p
  {
  }

  lemma {:induction false} PadIsFixed(n: nat, base: nat, width: nat)
    requires 2 <= base <= 16 && 0 < width && n < Pow(base, width)
    ensures |Unpadded(n, base)| <= width
    ensures Padded(n, base, width) == Fixed(n, base, width)
    decreases width
  {
    hide DigitChar;
    var q := n / base;
    DivideBound(n, base, Pow(base, width - 1));
    if n < base {
      FixedZero(base, width - 1);
      QuotientZero(n, base);
    } else {
      assert q >= 1;
      PadIsFixed(q, base, width - 1);
    }
  }

  lemma QuotientZero(n: nat, base: nat)
    requires n < base
    ensures n / base == 0 && n % base == n
  {
  }

  lemma {:induction false} FixedZero(base: nat, width: nat)
    requires 2 <= base <= 16
    ensures Fixed(0, base, width) == Zeros(width)
  {
    if width > 0 {
      FixedZero(base, width - 1);
    }
  }

  lemma {:induction false} ConcatOrder(a: string, x: string, b: string, y: string)
    requires |a| == |b|
    ensures StringLess(a + x, b + y) <==> StringLess(a, b) || (a == b && StringLess(x, y))
  {
    if a == "" {
      assert a + x == x && b + y == y;
    } else {
      assert (a + x)[1..] == a[1..] + x && (b + y)[1..] == b[1..] + y;
      ConcatOrder(a[1..], x, b[1..], y);
      assert a == [a[0]] + a[1..] && b == [b[0]] + b[1..];
    }
  }

  /** Comparing quotients first and remainders second is comparing. */
  lemma MixedOrder(base: nat, p: nat, x: nat, q: nat, y: nat)
    requires x < base && y < base
    ensures base * p + x < base * q + y <==> p < q || (p == q && x < y)
    ensures base * p + x == base * q + y <==> p == q && x == y
  {
    if p < q {
      MulStep(base, p, q);
    } else if q < p {
      MulStep(base, q, p);
    }
  }

  lemma MulStep(base: nat, p: nat, q: nat)
    requires p < q
    ensures base * p + base <= base * q
  {
    var r := q - p - 1;
    assert base * (p + 1 + r) == base * p + base + base * r;
  }

  lemma FixedStep(n: nat, base: nat, width: nat) returns (q: nat, d: nat)
    requires 2 <= base <= 16 && 0 < width
    ensures q == n / base && d < base && n == base * q + d
    ensures Fixed(n, base, width) == Fixed(q, base, width - 1) + [DigitChar(d)]
  {
    q, d := n / base, n % base;
  }

  lemma DigitOrder(a: nat, b: nat)
    requires a < 16 && b < 16
    ensures StringLess([DigitChar(a)], [DigitChar(b)]) <==> a < b
    ensures DigitChar(a) == DigitChar(b) <==> a == b
  {
  }

  lemma LastDigitOrder(p: string, x: nat, q: string, y: nat)
    requires |p| == |q| && x < 16 && y < 16
    ensures StringLess(p + [DigitChar(x)], q + [DigitChar(y)]) <==> StringLess(p, q) || (p == q && x < y)
    ensures p + [DigitChar(x)] == q + [DigitChar(y)] <==> p == q && x == y
  {
    hide StringLess;
    ConcatOrder(p, [DigitChar(x)], q, [DigitChar(y)]);
    DigitOrder(x, y);
    assert (p + [DigitChar(x)])[..|p|] == p && (q + [DigitChar(y)])[..|p|] == q;
    assert (p + [DigitChar(x)])[|p|] == DigitChar(x) && (q + [DigitChar(y)])[|p|] == DigitChar(y);
  }

  /** On numbers that fit, fixed-width strings are ordered, and told apart,
      exactly as the numbers are. */
  lemma {:induction false} FixedOrder(a: nat, b: nat, base: nat, width: nat)
    requires 2 <= base <= 16 && a < Pow(base, width) && b < Pow(base, width)
    ensures StringLess(Fixed(a, base, width), Fixed(b, base, width)) <==> a < b
    ensures Fixed(a, base, width) == Fixed(b, base, width) <==> a == b
    decreases width
  {
    hide DigitChar;
    if width > 0 {
      hide StringLess;
      DivideBound(a, base, Pow(base, width - 1));
      DivideBound(b, base, Pow(base, width - 1));
      var p, x := FixedStep(a, base, width);
      var q, y := FixedStep(b, base, width);
      FixedOrder(p, q, base, width - 1);
      MixedOrder(base, p, x, q, y);
      LastDigitOrder(Fixed(p, base, width - 1), x, Fixed(q, base, width - 1), y);
    }
  }

  lemma {:induction false} Irreflexive(s: string)
    ensures !StringLess(s, s)
  {
    if s != "" { Irreflexive(s[1..]); }
  }

  lemma {:induction false} Asymmetric(a: string, b: string)
    requires StringLess(a, b)
    ensures !StringLess(b, a)
  {
    if a != "" && a[0] == b[0] { Asymmetric(a[1..], b[1..]); }
  }

  lemma {:induction false} Trichotomy(a: string, b: string)
    requires a != b
    ensures StringLess(a, b) <==> !StringLess(b, a)
  {
    if a != "" && b != "" && a[0] == b[0] {
      assert a == [a[0]] + a[1..] && b == [b[0]] + b[1..];
      Trichotomy(a[1..], b[1..]);
    }
  }

  /** The number a lower-case digit stands for. */
  function ValueOfDigit(c: char): Option<nat> {
    if '0' <= c <= '9' then Some(c as int - 48)
    else if 'a' <= c <= 'f' then Some(c as int - 87)
    else None
  }

  /** The number a string of digits writes, if it is one. */
  function ValueOf(s: string, base: nat): Option<nat> {
    if s == "" then Some(0)
    else
      match (ValueOf(s[..|s| - 1], base), ValueOfDigit(s[|s| - 1]))
      case (Some(n), Some(d)) => if d < base then Some(base * n + d) else None
      case _ => None
  }

  lemma {:induction false} UnpaddedValue(n: nat, base: nat)
    requires 2 <= base <= 16
    ensures ValueOf(Unpadded(n, base), base) == Some(n)
  {
    hide ValueOf, DigitChar;
    if n >= base {
      UnpaddedValue(n / base, base);
      ValueOfSnoc(Unpadded(n / base, base), n % base, base);
      Recombined(n, base);
    } else {
      ValueOfOne(n, base);
    }
  }

  lemma Recombined(n: nat, base: nat)
    requires 0 < base
    ensures base * (n / base) + n % base == n
  {
  }

  lemma ValueOfOne(d: nat, base: nat)
    requires d < base <= 16
    ensures ValueOf([DigitChar(d)], base) == Some(d)
  {
    assert [DigitChar(d)][..0] == "" && base * 0 + d == d;
  }

  lemma ValueOfSnoc(s: string, d: nat, base: nat)
    requires d < base <= 16 && ValueOf(s, base).Some?
    ensures ValueOf(s + [DigitChar(d)], base) == Some(base * ValueOf(s, base).value + d)
  {
    assert (s + [DigitChar(d)])[..|s|] == s;
  }

  lemma {:induction false} ZerosAddNothing(count: nat, s: string, base: nat)
    requires 2 <= base
    ensures ValueOf(Zeros(count) + s, base) == ValueOf(s, base)
  {
    if s == "" {
      assert Zeros(count) + s == Zeros(count);
      ZerosAreNothing(count, base);
    } else {
      var n := |s| - 1;
      assert (Zeros(count) + s)[..count + n] == Zeros(count) + s[..n];
      ZerosAddNothing(count, s[..n], base);
    }
  }

  lemma {:induction false} ZerosAreNothing(count: nat, base: nat)
    requires 2 <= base
    ensures ValueOf(Zeros(count), base) == Some(0)
  {
    if count > 0 {
      ZerosAreNothing(count - 1, base);
      assert Zeros(count)[..count - 1] == Zeros(count - 1);
      assert base * 0 + 0 == 0;
    }
  }

  /** Whatever the padding, what is printed is the number. */
  lemma PaddedValue(n: nat, base: nat, width: nat)
    requires 2 <= base <= 16
    ensures ValueOf(Padded(n, base, width), base) == Some(n)
  {
    UnpaddedValue(n, base);
    var digits := Unpadded(n, base);
    if |digits| < width {
      ZerosAddNothing(width - |digits|, digits, base);
    }
  }
}
