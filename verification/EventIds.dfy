/** Event identifiers: a hexadecimal timestamp and sequence number whose string
    order is meant to be the order of the events. */
module EventIds {
  import opened Basics
  import opened Digits

  const U32_LIMIT := 0x1_0000_0000

  /** Milliseconds fill twelve digits and sequence numbers six, below these. */
  const MILLIS_FIT := 0x1_0000_0000_0000
  const SEQUENCE_FITS := 0x100_0000

  function EventId(millis: nat, sequence: nat): string {
    "evt_" + Padded(millis, 16, 12) + Padded(sequence, 16, 6)
  }

  /** Digits printed for a sequence number. */
  function SequenceWidth(sequence: nat): nat {
    if sequence < SEQUENCE_FITS then 6
    else if sequence < 0x1000_0000 then 7
    else 8
  }

  lemma Widths()
    ensures Pow(16, 6) == SEQUENCE_FITS && Pow(16, 7) == 0x1000_0000
    ensures Pow(16, 8) == U32_LIMIT && Pow(16, 12) == MILLIS_FIT
  {
    assert Pow(16, 4) == 0x1_0000;
    assert Pow(16, 8) == 0x1_0000 * 0x1_0000;
  }

  lemma SequenceDigits(sequence: nat)
    requires sequence < U32_LIMIT
    ensures sequence < Pow(16, SequenceWidth(sequence))
    ensures Padded(sequence, 16, 6) == Fixed(sequence, 16, SequenceWidth(sequence))
  {
    Widths();
    hide Pow;
    var w := SequenceWidth(sequence);
    PadIsFixed(sequence, 16, w);
    if w > 6 { NotShorter(sequence, w); }
  }

  lemma {:induction false} NotShorter(n: nat, width: nat)
    requires 0 < width && Pow(16, width - 1) <= n
    ensures width <= |Unpadded(n, 16)|
  {
    if width > 1 {
      assert Pow(16, width - 2) <= n / 16;
      NotShorter(n / 16, width - 1);
    }
  }

  /** Two sequence numbers in the same millisecond, the earlier one first: the
      strings come in that order exactly when the shorter number does not
      exceed the leading digits of the longer one. */
  predicate SequencesKeepOrder(a: nat, b: nat) {
    var extra := SequenceWidth(b) - SequenceWidth(a);
    a <= (if extra <= 0 then b else if extra == 1 then b / 16 else b / 256)
  }

  lemma SequenceStringOrder(a: nat, b: nat)
    requires a < b < U32_LIMIT
    ensures StringLess(Padded(a, 16, 6), Padded(b, 16, 6)) <==> SequencesKeepOrder(a, b)
  {
    hide StringLess, Padded, Pow, Fixed;
    SequenceDigits(a);
    SequenceDigits(b);
    var wa, wb := SequenceWidth(a), SequenceWidth(b);
    if wa == wb {
      FixedOrder(a, b, 16, wa);
    } else if wb == wa + 1 {
      DropLastDigit(b, wb);
      LongerOrder(a, wa, b / 16, [DigitChar(b % 16)]);
    } else {
      DropLastDigit(b, wb);
      DropLastDigit(b / 16, wb - 1);
      assert b / 16 / 16 == b / 256;
      assert Fixed(b, 16, wb) == Fixed(b / 256, 16, wa) + [DigitChar(b / 16 % 16), DigitChar(b % 16)];
      LongerOrder(a, wa, b / 256, [DigitChar(b / 16 % 16), DigitChar(b % 16)]);
    }
  }

  lemma DropLastDigit(n: nat, width: nat)
    requires 0 < width && n < Pow(16, width)
    ensures Fixed(n, 16, width) == Fixed(n / 16, 16, width - 1) + [DigitChar(n % 16)]
    ensures n / 16 < Pow(16, width - 1)
  {
    DivideBound(n, 16, Pow(16, width - 1));
  }

  /** A string that extends another one comes after it. */
  lemma LongerOrder(a: nat, width: nat, head: nat, tail: string)
    requires a < Pow(16, width) && head < Pow(16, width) && tail != ""
    ensures StringLess(Fixed(a, 16, width), Fixed(head, 16, width) + tail) <==> a <= head
  {
    FixedOrder(a, head, 16, width);
    ConcatOrder(Fixed(a, 16, width), "", Fixed(head, 16, width), tail);
    assert Fixed(a, 16, width) + "" == Fixed(a, 16, width);
  }

  predicate MintedBefore(m1: nat, s1: nat, m2: nat, s2: nat) {
    m1 < m2 || (m1 == m2 && s1 < s2)
  }

  /** An identifier spells out its parts: twelve hexadecimal digits for the
      milliseconds, the rest for the sequence number. */
  lemma IdSpellsItsParts(millis: nat, sequence: nat)
    requires millis < 0x1_0000_0000_0000 && sequence < U32_LIMIT
    ensures var id := EventId(millis, sequence);
      && |id| == (if sequence < 0x100_0000 then 22 else if sequence < 0x1000_0000 then 23 else 24)
      && id[..4] == "evt_" && ValueOf(id[4..16], 16) == Some(millis) && ValueOf(id[16..], 16) == Some(sequence)
  {
    MillisDigits(millis);
    SequenceDigits(sequence);
    PaddedValue(millis, 16, 12);
    PaddedValue(sequence, 16, 6);
    hide Fixed, Padded, ValueOf;
    var id := EventId(millis, sequence);
    assert id[4..16] == Padded(millis, 16, 12) && id[16..] == Padded(sequence, 16, 6);
  }

  /** Ids of different events differ, whatever the sequence numbers. */
  lemma IdsTellEventsApart(m1: nat, s1: nat, m2: nat, s2: nat)
    requires m1 < MILLIS_FIT && m2 < MILLIS_FIT && s1 < U32_LIMIT && s2 < U32_LIMIT
    ensures EventId(m1, s1) == EventId(m2, s2) <==> m1 == m2 && s1 == s2
  {
    MillisDigits(m1);
    MillisDigits(m2);
    SequenceDigits(s1);
    SequenceDigits(s2);
    Widths();
    FixedOrder(m1, m2, 16, 12);
    hide Fixed, Padded, Pow;
    var id1, id2 := EventId(m1, s1), EventId(m2, s2);
    assert id1[4..16] == Fixed(m1, 16, 12) && id1[16..] == Padded(s1, 16, 6);
    assert id2[4..16] == Fixed(m2, 16, 12) && id2[16..] == Padded(s2, 16, 6);
    if id1 == id2 {
      assert SequenceWidth(s1) == SequenceWidth(s2);
      FixedOrder(s1, s2, 16, SequenceWidth(s1));
    }
  }

  lemma MillisDigits(millis: nat)
    requires millis < MILLIS_FIT
    ensures Padded(millis, 16, 12) == Fixed(millis, 16, 12)
  {
    Widths();
    PadIsFixed(millis, 16, 12);
  }

  /** Ids sort by their milliseconds; within one millisecond an earlier sequence
      number sorts first exactly when the digits allow it. */
  lemma EventIdOrder(m1: nat, s1: nat, m2: nat, s2: nat)
    requires m1 < MILLIS_FIT && m2 < MILLIS_FIT && s1 < U32_LIMIT && s2 < U32_LIMIT
    requires m1 == m2 ==> s1 < s2
    ensures StringLess(EventId(m1, s1), EventId(m2, s2)) <==> m1 < m2 || (m1 == m2 && SequencesKeepOrder(s1, s2))
  {
    hide StringLess, EventId, SequencesKeepOrder;
    if m1 > m2 {
      ForwardOrder(m2, s2, m1, s1);
      Asymmetric(EventId(m2, s2), EventId(m1, s1));
    } else {
      ForwardOrder(m1, s1, m2, s2);
    }
  }

  lemma ForwardOrder(m1: nat, s1: nat, m2: nat, s2: nat)
    requires m1 < MILLIS_FIT && m2 < MILLIS_FIT && s1 < U32_LIMIT && s2 < U32_LIMIT
    requires MintedBefore(m1, s1, m2, s2)
    ensures StringLess(EventId(m1, s1), EventId(m2, s2)) <==> m1 < m2 || SequencesKeepOrder(s1, s2)
  {
    hide StringLess, Padded, SequencesKeepOrder;
    MillisDigits(m1);
    MillisDigits(m2);
    Widths();
    FixedOrder(m1, m2, 16, 12);
    var h1, h2 := "evt_" + Fixed(m1, 16, 12), "evt_" + Fixed(m2, 16, 12);
    ConcatOrder("evt_", Fixed(m1, 16, 12), "evt_", Fixed(m2, 16, 12));
    Irreflexive("evt_");
    ConcatOrder(h1, Padded(s1, 16, 6), h2, Padded(s2, 16, 6));
    if m1 == m2 {
      Irreflexive(h1);
      SequenceStringOrder(s1, s2);
    }
  }

  /** In the range a daemon lives in, string order is minting order. */
  lemma EventIdsSortChronologically(m1: nat, s1: nat, m2: nat, s2: nat)
    requires m1 < MILLIS_FIT && m2 < MILLIS_FIT && s1 < SEQUENCE_FITS && s2 < SEQUENCE_FITS
    ensures StringLess(EventId(m1, s1), EventId(m2, s2)) <==> MintedBefore(m1, s1, m2, s2)
  {
    hide StringLess, EventId;
    if MintedBefore(m1, s1, m2, s2) {
      EventIdOrder(m1, s1, m2, s2);
    } else if MintedBefore(m2, s2, m1, s1) {
      EventIdOrder(m2, s2, m1, s1);
      Asymmetric(EventId(m2, s2), EventId(m1, s1));
    } else {
      Irreflexive(EventId(m1, s1));
    }
  }

  /** One event more than six digits can number: it sorts before the event it
      follows in the same millisecond. */
  lemma SeventhDigitBreaksOrder(millis: nat)
    requires millis < MILLIS_FIT
    ensures !StringLess(EventId(millis, SEQUENCE_FITS - 1), EventId(millis, SEQUENCE_FITS))
  {
    EventIdOrder(millis, SEQUENCE_FITS - 1, millis, SEQUENCE_FITS);
  }
}
