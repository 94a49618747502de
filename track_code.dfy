/**
 * Properties of the encoder's actual track with the default wiring: the 128
 * patterns are pairwise distinct, so the table decodes every one of them back
 * to its position and holds exactly 128 non-sentinel entries.
 *
 * Distinctness is a finite fact about the track. It is checked by reading the
 * 16 track bytes as one 128-bit code and asking the solver about all pairs of
 * positions at once, rather than position by position.
 */
module TrackCode {
  import opened EncoderMap

  /** The 16 track bytes as one 128-bit number, byte 0 most significant. */
  const TrackBits: bv128 := 0xC03F_F00F_E01F_FFFF_FF00_FC03_8078_0601

  /** Track bit `q` (0..127, modulo 128), counted from the most significant end, as 0 or 1. */
  function TrackBit(q: bv8): bv8 {
    ((TrackBits << (q % 128)) >> 127) as bv8
  }

  lemma TrackBytes(k: bv8)
    requires k < 16
    ensures Track[k] == ((TrackBits >> (8 * (15 - k))) & 0xFF) as bv8
  {
  }

  /** With the default wiring, pin `pin` reads track bit `pos + 16 * (7 - pin)`. */
  lemma DefaultPinReads(pos: bv8, pin: nat)
    requires pin < 8
    ensures PinSet(DefaultPinOrder, pos, pin) <==> TrackBit(pos + 16 * (7 - pin) as bv8) == 1
  {
    assert DefaultPinOrder[pin] == (8 - pin) as bv8;
    TrackBytes(Offset(DefaultPinOrder, pos, pin));
  }

  function PinBit(pos: bv8, pin: nat): bv8
    requires pin < 8
  {
    if PinSet(DefaultPinOrder, pos, pin) then 1 << pin else 0
  }

  function CodeBit(pos: bv8, pin: nat): bv8
    requires pin < 8
  {
    TrackBit(pos + 16 * (7 - pin) as bv8) << pin
  }

  /** The default pattern read straight off the 128-bit code. */
  function CodeUpTo(pos: bv8, pins: nat): bv8
    requires pins <= 8
  {
    if pins == 0 then 0 else CodeUpTo(pos, pins - 1) | CodeBit(pos, pins - 1)
  }

  function Code(pos: bv8): bv8 {
    TrackBit(pos + 112) | (TrackBit(pos + 96) << 1) | (TrackBit(pos + 80) << 2) | (TrackBit(pos + 64) << 3) |
    (TrackBit(pos + 48) << 4) | (TrackBit(pos + 32) << 5) | (TrackBit(pos + 16) << 6) | (TrackBit(pos) << 7)
  }

  lemma PatternStep(pos: bv8, pins: nat)
    requires 0 < pins <= 8
    ensures PatternUpTo(DefaultPinOrder, pos, pins) == PatternUpTo(DefaultPinOrder, pos, pins - 1) | PinBit(pos, pins - 1)
  {
  }

  lemma SameBit(pos: bv8, pin: nat)
    requires pin < 8
    ensures PinBit(pos, pin) == CodeBit(pos, pin)
  {
    DefaultPinReads(pos, pin);
  }

  lemma {:induction false} PatternIsCodeUpTo(pos: bv8, pins: nat)
    requires pins <= 8
    ensures PatternUpTo(DefaultPinOrder, pos, pins) == CodeUpTo(pos, pins)
  {
    if pins > 0 {
      PatternIsCodeUpTo(pos, pins - 1);
      PatternStep(pos, pins);
      SameBit(pos, pins - 1);
    }
  }

  lemma CodeFlat(pos: bv8)
    ensures CodeUpTo(pos, 8) == Code(pos)
  {
    assert CodeUpTo(pos, 1) == CodeBit(pos, 0);
    assert CodeUpTo(pos, 2) == CodeUpTo(pos, 1) | CodeBit(pos, 1);
    assert CodeUpTo(pos, 3) == CodeUpTo(pos, 2) | CodeBit(pos, 2);
    assert CodeUpTo(pos, 4) == CodeUpTo(pos, 3) | CodeBit(pos, 3);
    assert CodeUpTo(pos, 5) == CodeUpTo(pos, 4) | CodeBit(pos, 4);
    assert CodeUpTo(pos, 6) == CodeUpTo(pos, 5) | CodeBit(pos, 5);
    assert CodeUpTo(pos, 7) == CodeUpTo(pos, 6) | CodeBit(pos, 6);
  }

  /** With the default wiring a position's pattern is its slice of the 128-bit code. */
  lemma DefaultPatternIsCode(pos: nat)
    requires pos < Positions
    ensures Pattern(DefaultPinOrder, pos) == Code(pos as bv8)
  {
    PatternIsCodeUpTo(pos as bv8, 8);
    CodeFlat(pos as bv8);
  }

  lemma CodeInjectiveLow(a: bv8, b: bv8)
    requires a < 64 && b < 128 && Code(a) == Code(b)
    ensures a == b
  {
  }

  lemma CodeInjectiveHigh(a: bv8, b: bv8)
    requires 64 <= a < 128 && b < 128 && Code(a) == Code(b)
    ensures a == b
  {
  }

  /** No two positions in one turn have the same slice of the 128-bit code. */
  lemma CodeInjective(a: bv8, b: bv8)
    requires a < 128 && b < 128 && Code(a) == Code(b)
    ensures a == b
  {
    if a < 64 {
      CodeInjectiveLow(a, b);
    } else {
      CodeInjectiveHigh(a, b);
    }
  }

  /** A position converts to a byte below 128 and back unchanged. */
  lemma ToByte(x: nat)
    requires x < Positions
    ensures (x as bv8) as int == x && x as bv8 < 128
  {
  }

  /** No two positions show the same pattern with the default wiring. */
  lemma DefaultPatternsDistinct(a: nat, b: nat)
    requires a < Positions && b < Positions
    requires Pattern(DefaultPinOrder, a) == Pattern(DefaultPinOrder, b)
    ensures a == b
  {
    DefaultPatternIsCode(a);
    DefaultPatternIsCode(b);
    ToByte(a);
    ToByte(b);
    CodeInjective(a as bv8, b as bv8);
  }

  /** Decode round trip: the table maps the pattern shown at `pos` back to `pos`. */
  lemma DecodeRoundTrip(pos: nat)
    requires pos < Positions
    ensures EncoderTable(DefaultPinOrder)[Pattern(DefaultPinOrder, pos) as int] == pos
  {
    var index := Pattern(DefaultPinOrder, pos) as int;
    TableEntry(DefaultPinOrder, index);
    var e := EncoderTable(DefaultPinOrder)[index];
    if e != pos {
      DefaultPatternsDistinct(e, pos);
    }
  }

  /** With the default wiring exactly 128 of the 256 table entries are positions. */
  lemma DefaultTableSentinels()
    ensures multiset(EncoderTable(DefaultPinOrder))[Sentinel] == 256 - Positions
  {
    var patterns := Patterns(DefaultPinOrder);
    forall p, q | 0 <= p < q < Positions
      ensures patterns[p] as int != patterns[q] as int
    {
      if patterns[p] as int == patterns[q] as int {
        DefaultPatternsDistinct(p, q);
      }
    }
    RecordedSentinels(patterns, Positions);
  }
}
