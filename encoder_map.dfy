/**
 * The ACE-128 pattern table: which 8-bit pin pattern the encoder shows at each
 * of its 128 rotational positions, and the 256-entry table that inverts it.
 *
 * The table is built from the encoder's fixed track (16 bytes, 128 bits: bit
 * `pos` is the most significant bit first of byte `pos / 8`) and a pin order.
 * Pin `pin` reads the track `(1 - pinOrder[pin]) * 16` positions behind the
 * current one. Positions, offsets and pin-order entries are bytes here
 * (`bv8`); because 128 divides 256, `x % 128` on a byte agrees with Python's
 * `%` on the integer for every position 0..127 and every pin-order entry.
 */
module EncoderMap {

  /** Table entry for a pin pattern no position produces. */
  const Sentinel: int := 255

  /** Number of rotational positions of the encoder. */
  const Positions: nat := 128

  /** The encoder's track, one bit per position, eight positions per byte. */
  const Track: seq<bv8> := [
    0xC0, 0x3F, 0xF0, 0x0F,
    0xE0, 0x1F, 0xFF, 0xFF,
    0xFF, 0x00, 0xFC, 0x03,
    0x80, 0x78, 0x06, 0x01
  ]

  /** The pin order used when the caller gives none: pin 0 is wired to 8, ..., pin 7 to 1. */
  const DefaultPinOrder: seq<bv8> := [8, 7, 6, 5, 4, 3, 2, 1]

  /** The bit of a track byte that position `pos` selects. */
  function Mask(pos: bv8): (m: bv8)
    ensures m == 1 << (7 - pos % 8)
  {
    128 >> (pos % 8)
  }

  /** The track byte that pin `pin` looks at when the shaft is at `pos`; always a valid index. */
  function Offset(pinOrder: seq<bv8>, pos: bv8, pin: nat): (offset: bv8)
    requires pin < |pinOrder|
    ensures offset < |Track| as bv8
  {
    (pos - (1 - pinOrder[pin]) * 16) % 128 / 8
  }

  /** Whether pin `pin` reads a set track bit at position `pos`. */
  predicate PinSet(pinOrder: seq<bv8>, pos: bv8, pin: nat)
    requires pin < |pinOrder|
  {
    Track[Offset(pinOrder, pos, pin)] & Mask(pos) != 0
  }

  /** The pattern accumulated after the first `pins` pins have been examined. */
  function PatternUpTo(pinOrder: seq<bv8>, pos: bv8, pins: nat): bv8
    requires pins <= 8 <= |pinOrder|
  {
    if pins == 0 then 0
    else PatternUpTo(pinOrder, pos, pins - 1) | (if PinSet(pinOrder, pos, pins - 1) then 1 << (pins - 1) else 0)
  }

  /** The 8-bit pin pattern the encoder shows at position `pos`. */
  function Pattern(pinOrder: seq<bv8>, pos: nat): bv8
    requires 8 <= |pinOrder| && pos < Positions
  {
    PatternUpTo(pinOrder, pos as bv8, 8)
  }

  /** Or-ing in a single bit `k` (when `b`) sets bit `pin` exactly when it was set or `k` is `pin`. */
  lemma OrBit(prev: bv8, b: bool, k: nat, pin: nat)
    requires k < 8 && pin < 8
    ensures (prev | (if b then 1 << k else 0)) & (1 << pin) != 0 <==> prev & (1 << pin) != 0 || (b && k == pin)
  {
  }

  /**
   * Bit `pin` of the accumulated pattern is set exactly when `pin` is one of the
   * pins examined so far and that pin reads a set track bit.
   */
  lemma {:induction false} PatternUpToBit(pinOrder: seq<bv8>, pos: bv8, pins: nat, pin: nat)
    requires pins <= 8 <= |pinOrder| && pin < 8
    ensures PatternUpTo(pinOrder, pos, pins) & (1 << pin) != 0 <==> pin < pins && PinSet(pinOrder, pos, pin)
  {
    if pins > 0 {
      PatternUpToBit(pinOrder, pos, pins - 1, pin);
      OrBit(PatternUpTo(pinOrder, pos, pins - 1), PinSet(pinOrder, pos, pins - 1), pins - 1, pin);
    }
  }

  /** Bit `pin` of a position's pattern is the track bit that pin reads there. */
  lemma PatternBit(pinOrder: seq<bv8>, pos: nat, pin: nat)
    requires 8 <= |pinOrder| && pos < Positions && pin < 8
    ensures Pattern(pinOrder, pos) & (1 << pin) != 0 <==> PinSet(pinOrder, pos as bv8, pin)
  {
    PatternUpToBit(pinOrder, pos as bv8, 8, pin);
  }

  /** The patterns of positions 0..127, in order. */
  function Patterns(pinOrder: seq<bv8>): (patterns: seq<bv8>)
    requires 8 <= |pinOrder|
    ensures |patterns| == Positions
    ensures forall pos: nat :: pos < Positions ==> patterns[pos] == Pattern(pinOrder, pos)
  {
    seq(Positions, pos requires 0 <= pos < Positions => Pattern(pinOrder, pos))
  }

  /** The table after positions 0..n-1 have been recorded, each overwriting its pattern's entry. */
  function Recorded(patterns: seq<bv8>, n: nat): (table: seq<int>)
    requires n <= |patterns|
    ensures |table| == 256
  {
    if n == 0 then seq(256, _ => Sentinel)
    else Recorded(patterns, n - 1)[patterns[n - 1] as int := n - 1]
  }

  /** The complete table the driver decodes with. */
  function EncoderTable(pinOrder: seq<bv8>): (table: seq<int>)
    requires 8 <= |pinOrder|
    ensures |table| == 256
  {
    Recorded(Patterns(pinOrder), Positions)
  }

  /**
   * What entry `index` holds after positions 0..n-1: the sentinel exactly when
   * none of them has that pattern, and otherwise the last one that has.
   */
  lemma {:induction false} RecordedEntry(patterns: seq<bv8>, n: nat, index: int)
    requires n <= |patterns| < Sentinel && 0 <= index < 256
    ensures Recorded(patterns, n)[index] == Sentinel <==> forall p :: 0 <= p < n ==> patterns[p] as int != index
    ensures Recorded(patterns, n)[index] != Sentinel ==>
              var e := Recorded(patterns, n)[index];
              0 <= e < n && patterns[e] as int == index &&
              forall p :: e < p < n ==> patterns[p] as int != index
  {
    if n > 0 {
      RecordedEntry(patterns, n - 1, index);
    }
  }

  /**
   * Every entry of a built table is the sentinel or a position found under its
   * own pattern; the sentinel marks exactly the patterns no position shows.
   */
  lemma TableEntry(pinOrder: seq<bv8>, index: int)
    requires 8 <= |pinOrder| && 0 <= index < 256
    ensures var e := EncoderTable(pinOrder)[index];
            (e == Sentinel || (0 <= e < Positions && Pattern(pinOrder, e) as int == index)) &&
            (e == Sentinel <==> forall pos: nat :: pos < Positions ==> Pattern(pinOrder, pos) as int != index)
  {
    RecordedEntry(Patterns(pinOrder), Positions, index);
  }

  /** A table of `n` sentinels counts `n` of them. */
  lemma {:induction false} SentinelRun(n: nat)
    ensures multiset(seq(n, _ => Sentinel))[Sentinel] == n
  {
    if n > 0 {
      SentinelRun(n - 1);
      assert seq(n, _ => Sentinel) == seq(n - 1, _ => Sentinel) + [Sentinel];
    }
  }

  /**
   * When positions 0..n-1 all show different patterns, each of them claims a
   * fresh entry, so exactly 256 - n entries are still the sentinel.
   */
  lemma {:induction false} RecordedSentinels(patterns: seq<bv8>, n: nat)
    requires n <= |patterns| < Sentinel
    requires forall p, q :: 0 <= p < q < n ==> patterns[p] as int != patterns[q] as int
    ensures multiset(Recorded(patterns, n))[Sentinel] == 256 - n
  {
    if n == 0 {
      SentinelRun(256);
    } else {
      var k := patterns[n - 1] as int;
      RecordedSentinels(patterns, n - 1);
      RecordedEntry(patterns, n - 1, k);
      ClaimSentinel(Recorded(patterns, n - 1), k, n - 1);
    }
  }

  /** Overwriting a sentinel entry with a position removes one sentinel. */
  lemma ClaimSentinel(table: seq<int>, k: int, v: int)
    requires 0 <= k < |table| && table[k] == Sentinel && v != Sentinel
    ensures multiset(table[k := v])[Sentinel] == multiset(table)[Sentinel] - 1
  {
    assert multiset(table[k := v]) == multiset(table) - multiset{Sentinel} + multiset{v};
  }

  /** Builds the table as the driver's constructor does: nested loops over positions and pins. */
  method BuildMap(pinOrder: seq<bv8>) returns (table: array<int>)
    requires 8 <= |pinOrder|
    ensures fresh(table)
    ensures table[..] == EncoderTable(pinOrder)
  {
    table := new int[256](_ => Sentinel);
    var pos := 0;
    while pos < 128
      invariant 0 <= pos <= 128
      invariant table[..] == Recorded(Patterns(pinOrder), pos)
    {
      var index := ScanPins(pinOrder, pos);
      table[index] := pos;
      pos := pos + 1;
    }
  }

  /** The inner loop of the table builder: the pattern the pins show at `pos`. */
  method ScanPins(pinOrder: seq<bv8>, pos: nat) returns (index: bv8)
    requires 8 <= |pinOrder| && pos < Positions
    ensures index == Pattern(pinOrder, pos)
  {
    index := 0;
    var mask: bv8 := 128 >> (pos as bv8 % 8);
    var pin := 0;
    while pin < 8
      invariant 0 <= pin <= 8
      invariant index == PatternUpTo(pinOrder, pos as bv8, pin)
    {
      var offset := (pos as bv8 - (1 - pinOrder[pin]) * 16) % 128 / 8;
      if Track[offset] & mask != 0 {
        index := index | (1 << pin);
      }
      pin := pin + 1;
    }
  }
}
