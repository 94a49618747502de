/**
 * The position arithmetic of the ACE-128 driver: turning a decoded raw
 * position (0..127) into a position relative to the logical zero, signed or
 * unsigned, counting whole turns across the rollover, and recalibrating the
 * zero so that the multi-turn position reads a chosen value.
 *
 * Python's `%` with a positive divisor agrees with Dafny's, and Python's
 * `x & 127` on an integer of either sign is `x % 128`.
 */
module ShaftPosition {
  import opened EncoderMap

  /** A displacement, negated when the encoder counts in reverse. */
  function Directed(d: int, reverse: bool): int {
    if reverse then -d else d
  }

  /** Whether `x` and `y` name the same position within a turn. */
  predicate SameInTurn(x: int, y: int) {
    (x - y) % Positions == 0
  }

  /**
   * The signed position of raw reading `raw` relative to `zero`: the directed
   * displacement with at most one correction by a whole turn.
   */
  function Raw2Pos(raw: int, zero: int, reverse: bool): (pos: int)
    ensures SameInTurn(pos, Directed(raw - zero, reverse))
    ensures 0 <= raw < Positions && 0 <= zero < Positions ==> -64 <= pos <= 63
  {
    var d := Directed(raw - zero, reverse);
    if d > 63 then d - Positions
    else if d < -64 then d + Positions
    else d
  }

  /** Within [-64, 63] there is only one representative of each position. */
  lemma SignedRepresentative(p: int, q: int)
    requires -64 <= p <= 63 && -64 <= q <= 63 && SameInTurn(p, q)
    ensures p == q
  {
  }

  /**
   * For readings and zeros within a turn, the signed position is the one value
   * in [-64, 63] that agrees with the directed displacement.
   */
  lemma Raw2PosUnique(raw: int, zero: int, reverse: bool, p: int)
    requires 0 <= raw < Positions && 0 <= zero < Positions
    requires -64 <= p <= 63 && SameInTurn(p, Directed(raw - zero, reverse))
    ensures Raw2Pos(raw, zero, reverse) == p
  {
    var pos := Raw2Pos(raw, zero, reverse);
    assert SameInTurn(pos, p) by {
      assert pos - p == (pos - Directed(raw - zero, reverse)) - (p - Directed(raw - zero, reverse));
    }
    SignedRepresentative(pos, p);
  }

  /** The unsigned position: the directed displacement with the high bits cleared. */
  function UPos(raw: int, zero: int, reverse: bool): (u: int)
    ensures 0 <= u < Positions
    ensures SameInTurn(u, Directed(raw - zero, reverse))
  {
    Directed(raw - zero, reverse) % Positions
  }

  /**
   * The signed and unsigned positions of one reading agree: the signed one is
   * the unsigned one shifted down a turn when it lies in the upper half.
   */
  lemma SignedUnsigned(raw: int, zero: int, reverse: bool)
    requires 0 <= raw < Positions && 0 <= zero < Positions
    ensures Raw2Pos(raw, zero, reverse) % Positions == UPos(raw, zero, reverse)
    ensures Raw2Pos(raw, zero, reverse) == if UPos(raw, zero, reverse) > 63 then UPos(raw, zero, reverse) - Positions else UPos(raw, zero, reverse)
  {
    var u := UPos(raw, zero, reverse);
    var d := Directed(raw - zero, reverse);
    var signed := if u > 63 then u - Positions else u;
    assert SameInTurn(signed, d) by {
      assert signed - d == (u - d) - (u - signed);
    }
    Raw2PosUnique(raw, zero, reverse, signed);
  }

  /**
   * The change of the turn count when the signed position moves from `last`
   * to `current`: a jump of more than half a turn is taken as crossing zero.
   */
  function Rollover(last: int, current: int): (delta: int)
    ensures delta == 0 || delta == Positions || delta == -(Positions as int)
    ensures delta == Positions <==> last - current > 64
    ensures delta == -(Positions as int) <==> current - last > 64
  {
    if last - current > 64 then Positions
    else if current - last > 64 then -(Positions as int)
    else 0
  }

  /**
   * The multi-turn position follows the shaft: if between two readings the
   * shaft turned by `motion`, less than half a turn either way, then the turn
   * count and the new signed position together advance by exactly `motion`.
   */
  lemma RolloverTracksMotion(last: int, current: int, motion: int)
    requires -64 <= last <= 63 && -64 <= current <= 63
    requires -64 < motion < 64 && SameInTurn(current, last + motion)
    ensures Rollover(last, current) + current - last == motion
  {
    var step := current - last;
    var k := (step - motion) / Positions;
    assert step - motion == k * Positions;
    if k > 0 {
      assert step - motion >= Positions;
    } else if k < 0 {
      assert step - motion <= -(Positions as int);
    }
  }

  /** `x` with its low seven bits cleared, as Python's `x & ~127` gives it for any sign. */
  function ClearLow7(x: int): (r: int)
    ensures r % Positions == 0 && r <= x < r + Positions
  {
    x - x % Positions
  }

  /** `x & 0xFF80` in Python: the low seven bits cleared and everything above bit 15 dropped. */
  function Mask16High9(x: int): (r: int)
    ensures 0 <= r < 0x1_0000 && r % Positions == 0
    ensures 0 <= x < 0x1_0000 ==> r == ClearLow7(x)
  {
    x % 0x1_0000 - x % 0x1_0000 % Positions
  }

  /** The zero that recalibration stores, as the driver computes it: it ignores the direction. */
  function WrittenZero(raw: int, target: int): int {
    (raw - target % Positions) % Positions
  }

  /**
   * What the multi-turn position reads right after recalibrating to `target`
   * as the driver is written: the turn count is masked with `0xFF80`.
   */
  function WrittenRecalibratedReading(raw: int, target: int, reverse: bool): int {
    var zero := WrittenZero(raw, target);
    var last := Raw2Pos(raw, zero, reverse);
    Mask16High9(target - last) + last
  }

  /** With a negative target the `0xFF80` mask leaves a large positive turn count. */
  lemma WrittenMaskNegativeTarget()
    ensures WrittenRecalibratedReading(0, -128, false) == 65408
  {
    assert WrittenZero(0, -128) == 0;
    assert Raw2Pos(0, 0, false) == 0;
    assert Mask16High9(-128) == 65408;
  }

  /** A target of 65536 or more loses its high bits to the `0xFF80` mask. */
  lemma WrittenMaskLargeTarget()
    ensures WrittenRecalibratedReading(0, 0x1_0000, false) == 0
  {
    assert WrittenZero(0, 0x1_0000) == 0;
    assert Raw2Pos(0, 0, false) == 0;
    assert Mask16High9(0x1_0000) == 0;
  }

  /** In reverse the driver's zero points the wrong way, so the reading is the negated target. */
  lemma WrittenReverseTarget()
    ensures WrittenRecalibratedReading(0, 1, true) == -1
  {
    assert WrittenZero(0, 1) == 127;
    assert Raw2Pos(0, 127, true) == -1;
    assert Mask16High9(2) == 0;
  }

  /** The zero that makes the current reading `raw` show position `target` in the counting direction. */
  function CalibratedZero(raw: int, target: int, reverse: bool): (zero: int)
    ensures 0 <= zero < Positions
    ensures SameInTurn(Directed(raw - zero, reverse), target)
  {
    var t := Directed(target % Positions, reverse);
    var z := (raw - t) % Positions;
    var q := (raw - t) / Positions;
    assert raw - t == q * Positions + z;
    assert target == target / Positions * Positions + target % Positions;
    var k := if reverse then -q - target / Positions else q - target / Positions;
    WholeTurns(Directed(raw - z, reverse), target, k);
    z
  }

  /** Values a whole number of turns apart name the same position. */
  lemma WholeTurns(x: int, y: int, k: int)
    requires x - y == k * Positions
    ensures SameInTurn(x, y)
  {
  }

  /** Two values naming the same position are a whole number of turns apart. */
  lemma TurnsApart(x: int, y: int)
    requires SameInTurn(x, y)
    ensures x - y == (x - y) / Positions * Positions
  {
  }

  /**
   * Recalibration with the corrected zero and mask: the new signed position
   * agrees with the target, the turn count is whole turns, and together they
   * read exactly the target.
   */
  lemma RecalibrationReadsTarget(raw: int, target: int, reverse: bool)
    requires 0 <= raw < Positions
    ensures var last := Raw2Pos(raw, CalibratedZero(raw, target, reverse), reverse);
            -64 <= last <= 63 && SameInTurn(last, target) &&
            ClearLow7(target - last) % Positions == 0 &&
            ClearLow7(target - last) + last == target
  {
    var zero := CalibratedZero(raw, target, reverse);
    var last := Raw2Pos(raw, zero, reverse);
    var d := Directed(raw - zero, reverse);
    TurnsApart(d, target);
    var a := (d - target) / Positions;
    var b := if d > 63 then -1 else if d < -64 then 1 else 0;
    assert last == d + b * Positions;
    WholeTurns(last, target, a + b);
    WholeTurns(target - last, 0, -(a + b));
  }
}
