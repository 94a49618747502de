/**
 * The ACE-128 driver object. It owns the decoding table built at
 * construction, the direction flag, the logical zero, the turn count and
 * the last signed position, and keeps the save file in step with the zero
 * and the turn count.
 *
 * Every reading of the encoder is the pin byte read from the bus, passed in
 * as `pins`. A pin byte that no position produces decodes to the sentinel;
 * the operations that read the bus then report `DecodeError` and leave the
 * state as it was.
 */
module Ace128Driver {
  import opened EncoderMap
  import opened ShaftPosition
  import opened SaveFile
  import TrackCode

  datatype Result<T> = Ok(value: T) | DecodeError

  class Ace128 {
    /** The wiring of the eight pins; it only shapes the table. */
    ghost const pinOrder: seq<bv8>
    /** The pin-byte-to-position table. */
    const encoderMap: array<int>
    /** Whether positions count the other way round. */
    var reverse: bool
    /** Whether a save file was given. */
    const saveFile: bool
    /** The raw position taken as logical zero. */
    var zero: int
    /** The turn count, in positions (the driver's `_mpos`). */
    var turns: int
    /** The signed position seen by the last multi-turn reading. */
    var lastPos: int
    /** The save file. */
    var store: Store

    /** The table is the one built from the pin order. */
    ghost predicate Valid()
      reads encoderMap
    {
      8 <= |pinOrder| && encoderMap.Length == 256 && encoderMap[..] == EncoderTable(pinOrder)
    }

    /**
     * The ranges the position arithmetic relies on: a zero within one turn,
     * a turn count of whole turns and a last position in the signed range.
     */
    predicate Calibrated()
      reads this
    {
      0 <= zero < Positions && turns % Positions == 0 && -64 <= lastPos <= 63
    }

    /**
     * Builds the table, then takes the zero and turn count from the save file
     * when one is given and readable (a missing key falls back to the current
     * reading and to no turns), and otherwise starts at the current reading
     * with no turns.
     */
    constructor (pinOrder: seq<bv8>, saveFile: bool, file: Option<SaveData>, pins: bv8)
      requires 8 <= |pinOrder|
      requires EncoderTable(pinOrder)[pins as int] != Sentinel
      ensures Valid() && fresh(encoderMap) && this.pinOrder == pinOrder && this.saveFile == saveFile && !reverse
      ensures store == Store(file, 0)
      ensures var raw := EncoderTable(pinOrder)[pins as int];
              if saveFile && file.Some? then
                zero == file.value.zero.GetOr(raw) && turns == file.value.mpos.GetOr(0) &&
                lastPos == Raw2Pos(raw, zero, false)
              else
                zero == raw && turns == 0 && lastPos == 0
      ensures (saveFile && file.Some? ==>
                 0 <= file.value.zero.GetOr(0) < Positions && file.value.mpos.GetOr(0) % Positions == 0) ==> Calibrated()
    {
      this.pinOrder := pinOrder;
      var table := BuildMap(pinOrder);
      encoderMap := table;
      this.saveFile := saveFile;
      reverse := false;
      var raw := table[pins];
      TableEntry(pinOrder, pins as int);
      if saveFile && file.Some? {
        var loaded := file.value.zero.GetOr(raw);
        turns := file.value.mpos.GetOr(0);
        zero := loaded;
        lastPos := Raw2Pos(raw, loaded, false);
      } else {
        turns := 0;
        zero := raw;
        lastPos := 0;
      }
      store := Store(file, 0);
    }

    /** The raw position for pin byte `pins`: the table entry, a position or the sentinel. */
    function RawPos(pins: bv8): (raw: int)
      reads encoderMap
      requires Valid()
      ensures raw == EncoderTable(pinOrder)[pins as int]
      ensures raw == Sentinel || 0 <= raw < Positions
    {
      TableEntry(pinOrder, pins as int);
      encoderMap[pins]
    }

    /** The signed position, relative to the zero and in the counting direction. */
    function Pos(pins: bv8): (r: Result<int>)
      reads this, encoderMap
      requires Valid()
      ensures r.Ok? <==> RawPos(pins) != Sentinel
      ensures r.Ok? ==> SameInTurn(r.value, Directed(RawPos(pins) - zero, reverse))
      ensures r.Ok? && Calibrated() ==> -64 <= r.value <= 63
    {
      var raw := RawPos(pins);
      if raw == Sentinel then DecodeError else Ok(Raw2Pos(raw, zero, reverse))
    }

    /** The unsigned position, in [0, 127], naming the same place as the signed one. */
    function UPos(pins: bv8): (r: Result<int>)
      reads this, encoderMap
      requires Valid()
      ensures r.Ok? <==> RawPos(pins) != Sentinel
      ensures r.Ok? ==> 0 <= r.value < Positions && SameInTurn(r.value, Directed(RawPos(pins) - zero, reverse))
      ensures r.Ok? && Calibrated() ==> r.value == Pos(pins).value % Positions
    {
      var raw := RawPos(pins);
      if raw == Sentinel then DecodeError
      else
        var u := ShaftPosition.UPos(raw, zero, reverse);
        assert Calibrated() ==> u == Raw2Pos(raw, zero, reverse) % Positions by {
          if Calibrated() {
            SignedUnsigned(raw, zero, reverse);
          }
        }
        Ok(u)
    }

    /** The logical zero. */
    function GetZero(): (z: int)
      reads this
      ensures Calibrated() ==> 0 <= z < Positions
    {
      zero
    }

    /**
     * The multi-turn position: the turn count moves by a whole turn when the
     * signed position jumps by more than half a turn, and the file is saved
     * only when it did.
     */
    method MPos(pins: bv8) returns (r: Result<int>)
      requires Valid()
      modifies this`turns, this`lastPos, this`store
      ensures r.Ok? <==> old(RawPos(pins)) != Sentinel
      ensures r.DecodeError? ==> turns == old(turns) && lastPos == old(lastPos) && store == old(store)
      ensures r.Ok? ==>
                var current := old(Pos(pins)).value;
                var delta := Rollover(old(lastPos), current);
                turns == old(turns) + delta && lastPos == current && r.value == turns + current &&
                store == if delta == 0 then old(store) else Save(saveFile, old(store), zero, turns)
      ensures old(Calibrated()) ==> Calibrated()
    {
      var p := Pos(pins);
      if p.DecodeError? {
        return DecodeError;
      }
      var current := p.value;
      if lastPos - current > 64 {
        turns := turns + Positions;
        store := Save(saveFile, store, zero, turns);
      } else if current - lastPos > 64 {
        turns := turns - Positions;
        store := Save(saveFile, store, zero, turns);
      }
      lastPos := current;
      r := Ok(turns + current);
    }

    /** Takes raw position `raw`, reduced to one turn, as the logical zero, and saves. */
    method SetZero(raw: int)
      modifies this`zero, this`store
      ensures zero == raw % Positions && GetZero() == raw % Positions
      ensures store == Save(saveFile, old(store), zero, turns)
      ensures old(Calibrated()) ==> Calibrated()
    {
      zero := raw % Positions;
      store := Save(saveFile, store, zero, turns);
    }

    /** Takes the current reading as the logical zero. */
    method SetZeroHere(pins: bv8) returns (decoded: bool)
      requires Valid()
      modifies this`zero, this`store
      ensures decoded <==> old(RawPos(pins)) != Sentinel
      ensures decoded ==> zero == old(RawPos(pins)) && store == Save(saveFile, old(store), zero, turns)
      ensures !decoded ==> zero == old(zero) && store == old(store)
      ensures decoded ==> Pos(pins) == Ok(0)
      ensures old(Calibrated()) ==> Calibrated()
    {
      var raw := RawPos(pins);
      if raw == Sentinel {
        return false;
      }
      SetZero(raw);
      decoded := true;
    }

    /**
     * Recalibrates so that the multi-turn position reads `target` at the
     * current reading: the zero is chosen so that the signed position agrees
     * with `target` in the counting direction, and the turn count makes up the
     * rest. The file is saved after each of the two steps.
     */
    method SetMPos(target: int, pins: bv8) returns (decoded: bool)
      requires Valid()
      modifies this`zero, this`lastPos, this`turns, this`store
      ensures decoded <==> old(RawPos(pins)) != Sentinel
      ensures !decoded ==> zero == old(zero) && lastPos == old(lastPos) && turns == old(turns) && store == old(store)
      ensures decoded ==>
                var raw := old(RawPos(pins));
                zero == CalibratedZero(raw, target, reverse) &&
                lastPos == Raw2Pos(raw, zero, reverse) &&
                turns == ClearLow7(target - lastPos) &&
                store == Save(saveFile, Save(saveFile, old(store), zero, old(turns)), zero, turns)
      ensures decoded ==> Calibrated() && Pos(pins) == Ok(lastPos) && turns + lastPos == target
    {
      var raw := RawPos(pins);
      if raw == Sentinel {
        return false;
      }
      SetZero(raw - Directed(target % Positions, reverse));
      lastPos := Raw2Pos(raw, zero, reverse);
      turns := ClearLow7(target - lastPos);
      store := Save(saveFile, store, zero, turns);
      RecalibrationReadsTarget(raw, target, reverse);
      decoded := true;
    }
  }

  /**
   * What a raw position means: the sentinel exactly when no position shows
   * the pin byte, and otherwise a position that shows it.
   */
  lemma RawPosDecodes(ace: Ace128, pins: bv8)
    requires ace.Valid()
    ensures ace.RawPos(pins) == Sentinel <==> forall pos: nat :: pos < Positions ==> Pattern(ace.pinOrder, pos) as int != pins as int
    ensures ace.RawPos(pins) != Sentinel ==> Pattern(ace.pinOrder, ace.RawPos(pins)) as int == pins as int
  {
    TableEntry(ace.pinOrder, pins as int);
  }

  /** With the default wiring, the pin byte shown at `pos` decodes to `pos`. */
  lemma DefaultRawPos(ace: Ace128, pos: nat)
    requires ace.Valid() && ace.pinOrder == DefaultPinOrder && pos < Positions
    ensures ace.RawPos(Pattern(DefaultPinOrder, pos)) == pos
  {
    TrackCode.DecodeRoundTrip(pos);
  }

  /** Recalibrating and then reading the multi-turn position at the same reading gives the target. */
  method RecalibrateThenRead(ace: Ace128, target: int, pins: bv8) returns (r: Result<int>)
    requires ace.Valid()
    modifies ace`zero, ace`lastPos, ace`turns, ace`store
    ensures r.Ok? <==> old(ace.RawPos(pins)) != Sentinel
    ensures r.Ok? ==> r.value == target && ace.Calibrated()
  {
    var decoded := ace.SetMPos(target, pins);
    r := ace.MPos(pins);
  }
}
