# ACE-128 absolute encoder driver, modelled in Dafny

The ACE-128 is a 128-position absolute rotary encoder read as one byte over
I2C: each of its eight pins shows one bit of a Gray-like code printed on a
single track. The driver (`ace128.py`, class `Ace128`) does two things:

- **Pattern table.** At construction it inverts the track: for every position
  0..127 it works out which pin byte the encoder shows there, and records the
  position in a 256-entry table indexed by that byte. Bytes no position shows
  keep the sentinel 255. The pin order says which track offset each pin reads.
- **Position tracking.** A decoded raw position becomes a position relative to
  a logical zero, signed (`pos`, in [-64, 63]) or unsigned (`upos`, in
  [0, 127]), optionally counted in reverse. `mpos` adds a turn count that
  moves by a whole turn (128) whenever the signed position jumps by more than
  half a turn. `setZero` and `setMpos` recalibrate. The zero and the turn
  count can be kept in a save file, written only when its contents change.

Files:

- `encoder_map.dfy` (module `EncoderMap`): the table builder as the nested
  loops of the constructor (`BuildMap`, `ScanPins`), specified by the pattern
  of each position (`Pattern`) and the table those patterns produce
  (`EncoderTable`), with the bounds and the meaning of every entry proved for
  any pin order.
- `track_code.dfy` (module `TrackCode`): for the actual track and the default
  pin order (8, 7, 6, 5, 4, 3, 2, 1), the 128 patterns are pairwise distinct,
  so every pattern decodes back to its position and exactly 128 entries are
  positions. The proof reads the 16 track bytes as one 128-bit number and lets
  the solver compare all positions at once.
- `positions.dfy` (module `ShaftPosition`): the signed and unsigned position,
  the rollover rule, and recalibration, as integer functions.
- `persistence.dfy` (module `SaveFile`): the save file as its contents plus a
  write count, and the write-only-on-change rule.
- `ace128.dfy` (module `Ace128Driver`): the driver as a class whose fields
  are the table, the direction flag, the zero, the turn count, the last signed
  position and the save file. Each bus read is the pin byte passed in as
  `pins`.

Modelling decisions:

- A pin byte that decodes to the sentinel makes `Pos`, `UPos`, `MPos`,
  `SetZeroHere` and `SetMPos` report an error and change nothing. The code
  would carry 255 into its arithmetic.
- The driver defines `setZero` twice (ace128.py:99 and ace128.py:103). The
  second definition hides the first, so every call to `setZero` fails with a
  wrong argument count. The model has both operations: `SetZero(raw)` and
  `SetZeroHere(pins)`.
- ace128.py:113 reads `_lastpos`, a name that does not exist, where the field
  `self._lastpos` is meant. The model reads the field.
- The signed position lies in the closed range [-64, 63]: a difference of
  exactly -64 is not corrected (ace128.py:73).
- `reverse` is a plain field that callers may assign at any time
  (ace128.py:20).
- Python's `x & 127` is written `x % 128` and `x & 0xFF80` as
  `x % 65536 - x % 65536 % 128`; both agree with Python for either sign.
  Python's `%` and `/` with a positive divisor agree with Dafny's.
- Positions, offsets and pin-order entries in the table builder are bytes
  (`bv8`). Only a pin-order entry modulo 8 affects the offset, and 128 divides
  256, so byte arithmetic gives the same offsets as Python's integers.

## Model

| member | source | states |
|---|---|---|
| EncoderMap.Mask | ace128.py:36 | the mask selects bit `pos % 8` of a track byte, counting from the most significant bit |
| EncoderMap.Offset | ace128.py:40 | the track byte a pin reads is always one of the 16 (`track[offset]` is in range) |
| EncoderMap.PinSet | ace128.py:40-41 | whether a pin reads a set track bit at a position: the track byte at `Offset` masked with `Mask`; its meaning for the pattern is stated by PatternBit |
| EncoderMap.PatternUpTo | ace128.py:35-42 | the index after the first pins have been examined; specification function, its meaning is stated by PatternUpToBit and ScanPins |
| EncoderMap.Pattern | ace128.py:34-42 | the index the pins show at a position; specification function, its meaning is stated by PatternBit, TableEntry and DecodeRoundTrip |
| EncoderMap.PatternUpToBit | ace128.py:37-42 | after examining some pins, bit `pin` of the index is set exactly when that pin was examined and reads a set track bit |
| EncoderMap.PatternBit | ace128.py:34-42 | bit `pin` of a position's pattern is set exactly when pin `pin` reads a set track bit there |
| EncoderMap.Recorded | ace128.py:33-44 | the table after recording some positions always has 256 entries |
| EncoderMap.EncoderTable | ace128.py:33-44 | the finished table has 256 entries |
| EncoderMap.RecordedEntry | ace128.py:33-44 | after recording positions 0..n-1, an entry is the sentinel exactly when none of them shows its byte, and otherwise is the last of them that does |
| EncoderMap.TableEntry | ace128.py:33-44 | every entry is the sentinel or a position in [0, 127] that shows that byte; entries no position shows keep the sentinel, and only those |
| EncoderMap.SentinelRun | ace128.py:33 | the initial table holds 256 sentinels |
| EncoderMap.RecordedSentinels | ace128.py:33-44 | when the recorded positions all show different bytes, 256 - n sentinels remain |
| EncoderMap.BuildMap | ace128.py:33-44 | the nested loops produce a fresh 256-entry table equal to `EncoderTable` |
| EncoderMap.ScanPins | ace128.py:35-42 | the inner pin loop accumulates exactly the position's pattern |
| TrackCode.TrackBytes | ace128.py:27-32 | each track byte is the matching byte of the 128-bit track code |
| TrackCode.DefaultPinReads | ace128.py:40-41 | with the default pin order, pin `pin` at `pos` reads track bit `pos + 16 * (7 - pin)` |
| TrackCode.SameBit | ace128.py:41-42 | a pin's contribution equals the bit read off the track code |
| TrackCode.PatternIsCodeUpTo | ace128.py:37-42 | with the default pin order, the accumulated pattern equals the accumulated track-code bits |
| TrackCode.CodeFlat | ace128.py:37-42 | the eight track-code bits of a position assemble into one byte |
| TrackCode.DefaultPatternIsCode | ace128.py:34-42 | with the default pin order, a position's pattern is its byte of the track code |
| TrackCode.CodeInjectiveLow | ace128.py:27-32 | positions 0..63 have track-code bytes that no other position shares |
| TrackCode.CodeInjectiveHigh | ace128.py:27-32 | positions 64..127 have track-code bytes that no other position shares |
| TrackCode.CodeInjective | ace128.py:27-32 | two positions with the same track-code byte are equal |
| TrackCode.DefaultPatternsDistinct | ace128.py:18-44 | with the default pin order, no two positions show the same pin byte |
| TrackCode.DecodeRoundTrip | ace128.py:18-44 | with the default pin order, the table maps the byte shown at every position back to that position |
| TrackCode.DefaultTableSentinels | ace128.py:18-44 | with the default pin order, exactly 128 entries are positions and 128 keep the sentinel |
| ShaftPosition.Directed | ace128.py:69-70 | a displacement negated when counting in reverse (also ace128.py:80-81); its use is stated by Raw2Pos, UPos and CalibratedZero |
| ShaftPosition.Raw2Pos | ace128.py:67-75 | the signed position is the directed displacement `raw - zero` modulo a turn, and lies in [-64, 63] for a raw reading and zero within one turn |
| ShaftPosition.SignedRepresentative | ace128.py:71-74 | [-64, 63] holds one value per position |
| ShaftPosition.Raw2PosUnique | ace128.py:67-75 | the signed position is the only value in [-64, 63] agreeing with the directed displacement |
| ShaftPosition.UPos | ace128.py:77-83 | the unsigned position lies in [0, 127] and agrees with the directed displacement modulo a turn |
| ShaftPosition.SignedUnsigned | ace128.py:67-86 | the signed position is the unsigned one modulo a turn, and equals it minus 128 exactly when the unsigned one exceeds 63 |
| ShaftPosition.Rollover | ace128.py:90-95 | the turn count rises by 128 exactly when the position falls by more than 64, falls by 128 exactly when it rises by more than 64, and otherwise stays |
| ShaftPosition.RolloverTracksMotion | ace128.py:88-97 | when the shaft moves by less than half a turn between readings, turn count plus signed position advance by exactly that motion |
| ShaftPosition.ClearLow7 | ace128.py:113 | clearing the low seven bits gives the multiple of 128 at or just below the value |
| ShaftPosition.Mask16High9 | ace128.py:113 | the `0xFF80` mask gives a multiple of 128 in [0, 65535], equal to clearing the low seven bits only for values in that range |
| ShaftPosition.WrittenZero | ace128.py:111 | the zero recalibration stores as written, `(raw - (target & 127)) & 127`, whatever the direction; the as-written half of the second finding |
| ShaftPosition.WrittenRecalibratedReading | ace128.py:109-113 | what `mpos` reads right after recalibration as written, with `setZero` and `_lastpos` corrected; the as-written half of both findings, exhibited by the three Written lemmas |
| ShaftPosition.WrittenMaskNegativeTarget | ace128.py:109-113 | as written (with `setZero` and `_lastpos` corrected), recalibrating to -128 reads 65408 |
| ShaftPosition.WrittenMaskLargeTarget | ace128.py:109-113 | as written (with `setZero` and `_lastpos` corrected), recalibrating to 65536 reads 0 |
| ShaftPosition.WrittenReverseTarget | ace128.py:109-113 | as written (with `setZero` and `_lastpos` corrected), recalibrating to 1 while counting in reverse reads -1 |
| ShaftPosition.CalibratedZero | ace128.py:110-111 | the new zero lies within one turn and makes the current reading agree with the target in the counting direction |
| ShaftPosition.RecalibrationReadsTarget | ace128.py:109-113 | after recalibration the signed position agrees with the target, the turn count is whole turns, and the two add up to the target |
| SaveFile.Record | ace128.py:118 | the record the driver saves, both keys present; what saving it does is stated by Save |
| SaveFile.Save | ace128.py:116-127 | with a save file, the file ends up holding the record; without one, nothing changes; at most one write |
| SaveFile.SaveWritesOnChange | ace128.py:117-127 | a save writes exactly when there is a save file whose contents differ from the record |
| SaveFile.SaveIdempotent | ace128.py:116-127 | saving the same record twice is the same as saving it once |
| Ace128Driver.Ace128.constructor | ace128.py:18-59 | the table is the one built from the pin order; a readable save file gives the zero and turn count (missing keys default to the reading and 0) and the last position is the signed reading; otherwise the zero is the reading, no turns, last position 0 |
| Ace128Driver.Ace128.RawPos | ace128.py:64-65 | the raw position is the table entry for the pin byte: the sentinel or a position |
| Ace128Driver.RawPosDecodes | ace128.py:64-65 | the raw position is the sentinel exactly when no position shows the pin byte, and otherwise a position that shows it |
| Ace128Driver.DefaultRawPos | ace128.py:64-65 | with the default pin order, the byte shown at a position reads as that position |
| Ace128Driver.Ace128.Pos | ace128.py:85-86 | an error exactly on the sentinel; otherwise the directed displacement from the zero modulo a turn, in [-64, 63] once calibrated |
| Ace128Driver.Ace128.UPos | ace128.py:77-83 | an error exactly on the sentinel; otherwise in [0, 127], agreeing with the directed displacement and, once calibrated, with `Pos` modulo a turn |
| Ace128Driver.Ace128.GetZero | ace128.py:106-107 | once calibrated the zero lies within one turn |
| Ace128Driver.Ace128.MPos | ace128.py:88-97 | the turn count changes by the rollover of the last and current signed positions, the last position becomes the current one, the result is their sum, the file is saved only on a rollover, and calibration is kept |
| Ace128Driver.Ace128.SetZero | ace128.py:99-101 | the zero becomes the raw value modulo 128, as `GetZero` then reports, and is saved |
| Ace128Driver.Ace128.SetZeroHere | ace128.py:103-104 | the zero becomes the current raw position, so the signed position then reads 0 |
| Ace128Driver.Ace128.SetMPos | ace128.py:109-114 | the zero and turn count are chosen so that the signed position agrees with the target and turn count plus signed position is the target; the file is saved after each step |
| Ace128Driver.RecalibrateThenRead | ace128.py:88-114 | recalibrating and then reading the multi-turn position at the same reading gives the target |

## Left out

- The I2C bus and GPIO: the bus selection, the pull-up write and the byte read (ace128.py:13-16, 22, 61-62). Each reading is the pin byte passed to the operation.
- The device address `i2caddr` (ace128.py:18-19), which only addresses the bus.
- Pickle and file I/O (ace128.py:46-55, 119-127). The save file is its readable contents (`None` for a missing or unreadable file) plus a write count. Read failures fall back as in the code; write failures are not modelled.
- The polling loop under `__main__` (ace128.py:130-135), which is unbounded I/O.
- Ace128Driver.Ace128.constructor: requires the first reading to decode, because the code would carry the sentinel 255 into the zero or, when a saved zero is loaded, into `_lastpos`.
- Ace128Driver.Ace128.constructor: establishes `Calibrated` only when the save file's zero lies in [0, 127] and its turn count is a multiple of 128. The code accepts any stored values.
- Ace128Driver.Ace128.constructor: the two bus reads at ace128.py:50-51 (`rawPos()` as the default of `get` and again inside `pos()`) are one reading, `pins`.
- The pin order is a sequence of bytes. The code accepts any integers, but only their values modulo 8 affect the table.
- The pin order is kept only as ghost state, to specify the table. The code does not keep it either.
- Distinct patterns, the decode round trip and the sentinel count are proved for the default pin order only. Another pin order may map two positions to one byte.
- Ace128Driver.RawPosDecodes: states the pattern match on integer values (`Pattern(...) as int == pins as int`), to keep the proof small. For bytes this is the same as equality.

## Findings

| source | as written | input that shows it | evidently intended | confidence | as-written member | corrected member |
|---|---|---|---|---|---|---|
| ace128.py:113 | the turn count is `(target - lastpos) & 0xFF80`, which drops the sign and everything above bit 15 (with the shadowed `setZero` and the undefined `_lastpos` corrected, since as literally written the call stops earlier at ace128.py:111) | not reversed, raw position 0, target -128: the turn count becomes 65408 and `mpos` reads 65408 | the turn count is `target - lastpos` with only the low seven bits cleared, so `mpos` reads the target | high; not executed | ShaftPosition.WrittenMaskNegativeTarget | ShaftPosition.RecalibrationReadsTarget |
| ace128.py:111 | the new zero is `raw - (target & 127)` whatever the direction (with the shadowed `setZero` and the undefined `_lastpos` corrected) | reversed, raw position 0, target 1: the zero becomes 127, the signed position -1, the turn count 0, and `mpos` reads -1 | the zero is chosen in the counting direction, `raw - (±target & 127)`, so `mpos` reads the target when reversed too | medium; not executed | ShaftPosition.WrittenReverseTarget | ShaftPosition.RecalibrationReadsTarget |
