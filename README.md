# AntMe core: item coordinates and bug replay records

This project models two pieces of the AntMe ant simulation in Dafny and proves their
properties.

**`CoreCoordinate`** is the integer pose of an item on the playground. It holds a
position `x`, `y`, a `radius` and a `direction`, all in internal units.
- The absolute constructors scale position and radius by the playground unit.
- The relative constructor adds deltas that are already in internal units.
- The `Radius` setter stores the absolute value.
- The `Direction` setter wraps any angle into 0..359 with two `while` loops.
- Three distance queries measure between two items:
  - the centre distance, rounded to the nearest integer;
  - the surface distance, which is the centre distance less both radii and never negative;
  - the surface distance in playground steps.

The model is the class `Coordinates.CoreCoordinate`. Its constructors and setters are
methods, and the `Direction` setter keeps its two loops. The distance queries are
functions.

`Math.Round(Math.Sqrt(s))` on the integer `s = dx² + dy²` is modelled exactly. It is the
unique `n ≥ 0` with `s ≤ n² + n`, and with `n² − n < s` whenever `n > 0`. Written
without that guard, the lower bound `n² − n < s` would be false for `s = 0`, `n = 0`.

**`BugUpdate`** is the per-tick replay record of one bug.
- A flag word says which of the four fields changed: PositionX = 1, PositionY = 2,
  Direction = 4 and Vitality = 8.
- `Serialize` writes the flag word, then only the flagged fields, in that order.
  PositionX and PositionY are sbytes, Direction is a short and Vitality is a ushort.
- The decoding constructor reads the same fields in the same order, gated by the same
  flags. Every field that is not flagged keeps 0.

The model is the class `BugUpdates.BugUpdate`. It works over a `Serialization.Serializer`,
which holds a byte buffer and a read cursor. The flag word, with `Change` (bitwise OR)
and `HasChanged` (bitwise AND is non-zero), is in module `ChangeSets`. The methods are
tied to two pure functions, `BugUpdates.Encode` and `BugUpdates.DecodeAt`.

Proved properties:
- Decoding the encoding of any record gives back the flag word, every flagged field
  after its narrowing cast, and 0 for the rest. This holds wherever the record sits in
  the stream.
- A record whose flagged fields are in range of their wire types and whose unflagged
  fields are 0 survives the round trip exactly. An unflagged field is not written, so
  any other value it holds comes back as 0.
- Every successful decode yields a record whose encoding is exactly the bytes that were
  read.
- Decoding any proper prefix of an encoding reports truncation.
- An out-of-range value comes back wrapped to its wire type, e.g. a position delta of
  200 comes back as −56.

The serializer and the update base class that carries the flag word are not part of this
model. They are modelled minimally:
- the flag word is a one-byte prefix;
- two-byte values are written least significant byte first;
- a read past the end of the buffer sets a sticky `truncated` flag, yields 0 and moves
  the cursor to the end.

## Model

| member | source | states |
|---|---|---|
| Coordinates.CoreCoordinate.constructor | SimulationCore/Simulation/CoreCoordinate.cs:25-38 | x and y are scaled by the playground unit, radius is the absolute value of the scaled radius, direction is the given angle wrapped into 0..359; the pose is valid |
| Coordinates.CoreCoordinate.WithoutDirection | SimulationCore/Simulation/CoreCoordinate.cs:47-54 | x, y scaled, radius the absolute scaled radius, direction 0; valid |
| Coordinates.CoreCoordinate.WithoutRadius | SimulationCore/Simulation/CoreCoordinate.cs:62-68 | x, y scaled, radius and direction 0; valid |
| Coordinates.CoreCoordinate.Relative | SimulationCore/Simulation/CoreCoordinate.cs:77-83 | x = c.x + deltaX and y = c.y + deltaY without scaling; radius and direction copied from c; valid when c is |
| Coordinates.CoreCoordinate.SetX | SimulationCore/Simulation/CoreCoordinate.cs:88-92 | x becomes the value; nothing else changes |
| Coordinates.CoreCoordinate.SetY | SimulationCore/Simulation/CoreCoordinate.cs:97-101 | y becomes the value; nothing else changes |
| Coordinates.CoreCoordinate.SetRadius | SimulationCore/Simulation/CoreCoordinate.cs:109-113 | radius becomes the absolute value, so it is never negative; nothing else changes and validity is kept |
| Coordinates.Abs | SimulationCore/Simulation/CoreCoordinate.cs:112 | the result is non-negative and equals the value or its negation |
| Coordinates.CoreCoordinate.SetDirection | SimulationCore/Simulation/CoreCoordinate.cs:124-135 | the two loops leave direction equal to the value modulo 360 (in 0..359); nothing else changes; a pose with non-negative radius becomes valid |
| Coordinates.NormalizedDirection | SimulationCore/Simulation/CoreCoordinate.cs:126-134 | the stored direction lies in 0..359 and differs from the value by whole turns |
| Coordinates.DirectionPeriodic | SimulationCore/Simulation/CoreCoordinate.cs:126-134 | value and value + 360·k are stored as the same direction |
| Coordinates.NormalizedDirectionIdempotent | SimulationCore/Simulation/CoreCoordinate.cs:126-134 | re-assigning a stored direction leaves it unchanged |
| Coordinates.RoundSqrt | SimulationCore/Simulation/CoreCoordinate.cs:190 | the result n satisfies s ≤ n² + n and, for n > 0, n² − n < s: it is Math.Round(Math.Sqrt(s)) |
| Coordinates.RoundedSqrtUnique | SimulationCore/Simulation/CoreCoordinate.cs:190 | at most one integer is the rounded square root of s |
| Coordinates.RoundSqrtOfSquare | SimulationCore/Simulation/CoreCoordinate.cs:190 | the rounded square root of n² is n |
| Coordinates.DetermineDistanceToCenter | SimulationCore/Simulation/CoreCoordinate.cs:186-191 | the result is the rounded square root of dx² + dy² |
| Coordinates.DistanceToCenterSymmetric | SimulationCore/Simulation/CoreCoordinate.cs:186-191 | the centre distance does not depend on argument order |
| Coordinates.CenterDistanceExample | SimulationCore/Simulation/CoreCoordinate.cs:186-191 | centres (10, 0) and (0, 0) are 10 apart |
| Coordinates.DetermineDistanceI | SimulationCore/Simulation/CoreCoordinate.cs:166-177 | the surface distance is non-negative, at least the centre distance less both radii, and equal to that gap or 0 (i.e. it is max(0, gap)); symmetry, the bound by the centre distance and distance 0 to itself are the lemmas below |
| Coordinates.DistanceISymmetric | SimulationCore/Simulation/CoreCoordinate.cs:166-177 | the surface distance does not depend on argument order |
| Coordinates.DistanceIAtMostCenter | SimulationCore/Simulation/CoreCoordinate.cs:166-177 | for valid poses the surface distance never exceeds the centre distance |
| Coordinates.DistanceToSelfIsZero | SimulationCore/Simulation/CoreCoordinate.cs:166-191 | an item is at centre distance and surface distance 0 from itself |
| Coordinates.OverlapExample | SimulationCore/Simulation/CoreCoordinate.cs:166-177 | two radius-6 items with centres 10 apart are at surface distance 0 (not −2), and at 0 steps |
| Coordinates.DetermineDistance | SimulationCore/Simulation/CoreCoordinate.cs:144-147 | the result d is the non-negative integer with d·unit ≤ surface distance < (d + 1)·unit: the surface distance divided by the playground unit |
| Coordinates.DistanceSymmetric | SimulationCore/Simulation/CoreCoordinate.cs:144-147 | the step distance does not depend on argument order |
| Coordinates.DirectionFromAngle | SimulationCore/Simulation/CoreCoordinate.cs:199-207 | the +360 fix-up maps a rounded angle in −180..180 into 0..359, and agrees with the angle modulo 360 |
| BugUpdates.BitIsSingle | SharedComponents/AntVideo/Block/BugUpdate.cs:5-12 | each BugFields value has exactly one bit set, the field's own |
| BugUpdates.BitsDistinct | SharedComponents/AntVideo/Block/BugUpdate.cs:5-12 | two different BugFields values share no bit |
| BugUpdates.BugUpdate.constructor | SharedComponents/AntVideo/Block/BugUpdate.cs:21 | an empty update has no flag set and every field 0 |
| Serialization.ToSByte | SharedComponents/AntVideo/Block/BugUpdate.cs:59 | the (sbyte) cast yields a value in −128..127 congruent to its input modulo 256, and keeps values already in range |
| Serialization.ToShort | SharedComponents/AntVideo/Block/BugUpdate.cs:69 | the (short) cast yields a value in −32768..32767 congruent modulo 65536, and keeps values in range |
| Serialization.ToUShort | SharedComponents/AntVideo/Block/BugUpdate.cs:74 | the (ushort) cast yields a value in 0..65535 congruent modulo 65536, and keeps values in range |
| BugUpdates.Cast | SharedComponents/AntVideo/Block/BugUpdate.cs:57-75 | the cast Serialize applies to a field lands in that field's wire range and keeps in-range values |
| BugUpdates.BugUpdate.Serialize | SharedComponents/AntVideo/Block/BugUpdate.cs:54-76 | appends exactly Encode of the update to the buffer: the flag word, then the flagged fields in order, each cast to its wire type |
| BugUpdates.EncodedLength | SharedComponents/AntVideo/Block/BugUpdate.cs:23-28 | an encoding is 1 prefix byte plus 1, 1, 2 and 2 bytes for flagged PositionX, PositionY, Direction and Vitality, and nothing for unflagged ones |
| BugUpdates.BugUpdate.Deserialize | SharedComponents/AntVideo/Block/BugUpdate.cs:30-52 | the update's fields and the cursor are those DecodeAt gives for the buffer at the old cursor; the buffer is unchanged; truncated ends up set iff it was set before or a read ran out of bytes |
| BugUpdates.ReadIfChanged | SharedComponents/AntVideo/Block/BugUpdate.cs:33-51 | a flagged field is read with its wire type's read, an unflagged one yields 0 and leaves the cursor |
| BugUpdates.DecodeEncode | SharedComponents/AntVideo/Block/BugUpdate.cs:30-76 | decoding Encode(r) anywhere in a stream yields r's flag word, each flagged field cast to its wire type, 0 for unflagged fields, and stops right after the record |
| BugUpdates.DecodeOwnEncoding | SharedComponents/AntVideo/Block/BugUpdate.cs:30-76 | decoding Encode(r) from its first byte gives the canonical form of r and consumes all of it |
| BugUpdates.RoundTrip | SharedComponents/AntVideo/Block/BugUpdate.cs:30-76 | a record whose flagged fields are in range and unflagged fields 0 survives encode then decode exactly |
| BugUpdates.EncodeDecode | SharedComponents/AntVideo/Block/BugUpdate.cs:30-76 | every successful decode gives a representable record whose encoding is exactly the bytes consumed |
| BugUpdates.TruncatedEncodingFails | SharedComponents/AntVideo/Block/BugUpdate.cs:30-52 | decoding any proper prefix of an encoded record fails (the decoder reports truncation) |
| BugUpdates.WrappedPositionExample | SharedComponents/AntVideo/Block/BugUpdate.cs:59 | a flagged position delta of 200 comes back as −56 |
| BugUpdates.VitalityOnlyExample | SharedComponents/AntVideo/Block/BugUpdate.cs:72-75 | only vitality 500 flagged encodes as [8, 244, 1] and decodes back to vitality 500 with every other field 0 |
| BugUpdates.BugUpdate.Change | SharedComponents/AntVideo/Block/BugUpdate.cs:78-81 | the flag word becomes the OR with the field's bit; afterwards the field reads as changed and every other field reads as before |
| BugUpdates.BugUpdate.HasChanged | SharedComponents/AntVideo/Block/BugUpdate.cs:83-86 | a field reads as changed iff its own bit is set in the flag word |
| ChangeSets.Change | SharedComponents/AntVideo/Block/BugUpdate.cs:78-81 | a bit of the result is set iff it is set in the old flag word or in the field |
| ChangeSets.ChangeThenHasChanged | SharedComponents/AntVideo/Block/BugUpdate.cs:78-86 | after Change(f), HasChanged(f) holds for any non-empty f |
| ChangeSets.ChangeIdempotent | SharedComponents/AntVideo/Block/BugUpdate.cs:78-81 | marking a field twice is the same as marking it once |
| ChangeSets.ChangeLeavesOthers | SharedComponents/AntVideo/Block/BugUpdate.cs:78-86 | marking a field does not alter whether a disjoint field reads as changed |
| ChangeSets.HasChangedBit | SharedComponents/AntVideo/Block/BugUpdate.cs:83-86 | for a single-bit field, HasChanged holds iff that bit is set in the flag word |

## Left out

- `DetermineDirection`, both overloads (CoreCoordinate.cs:155-158 and 199-207), uses `Math.Atan2` and π in floating point. Only the `+360` fix-up is modelled. The rounded angle in degrees is a parameter that is assumed to lie in −180..180.
- Floating point: `Math.Round(Math.Sqrt(...))` is modelled as the exact integer rounded square root. The precision of a double square root for very large squared distances is not captured.
- C# `int` overflow is not modelled. All integers are unbounded. This covers `x * PLAYGROUND_UNIT`, `c.x + deltaX`, and the squared distances.
- Coordinates.CoreCoordinate.SetRadius: does not model the `OverflowException` that `Math.Abs(int.MinValue)` throws, because integers are unbounded.
- `SimulationEnvironment` is not part of this model. `PLAYGROUND_UNIT` is taken as the constant 64.
- The `ICoordinate` interface and `CoordinateCoreInsect` are not part of this model. `DetermineDistance` takes two `CoreCoordinate`s directly.
- `CoreCoordinate` is a C# struct with value semantics. The model is a class with reference semantics. The only members that take another coordinate are the relative constructor and the distance functions, and they only read it.
- The property getters of `CoreCoordinate` are not separate members. The fields are read directly.
- `Serializer` and `UpdateBase` are not part of this model: their stream, byte order, prefix width and end-of-data behaviour are not known. The model assumes:
  - a one-byte flag-word prefix, written and read where `base.Serialize` and `base(serializer)` do;
  - little-endian two-byte values;
  - a sticky `truncated` flag for a read past the end, with the value 0.
- The flag word is limited to one byte (0..255), which is enough for the four bug fields.
- BugUpdates.BugUpdate.Deserialize: it reads each field into a local through `ReadIfChanged`, which performs the source's `if (HasChanged(f)) field = serializer.ReadX();`. The fields are assigned together at the end. The observable result is the same.
- The code generators in `PlayerManagement/` are template plumbing with no logic of their own.
- Concurrency and the tick scheduling that decides when records are written are not part of these files.
