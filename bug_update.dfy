/** The replay record of one bug for one tick: a flag word saying which fields
    changed, followed by exactly those fields in a fixed order and width. */
module BugUpdates {
  import opened Serialization
  import ChangeSets

  /** The fields a bug update can carry (the [Flags] enum BugFields). */
  datatype BugField = PositionX | PositionY | Direction | Vitality

  /** Position of each field's bit in the flag word. */
  function Position(f: BugField): nat
  {
    match f
    case PositionX => 0
    case PositionY => 1
    case Direction => 2
    case Vitality => 3
  }

  /** The value of each field in the flag word (BugFields). */
  function Bit(f: BugField): ChangeSets.Flags
  {
    match f
    case PositionX => 1
    case PositionY => 2
    case Direction => 4
    case Vitality => 8
  }

  /** Each field's value is a single bit, the one at Position(f). */
  lemma BitIsSingle(f: BugField, i: nat)
    ensures ChangeSets.TestBit(Bit(f), i) <==> i == Position(f)
  {
    assert Bit(f) == ChangeSets.Pow2(Position(f));
    ChangeSets.Pow2Bit(Position(f), i);
  }

  /** Different fields have no bit in common. */
  lemma BitsDistinct(f: BugField, g: BugField)
    requires f != g
    ensures ChangeSets.And(Bit(f), Bit(g)) == 0
  {
    forall i: nat ensures ChangeSets.TestBit(ChangeSets.And(Bit(f), Bit(g)), i) == ChangeSets.TestBit(0, i) {
      ChangeSets.AndBit(Bit(f), Bit(g), i);
      BitIsSingle(f, i);
      BitIsSingle(g, i);
      ChangeSets.ZeroHasNoBit(i);
    }
    ChangeSets.SameBits(ChangeSets.And(Bit(f), Bit(g)), 0);
  }

  /** Values a bug update holds: the flag word, the position and direction deltas
      and the absolute energy. */
  datatype BugRecord = BugRecord(changes: ChangeSets.Flags, dPositionX: int, dPositionY: int, dDirection: int, aEnergy: int)

  /** Whether field f is flagged in r. */
  predicate Flagged(r: BugRecord, f: BugField)
  {
    ChangeSets.HasChanged(r.changes, Bit(f))
  }

  /** The member of r that field f names. */
  function FieldValue(r: BugRecord, f: BugField): int
  {
    match f
    case PositionX => r.dPositionX
    case PositionY => r.dPositionY
    case Direction => r.dDirection
    case Vitality => r.aEnergy
  }

  /** The range of each field's wire type: sbyte, sbyte, short, ushort. */
  predicate InRange(f: BugField, v: int)
  {
    match f
    case PositionX => -128 <= v < 128
    case PositionY => -128 <= v < 128
    case Direction => -32768 <= v < 32768
    case Vitality => 0 <= v < 65536
  }

  /** Number of bytes each field occupies on the wire. */
  function Width(f: BugField): nat
  {
    match f
    case PositionX => 1
    case PositionY => 1
    case Direction => 2
    case Vitality => 2
  }

  /** The narrowing cast Serialize applies to field f before writing it. */
  function Cast(f: BugField, v: int): (c: int)
    ensures InRange(f, c)
    ensures InRange(f, v) ==> c == v
  {
    match f
    case PositionX => ToSByte(v)
    case PositionY => ToSByte(v)
    case Direction => ToShort(v)
    case Vitality => ToUShort(v)
  }

  /** The wire form of a value of field f's type. */
  function WireBytes(f: BugField, v: int): (bs: seq<Byte>)
    requires InRange(f, v)
    ensures |bs| == Width(f)
  {
    match f
    case PositionX => SByteBytes(v)
    case PositionY => SByteBytes(v)
    case Direction => ShortBytes(v)
    case Vitality => UShortBytes(v)
  }

  /** The bytes field f contributes: its cast value's wire form if flagged,
      nothing otherwise. */
  function Present(r: BugRecord, f: BugField): (bs: seq<Byte>)
    ensures |bs| == if Flagged(r, f) then Width(f) else 0
  {
    if Flagged(r, f) then WireBytes(f, Cast(f, FieldValue(r, f))) else []
  }

  /** The serialized record: the flag word prefix, then the flagged fields in the
      order PositionX, PositionY, Direction, Vitality. */
  function Encode(r: BugRecord): seq<Byte>
  {
    [r.changes as Byte]
      + Present(r, PositionX) + Present(r, PositionY) + Present(r, Direction) + Present(r, Vitality)
  }

  /** After the one-byte prefix, a record takes 1 byte per flagged position, 2 for
      a flagged direction and 2 for a flagged vitality, and nothing for fields that
      are not flagged. */
  lemma EncodedLength(r: BugRecord)
    ensures |Encode(r)| == 1 +
      (if Flagged(r, PositionX) then 1 else 0) + (if Flagged(r, PositionY) then 1 else 0) +
      (if Flagged(r, Direction) then 2 else 0) + (if Flagged(r, Vitality) then 2 else 0)
  {
  }

  /** Appending the prefix and then each field one after another appends Encode. */
  lemma AppendEncoded(before: seq<Byte>, r: BugRecord)
    ensures before + [r.changes as Byte] + Present(r, PositionX) + Present(r, PositionY)
      + Present(r, Direction) + Present(r, Vitality) == before + Encode(r)
  {
  }

  /** Result of decoding one record: the record read, the position after it, and
      whether the buffer held all of it. */
  datatype Decoded = Decoded(record: BugRecord, pos: nat, ok: bool)

  /** Reads a value of field f's type at pos. */
  function ReadWireAt(bs: seq<Byte>, pos: nat, f: BugField): (r: Read<int>)
    ensures r.ok ==> pos + Width(f) <= |bs| && r.pos == pos + Width(f)
    ensures r.ok ==> InRange(f, r.value) && bs[pos..r.pos] == WireBytes(f, r.value)
  {
    match f
    case PositionX => var v := ReadSByteAt(bs, pos); Read(v.value, v.pos, v.ok)
    case PositionY => var v := ReadSByteAt(bs, pos); Read(v.value, v.pos, v.ok)
    case Direction => var v := ReadShortAt(bs, pos); Read(v.value, v.pos, v.ok)
    case Vitality => var v := ReadUShortAt(bs, pos); Read(v.value, v.pos, v.ok)
  }

  /** Reads field f at pos if `flagged`, else yields 0 without reading. */
  function ReadFieldAt(bs: seq<Byte>, pos: nat, f: BugField, flagged: bool): Read<int>
  {
    if flagged then ReadWireAt(bs, pos, f) else Read(0, pos, true)
  }

  /** Decodes one record at pos: the flag word, then each flagged field in the
      same order as Encode writes them. */
  function DecodeAt(bs: seq<Byte>, pos: nat): Decoded
  {
    var c := ReadByteAt(bs, pos);
    var flags: ChangeSets.Flags := c.value as int;
    var px := ReadFieldAt(bs, c.pos, PositionX, ChangeSets.HasChanged(flags, Bit(PositionX)));
    var py := ReadFieldAt(bs, px.pos, PositionY, ChangeSets.HasChanged(flags, Bit(PositionY)));
    var dir := ReadFieldAt(bs, py.pos, Direction, ChangeSets.HasChanged(flags, Bit(Direction)));
    var en := ReadFieldAt(bs, dir.pos, Vitality, ChangeSets.HasChanged(flags, Bit(Vitality)));
    Decoded(BugRecord(flags, px.value, py.value, dir.value, en.value), en.pos,
            c.ok && px.ok && py.ok && dir.ok && en.ok)
  }

  /** DecodeAt spelled out as the five reads it makes, for callers that hold them. */
  lemma DecodeAtSteps(bs: seq<Byte>, pos: nat, c: Read<Byte>, flags: ChangeSets.Flags, px: Read<int>, py: Read<int>, pd: Read<int>, pe: Read<int>)
    requires c == ReadByteAt(bs, pos) && flags == c.value as int
    requires px == ReadFieldAt(bs, c.pos, PositionX, ChangeSets.HasChanged(flags, Bit(PositionX)))
    requires py == ReadFieldAt(bs, px.pos, PositionY, ChangeSets.HasChanged(flags, Bit(PositionY)))
    requires pd == ReadFieldAt(bs, py.pos, Direction, ChangeSets.HasChanged(flags, Bit(Direction)))
    requires pe == ReadFieldAt(bs, pd.pos, Vitality, ChangeSets.HasChanged(flags, Bit(Vitality)))
    ensures DecodeAt(bs, pos) == Decoded(BugRecord(flags, px.value, py.value, pd.value, pe.value), pe.pos, c.ok && px.ok && py.ok && pd.ok && pe.ok)
  {
  }

  /** The value field f has after a round trip: the cast value if flagged, 0 if not. */
  function Received(r: BugRecord, f: BugField): int
  {
    if Flagged(r, f) then Cast(f, FieldValue(r, f)) else 0
  }

  /** The record a reader reconstructs from Encode(r). */
  function Canonical(r: BugRecord): BugRecord
  {
    BugRecord(r.changes, Received(r, PositionX), Received(r, PositionY), Received(r, Direction), Received(r, Vitality))
  }

  /** Reading a value of field f's type where its wire form was written gives it back. */
  lemma ReadWireOfWritten(bs: seq<Byte>, pos: nat, f: BugField, v: int)
    requires InRange(f, v)
    requires pos + Width(f) <= |bs| && bs[pos..pos + Width(f)] == WireBytes(f, v)
    ensures ReadWireAt(bs, pos, f) == Read(v, pos + Width(f), true)
  {
    match f
    case PositionX => ReadSByteOfWritten(bs, pos, v);
    case PositionY => ReadSByteOfWritten(bs, pos, v);
    case Direction => ReadShortOfWritten(bs, pos, v);
    case Vitality => ReadUShortOfWritten(bs, pos, v);
  }

  /** A field written at pos is read back at pos. */
  lemma ReadFieldOfPresent(bs: seq<Byte>, pos: nat, r: BugRecord, f: BugField)
    requires pos + |Present(r, f)| <= |bs| && bs[pos..pos + |Present(r, f)|] == Present(r, f)
    ensures ReadFieldAt(bs, pos, f, Flagged(r, f)) == Read(Received(r, f), pos + |Present(r, f)|, true)
  {
    if Flagged(r, f) {
      ReadWireOfWritten(bs, pos, f, Cast(f, FieldValue(r, f)));
    }
  }

  /** The middle part of a concatenation is found at its offset. */
  lemma SliceOfConcat(a: seq<Byte>, b: seq<Byte>, c: seq<Byte>)
    ensures (a + b + c)[|a|..|a| + |b|] == b
  {
  }

  /** Where the parts of a prefix byte followed by four pieces sit in a stream. */
  lemma Layout(before: seq<Byte>, e: seq<Byte>, after: seq<Byte>, h: Byte, x: seq<Byte>, y: seq<Byte>, d: seq<Byte>, v: seq<Byte>)
    requires e == [h] + x + y + d + v
    ensures var bs := before + e + after;
      var p1 := |before| + 1;
      var p2 := p1 + |x|;
      var p3 := p2 + |y|;
      var p4 := p3 + |d|;
      var p5 := p4 + |v|;
      p5 == |before| + |e| && p5 <= |bs| && bs[|before|] == h &&
      bs[p1..p2] == x && bs[p2..p3] == y && bs[p3..p4] == d && bs[p4..p5] == v
  {
    var head := before + [h];
    var bs := before + e + after;
    assert bs == head + x + y + d + v + after;
    SliceOfConcat(head, x, y + d + v + after);
    assert bs == head + x + (y + d + v + after);
    SliceOfConcat(head + x, y, d + v + after);
    assert bs == (head + x) + y + (d + v + after);
    SliceOfConcat(head + x + y, d, v + after);
    assert bs == (head + x + y) + d + (v + after);
    SliceOfConcat(head + x + y + d, v, after);
  }

  /** Where field f starts in an encoded record placed after `before`: past the
      prefix byte and every field written before f. */
  function Start(r: BugRecord, before: seq<Byte>, f: BugField): nat
  {
    var p1 := |before| + 1;
    var p2 := p1 + |Present(r, PositionX)|;
    var p3 := p2 + |Present(r, PositionY)|;
    var p4 := p3 + |Present(r, Direction)|;
    match f
    case PositionX => p1
    case PositionY => p2
    case Direction => p3
    case Vitality => p4
  }

  /** The prefix of an encoded record, wherever it sits in a stream, reads back as
      the flag word. */
  lemma ReadPrefixOfEncoded(r: BugRecord, before: seq<Byte>, after: seq<Byte>)
    ensures ReadByteAt(before + Encode(r) + after, |before|) == Read(r.changes as Byte, |before| + 1, true)
  {
    Layout(before, Encode(r), after, r.changes as Byte,
      Present(r, PositionX), Present(r, PositionY), Present(r, Direction), Present(r, Vitality));
  }

  /** Each field of an encoded record, wherever it sits in a stream, reads back as
      its received value, and the last one ends where the record ends. */
  lemma ReadFieldOfEncoded(r: BugRecord, before: seq<Byte>, after: seq<Byte>, f: BugField)
    ensures ReadFieldAt(before + Encode(r) + after, Start(r, before, f), f, Flagged(r, f))
         == Read(Received(r, f), Start(r, before, f) + |Present(r, f)|, true)
    ensures f == Vitality ==> Start(r, before, f) + |Present(r, f)| == |before| + |Encode(r)|
  {
    var x, y, d, v := Present(r, PositionX), Present(r, PositionY), Present(r, Direction), Present(r, Vitality);
    Layout(before, Encode(r), after, r.changes as Byte, x, y, d, v);
    ReadFieldOfPresent(before + Encode(r) + after, Start(r, before, f), r, f);
  }

  /** Decoding what Encode wrote, wherever it sits in a stream, gives back the flag
      word and every flagged field (narrowed by its cast), 0 for the other fields,
      and stops right after the record. */
  lemma DecodeEncode(r: BugRecord, before: seq<Byte>, after: seq<Byte>)
    ensures DecodeAt(before + Encode(r) + after, |before|)
         == Decoded(Canonical(r), |before| + |Encode(r)|, true)
  {
    var bs := before + Encode(r) + after;
    ReadPrefixOfEncoded(r, before, after);
    ReadFieldOfEncoded(r, before, after, PositionX);
    ReadFieldOfEncoded(r, before, after, PositionY);
    ReadFieldOfEncoded(r, before, after, Direction);
    ReadFieldOfEncoded(r, before, after, Vitality);
    var c := ReadByteAt(bs, |before|);
    var px := ReadFieldAt(bs, c.pos, PositionX, Flagged(r, PositionX));
    var py := ReadFieldAt(bs, px.pos, PositionY, Flagged(r, PositionY));
    var pd := ReadFieldAt(bs, py.pos, Direction, Flagged(r, Direction));
    var pe := ReadFieldAt(bs, pd.pos, Vitality, Flagged(r, Vitality));
    DecodeAtSteps(bs, |before|, c, r.changes, px, py, pd, pe);
  }

  /** Decoding Encode(r) from its first byte gives back Canonical(r). */
  lemma DecodeOwnEncoding(r: BugRecord)
    ensures DecodeAt(Encode(r), 0) == Decoded(Canonical(r), |Encode(r)|, true)
  {
    DecodeEncode(r, [], []);
    assert [] + Encode(r) + [] == Encode(r);
  }

  /** Field f of r is what a decoder could have produced: in range of its wire
      type if flagged, the default 0 if not. */
  predicate FieldRepresentable(r: BugRecord, f: BugField)
  {
    if Flagged(r, f) then InRange(f, FieldValue(r, f)) else FieldValue(r, f) == 0
  }

  /** A record every field of which is representable. */
  predicate Representable(r: BugRecord)
  {
    FieldRepresentable(r, PositionX) && FieldRepresentable(r, PositionY) &&
    FieldRepresentable(r, Direction) && FieldRepresentable(r, Vitality)
  }

  /** A representable record survives a round trip exactly. */
  lemma RoundTrip(r: BugRecord)
    requires Representable(r)
    ensures DecodeAt(Encode(r), 0) == Decoded(r, |Encode(r)|, true)
  {
    DecodeOwnEncoding(r);
  }

  /** A successful read of field f gives a representable value whose encoding is
      exactly the bytes read. */
  lemma ReadFieldInverse(bs: seq<Byte>, pos: nat, r: BugRecord, f: BugField)
    requires ReadFieldAt(bs, pos, f, Flagged(r, f)).ok
    requires FieldValue(r, f) == ReadFieldAt(bs, pos, f, Flagged(r, f)).value
    ensures pos <= ReadFieldAt(bs, pos, f, Flagged(r, f)).pos
    ensures pos <= |bs| ==> ReadFieldAt(bs, pos, f, Flagged(r, f)).pos <= |bs|
    ensures FieldRepresentable(r, f)
    ensures ReadFieldAt(bs, pos, f, Flagged(r, f)).pos <= |bs| ==>
      bs[pos..ReadFieldAt(bs, pos, f, Flagged(r, f)).pos] == Present(r, f)
  {
  }

  /** Splitting a slice at a middle position. */
  lemma SliceSplit(bs: seq<Byte>, a: nat, b: nat, c: nat)
    requires a <= b <= c <= |bs|
    ensures bs[a..c] == bs[a..b] + bs[b..c]
  {
  }

  /** Every record a successful decode produces is representable, and encoding it
      again gives back exactly the bytes it was read from. */
  lemma EncodeDecode(bs: seq<Byte>, pos: nat)
    requires DecodeAt(bs, pos).ok
    ensures Representable(DecodeAt(bs, pos).record)
    ensures pos <= DecodeAt(bs, pos).pos <= |bs|
    ensures Encode(DecodeAt(bs, pos).record) == bs[pos..DecodeAt(bs, pos).pos]
  {
    var r := DecodeAt(bs, pos).record;
    var c := ReadByteAt(bs, pos);
    var px := ReadFieldAt(bs, c.pos, PositionX, Flagged(r, PositionX));
    var py := ReadFieldAt(bs, px.pos, PositionY, Flagged(r, PositionY));
    var dir := ReadFieldAt(bs, py.pos, Direction, Flagged(r, Direction));
    var en := ReadFieldAt(bs, dir.pos, Vitality, Flagged(r, Vitality));
    assert c.ok && px.ok && py.ok && dir.ok && en.ok;
    ReadFieldInverse(bs, c.pos, r, PositionX);
    ReadFieldInverse(bs, px.pos, r, PositionY);
    ReadFieldInverse(bs, py.pos, r, Direction);
    ReadFieldInverse(bs, dir.pos, r, Vitality);
    SliceSplit(bs, pos, dir.pos, en.pos);
    SliceSplit(bs, pos, py.pos, dir.pos);
    SliceSplit(bs, pos, px.pos, py.pos);
    SliceSplit(bs, pos, c.pos, px.pos);
    AppendEncoded([], r);
  }

  /** A record cut short fails to decode: any proper prefix of an encoding leaves
      some read without its bytes, so the decoder reports truncation. */
  lemma TruncatedEncodingFails(r: BugRecord, n: nat)
    requires n < |Encode(r)|
    ensures !DecodeAt(Encode(r)[..n], 0).ok
  {
    var bs := Encode(r)[..n];
    if DecodeAt(bs, 0).ok {
      var d := DecodeAt(bs, 0);
      EncodeDecode(bs, 0);
      assert d.record.changes == r.changes by {
        assert bs[0] == Encode(r)[0];
      }
      EncodedLength(d.record);
      EncodedLength(r);
      assert false;
    }
  }

  /** A position delta outside the sbyte range comes back wrapped: 200 is read as -56. */
  lemma WrappedPositionExample()
    ensures DecodeAt(Encode(BugRecord(1, 200, 0, 0, 0)), 0).record == BugRecord(1, -56, 0, 0, 0)
  {
    var r := BugRecord(1, 200, 0, 0, 0);
    assert Flagged(r, PositionX) && !Flagged(r, PositionY) && !Flagged(r, Direction) && !Flagged(r, Vitality);
    assert Canonical(r) == BugRecord(1, -56, 0, 0, 0);
    DecodeOwnEncoding(r);
  }

  /** Only vitality 500 flagged: the flag byte 8, then 500 as two bytes, and
      decoding yields vitality 500 with every other field 0. */
  lemma VitalityOnlyExample()
    ensures Encode(BugRecord(8, 0, 0, 0, 500)) == [8, 244, 1]
    ensures DecodeAt([8, 244, 1], 0) == Decoded(BugRecord(8, 0, 0, 0, 500), 3, true)
  {
    var r := BugRecord(8, 0, 0, 0, 500);
    assert !Flagged(r, PositionX) && !Flagged(r, PositionY) && !Flagged(r, Direction) && Flagged(r, Vitality);
    RoundTrip(r);
  }

  /** One step of the decoding constructor: reads field f with the typed read of
      its wire type if it is flagged in `flags`, and yields 0 without reading if not. */
  method ReadIfChanged(serializer: Serializer, flags: ChangeSets.Flags, f: BugField) returns (v: int)
    requires serializer.Valid()
    modifies serializer`cursor, serializer`truncated
    ensures serializer.Valid()
    ensures var r := ReadFieldAt(serializer.buffer, old(serializer.cursor), f, ChangeSets.HasChanged(flags, Bit(f)));
      v == r.value && serializer.cursor == r.pos && serializer.truncated == (old(serializer.truncated) || !r.ok)
  {
    v := 0;
    if ChangeSets.HasChanged(flags, Bit(f)) {
      match f
      case PositionX => v := serializer.ReadSByte();
      case PositionY => v := serializer.ReadSByte();
      case Direction => v := serializer.ReadShort();
      case Vitality => v := serializer.ReadUShort();
    }
  }

  /** A bug update as the simulation fills it and the serializer writes and reads it. */
  class BugUpdate {
    var changes: ChangeSets.Flags
    var aEnergy: int
    var dPositionX: int
    var dPositionY: int
    var dDirection: int

    /** The values this update holds. */
    function Value(): BugRecord
      reads this
    {
      BugRecord(changes, dPositionX, dPositionY, dDirection, aEnergy)
    }

    /** An empty update: nothing changed, every field 0. */
    constructor ()
      ensures Value() == BugRecord(0, 0, 0, 0, 0)
    {
      changes, aEnergy, dPositionX, dPositionY, dDirection := 0, 0, 0, 0, 0;
    }

    /** Decoding constructor: reads the flag word, then each flagged field in the
        order PositionX, PositionY, Direction, Vitality; fields not flagged keep 0. */
    constructor Deserialize(serializer: Serializer)
      requires serializer.Valid()
      modifies serializer
      ensures serializer.Valid() && serializer.buffer == old(serializer.buffer)
      ensures var d := DecodeAt(old(serializer.buffer), old(serializer.cursor));
        Value() == d.record && serializer.cursor == d.pos &&
        serializer.truncated == (old(serializer.truncated) || !d.ok)
    {
      ghost var bs, pos := serializer.buffer, serializer.cursor;
      ghost var c := ReadByteAt(bs, pos);
      var prefix := serializer.ReadByte();
      var flags: ChangeSets.Flags := prefix as int;
      ghost var px := ReadFieldAt(bs, c.pos, PositionX, ChangeSets.HasChanged(flags, Bit(PositionX)));
      var x := ReadIfChanged(serializer, flags, PositionX);
      ghost var py := ReadFieldAt(bs, px.pos, PositionY, ChangeSets.HasChanged(flags, Bit(PositionY)));
      var y := ReadIfChanged(serializer, flags, PositionY);
      ghost var pd := ReadFieldAt(bs, py.pos, Direction, ChangeSets.HasChanged(flags, Bit(Direction)));
      var dir := ReadIfChanged(serializer, flags, Direction);
      ghost var pe := ReadFieldAt(bs, pd.pos, Vitality, ChangeSets.HasChanged(flags, Bit(Vitality)));
      var energy := ReadIfChanged(serializer, flags, Vitality);
      DecodeAtSteps(bs, pos, c, flags, px, py, pd, pe);
      changes, dPositionX, dPositionY, dDirection, aEnergy := flags, x, y, dir, energy;
    }

    /** Writes the flag word, then each flagged field after its narrowing cast. */
    method Serialize(serializer: Serializer)
      modifies serializer`buffer
      ensures serializer.buffer == old(serializer.buffer) + Encode(Value())
    {
      ghost var r := Value();
      ghost var written := old(serializer.buffer) + [changes as Byte];
      serializer.SendByte(changes as Byte);
      if HasChanged(PositionX) {
        serializer.SendSByte(ToSByte(dPositionX));
      }
      written := written + Present(r, PositionX);
      assert serializer.buffer == written;
      if HasChanged(PositionY) {
        serializer.SendSByte(ToSByte(dPositionY));
      }
      written := written + Present(r, PositionY);
      assert serializer.buffer == written;
      if HasChanged(Direction) {
        serializer.SendShort(ToShort(dDirection));
      }
      written := written + Present(r, Direction);
      assert serializer.buffer == written;
      if HasChanged(Vitality) {
        serializer.SendUshort(ToUShort(aEnergy));
      }
      written := written + Present(r, Vitality);
      assert serializer.buffer == written;
      AppendEncoded(old(serializer.buffer), r);
    }

    /** Marks field as changed; the field values stay as they are. */
    method Change(field: BugField)
      modifies this`changes
      ensures changes == ChangeSets.Change(old(changes), Bit(field))
      ensures HasChanged(field)
      ensures forall g :: g != field ==> (HasChanged(g) <==> old(HasChanged(g)))
    {
      ChangeSets.ChangeThenHasChanged(changes, Bit(field));
      forall g | g != field
        ensures ChangeSets.HasChanged(ChangeSets.Change(changes, Bit(field)), Bit(g)) == ChangeSets.HasChanged(changes, Bit(g))
      {
        BitsDistinct(field, g);
        ChangeSets.ChangeLeavesOthers(changes, Bit(field), Bit(g));
      }
      changes := ChangeSets.Change(changes, Bit(field));
    }

    /** Whether field is marked as changed. */
    predicate HasChanged(field: BugField): (b: bool)
      reads this
      ensures b <==> ChangeSets.TestBit(changes, Position(field))
    {
      assert Bit(field) == ChangeSets.Pow2(Position(field));
      ChangeSets.HasChangedBit(changes, Position(field));
      ChangeSets.HasChanged(changes, Bit(field))
    }
  }
}
