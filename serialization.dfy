/** The typed byte writer and reader that update records are serialized with: the
    C# integer casts that narrow a value to its wire type, the byte layout of each
    wire type (two-byte values least significant byte first), and a buffer with a
    read cursor. */
module Serialization {

  /** One byte of the stream. */
  newtype Byte = b: int | 0 <= b < 256

  /** Values of the C# wire types sbyte, short and ushort. */
  type SByte = v: int | -128 <= v < 128
  type Short = v: int | -32768 <= v < 32768
  type UShort = v: int | 0 <= v < 65536

  /** The (sbyte) cast: keeps the low 8 bits, read as two's complement. */
  function ToSByte(v: int): (r: SByte)
    ensures (v - r) % 256 == 0
    ensures -128 <= v < 128 ==> r == v
  {
    var m := v % 256;
    if m < 128 then m else m - 256
  }

  /** The (short) cast: keeps the low 16 bits, read as two's complement. */
  function ToShort(v: int): (r: Short)
    ensures (v - r) % 65536 == 0
    ensures -32768 <= v < 32768 ==> r == v
  {
    var m := v % 65536;
    if m < 32768 then m else m - 65536
  }

  /** The (ushort) cast: keeps the low 16 bits, read as unsigned. */
  function ToUShort(v: int): (r: UShort)
    ensures (v - r) % 65536 == 0
    ensures 0 <= v < 65536 ==> r == v
  {
    v % 65536
  }

  /** Wire form of an sbyte: one byte, two's complement. */
  function SByteBytes(v: SByte): (bs: seq<Byte>)
    ensures |bs| == 1
  {
    [(v % 256) as Byte]
  }

  /** Wire form of an unsigned 16-bit quantity: low byte, then high byte. */
  function Word(u: UShort): (bs: seq<Byte>)
    ensures |bs| == 2
  {
    [(u % 256) as Byte, (u / 256) as Byte]
  }

  /** Wire form of a short: its two's complement bits as an unsigned word. */
  function ShortBytes(v: Short): (bs: seq<Byte>)
    ensures |bs| == 2
  {
    Word(v % 65536)
  }

  /** Wire form of a ushort. */
  function UShortBytes(v: UShort): (bs: seq<Byte>)
    ensures |bs| == 2
  {
    Word(v)
  }

  /** The sbyte whose wire form is [b]. */
  function SByteOf(b: Byte): (v: SByte)
    ensures SByteBytes(v) == [b]
  {
    if b < 128 then b as int else b as int - 256
  }

  /** The unsigned word whose wire form is [lo, hi]. */
  function WordOf(lo: Byte, hi: Byte): (u: UShort)
    ensures Word(u) == [lo, hi]
  {
    lo as int + 256 * hi as int
  }

  /** The short whose wire form is [lo, hi]. */
  function ShortOf(lo: Byte, hi: Byte): (v: Short)
    ensures ShortBytes(v) == [lo, hi]
  {
    var u := WordOf(lo, hi);
    if u < 32768 then u else u - 65536
  }

  /** The ushort whose wire form is [lo, hi]. */
  function UShortOf(lo: Byte, hi: Byte): (v: UShort)
    ensures UShortBytes(v) == [lo, hi]
  {
    WordOf(lo, hi)
  }

  /** Reading back the wire form of an sbyte gives the same sbyte. */
  lemma SByteRoundTrip(v: SByte)
    ensures SByteOf(SByteBytes(v)[0]) == v
  {
    var b := SByteBytes(v)[0];
    assert SByteBytes(SByteOf(b)) == [b];
  }

  /** Reading back the wire form of a word gives the same word. */
  lemma WordRoundTrip(u: UShort)
    ensures WordOf(Word(u)[0], Word(u)[1]) == u
  {
  }

  /** Reading back the wire form of a short gives the same short. */
  lemma ShortRoundTrip(v: Short)
    ensures ShortOf(ShortBytes(v)[0], ShortBytes(v)[1]) == v
  {
    WordRoundTrip(v % 65536);
  }

  /** Reading back the wire form of a ushort gives the same ushort. */
  lemma UShortRoundTrip(v: UShort)
    ensures UShortOf(UShortBytes(v)[0], UShortBytes(v)[1]) == v
  {
    WordRoundTrip(v);
  }

  /** Outcome of one read at a position of a buffer: the value, the position after
      it, and whether enough bytes were left. Reading past the end of the buffer
      fails: the value is 0 and the position moves to the end, so every later read
      fails too. */
  datatype Read<T> = Read(value: T, pos: nat, ok: bool)

  /** Reads one byte at pos. */
  function ReadByteAt(bs: seq<Byte>, pos: nat): (r: Read<Byte>)
    ensures r.ok ==> pos + 1 <= |bs| && r.pos == pos + 1 && bs[pos..r.pos] == [r.value]
  {
    if pos + 1 <= |bs| then Read(bs[pos], pos + 1, true) else Read(0, |bs|, false)
  }

  /** Reads an sbyte at pos. */
  function ReadSByteAt(bs: seq<Byte>, pos: nat): (r: Read<SByte>)
    ensures r.ok ==> pos + 1 <= |bs| && r.pos == pos + 1 && bs[pos..r.pos] == SByteBytes(r.value)
  {
    if pos + 1 <= |bs| then Read(SByteOf(bs[pos]), pos + 1, true) else Read(0, |bs|, false)
  }

  /** Reads a short at pos, low byte first. */
  function ReadShortAt(bs: seq<Byte>, pos: nat): (r: Read<Short>)
    ensures r.ok ==> pos + 2 <= |bs| && r.pos == pos + 2 && bs[pos..r.pos] == ShortBytes(r.value)
  {
    if pos + 2 <= |bs| then Read(ShortOf(bs[pos], bs[pos + 1]), pos + 2, true) else Read(0, |bs|, false)
  }

  /** Reads a ushort at pos, low byte first. */
  function ReadUShortAt(bs: seq<Byte>, pos: nat): (r: Read<UShort>)
    ensures r.ok ==> pos + 2 <= |bs| && r.pos == pos + 2 && bs[pos..r.pos] == UShortBytes(r.value)
  {
    if pos + 2 <= |bs| then Read(UShortOf(bs[pos], bs[pos + 1]), pos + 2, true) else Read(0, |bs|, false)
  }

  /** An sbyte written at pos is read back at pos. */
  lemma ReadSByteOfWritten(bs: seq<Byte>, pos: nat, v: SByte)
    requires pos + 1 <= |bs| && bs[pos..pos + 1] == SByteBytes(v)
    ensures ReadSByteAt(bs, pos) == Read(v, pos + 1, true)
  {
    SByteRoundTrip(v);
  }

  /** A short written at pos is read back at pos. */
  lemma ReadShortOfWritten(bs: seq<Byte>, pos: nat, v: Short)
    requires pos + 2 <= |bs| && bs[pos..pos + 2] == ShortBytes(v)
    ensures ReadShortAt(bs, pos) == Read(v, pos + 2, true)
  {
    ShortRoundTrip(v);
  }

  /** A ushort written at pos is read back at pos. */
  lemma ReadUShortOfWritten(bs: seq<Byte>, pos: nat, v: UShort)
    requires pos + 2 <= |bs| && bs[pos..pos + 2] == UShortBytes(v)
    ensures ReadUShortAt(bs, pos) == Read(v, pos + 2, true)
  {
    UShortRoundTrip(v);
  }

  /** Byte buffer with a forward-only read cursor. Writes append to the buffer;
      reads consume from the cursor. A read past the end sets the sticky
      `truncated` flag, returns 0 and moves the cursor to the end. */
  class Serializer {
    var buffer: seq<Byte>
    var cursor: nat
    var truncated: bool

    ghost predicate Valid()
      reads this
    {
      cursor <= |buffer|
    }

    /** An empty serializer to write into. */
    constructor ()
      ensures Valid() && buffer == [] && cursor == 0 && !truncated
    {
      buffer, cursor, truncated := [], 0, false;
    }

    /** A serializer reading the given bytes from the start. */
    constructor FromBytes(bytes: seq<Byte>)
      ensures Valid() && buffer == bytes && cursor == 0 && !truncated
    {
      buffer, cursor, truncated := bytes, 0, false;
    }

    method SendByte(b: Byte)
      modifies this`buffer
      ensures buffer == old(buffer) + [b]
      ensures old(Valid()) ==> Valid()
    {
      buffer := buffer + [b];
    }

    method SendSByte(v: SByte)
      modifies this`buffer
      ensures buffer == old(buffer) + SByteBytes(v)
      ensures old(Valid()) ==> Valid()
    {
      buffer := buffer + SByteBytes(v);
    }

    method SendShort(v: Short)
      modifies this`buffer
      ensures buffer == old(buffer) + ShortBytes(v)
      ensures old(Valid()) ==> Valid()
    {
      buffer := buffer + ShortBytes(v);
    }

    method SendUshort(v: UShort)
      modifies this`buffer
      ensures buffer == old(buffer) + UShortBytes(v)
      ensures old(Valid()) ==> Valid()
    {
      buffer := buffer + UShortBytes(v);
    }

    method ReadByte() returns (b: Byte)
      requires Valid()
      modifies this`cursor, this`truncated
      ensures Valid()
      ensures var r := ReadByteAt(buffer, old(cursor));
        b == r.value && cursor == r.pos && truncated == (old(truncated) || !r.ok)
    {
      var r := ReadByteAt(buffer, cursor);
      b, cursor, truncated := r.value, r.pos, truncated || !r.ok;
    }

    method ReadSByte() returns (v: SByte)
      requires Valid()
      modifies this`cursor, this`truncated
      ensures Valid()
      ensures var r := ReadSByteAt(buffer, old(cursor));
        v == r.value && cursor == r.pos && truncated == (old(truncated) || !r.ok)
    {
      var r := ReadSByteAt(buffer, cursor);
      v, cursor, truncated := r.value, r.pos, truncated || !r.ok;
    }

    method ReadShort() returns (v: Short)
      requires Valid()
      modifies this`cursor, this`truncated
      ensures Valid()
      ensures var r := ReadShortAt(buffer, old(cursor));
        v == r.value && cursor == r.pos && truncated == (old(truncated) || !r.ok)
    {
      var r := ReadShortAt(buffer, cursor);
      v, cursor, truncated := r.value, r.pos, truncated || !r.ok;
    }

    method ReadUShort() returns (v: UShort)
      requires Valid()
      modifies this`cursor, this`truncated
      ensures Valid()
      ensures var r := ReadUShortAt(buffer, old(cursor));
        v == r.value && cursor == r.pos && truncated == (old(truncated) || !r.ok)
    {
      var r := ReadUShortAt(buffer, cursor);
      v, cursor, truncated := r.value, r.pos, truncated || !r.ok;
    }
  }
}
