/** The atom:Sequence port buffer of lvtk_AtomBuffer.cpp.

    The block starts with an LV2_Atom header { uint32 size; uint32 type; }
    whose size counts the bytes after it, then the sequence body
    { uint32 unit; uint32 pad; }, then the events. Each event is an
    LV2_Atom_Event header { int64 frames; uint32 size; uint32 type; }
    followed by its payload, padded to 8 bytes. Fields are stored
    little-endian.
 */
module AtomBuffers {
  import opened Bytes

  /** sizeof (LV2_Atom), sizeof (LV2_Atom_Sequence_Body), sizeof (LV2_Atom_Event). */
  const AtomHeaderSize: nat := 8
  const SequenceBodySize: nat := 8
  const EventHeaderSize: nat := 16

  type int64 = x: int | -0x8000_0000_0000_0000 <= x < 0x8000_0000_0000_0000

  /** The least multiple of 8 that is at least n. */
  function PadUp(n: nat): (r: nat)
    ensures r % 8 == 0 && n <= r < n + 8
  {
    (n + 7) / 8 * 8
  }

  /** lv2_atom_pad_size as C computes it: (size + 7) & ~7 in uint32. */
  function PadSize32(size: uint32): (r: uint32)
    ensures r % 8 == 0
    ensures size + 7 < U32 ==> r == PadUp(size)
    ensures size + 7 >= U32 ==> r == 0
  {
    ((size + 7) % U32) / 8 * 8
  }

  /** b with the bytes s written at offset (a memcpy into the block). */
  function Put(b: seq<byte>, offset: nat, s: seq<byte>): (r: seq<byte>)
    requires offset + |s| <= |b|
    ensures |r| == |b| && r[offset..offset + |s|] == s
  {
    b[..offset] + s + b[offset + |s|..]
  }

  /** The uint32 stored at offset. */
  function U32At(b: seq<byte>, offset: nat): (x: uint32)
    requires offset + 4 <= |b|
  {
    assert Pow256(4) == U32;
    FromLittleEndian(b[offset..offset + 4])
  }

  /** A uint32 read inside bytes just written reads those bytes. */
  lemma U32AtInside(b: seq<byte>, offset: nat, s: seq<byte>, i: nat)
    requires offset <= i && i + 4 <= offset + |s| <= |b|
    ensures U32At(Put(b, offset, s), i) == FromLittleEndian(s[i - offset..i - offset + 4])
  {
    assert Put(b, offset, s)[i..i + 4] == s[i - offset..i - offset + 4];
  }

  /** A uint32 read beside bytes just written reads what was there. */
  lemma U32AtOutside(b: seq<byte>, offset: nat, s: seq<byte>, i: nat)
    requires offset + |s| <= |b| && i + 4 <= |b| && (i + 4 <= offset || offset + |s| <= i)
    ensures U32At(Put(b, offset, s), i) == U32At(b, i)
  {
    assert Put(b, offset, s)[i..i + 4] == b[i..i + 4];
  }

  /** The four-byte image of a uint32 reads back as it. */
  lemma ReadsBack(x: uint32)
    ensures FromLittleEndian(LittleEndian(x, 4)) == x
  {
    assert Pow256(4) == U32;
    LittleEndianRoundTrip(x, 4);
  }

  /** The bytes of one event: header, then the payload. The frame time is
      stored as its two's complement. */
  function EventImage(frames: int64, size: uint32, eventType: uint32, data: seq<byte>): (s: seq<byte>)
    ensures |s| == EventHeaderSize + |data|
  {
    LittleEndian(frames % 0x1_0000_0000_0000_0000, 8) + LittleEndian(size, 4)
      + LittleEndian(eventType, 4) + data
  }

  /** An event written into a block reads back: its size and type fields
      and its payload are where the sequence format puts them. */
  lemma EventReadBack(b: seq<byte>, offset: nat, frames: int64, size: uint32, eventType: uint32, data: seq<byte>)
    requires offset + EventHeaderSize + |data| <= |b|
    ensures var r := Put(b, offset, EventImage(frames, size, eventType, data));
      U32At(r, offset + 8) == size && U32At(r, offset + 12) == eventType
      && r[offset + EventHeaderSize..offset + EventHeaderSize + |data|] == data
  {
    var img := EventImage(frames, size, eventType, data);
    U32AtInside(b, offset, img, offset + 8);
    U32AtInside(b, offset, img, offset + 12);
    assert img[8..12] == LittleEndian(size, 4) && img[12..16] == LittleEndian(eventType, 4);
    ReadsBack(size);
    ReadsBack(eventType);
    assert Put(b, offset, img)[offset + EventHeaderSize..offset + EventHeaderSize + |data|] == img[EventHeaderSize..] == data;
  }

  /** The capacity test of addEvent as written: the event header's 16
      bytes are not counted, and the padding is computed in uint32. */
  predicate AcceptsAsWritten(atomSize: uint32, capacity: uint32, size: uint32)
  {
    !(AtomHeaderSize + atomSize + PadSize32(size) > capacity)
  }

  /** The test that keeps every write inside the block: the atom so far,
      the event header and the padded payload must fit. */
  predicate Accepts(atomSize: nat, capacity: nat, size: nat)
  {
    AtomHeaderSize + atomSize + EventHeaderSize + PadUp(size) <= capacity
  }

  /** Two events the written test lets through although they end past
      the block: on a cleared 32-byte buffer (atom size 8) an 8-byte event
      occupies bytes 16..40; and a size near 2^32 pads to 0, so the test
      passes and memcpy copies about 4 GiB. */
  lemma AsWrittenGuardOverruns()
    ensures AcceptsAsWritten(8, 32, 8) && !Accepts(8, 32, 8)
    ensures AtomHeaderSize + 8 + EventHeaderSize + 8 > 32
    ensures AcceptsAsWritten(8, 32, 0xFFFF_FFFF) && !Accepts(8, 32, 0xFFFF_FFFF)
  {
  }

  /** Writing an event past the atom header and then the new size leaves
      the new size in the header and the atom type as it was. */
  lemma AppendedHeader(b: seq<byte>, offset: nat, image: seq<byte>, newSize: uint32)
    requires AtomHeaderSize <= offset && offset + |image| <= |b|
    ensures var r := Put(Put(b, offset, image), 0, LittleEndian(newSize, 4));
      U32At(r, 0) == newSize && U32At(r, 4) == U32At(b, 4)
  {
    var m := Put(b, offset, image);
    var r := Put(m, 0, LittleEndian(newSize, 4));
    assert r[0..4] == LittleEndian(newSize, 4);
    assert r[4..8] == m[4..8] == b[4..8];
    ReadsBack(newSize);
  }

  /** The atom header clear() stores on a sequence: size 8 and type t. */
  function ClearedHeaderBytes(t: uint32): (s: seq<byte>)
    ensures |s| == AtomHeaderSize
  {
    LittleEndian(SequenceBodySize, 4) + LittleEndian(t, 4)
  }

  /** The sequence body it stores: unit 0 and pad 0. */
  const EmptyBody: seq<byte> := [0, 0, 0, 0, 0, 0, 0, 0]

  /** The block after clear() on a sequence: the atom header, then the
      sequence body; the events behind are left as they were. */
  function Cleared(b: seq<byte>, t: uint32): (r: seq<byte>)
    requires AtomHeaderSize + SequenceBodySize <= |b|
    ensures |r| == |b|
  {
    Put(Put(b, 0, ClearedHeaderBytes(t)), AtomHeaderSize, EmptyBody)
  }

  /** clear() read back: size 8, the type given, unit and pad zero; and
      clearing twice is clearing once. */
  lemma ClearedFacts(b: seq<byte>, t: uint32)
    requires AtomHeaderSize + SequenceBodySize <= |b|
    ensures U32At(Cleared(b, t), 0) == SequenceBodySize && U32At(Cleared(b, t), 4) == t
    ensures U32At(Cleared(b, t), 8) == 0 && U32At(Cleared(b, t), 12) == 0
    ensures Cleared(Cleared(b, t), t) == Cleared(b, t)
  {
    ClearedHeader(b, t);
    ClearedBody(b, t);
    ClearedTwice(b, t);
  }

  /** clear() stores size 8 and the type. */
  lemma ClearedHeader(b: seq<byte>, t: uint32)
    requires AtomHeaderSize + SequenceBodySize <= |b|
    ensures U32At(Cleared(b, t), 0) == SequenceBodySize && U32At(Cleared(b, t), 4) == t
  {
    ClearedWord(b, t, 0, SequenceBodySize);
    ClearedWord(b, t, 4, t);
  }

  /** The header word at i (0 or 4) of the cleared block is x, the value
      the header bytes hold there. */
  lemma ClearedWord(b: seq<byte>, t: uint32, i: nat, x: uint32)
    requires AtomHeaderSize + SequenceBodySize <= |b|
    requires (i == 0 && x == SequenceBodySize) || (i == 4 && x == t)
    ensures U32At(Cleared(b, t), i) == x
  {
    var h := ClearedHeaderBytes(t);
    U32AtOutside(Put(b, 0, h), AtomHeaderSize, EmptyBody, i);
    U32AtInside(b, 0, h, i);
    assert h[i..i + 4] == LittleEndian(x, 4);
    ReadsBack(x);
  }

  /** clear() stores unit and pad 0. */
  lemma ClearedBody(b: seq<byte>, t: uint32)
    requires AtomHeaderSize + SequenceBodySize <= |b|
    ensures U32At(Cleared(b, t), 8) == 0 && U32At(Cleared(b, t), 12) == 0
  {
    var m := Put(b, 0, ClearedHeaderBytes(t));
    U32AtInside(m, AtomHeaderSize, EmptyBody, 8);
    U32AtInside(m, AtomHeaderSize, EmptyBody, 12);
    assert EmptyBody[0..4] == EmptyBody[4..8] == LittleEndian(0, 4);
    ReadsBack(0);
  }

  /** Clearing a cleared block changes nothing. */
  lemma ClearedTwice(b: seq<byte>, t: uint32)
    requires AtomHeaderSize + SequenceBodySize <= |b|
    ensures Cleared(Cleared(b, t), t) == Cleared(b, t)
  {
    var h := ClearedHeaderBytes(t);
    var c := Cleared(b, t);
    assert c == h + EmptyBody + b[16..];
    assert Cleared(c, t) == h + EmptyBody + c[16..];
  }

  /** An 8-aligned atom grown by an event header and a padded payload
      stays 8-aligned. */
  lemma GrownSizeAligned(atomSize: nat, size: nat)
    requires atomSize % 8 == 0
    ensures (atomSize + EventHeaderSize + PadUp(size)) % 8 == 0
  {
    var k := atomSize / 8 + 2 + PadUp(size) / 8;
    assert atomSize + EventHeaderSize + PadUp(size) == 8 * k;
  }

  class AtomBuffer {
    var bufferType: uint32
    const capacity: uint32
    const block: array<byte>

    /** The block has the capacity's length, and when it can hold an atom
        header, the atom's size is 8-aligned and fits. */
    ghost predicate Valid()
      reads this, block
    {
      block.Length == capacity
      && (AtomHeaderSize <= capacity ==> AtomSize() % 8 == 0 && AtomHeaderSize + AtomSize() <= capacity)
    }

    /** atom->size: the bytes after the atom header. */
    function AtomSize(): uint32
      reads block
      requires 4 <= block.Length
    {
      U32At(block[..], 0)
    }

    /** atom->type. */
    function AtomType(): uint32
      reads block
      requires 8 <= block.Length
    {
      U32At(block[..], 4)
    }

    /** AtomBuffer (bufferType, bufferSize): a zero-filled block of any
        size, so an atom header, when it fits, says size 0. */
    constructor (bufferTypeIn: uint32, bufferSize: uint32)
      ensures Valid() && fresh(block)
      ensures bufferType == bufferTypeIn && capacity == bufferSize
      ensures block[..] == Zeros(bufferSize)
      ensures AtomHeaderSize <= bufferSize ==> AtomSize() == 0
    {
      bufferType, capacity := bufferTypeIn, bufferSize;
      block := new byte[bufferSize](_ => 0);
      new;
      if AtomHeaderSize <= bufferSize {
        assert block[..][0..4] == LittleEndian(0, 4);
        LittleEndianRoundTrip(0, 4);
      }
    }

    /** getCapacity (): the size of the block. */
    function GetCapacity(): (r: uint32)
      reads this, block
      requires Valid()
      ensures r == block.Length
    {
      capacity
    }

    function GetType(): uint32
      reads this
    {
      bufferType
    }

    /** setType (t): getType () is t afterwards; the block is untouched. */
    method SetType(t: uint32)
      modifies this
      ensures GetType() == t && block[..] == old(block[..])
    {
      bufferType := t;
    }

    predicate IsAudio() { false }
    predicate IsControl() { false }
    predicate IsSequence() { true }

    /** memcpy (block + offset, bytes, |bytes|). */
    method Store(offset: nat, bytes: seq<byte>)
      requires offset + |bytes| <= block.Length
      modifies block
      ensures block[..] == Put(old(block[..]), offset, bytes)
    {
      forall j | offset <= j < offset + |bytes| {
        block[j] := bytes[j - offset];
      }
      assert block[..] == Put(old(block[..]), offset, bytes);
    }

    /** addEvent (frames, size, type, data) with the capacity test that
        counts the event header. On success the event is written right
        after the atom so far and the atom grows by the header and the
        padded payload; otherwise nothing changes. */
    method AddEvent(frames: int64, size: uint32, eventType: uint32, data: seq<byte>) returns (ok: bool)
      requires Valid() && AtomHeaderSize <= capacity && |data| == size
      modifies block
      ensures Valid()
      ensures ok <==> Accepts(old(AtomSize()), capacity, size)
      ensures ok ==> (block[..] ==
        Put(Put(old(block[..]), AtomHeaderSize + old(AtomSize()), EventImage(frames, size, eventType, data)),
            0, LittleEndian(old(AtomSize()) + EventHeaderSize + PadUp(size), 4)))
      ensures ok ==> AtomSize() == old(AtomSize()) + EventHeaderSize + PadUp(size)
      ensures !ok ==> block[..] == old(block[..])
      ensures AtomType() == old(AtomType())
    {
      var atomSize := AtomSize();
      if !Accepts(atomSize, capacity, size) {
        return false;
      }
      var newSize := atomSize + EventHeaderSize + PadUp(size);
      GrownSizeAligned(atomSize, size);
      var image := EventImage(frames, size, eventType, data);
      ghost var b0 := block[..];
      Store(AtomHeaderSize + atomSize, image);
      ghost var b1 := block[..];
      Store(0, LittleEndian(newSize, 4));
      assert block[..] == Put(b1, 0, LittleEndian(newSize, 4));
      AppendedHeader(b0, AtomHeaderSize + atomSize, image, newSize);
      ok := true;
    }

    /** clear (): the audio and control branch is dead, since isAudio and
        isControl are constant false; a sequence is reset to an empty one
        of the buffer's type. It writes the atom header and the sequence
        body, so they must fit. */
    method Clear()
      requires Valid() && AtomHeaderSize + SequenceBodySize <= capacity
      modifies block
      ensures Valid()
      ensures block[..] == Cleared(old(block[..]), bufferType)
      ensures AtomSize() == SequenceBodySize && AtomType() == bufferType
    {
      if IsAudio() || IsControl() {
        assert false;
      } else if IsSequence() {
        Store(0, ClearedHeaderBytes(bufferType));
        Store(AtomHeaderSize, EmptyBody);
        ClearedFacts(old(block[..]), bufferType);
      }
    }
  }
}
