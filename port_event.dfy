/** The PortEvent header that precedes every message in the host's rings
    (lvtk_PortWriter.h:25-34), and its byte image.

    The struct is { uint32 index; uint32 protocol; union { double; int64 }
    time; uint32 size; }. With the usual 8-byte alignment of the union it
    occupies 24 bytes: index at 0, protocol at 4, time at 8, size at 16 and
    4 bytes of tail padding. The host writes it with memcpy after
    zerostruct, so the padding is zero; the model fixes little-endian byte
    order. Nothing below depends on the layout except through
    `HeaderRoundTrip` and `HeaderSize > 0`.
 */
module PortEvents {
  import opened Bytes

  /** sizeof (PortEvent). */
  const HeaderSize: nat := 24

  /** The time union is carried as its 64 raw bits (`frames`). */
  datatype PortEvent = PortEvent(index: uint32, protocol: uint32, frames: uint64, size: uint32)

  /** The bytes memcpy copies out of a zero-initialised PortEvent. */
  function EncodeHeader(ev: PortEvent): (s: seq<byte>)
    ensures |s| == HeaderSize
  {
    LittleEndian(ev.index, 4) + LittleEndian(ev.protocol, 4) + LittleEndian(ev.frames, 8)
      + LittleEndian(ev.size, 4) + [0, 0, 0, 0]
  }

  /** The PortEvent whose bytes start s (a typed read of sizeof (PortEvent)). */
  function DecodeHeader(s: seq<byte>): PortEvent
    requires |s| >= HeaderSize
  {
    assert Pow256(4) == U32 && Pow256(8) == U32 * U32;
    PortEvent(FromLittleEndian(s[0..4]), FromLittleEndian(s[4..8]),
              FromLittleEndian(s[8..16]), FromLittleEndian(s[16..20]))
  }

  /** A header read back from what was written is the header written, even
      with more bytes queued behind it. */
  lemma HeaderRoundTrip(ev: PortEvent, rest: seq<byte>)
    ensures DecodeHeader(EncodeHeader(ev) + rest) == ev
  {
    var s := EncodeHeader(ev) + rest;
    assert Pow256(4) == U32 && Pow256(8) == U32 * U32;
    assert s[0..4] == LittleEndian(ev.index, 4);
    assert s[4..8] == LittleEndian(ev.protocol, 4);
    assert s[8..16] == LittleEndian(ev.frames, 8);
    assert s[16..20] == LittleEndian(ev.size, 4);
    LittleEndianRoundTrip(ev.index, 4);
    LittleEndianRoundTrip(ev.protocol, 4);
    LittleEndianRoundTrip(ev.frames, 8);
    LittleEndianRoundTrip(ev.size, 4);
  }
}
