/** The lock-free byte FIFO of lvtk_RingBuffer.h.

    The C++ class keeps a heap block and a juce::AbstractFifo that owns the
    read and write positions. Here the block is an array and the fifo is
    the pair (start, count): `start` is the slot of the oldest unread byte
    and `count` the number of bytes ready. Like AbstractFifo, the ring
    keeps one slot free so that a full ring and an empty one differ: its
    free space is size - readSpace - 1, so readSpace + writeSpace + 1 ==
    size. Reads and writes are clamped to the ready and free space, as
    AbstractFifo's prepareToRead and prepareToWrite clamp them, and copy in
    at most two pieces: from the current position to the end of the block,
    then from the block's start.
 */
module RingBuffers {
  import opened Bytes
  import opened PortEvents

  /** Slot of the j-th byte after `start` in a block of n slots. */
  function Wrap(n: nat, start: nat, j: nat): (p: nat)
    requires start < n && j <= n
    ensures p < n
  {
    if start + j < n then start + j else start + j - n
  }

  /** The queued bytes of a block, oldest first. */
  function View(b: seq<byte>, start: nat, count: nat): (s: seq<byte>)
    requires start < |b| && count <= |b|
    ensures |s| == count
    ensures forall j :: 0 <= j < count ==> s[j] == b[Wrap(|b|, start, j)]
  {
    seq(count, j requires 0 <= j < count => b[Wrap(|b|, start, j)])
  }

  /** Writing src at the write position of a block, in two pieces (up to
      the end of the block, then from slot 0), appends src to what the
      block holds. */
  lemma ViewAfterWrite(b0: seq<byte>, b1: seq<byte>, start: nat, count: nat, w: nat, size1: nat, src: seq<byte>)
    requires start < |b0| == |b1| && count + |src| <= |b0|
    requires w == Wrap(|b0|, start, count) && size1 == Min(|src|, |b0| - w)
    requires forall j :: 0 <= j < size1 ==> b1[w + j] == src[j]
    requires forall j :: 0 <= j < |src| - size1 ==> b1[j] == src[size1 + j]
    requires forall p :: 0 <= p < |b0| && !(w <= p < w + size1) && !(p < |src| - size1) ==> b1[p] == b0[p]
    ensures View(b1, start, count + |src|) == View(b0, start, count) + src
  {
    var n := |b0|;
    forall j | 0 <= j < count + |src|
      ensures View(b1, start, count + |src|)[j] == (View(b0, start, count) + src)[j]
    {
      if j < count {
        assert b1[Wrap(n, start, j)] == b0[Wrap(n, start, j)];
      } else if j - count < size1 {
        assert Wrap(n, start, j) == w + (j - count);
      } else {
        assert Wrap(n, start, j) == j - count - size1;
      }
    }
  }

  /** memcpy (dest + at, src, |src|). */
  method CopyAt(dest: array<byte>, at: nat, src: seq<byte>)
    requires at + |src| <= dest.Length
    modifies dest
    ensures forall j :: 0 <= j < |src| ==> dest[at + j] == src[j]
    ensures forall p :: 0 <= p < dest.Length && !(at <= p < at + |src|) ==> dest[p] == old(dest[p])
  {
    var i := 0;
    while i < |src|
      invariant 0 <= i <= |src|
      invariant forall j :: 0 <= j < i ==> dest[at + j] == src[j]
      invariant forall p :: 0 <= p < dest.Length && !(at <= p < at + i) ==> dest[p] == old(dest[p])
    {
      dest[at + i] := src[i];
      i := i + 1;
    }
  }

  class RingBuffer {
    const block: array<byte>
    var start: nat
    var count: nat

    ghost predicate Valid()
      reads this
    {
      0 < block.Length && start < block.Length && count < block.Length
    }

    /** The bytes queued for the reader, oldest first. */
    ghost function Contents(): (s: seq<byte>)
      reads this, block
      requires Valid()
      ensures |s| == count
    {
      View(block[..], start, count)
    }

    /** RingBuffer (capacity): an empty ring over a fresh block. */
    constructor (capacity: nat)
      requires capacity > 0
      ensures Valid() && fresh(block)
      ensures Size() == capacity && Contents() == []
    {
      block := new byte[capacity](_ => 0);
      start, count := 0, 0;
    }

    function Size(): nat
    {
      block.Length
    }

    /** readSpace: the number of bytes a reader can take. */
    function ReadSpace(): (r: nat)
      reads this, block
      requires Valid()
      ensures r == |Contents()|
    {
      count
    }

    /** writeSpace: the number of bytes a writer can add, one slot short
        of the unread space (AbstractFifo::getFreeSpace). */
    function WriteSpace(): (r: nat)
      reads this, block
      requires Valid()
      ensures r + |Contents()| + 1 == Size()
    {
      block.Length - 1 - count
    }

    /** canRead (bytes): at least one and at most the queued bytes. */
    predicate CanRead(bytes: nat)
      reads this, block
      requires Valid()
      ensures CanRead(bytes) <==> 0 < bytes <= |Contents()|
    {
      bytes <= count && bytes != 0
    }

    /** canWrite (bytes): at least one and at most the free bytes. */
    predicate CanWrite(bytes: nat)
      reads this, block
      requires Valid()
      ensures CanWrite(bytes) <==> 0 < bytes && |Contents()| + bytes < Size()
    {
      bytes <= WriteSpace() && bytes != 0
    }

    /** write (src, bytes): append as much of src as fits. The ring does not
        check canWrite itself, so a short write is possible. */
    method Write(src: seq<byte>) returns (written: nat)
      requires Valid()
      modifies this, block
      ensures Valid() && start == old(start)
      ensures written == Min(|src|, old(WriteSpace()))
      ensures Contents() == old(Contents()) + src[..written]
    {
      var n := block.Length;
      var k := Min(|src|, n - 1 - count);
      var w := Wrap(n, start, count);
      // vec1: from the write position to the end of the block; vec2: the rest from slot 0.
      var size1 := Min(k, n - w);
      var size2 := k - size1;
      assert size2 > 0 ==> size2 <= w;
      CopyAt(block, w, src[..size1]);
      CopyAt(block, 0, src[size1..k]);
      ViewAfterWrite(old(block[..]), block[..], start, count, w, size1, src[..k]);
      count := count + k;
      written := size1 + size2;
    }

    /** read (dest, size, advance): copy the oldest min(size, readSpace)
        bytes into dest; consume them only when advance is set. */
    method Read(dest: array<byte>, size: nat, advance: bool) returns (got: nat)
      requires Valid() && size <= dest.Length && dest != block
      modifies this, dest
      ensures Valid()
      ensures got == Min(size, old(ReadSpace()))
      ensures dest[..got] == old(Contents())[..got]
      ensures dest[got..] == old(dest[got..])
      ensures Contents() == if advance then old(Contents())[got..] else old(Contents())
    {
      var n := block.Length;
      var k := Min(size, count);
      var size1 := Min(k, n - start);
      var size2 := k - size1;
      ghost var before := Contents();
      ghost var d0 := dest[..];
      var i := 0;
      while i < size1
        invariant 0 <= i <= size1
        invariant forall j :: 0 <= j < i ==> dest[j] == before[j]
        invariant forall j :: i <= j < dest.Length ==> dest[j] == d0[j]
        modifies dest
      {
        dest[i] := block[start + i];
        i := i + 1;
      }
      i := 0;
      while i < size2
        invariant 0 <= i <= size2
        invariant forall j :: 0 <= j < size1 + i ==> dest[j] == before[j]
        invariant forall j :: size1 + i <= j < dest.Length ==> dest[j] == d0[j]
        modifies dest
      {
        assert Wrap(n, start, size1 + i) == i;
        dest[size1 + i] := block[i];
        i := i + 1;
      }
      got := size1 + size2;
      assert dest[..got] == before[..got];
      assert forall j :: 0 <= j < dest.Length - got ==> dest[got..][j] == d0[got..][j];
      assert dest[got..] == d0[got..];
      if advance {
        Advance(got);
      }
    }

    /** advance (n): drop n bytes already peeked (AbstractFifo::finishedRead). */
    method Advance(bytes: nat)
      requires Valid() && bytes <= ReadSpace()
      modifies this
      ensures Valid()
      ensures Contents() == old(Contents())[bytes..]
    {
      ghost var before := Contents();
      var n := block.Length;
      start, count := Wrap(n, start, bytes), count - bytes;
      forall j | 0 <= j < count
        ensures Contents()[j] == before[bytes + j]
      {
        assert Wrap(n, start, j) == Wrap(n, old(start), bytes + j);
      }
    }

    /** writeType (src) for T = PortEvent: write the header's sizeof (T)
        bytes. The C++ template declares a uint32 result but never returns
        one, so no count comes back here. */
    method WriteType(ev: PortEvent)
      requires Valid()
      modifies this, block
      ensures Valid()
      ensures Contents() == old(Contents()) + EncodeHeader(ev)[..Min(HeaderSize, old(WriteSpace()))]
    {
      var _ := Write(EncodeHeader(ev));
    }

    /** read (ev, false): the header at the front, without consuming it. */
    method PeekEvent() returns (ev: PortEvent)
      requires Valid() && HeaderSize <= ReadSpace()
      ensures ev == DecodeHeader(Contents())
    {
      var n := block.Length;
      var bytes: seq<byte> := [];
      var i := 0;
      while i < HeaderSize
        invariant 0 <= i <= HeaderSize
        invariant bytes == Contents()[..i]
      {
        bytes := bytes + [block[Wrap(n, start, i)]];
        i := i + 1;
      }
      assert Contents()[..HeaderSize][0..4] == Contents()[0..4];
      ev := DecodeHeader(bytes);
      assert bytes[0..4] == Contents()[0..4];
      assert bytes[4..8] == Contents()[4..8];
      assert bytes[8..16] == Contents()[8..16];
      assert bytes[16..20] == Contents()[16..20];
    }
  }
}
