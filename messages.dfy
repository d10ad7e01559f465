/** The messages the host passes through its two rings (Module.cpp), and
    what run() does with them, as functions of the queued messages.

    A message is a PortEvent header followed by `size` payload bytes. The
    writer (Module::write, Module.cpp:835-852) only enqueues a message when
    header and payload both fit, so the bytes of a ring are always the
    concatenation of whole frames: `Stream(ms)` for the queued messages ms.
    The drain loops of run() and timerCallback() read one frame per turn;
    `DrainStep` is one turn on raw bytes, `Apply` is what run() does with
    one message.
 */
module Messages {
  import opened Bytes
  import opened PortEvents

  /** A port value as the audio thread sees it: the 4 bytes of a C float.
      Values are compared by bit pattern. */
  type FloatBits = s: seq<byte> | |s| == 4 witness [0, 0, 0, 0]

  /** A queued message: the header's index and protocol, and the payload.
      The header's size is |payload| and its time is zero (write() clears
      the struct before filling it). */
  datatype Message = Message(index: uint32, protocol: uint32, payload: seq<byte>)

  /** A message the drain loops can take: a non-empty payload, and a size
      whose sum with the header still fits a uint32. */
  predicate WellFormed(m: Message)
  {
    0 < |m.payload| && HeaderSize + |m.payload| < U32
  }

  predicate AllWellFormed(ms: seq<Message>)
  {
    forall i :: 0 <= i < |ms| ==> WellFormed(ms[i])
  }

  function Header(m: Message): PortEvent
    requires WellFormed(m)
  {
    PortEvent(m.index, m.protocol, 0, |m.payload|)
  }

  /** The bytes of one message in a ring: header, then payload. */
  function Frame(m: Message): (s: seq<byte>)
    requires WellFormed(m)
    ensures |s| == HeaderSize + |m.payload|
  {
    EncodeHeader(Header(m)) + m.payload
  }

  /** The bytes of a ring holding ms, oldest first. */
  function Stream(ms: seq<Message>): seq<byte>
    requires AllWellFormed(ms)
  {
    if ms == [] then [] else Frame(ms[0]) + Stream(ms[1..])
  }

  /** Enqueueing a frame appends one message to the stream. */
  lemma {:induction false} StreamAppend(ms: seq<Message>, m: Message)
    requires AllWellFormed(ms) && WellFormed(m)
    ensures AllWellFormed(ms + [m])
    ensures Stream(ms + [m]) == Stream(ms) + Frame(m)
  {
    if ms != [] {
      assert (ms + [m])[1..] == ms[1..] + [m];
      StreamAppend(ms[1..], m);
    }
  }

  /** A stream is empty exactly when no message is queued, and otherwise
      holds at least a header. */
  lemma StreamLength(ms: seq<Message>)
    requires AllWellFormed(ms)
    ensures ms == [] <==> |Stream(ms)| == 0
    ensures ms != [] ==> |Stream(ms)| > HeaderSize
  {
  }

  /** One turn of the for (;;) loop of run() (Module.cpp:787-811) and of
      timerCallback() (Module.cpp:748-767) on the queued bytes q. */
  datatype Step =
    | Stop                                                // fewer than a header's bytes: break
    | Stall                                               // nothing consumed, and the loop goes round again
    | Take(ev: PortEvent, payload: seq<byte>, rest: seq<byte>)  // header and payload consumed

  /** A turn stops exactly when not even a header is queued. A turn that
      takes a message consumes its header and a payload of at most the
      announced size, the whole announced payload when it is queued, and
      leaves the bytes behind it. */
  function DrainStep(q: seq<byte>): (r: Step)
    ensures r == Stop <==> |q| < HeaderSize
    ensures r.Take? ==> (HeaderSize <= |q| && r.ev == DecodeHeader(q)
                         && 0 < r.ev.size && |r.payload| <= r.ev.size
                         && q == q[..HeaderSize] + r.payload + r.rest
                         && (HeaderSize + r.ev.size <= |q| ==> |r.payload| == r.ev.size))
  {
    if !(0 < HeaderSize <= |q|) then Stop
    else
      var ev := DecodeHeader(q);
      // canRead (pesize + ev.size), with the uint32 sum of the source
      var need := (HeaderSize + ev.size) % U32;
      if ev.size > 0 && 0 < need <= |q| then
        var got := Min(ev.size, |q| - HeaderSize);
        Take(ev, q[HeaderSize..HeaderSize + got], q[HeaderSize + got..])
      else Stall
  }

  /** On a well-formed stream each turn takes exactly the oldest message
      and leaves the stream of the others; an empty stream stops. */
  lemma DrainStepOnStream(ms: seq<Message>)
    requires AllWellFormed(ms)
    ensures ms == [] ==> DrainStep(Stream(ms)) == Stop
    ensures ms != [] ==> DrainStep(Stream(ms)) == Take(Header(ms[0]), ms[0].payload, Stream(ms[1..]))
  {
    if ms != [] {
      StreamFront(ms);
      DrainStepOnFrame(ms[0], Stream(ms[1..]));
    }
  }

  /** A frame at the front of the queue is taken whole. */
  lemma DrainStepOnFrame(m: Message, rest: seq<byte>)
    requires WellFormed(m)
    ensures DrainStep(Frame(m) + rest) == Take(Header(m), m.payload, rest)
  {
    var q := Frame(m) + rest;
    var n := |m.payload|;
    FrameFront(m, rest);
    assert (HeaderSize + n) % U32 == HeaderSize + n;
    assert Min(n, |q| - HeaderSize) == n;
    assert q[HeaderSize..HeaderSize + n] == m.payload;
    assert q[HeaderSize + n..] == rest;
  }

  /** The header read at the front of a frame is the message's header,
      and the bytes after it are the payload and what follows. */
  lemma FrameFront(m: Message, rest: seq<byte>)
    requires WellFormed(m)
    ensures |Frame(m) + rest| >= HeaderSize
    ensures DecodeHeader(Frame(m) + rest) == Header(m)
    ensures (Frame(m) + rest)[HeaderSize..] == m.payload + rest
  {
    var q := Frame(m) + rest;
    assert q == EncodeHeader(Header(m)) + (m.payload + rest);
    HeaderRoundTrip(Header(m), m.payload + rest);
  }

  /** The same, read off a non-empty stream. */
  lemma StreamFront(ms: seq<Message>)
    requires AllWellFormed(ms) && ms != []
    ensures |Stream(ms)| >= HeaderSize
    ensures DecodeHeader(Stream(ms)) == Header(ms[0])
    ensures Stream(ms)[HeaderSize..] == ms[0].payload + Stream(ms[1..])
    ensures AllWellFormed(ms[1..])
  {
    assert WellFormed(ms[0]);
    FrameFront(ms[0], Stream(ms[1..]));
  }

  /** The guard of write() as the source has it: canWrite (sizeof (PortEvent) + size). */
  predicate WriteAcceptsAsWritten(free: nat, size: uint32)
  {
    var need := HeaderSize + size;
    0 < need <= free
  }

  /** write (port, 0, protocol, buffer) is accepted whenever a header fits,
      and the header it queues stalls the drain loop: the turn consumes
      nothing and leaves the ring as it was, so run() never returns. */
  lemma ZeroSizeWriteStallsDrain(index: uint32, protocol: uint32, free: nat, rest: seq<byte>)
    requires HeaderSize <= free
    ensures WriteAcceptsAsWritten(free, 0)
    ensures DrainStep(EncodeHeader(PortEvent(index, protocol, 0, 0)) + rest) == Stall
  {
    HeaderRoundTrip(PortEvent(index, protocol, 0, 0), rest);
  }

  /** Copy a payload to the front of a scratch buffer (the read into evbuf
      or ntbuf); the bytes behind it keep their old values. */
  function CopyIn(scratch: seq<byte>, payload: seq<byte>): (r: seq<byte>)
    requires |payload| <= |scratch|
    ensures |r| == |scratch|
    ensures r[..|payload|] == payload && r[|payload|..] == scratch[|payload|..]
  {
    payload + scratch[|payload|..]
  }

  /** A message run() can handle on a module with `ports` port buffers and
      a scratch buffer of `scratch` bytes. */
  predicate Fits(m: Message, ports: nat, scratch: nat)
  {
    WellFormed(m) && |m.payload| <= scratch && (m.protocol == 0 ==> m.index < ports)
  }

  predicate AllFit(ms: seq<Message>, ports: nat, scratch: nat)
  {
    forall i :: 0 <= i < |ms| ==> Fits(ms[i], ports, scratch)
  }

  /** What run() touches while draining: the port values, the scratch
      buffer evbuf, the messages queued on `notifications` and its free
      space. */
  datatype DrainState = DrainState(values: seq<FloatBits>, scratch: seq<byte>, notes: seq<Message>, room: nat)

  predicate Ready(s: DrainState)
  {
    |s.scratch| >= 4
  }

  /** run() on one message (Module.cpp:794-809): copy the payload into the
      scratch buffer; for protocol 0 read a float from the scratch buffer,
      and if it differs from the port's value store it and echo the message
      onto `notifications` when header and payload fit. */
  function Apply(s: DrainState, m: Message): (r: DrainState)
    requires Ready(s) && Fits(m, |s.values|, |s.scratch|)
    ensures Ready(r) && |r.values| == |s.values| && |r.scratch| == |s.scratch|
  {
    var scratch := CopyIn(s.scratch, m.payload);
    if m.protocol != 0 then s.(scratch := scratch)
    else
      var v: FloatBits := scratch[..4];
      if s.values[m.index] == v then s.(scratch := scratch)
      else
        var values := s.values[m.index := v];
        if HeaderSize + |m.payload| <= s.room then
          DrainState(values, scratch, s.notes + [m], s.room - (HeaderSize + |m.payload|))
        else
          DrainState(values, scratch, s.notes, s.room)
  }

  /** run() on every queued message, oldest first. */
  function ApplyAll(s: DrainState, ms: seq<Message>): (r: DrainState)
    requires Ready(s) && AllFit(ms, |s.values|, |s.scratch|)
    ensures Ready(r) && |r.values| == |s.values| && |r.scratch| == |s.scratch|
    decreases |ms|
  {
    if ms == [] then s else ApplyAll(Apply(s, ms[0]), ms[1..])
  }

  /** A port that no protocol-0 message names keeps its value. */
  lemma {:induction false} UnnamedPortKeepsValue(s: DrainState, ms: seq<Message>, port: nat)
    requires Ready(s) && AllFit(ms, |s.values|, |s.scratch|) && port < |s.values|
    requires forall i :: 0 <= i < |ms| ==> !(ms[i].protocol == 0 && ms[i].index == port)
    ensures ApplyAll(s, ms).values[port] == s.values[port]
    decreases |ms|
  {
    if ms != [] {
      UnnamedPortKeepsValue(Apply(s, ms[0]), ms[1..], port);
    }
  }

  /** Messages of any protocol other than 0 change no port value and queue
      no notification. */
  lemma {:induction false} OtherProtocolsIgnored(s: DrainState, ms: seq<Message>)
    requires Ready(s) && AllFit(ms, |s.values|, |s.scratch|)
    requires forall i :: 0 <= i < |ms| ==> ms[i].protocol != 0
    ensures ApplyAll(s, ms).values == s.values
    ensures ApplyAll(s, ms).notes == s.notes && ApplyAll(s, ms).room == s.room
    decreases |ms|
  {
    if ms != [] {
      OtherProtocolsIgnored(Apply(s, ms[0]), ms[1..]);
    }
  }

  /** After draining, a port holds the float of the last protocol-0 message
      that names it (when that payload carries a whole float). */
  lemma {:induction false} LastWriteWins(s: DrainState, ms: seq<Message>, k: nat)
    requires Ready(s) && AllFit(ms, |s.values|, |s.scratch|)
    requires k < |ms| && ms[k].protocol == 0 && |ms[k].payload| >= 4
    requires forall j :: k < j < |ms| ==> !(ms[j].protocol == 0 && ms[j].index == ms[k].index)
    ensures ApplyAll(s, ms).values[ms[k].index] == ms[k].payload[..4]
    decreases |ms|
  {
    if k == 0 {
      var t := Apply(s, ms[0]);
      assert t.values[ms[0].index] == ms[0].payload[..4];
      assert forall i :: 0 <= i < |ms[1..]| ==> !(ms[1..][i].protocol == 0 && ms[1..][i].index == ms[0].index);
      UnnamedPortKeepsValue(t, ms[1..], ms[0].index);
    } else {
      LastWriteWins(Apply(s, ms[0]), ms[1..], k - 1);
    }
  }

  /** Draining only appends to `notifications`, every appended message came
      from the drained ones and has protocol 0, and the bytes appended are
      exactly the free space used up. */
  lemma {:induction false} NotificationsAreEchoes(s: DrainState, ms: seq<Message>)
    requires Ready(s) && AllFit(ms, |s.values|, |s.scratch|) && AllWellFormed(s.notes)
    ensures var r := ApplyAll(s, ms);
      |s.notes| <= |r.notes| && r.notes[..|s.notes|] == s.notes
      && (forall i :: |s.notes| <= i < |r.notes| ==> r.notes[i] in ms && r.notes[i].protocol == 0)
      && AllWellFormed(r.notes) && |Stream(r.notes)| + r.room == |Stream(s.notes)| + s.room
    decreases |ms|
  {
    if ms != [] {
      var t := Apply(s, ms[0]);
      if t.notes != s.notes {
        StreamAppend(s.notes, ms[0]);
      }
      NotificationsAreEchoes(t, ms[1..]);
      var r := ApplyAll(t, ms[1..]);
      assert r.notes[..|t.notes|][..|s.notes|] == r.notes[..|s.notes|];
      forall i | |s.notes| <= i < |r.notes|
        ensures r.notes[i] in ms && r.notes[i].protocol == 0
      {
        if i >= |t.notes| {
          assert r.notes[i] in ms[1..];
        } else {
          assert r.notes[i] == t.notes[i] == ms[0];
        }
      }
    }
  }

  /** The echo rule of run() for one protocol-0 message carrying a whole
      float: the value is stored exactly when it differs from the port's,
      and the message is echoed exactly when the value changed and header
      and payload fit the free space of `notifications`. */
  lemma EchoRule(s: DrainState, m: Message)
    requires Ready(s) && Fits(m, |s.values|, |s.scratch|) && m.protocol == 0 && |m.payload| >= 4
    ensures var changed := m.payload[..4] != s.values[m.index];
      var echoed := changed && HeaderSize + |m.payload| <= s.room;
      Apply(s, m).values == (if changed then s.values[m.index := m.payload[..4]] else s.values)
      && Apply(s, m).notes == s.notes + (if echoed then [m] else [])
      && Apply(s, m).room == s.room - (if echoed then HeaderSize + |m.payload| else 0)
  {
    assert CopyIn(s.scratch, m.payload)[..4] == m.payload[..4];
  }

  /** A drain in which every protocol-0 message repeats its port's value
      changes no value and echoes nothing. */
  lemma {:induction false} RepeatsNotEchoed(s: DrainState, ms: seq<Message>)
    requires Ready(s) && AllFit(ms, |s.values|, |s.scratch|)
    requires forall i :: 0 <= i < |ms| && ms[i].protocol == 0 ==>
      |ms[i].payload| >= 4 && ms[i].payload[..4] == s.values[ms[i].index]
    ensures ApplyAll(s, ms).values == s.values
    ensures ApplyAll(s, ms).notes == s.notes && ApplyAll(s, ms).room == s.room
    decreases |ms|
  {
    if ms != [] {
      var t := Apply(s, ms[0]);
      if ms[0].protocol == 0 {
        EchoRule(s, ms[0]);
      }
      assert t.values == s.values && t.notes == s.notes && t.room == s.room;
      assert forall i :: 0 <= i < |ms[1..]| && ms[1..][i].protocol == 0 ==>
        |ms[1..][i].payload| >= 4 && ms[1..][i].payload[..4] == t.values[ms[1..][i].index] by {
        forall i | 0 <= i < |ms[1..]| ensures ms[1..][i] == ms[i + 1] { }
      }
      RepeatsNotEchoed(t, ms[1..]);
    }
  }

  /** The protocol-0 messages of ms, in order: what timerCallback() forwards. */
  function ProtocolZero(ms: seq<Message>): seq<Message>
  {
    if ms == [] then []
    else
      var m := ms[|ms| - 1];
      ProtocolZero(ms[..|ms| - 1]) + (if m.protocol == 0 then [m] else [])
  }

  /** A message is forwarded exactly when it was queued with protocol 0. */
  lemma {:induction false} ProtocolZeroMembers(ms: seq<Message>, m: Message)
    ensures m in ProtocolZero(ms) <==> m in ms && m.protocol == 0
  {
    if ms != [] {
      ProtocolZeroMembers(ms[..|ms| - 1], m);
      assert ms == ms[..|ms| - 1] + [ms[|ms| - 1]];
    }
  }

  /** Filtering two runs of messages filters the first, then the second. */
  lemma {:induction false} ProtocolZeroAppend(a: seq<Message>, b: seq<Message>)
    ensures ProtocolZero(a + b) == ProtocolZero(a) + ProtocolZero(b)
    decreases |b|
  {
    if b != [] {
      var init := b[..|b| - 1];
      assert (a + b)[..|a + b| - 1] == a + init;
      ProtocolZeroAppend(a, init);
    } else {
      assert a + b == a;
    }
  }

  /** The scratch buffer after copying in every payload of ms, in order. */
  function ScratchAfter(scratch: seq<byte>, ms: seq<Message>): (r: seq<byte>)
    requires forall i :: 0 <= i < |ms| ==> |ms[i].payload| <= |scratch|
    ensures |r| == |scratch|
  {
    if ms == [] then scratch
    else CopyIn(ScratchAfter(scratch, ms[..|ms| - 1]), ms[|ms| - 1].payload)
  }

  /** Bytes past the longest payload keep their old values. */
  lemma {:induction false} ScratchTailUntouched(scratch: seq<byte>, ms: seq<Message>, k: nat)
    requires k <= |scratch|
    requires forall i :: 0 <= i < |ms| ==> |ms[i].payload| <= k
    ensures ScratchAfter(scratch, ms)[k..] == scratch[k..]
  {
    if ms != [] {
      ScratchTailUntouched(scratch, ms[..|ms| - 1], k);
      var before := ScratchAfter(scratch, ms[..|ms| - 1]);
      var p := ms[|ms| - 1].payload;
      assert CopyIn(before, p)[k..] == before[k..];
    }
  }
}
