/** The jlv2 Module of Module.cpp and Module.h: one plugin instance with its
    port buffers, the `events` ring the UI and host write control messages
    into, the `notifications` ring run() echoes changed values into, the
    lifecycle over the lilv instance, and the ModuleUI that shows it.

    lilv and suil are foreign: what lilv_plugin_instantiate returns is a
    parameter, and every call into the instance, the worker and the suil
    instance is recorded, in order, in a ghost trace.
 */
module Host {
  import opened Bytes
  import opened Wrappers
  import opened PortEvents
  import opened RingBuffers
  import opened Messages
  import opened Features
  import opened Plugins
  import opened Worlds

  /** LV2UI_INVALID_PORT_INDEX. */
  const InvalidPortIndex: uint32 := 0xFFFF_FFFF

  /** Capacity of the two message rings. */
  const RingSize: nat := 4096

  /** Least size of the scratch buffers evbuf and ntbuf. */
  const MinScratch: nat := 256

  /** jlv2's port types: lvtk's five and Event. */
  datatype PortKind = Control | Audio | CV | Atom | Midi | Event | Unknown

  /** getPortType: the first of Audio, Atom, Control, CV and Event the port is
      a member of; it never answers Midi. */
  function KindOf(p: PortInfo): (k: PortKind)
    ensures k != Midi
    ensures k == Unknown <==> p.classes !! {AudioPort, AtomPort, ControlPort, CVPort, EventPort}
    ensures AudioPort in p.classes ==> k == Audio
    ensures k == Control ==> ControlPort in p.classes && AudioPort !in p.classes && AtomPort !in p.classes
  {
    if AudioPort in p.classes then Audio
    else if AtomPort in p.classes then Atom
    else if ControlPort in p.classes then Control
    else if CVPort in p.classes then CV
    else if EventPort in p.classes then Event
    else Unknown
  }

  /** One entry of the module's port list. */
  datatype PortDescription = PortDescription(index: uint32, symbol: string, name: string, kind: PortKind, isInput: bool)

  /** The buffer init() gives a port: its direction and type, the URI of the
      data it holds (mapped to a URID in the source; "" for URID 0) and its
      capacity in bytes. */
  datatype PortBuffer = PortBuffer(isInput: bool, kind: PortKind, dataType: string, capacity: nat)

  /** init()'s sizing: an Atom or Event port gets 4096 bytes of a sequence or
      an event buffer, a Midi port four bytes of MIDI, every other port one
      float. */
  function BufferFor(kind: PortKind, isInput: bool): (b: PortBuffer)
    ensures b.kind == kind && b.isInput == isInput
    ensures b.capacity == (if kind == Atom || kind == Event then 4096 else 4)
    ensures b.dataType == "" <==> kind == Unknown
    ensures kind in {Control, Audio, CV} ==> b.dataType == AtomFloatUri
  {
    match kind
    case Control => PortBuffer(isInput, kind, AtomFloatUri, 4)
    case Audio => PortBuffer(isInput, kind, AtomFloatUri, 4)
    case Atom => PortBuffer(isInput, kind, AtomSequenceUri, 4096)
    case Midi => PortBuffer(isInput, kind, MidiEventUri, 4)
    case Event => PortBuffer(isInput, kind, EventEventUri, 4096)
    case CV => PortBuffer(isInput, kind, AtomFloatUri, 4)
    case Unknown => PortBuffer(isInput, kind, "", 4)
  }

  /** The port list entry init() makes for port i. */
  function Describe(p: PortInfo, i: uint32): PortDescription
  {
    PortDescription(i, p.symbol, p.name, KindOf(p), InputPort in p.classes)
  }

  /** The first value of a port's buffer after init(): the plugin's default
      for a control port, zero otherwise. */
  function InitialValue(p: PortInfo): FloatBits
  {
    if KindOf(p) == Control then p.default else [0, 0, 0, 0]
  }

  /** init()'s port list: one description per port, in index order. */
  function PortsOf(plugin: PluginDesc): seq<PortDescription>
    requires |plugin.ports| < U32
  {
    seq(|plugin.ports|, i requires 0 <= i < |plugin.ports| => Describe(plugin.ports[i], i))
  }

  /** init()'s buffers: one per port, sized by its type. */
  function BuffersOf(ports: seq<PortDescription>): seq<PortBuffer>
  {
    seq(|ports|, i requires 0 <= i < |ports| => BufferFor(ports[i].kind, ports[i].isInput))
  }

  /** lilv_plugin_get_port_ranges_float: the minimum (which 0), maximum
      (1) or default (2) of every port. */
  function Ranges(plugin: PluginDesc, which: nat): seq<FloatBits>
  {
    seq(|plugin.ports|, i requires 0 <= i < |plugin.ports| =>
      if which == 0 then plugin.ports[i].min else if which == 1 then plugin.ports[i].max else plugin.ports[i].default)
  }

  /** The loop of init() over the plugin's ports: describe each port,
      give it a buffer of its type, and start control ports at their
      default and the others at zero. */
  method BuildPorts(plugin: PluginDesc) returns (ps: seq<PortDescription>, bs: seq<PortBuffer>, vs: seq<FloatBits>)
    requires |plugin.ports| < U32
    ensures ps == PortsOf(plugin) && bs == BuffersOf(ps)
    ensures |vs| == |plugin.ports| && forall k :: 0 <= k < |vs| ==> vs[k] == InitialValue(plugin.ports[k])
  {
    var n := |plugin.ports|;
    ps, bs, vs := [], [], [];
    var p := 0;
    while p < n
      invariant 0 <= p <= n && |ps| == p && |bs| == p && |vs| == p
      invariant forall k :: 0 <= k < p ==> ps[k] == Describe(plugin.ports[k], k)
      invariant forall k :: 0 <= k < p ==> bs[k] == BufferFor(ps[k].kind, ps[k].isInput)
      invariant forall k :: 0 <= k < p ==> vs[k] == InitialValue(plugin.ports[k])
    {
      var port := plugin.ports[p];
      var kind := KindOf(port);
      var isInput := InputPort in port.classes;
      ps := ps + [PortDescription(p, port.symbol, port.name, kind, isInput)];
      bs := bs + [BufferFor(kind, isInput)];
      vs := vs + [if kind == Control then port.default else [0, 0, 0, 0]];
      p := p + 1;
    }
  }

  /** The port a symbol lookup finds: the first one, scanning from index i,
      whose symbol matches and, when controlOnly, whose type is Control. */
  predicate Matches(p: PortDescription, symbol: string, controlOnly: bool)
  {
    p.symbol == symbol && (controlOnly ==> p.kind == Control)
  }

  function FindPortFrom(ports: seq<PortDescription>, symbol: string, controlOnly: bool, i: nat): (r: Option<nat>)
    requires i <= |ports|
    ensures r.Some? ==> (i <= r.value < |ports| && Matches(ports[r.value], symbol, controlOnly)
      && forall j :: i <= j < r.value ==> !Matches(ports[j], symbol, controlOnly))
    ensures r.None? ==> forall j :: i <= j < |ports| ==> !Matches(ports[j], symbol, controlOnly)
    decreases |ports| - i
  {
    if i == |ports| then None
    else if Matches(ports[i], symbol, controlOnly) then Some(i)
    else FindPortFrom(ports, symbol, controlOnly, i + 1)
  }

  function FindPort(ports: seq<PortDescription>, symbol: string, controlOnly: bool): Option<nat>
  {
    FindPortFrom(ports, symbol, controlOnly, 0)
  }

  /** The (index, 4 bytes, protocol 0, value) events sendControlValues()
      passes on, one per control port in port order. */
  function ControlMessages(ports: seq<PortDescription>, values: seq<FloatBits>): seq<Message>
    requires forall k :: 0 <= k < |ports| ==> ports[k].index < |values|
  {
    if ports == [] then []
    else
      var p := ports[|ports| - 1];
      ControlMessages(ports[..|ports| - 1], values) + (if p.kind == Control then [Message(p.index, 0, values[p.index])] else [])
  }

  /** Exactly the control ports are reported, each with its current value. */
  lemma {:induction false} ControlMessagesExact(ports: seq<PortDescription>, values: seq<FloatBits>)
    requires forall k :: 0 <= k < |ports| ==> ports[k].index < |values|
    ensures forall m :: m in ControlMessages(ports, values) ==>
      m.protocol == 0 && m.index < |values| && m.payload == values[m.index]
      && exists k :: 0 <= k < |ports| && ports[k].index == m.index && ports[k].kind == Control
    ensures forall k :: 0 <= k < |ports| && ports[k].kind == Control ==>
      Message(ports[k].index, 0, values[ports[k].index]) in ControlMessages(ports, values)
  {
    if ports != [] {
      var init := ports[..|ports| - 1];
      ControlMessagesExact(init, values);
      forall m | m in ControlMessages(ports, values)
        ensures exists k :: 0 <= k < |ports| && ports[k].index == m.index && ports[k].kind == Control
      {
        if m in ControlMessages(init, values) {
          var k :| 0 <= k < |init| && init[k].index == m.index && init[k].kind == Control;
          assert ports[k] == init[k];
        } else {
          assert ports[|ports| - 1].index == m.index;
        }
      }
      forall k | 0 <= k < |ports| && ports[k].kind == Control
        ensures Message(ports[k].index, 0, values[ports[k].index]) in ControlMessages(ports, values)
      {
        if k < |init| {
          assert ports[k] == init[k];
        }
      }
    }
  }

  /** A call the module makes into the plugin instance or its worker. */
  datatype HostCall =
    | LilvInstantiate(rate: real, features: seq<Option<Feature>>)
    | LilvActivate
    | LilvDeactivate
    | LilvFree
    | LilvConnect(port: uint32)
    | WorkerResponses
    | LilvRun(frames: uint32)
    | WorkerEndRun

  /** A call a ModuleUI makes into its suil instance. */
  datatype SuilCall =
    | SuilNew(features: seq<Option<Feature>>)
    | SuilPortEvent(port: nat, size: nat, format: nat, data: seq<byte>)
    | SuilIdle
    | SuilFree

  /** The suil port events that forward ms, in order. */
  function PortEventCalls(ms: seq<Message>): (r: seq<SuilCall>)
    ensures |r| == |ms|
  {
    if ms == [] then []
    else
      var m := ms[|ms| - 1];
      PortEventCalls(ms[..|ms| - 1]) + [SuilPortEvent(m.index, |m.payload|, m.protocol, m.payload)]
  }

  /** Forwarding two runs of messages forwards the first, then the
      second. */
  lemma {:induction false} PortEventCallsAppend(a: seq<Message>, b: seq<Message>)
    ensures PortEventCalls(a + b) == PortEventCalls(a) + PortEventCalls(b)
    decreases |b|
  {
    if b != [] {
      var init := b[..|b| - 1];
      assert (a + b)[..|a + b| - 1] == a + init;
      PortEventCallsAppend(a, init);
    } else {
      assert a + b == a;
    }
  }

  /** The connections run() makes: from the last port down to port i. */
  function ConnectFrom(n: nat, i: nat): seq<HostCall>
    requires i <= n < U32
    decreases n - i
  {
    if i == n then [] else ConnectFrom(n, i + 1) + [LilvConnect(i)]
  }

  /** Every port is connected once, in descending index order. */
  lemma {:induction false} ConnectOrder(n: nat, i: nat)
    requires i <= n < U32
    ensures |ConnectFrom(n, i)| == n - i
    ensures forall k :: 0 <= k < n - i ==> ConnectFrom(n, i)[k] == LilvConnect(n - 1 - k)
    decreases n - i
  {
    if i < n {
      ConnectOrder(n, i + 1);
    }
  }

  /** What run() calls after draining the events: connect every port, then
      the worker's responses, the instance, and the worker's end of run. */
  function RunCalls(numPorts: nat, hasWorker: bool, nframes: uint32): seq<HostCall>
    requires numPorts < U32
  {
    ConnectFrom(numPorts, 0) + (if hasWorker then [WorkerResponses] else [])
      + [LilvRun(nframes)] + (if hasWorker then [WorkerEndRun] else [])
  }

  /** The instance runs once, after every port is connected, and the worker
      steps surround it exactly when there is a worker. */
  lemma RunOrder(numPorts: nat, hasWorker: bool, nframes: uint32)
    requires numPorts < U32
    ensures var r := RunCalls(numPorts, hasWorker, nframes);
      var w := if hasWorker then 1 else 0;
      |r| == numPorts + 1 + 2 * w
      && (forall k :: 0 <= k < numPorts ==> r[k] == LilvConnect(numPorts - 1 - k))
      && r[numPorts + w] == LilvRun(nframes)
      && (hasWorker ==> r[numPorts] == WorkerResponses && r[|r| - 1] == WorkerEndRun)
  {
    ConnectOrder(numPorts, 0);
  }

  /** freeInstance()'s calls: deactivate when active, then free, all only
      when there is an instance. */
  function FreeCalls(hadInstance: bool, wasActive: bool): seq<HostCall>
  {
    if hadInstance then (if wasActive then [LilvDeactivate] else []) + [LilvFree] else []
  }

  /** The LV2_Feature a WorkerFeature provides: the worker schedule, served by
      the given worker thread. */
  function WorkerFeature(thread: nat): Feature
  {
    Feature(WorkerScheduleUri, thread)
  }

  /** The features instantiate() hands lilv: the host's, the worker schedule
      when there is a worker, and the null terminator. */
  function InstanceFeatures(host: seq<Option<Feature>>, worker: Option<nat>): (r: seq<Option<Feature>>)
  {
    host + (if worker.Some? then [Some(WorkerFeature(worker.value))] else []) + [None]
  }

  /** The features ModuleUI::instantiate() hands suil: the host's, the UI
      parent when one is set, and the null terminator. */
  function UiFeatures(host: seq<Option<Feature>>, parent: Option<nat>): (r: seq<Option<Feature>>)
  {
    host + (if parent.Some? then [Some(Feature(UiParentUri, parent.value))] else []) + [None]
  }

  /** Both lists are null-terminated, and the terminator is their only null
      entry when the host's features are all present; the worker and the
      parent feature are in them exactly when given. */
  lemma FeatureListsTerminated(host: seq<Option<Feature>>, worker: Option<nat>, parent: Option<nat>)
    requires forall i :: 0 <= i < |host| ==> host[i].Some?
    ensures var r := InstanceFeatures(host, worker);
      r[|r| - 1] == None && (forall i :: 0 <= i < |r| - 1 ==> r[i].Some?)
      && (worker.Some? <==> |r| == |host| + 2)
      && (worker.Some? ==> r[|host|] == Some(WorkerFeature(worker.value)))
    ensures var r := UiFeatures(host, parent);
      r[|r| - 1] == None && (forall i :: 0 <= i < |r| - 1 ==> r[i].Some?)
      && (parent.Some? <==> |r| == |host| + 2)
      && (parent.Some? ==> r[|host|] == Some(Feature(UiParentUri, parent.value)))
  {
  }

  class Module {
    const world: World
    const plugin: PluginDesc
    const numPorts: nat
    const ports: seq<PortDescription>
    const buffers: seq<PortBuffer>
    const mins: seq<FloatBits>
    const maxes: seq<FloatBits>
    const defaults: seq<FloatBits>
    /** map (LV2_ATOM__Float), the URID of the float type. */
    const floatUrid: uint32
    const events: RingBuffer
    const notifications: RingBuffer
    const evbuf: array<byte>
    const ntbuf: array<byte>

    /** The value each port buffer holds (its first float). */
    var values: seq<FloatBits>
    /** The lilv instance, by identity. */
    var instance: Option<nat>
    var active: bool
    var currentSampleRate: real
    /** The WorkerFeature, by the worker thread it was given. */
    var worker: Option<nat>
    /** The feature array handed to the last instantiation. */
    var features: seq<Option<Feature>>
    var timerRunning: bool
    var ui: ModuleUI?
    /** Whether onPortNotify is set. */
    var portNotify: bool

    /** The messages queued on `events` and on `notifications`. */
    ghost var pending: seq<Message>
    ghost var notes: seq<Message>
    /** The calls into lilv and the worker, and those of onPortNotify. */
    ghost var trace: seq<HostCall>
    ghost var notified: seq<Message>

    /** What init() fixes about the buffers: two distinct rings of 4096
        bytes and scratch buffers of at least 256 bytes apart from them. */
    ghost predicate Layout()
    {
      events != notifications && events.block != notifications.block
      && evbuf != events.block && evbuf != notifications.block
      && ntbuf != events.block && ntbuf != notifications.block && evbuf != ntbuf
      && events.Size() == RingSize && notifications.Size() == RingSize
      && MinScratch <= evbuf.Length && MinScratch <= ntbuf.Length
      && numPorts == |plugin.ports| < U32
    }

    /** What init() fixes about the ports: one description, buffer and
        range per port of the plugin. These are constants, so once the
        constructor establishes them they hold for good. */
    ghost predicate Tables()
    {
      numPorts == |plugin.ports| < U32
      && ports == PortsOf(plugin) && buffers == BuffersOf(ports)
      && mins == Ranges(plugin, 0) && maxes == Ranges(plugin, 1) && defaults == Ranges(plugin, 2)
    }

    /** Each ring holds the frames of its queued messages, and every queued
        message is complete, non-empty, names a port buffer when it carries
        protocol 0, and fits the scratch buffer it is read into. */
    ghost predicate Queued()
      reads this`pending, this`notes, events, events.block, notifications, notifications.block
    {
      events.Valid() && notifications.Valid()
      && AllWellFormed(pending) && events.Contents() == Stream(pending)
      && AllFit(pending, numPorts, evbuf.Length) && AllFit(pending, numPorts, ntbuf.Length)
      && AllWellFormed(notes) && notifications.Contents() == Stream(notes)
      && AllFit(notes, numPorts, ntbuf.Length)
    }

    /** init()'s port table gives every port its own index, so every index
        names a port buffer. */
    lemma PortIndicesInRange()
      requires Tables()
      ensures forall k :: 0 <= k < |ports| ==> ports[k].index == k < numPorts
    {
    }

    /** The port values, the queues and the editor. */
    ghost predicate Buffers()
      reads this`values, this`pending, this`notes, this`ui, events, events.block, notifications, notifications.block
    {
      Layout() && |values| == numPorts && Queued() && (ui != null ==> ui.owner == this)
    }

    /** Only an instance is active, and a worker needs an instance. */
    ghost predicate Lifecycle()
      reads this`active, this`instance, this`worker
    {
      (active ==> instance.Some?) && (instance.None? ==> worker.None?)
    }

    ghost predicate Valid()
      reads this`values, this`pending, this`notes, this`active, this`instance, this`worker, this`ui,
            events, events.block, notifications, notifications.block
    {
      Buffers() && Lifecycle()
    }

    /** Module (world, plugin) and init(): empty rings of 4096 bytes, zeroed
        scratch buffers of at least 256 bytes (their requested sizes are
        never initialised in the source, so they are parameters here), the
        plugin's port ranges, and one port description and buffer per port,
        control ports starting at their default. */
    constructor (world: World, plugin: PluginDesc, evbufsize: uint32, ntbufsize: uint32, floatUrid: uint32)
      requires |plugin.ports| < U32
      ensures Valid() && Tables() && fresh(events) && fresh(notifications) && fresh(evbuf) && fresh(ntbuf)
      ensures this.world == world && this.plugin == plugin && this.floatUrid == floatUrid
      ensures pending == [] && notes == [] && trace == [] && notified == []
      ensures instance.None? && !active && currentSampleRate == 44100.0 && worker.None? && ui == null
      ensures !timerRunning && !portNotify && features == []
      ensures evbuf.Length == (if evbufsize < MinScratch then MinScratch else evbufsize)
      ensures ntbuf.Length == (if ntbufsize < MinScratch then MinScratch else ntbufsize)
      ensures evbuf[..] == Zeros(evbuf.Length) && ntbuf[..] == Zeros(ntbuf.Length)
      ensures forall i :: 0 <= i < numPorts ==> values[i] == InitialValue(plugin.ports[i])
    {
      var n := |plugin.ports|;
      events := new RingBuffer(RingSize);
      var eb := NewScratch(evbufsize);
      var nb := NewScratch(ntbufsize);
      evbuf := eb;
      notifications := new RingBuffer(RingSize);
      ntbuf := nb;
      mins := Ranges(plugin, 0);
      maxes := Ranges(plugin, 1);
      defaults := Ranges(plugin, 2);

      var ps, bs, vs := BuildPorts(plugin);

      this.world := world;
      this.plugin := plugin;
      this.floatUrid := floatUrid;
      numPorts := n;
      ports := ps;
      buffers := bs;
      values := vs;
      instance := None;
      active := false;
      currentSampleRate := 44100.0;
      worker := None;
      features := [];
      timerRunning := false;
      ui := null;
      portNotify := false;
      pending := [];
      notes := [];
      trace := [];
      notified := [];
    }

    /** write (port, size, protocol, buffer) with the guard that also refuses
        an empty payload: header and payload are queued together when both
        fit, and the ring is left as it was otherwise. The port must name a
        buffer when the protocol is 0 (run() indexes the buffers with it
        unchecked), and the payload must fit the scratch buffers. */
    method Write(port: uint32, size: uint32, protocol: uint32, buffer: seq<byte>)
      requires Valid() && size <= |buffer|
      requires size <= evbuf.Length && size <= ntbuf.Length
      requires protocol == 0 ==> port < numPorts
      modifies this`pending, events, events.block
      ensures Valid()
      ensures var m := Message(port, protocol, buffer[..size]);
        pending == if 0 < size && old(events.CanWrite(HeaderSize + size)) then old(pending) + [m] else old(pending)
    {
      var m := Message(port, protocol, buffer[..size]);
      if 0 < size {
        var queued := Enqueue(events, m, pending);
        if queued {
          pending := pending + [m];
        }
      }
    }

    /** connectPort (port, data). */
    method ConnectPort(port: uint32)
      modifies this`trace
      ensures trace == old(trace) + [LilvConnect(port)]
    {
      trace := trace + [LilvConnect(port)];
    }

    /** The body of run()'s drain loop once a frame's payload is in evbuf:
        a protocol-0 message whose float differs from its port's value
        stores the float and is echoed (header, then payload) onto
        `notifications` when both fit. */
    method ApplyEvent(ev: PortEvent, ghost m: Message, ghost before: seq<byte>)
      requires Valid() && Fits(m, numPorts, evbuf.Length) && Fits(m, numPorts, ntbuf.Length) && ev == Header(m)
      requires |before| == evbuf.Length && evbuf[..] == CopyIn(before, m.payload)
      modifies this`values, this`notes, notifications, notifications.block
      ensures Valid()
      ensures DrainState(values, evbuf[..], notes, notifications.WriteSpace())
        == Apply(DrainState(old(values), before, old(notes), old(notifications.WriteSpace())), m)
    {
      if ev.protocol == 0 {
        var v: FloatBits := evbuf[..4];
        if values[ev.index] != v {
          values := values[ev.index := v];
          var queued := Enqueue(notifications, Message(ev.index, ev.protocol, evbuf[..ev.size]), notes);
          if queued {
            notes := notes + [m];
          }
        }
      }
    }

    /** run()'s for (;;) loop: drain `events`, applying each message as
        ApplyAll specifies (a changed protocol-0 value is stored and echoed
        onto `notifications`). */
    method DrainEvents()
      requires Valid()
      modifies this`values, this`pending, this`notes, events, notifications, notifications.block, evbuf
      ensures Valid() && pending == []
      ensures var r := ApplyAll(DrainState(old(values), old(evbuf[..]), old(notes), old(notifications.WriteSpace())), old(pending));
        values == r.values && evbuf[..] == r.scratch && notes == r.notes && notifications.WriteSpace() == r.room
    {
      ghost var final := ApplyAll(DrainState(values, evbuf[..], notes, notifications.WriteSpace()), pending);
      while true
        invariant Valid()
        invariant ApplyAll(DrainState(values, evbuf[..], notes, notifications.WriteSpace()), pending) == final
        decreases |pending|
        modifies this`values, this`pending, this`notes, events, notifications, notifications.block, evbuf
      {
        var got := DrainOne();
        if !got {
          break;
        }
      }
    }

    /** One turn of run()'s loop: stop when `events` is empty, otherwise
        take the oldest message and apply it. */
    method DrainOne() returns (got: bool)
      requires Valid()
      modifies this`values, this`pending, this`notes, events, notifications, notifications.block, evbuf
      ensures Valid() && (got <==> old(pending) != [])
      ensures got ==> pending == old(pending)[1..]
      ensures !got ==> (values == old(values) && pending == old(pending) && notes == old(notes)
        && evbuf[..] == old(evbuf[..]) && notifications.WriteSpace() == old(notifications.WriteSpace()))
      ensures got ==> (DrainState(values, evbuf[..], notes, notifications.WriteSpace())
        == Apply(DrainState(old(values), old(evbuf[..]), old(notes), old(notifications.WriteSpace())), old(pending)[0]))
    {
      ghost var ms := pending;
      ghost var before := evbuf[..];
      var ev;
      ev, got := TakeMessage(events, evbuf, pending);
      if !got {
        return;
      }
      pending := pending[1..];
      ApplyEvent(ev, ms[0], before);
    }

    /** The rest of run (nframes): connect the ports from the last one
        down, then let the worker deliver its responses, run the instance
        and end the worker's run. */
    method RunInstance(nframes: uint32)
      requires numPorts < U32
      modifies this`trace
      ensures trace == old(trace) + RunCalls(numPorts, worker.Some?, nframes)
    {
      var i := numPorts;
      while i > 0
        invariant 0 <= i <= numPorts
        invariant trace == old(trace) + ConnectFrom(numPorts, i)
        modifies this`trace
      {
        i := i - 1;
        ConnectPort(i);
      }
      if worker.Some? {
        trace := trace + [WorkerResponses];
      }
      trace := trace + [LilvRun(nframes)];
      if worker.Some? {
        trace := trace + [WorkerEndRun];
      }
    }

    /** run (nframes): drain `events`, then run the instance. */
    method Run(nframes: uint32)
      requires Valid() && instance.Some?
      modifies this`values, this`pending, this`notes, this`trace, events, notifications, notifications.block, evbuf
      ensures Valid() && pending == []
      ensures var r := ApplyAll(DrainState(old(values), old(evbuf[..]), old(notes), old(notifications.WriteSpace())), old(pending));
        values == r.values && evbuf[..] == r.scratch && notes == r.notes && notifications.WriteSpace() == r.room
      ensures trace == old(trace) + RunCalls(numPorts, worker.Some?, nframes)
    {
      DrainEvents();
      RunInstance(nframes);
    }

    /** timerCallback (): drain `notifications` into ntbuf and forward each
        protocol-0 message to the UI and to onPortNotify. */
    method TimerCallback()
      requires Valid()
      modifies this`notes, this`notified, notifications, ntbuf, (if ui == null then {} else {ui})`suilCalls
      ensures Valid() && notes == []
      ensures ntbuf[..] == ScratchAfter(old(ntbuf[..]), old(notes))
      ensures notified == old(notified) + (if portNotify then ProtocolZero(old(notes)) else [])
      ensures ui != null ==> ui.suilCalls == old(ui.suilCalls) + (if ui.Loaded() then PortEventCalls(ProtocolZero(old(notes))) else [])
    {
      assert forall i :: 0 <= i < |notes| ==> |notes[i].payload| <= ntbuf.Length by {
        assert AllFit(notes, numPorts, ntbuf.Length);
      }
      ForwardNotifications(this, notifications, ntbuf, ui, notes);
      notes := [];
    }

    /** activate (): only an instance that is not active is activated. */
    method Activate()
      requires Valid()
      modifies this`active, this`trace
      ensures Valid()
      ensures active == (old(active) || instance.Some?)
      ensures trace == old(trace) + (if instance.Some? && !old(active) then [LilvActivate] else [])
    {
      if instance.Some? && !active {
        trace := trace + [LilvActivate];
        active := true;
      }
    }

    /** deactivate (): only an active instance is deactivated. */
    method Deactivate()
      requires Valid()
      modifies this`active, this`trace
      ensures Valid() && !active
      ensures trace == old(trace) + (if instance.Some? && old(active) then [LilvDeactivate] else [])
    {
      if instance.Some? && active {
        trace := trace + [LilvDeactivate];
        active := false;
      }
    }

    /** isActive (). */
    function IsActive(): (r: bool)
      reads this
      ensures r <==> instance.Some? && active
    {
      instance.Some? && active
    }

    /** freeInstance (): stop the timer; with an instance, deactivate it,
        drop the worker and free it. */
    method FreeInstance()
      requires Valid()
      modifies this`timerRunning, this`active, this`worker, this`instance, this`trace
      ensures Valid() && !timerRunning && instance.None? && worker.None? && !active
      ensures trace == old(trace) + FreeCalls(old(instance).Some?, old(active))
    {
      timerRunning := false;
      if instance.Some? {
        Deactivate();
        worker := None;
        trace := trace + [LilvFree];
        instance := None;
      }
      assert Buffers();
    }

    /** The features instantiate() offers when the first worker thread it
        would be given is `thread`. */
    ghost function Offered(thread: nat): seq<Option<Feature>>
      reads world.features
    {
      InstanceFeatures(world.FeatureList(), if WorkerInterfaceUri in plugin.extensionData then Some(thread) else None)
    }

    /** The list instantiate() offers: the host features, a worker
        schedule on the next work thread when the plugin declares the worker
        interface, and the terminator. */
    method OfferFeatures() returns (list: seq<Option<Feature>>)
      requires world.Valid()
      modifies this`worker, world`threads, world`currentThread
      ensures world.Valid() && list == Offered(old(world.currentThread))
      ensures worker == (if WorkerInterfaceUri in plugin.extensionData then Some(old(world.currentThread)) else old(worker))
      ensures world.currentThread ==
        (if WorkerInterfaceUri in plugin.extensionData then NextThread(old(world.currentThread), world.numThreads)
         else old(world.currentThread))
    {
      ghost var thread0 := world.currentThread;
      list := world.FeatureList();
      if WorkerInterfaceUri in plugin.extensionData {
        var t := world.GetWorkThread();
        worker := Some(t);
        list := list + [Some(WorkerFeature(t))];
      }
      list := list + [None];
      assert list == Offered(thread0);
    }

    /** instantiate (rate) once the old instance is freed: record the rate,
        create the instance with the offered features, and keep them and
        the worker only as the outcome allows. */
    method CreateInstance(rate: real, result: Option<nat>, workerInterface: bool) returns (ok: bool)
      requires world.Valid() && instance.None? && worker.None? && !active && !timerRunning
      requires workerInterface ==> WorkerInterfaceUri in plugin.extensionData
      modifies this`instance, this`worker, this`features, this`currentSampleRate,
               this`timerRunning, this`trace, world`threads, world`currentThread
      ensures world.Valid() && Lifecycle()
      ensures ok <==> result.Some?
      ensures instance == result && currentSampleRate == rate && timerRunning == ok
      ensures trace == old(trace) + [LilvInstantiate(rate, Offered(old(world.currentThread)))]
      ensures worker == (if ok && workerInterface then Some(old(world.currentThread)) else None)
      ensures features == (if ok then InstanceFeatures(world.FeatureList(), worker) else [])
      ensures world.currentThread ==
        (if WorkerInterfaceUri in plugin.extensionData then NextThread(old(world.currentThread), world.numThreads)
         else old(world.currentThread))
    {
      currentSampleRate := rate;
      features := OfferFeatures();
      trace := trace + [LilvInstantiate(rate, features)];
      instance := result;
      if instance.None? {
        features := [];
        worker := None;
        return false;
      }
      if !workerInterface && worker.Some? {
        // removeFirstMatchingValue: the worker's feature is the entry just
        // before the terminator
        features := features[..|features| - 2] + [None];
        worker := None;
      }
      timerRunning := true;
      ok := true;
    }

    /** instantiate (rate): free the old instance, record the rate, offer the
        host features (plus a worker schedule when the plugin declares the
        worker interface) and create the instance; `result` is what
        lilv_plugin_instantiate returns and `workerInterface` whether the
        new instance exposes the worker interface. On failure features and
        worker are cleared; on success the worker is kept only with the
        interface, and the timer starts. */
    method Instantiate(rate: real, result: Option<nat>, workerInterface: bool) returns (ok: bool)
      requires Valid() && world.Valid()
      requires workerInterface ==> WorkerInterfaceUri in plugin.extensionData
      modifies this`instance, this`active, this`worker, this`features, this`currentSampleRate,
               this`timerRunning, this`trace, world`threads, world`currentThread
      ensures Valid() && world.Valid()
      ensures ok <==> result.Some?
      ensures instance == result && !active && currentSampleRate == rate && timerRunning == ok
      ensures trace == old(trace) + FreeCalls(old(instance).Some?, old(active)) + [LilvInstantiate(rate, Offered(old(world.currentThread)))]
      ensures worker == (if ok && workerInterface then Some(old(world.currentThread)) else None)
      ensures features == (if ok then InstanceFeatures(world.FeatureList(), worker) else [])
      ensures world.currentThread ==
        (if WorkerInterfaceUri in plugin.extensionData then NextThread(old(world.currentThread), world.numThreads)
         else old(world.currentThread))
    {
      FreeInstance();
      ok := CreateInstance(rate, result, workerInterface);
    }

    /** setSampleRate (rate): nothing happens when the rate is the current
        one or there is no instance; otherwise the instance is recreated at
        the new rate and activated again when it was active. */
    method SetSampleRate(rate: real, result: Option<nat>, workerInterface: bool)
      requires Valid() && world.Valid()
      requires workerInterface ==> WorkerInterfaceUri in plugin.extensionData
      modifies this`instance, this`active, this`worker, this`features, this`currentSampleRate,
               this`timerRunning, this`trace, world`threads, world`currentThread
      ensures Valid() && world.Valid()
      ensures rate == old(currentSampleRate) || old(instance).None? ==>
        instance == old(instance) && active == old(active) && worker == old(worker)
        && features == old(features) && currentSampleRate == old(currentSampleRate)
        && timerRunning == old(timerRunning) && trace == old(trace)
        && world.currentThread == old(world.currentThread) && world.threads == old(world.threads)
      ensures rate != old(currentSampleRate) && old(instance).Some? ==>
        currentSampleRate == rate && instance == result && timerRunning == result.Some?
        && active == (old(active) && result.Some?)
        && trace == old(trace) + FreeCalls(true, old(active)) + [LilvInstantiate(rate, Offered(old(world.currentThread)))]
                    + (if old(active) && result.Some? then [LilvActivate] else [])
    {
      if rate == currentSampleRate {
        return;
      }
      if instance.Some? {
        Reinstantiate(rate, result, workerInterface);
      }
    }

    /** What setSampleRate (rate) does for a new rate with an instance: free
        it, instantiate at the new rate, and activate the new instance when
        the old one was active. */
    method Reinstantiate(rate: real, result: Option<nat>, workerInterface: bool)
      requires Valid() && world.Valid() && instance.Some?
      requires workerInterface ==> WorkerInterfaceUri in plugin.extensionData
      modifies this`instance, this`active, this`worker, this`features, this`currentSampleRate,
               this`timerRunning, this`trace, world`threads, world`currentThread
      ensures Valid() && world.Valid()
      ensures currentSampleRate == rate && instance == result && timerRunning == result.Some?
      ensures active == (old(active) && result.Some?)
      ensures trace == old(trace) + FreeCalls(true, old(active)) + [LilvInstantiate(rate, Offered(old(world.currentThread)))]
                       + (if old(active) && result.Some? then [LilvActivate] else [])
    {
      var wasActive := IsActive();
      FreeInstance();
      ghost var freed := trace;
      var _ := Instantiate(rate, result, workerInterface);
      assert trace == freed + [LilvInstantiate(rate, Offered(old(world.currentThread)))];
      if wasActive {
        Activate();
      }
      assert Buffers();
    }

    /** getPortRange (port, min, max, def): the plugin's range of a port; the
        outputs keep what they held for an index past the last port. */
    function GetPortRange(port: uint32, min: FloatBits, max: FloatBits, def: FloatBits): (r: (FloatBits, FloatBits, FloatBits))
      requires Tables()
      ensures port >= numPorts ==> r == (min, max, def)
      ensures port < numPorts ==> r == (plugin.ports[port].min, plugin.ports[port].max, plugin.ports[port].default)
    {
      if port >= numPorts then (min, max, def) else (mins[port], maxes[port], defaults[port])
    }

    /** getPortIndex (symbol): the index of the first port with the symbol,
        or LV2UI_INVALID_PORT_INDEX. */
    method GetPortIndex(symbol: string) returns (index: uint32)
      requires Tables()
      ensures FindPort(ports, symbol, false).None? ==> index == InvalidPortIndex
      ensures FindPort(ports, symbol, false).Some? ==> index == FindPort(ports, symbol, false).value
    {
      var i := 0;
      while i < |ports|
        invariant 0 <= i <= |ports|
        invariant FindPort(ports, symbol, false) == FindPortFrom(ports, symbol, false, i)
      {
        if ports[i].symbol == symbol {
          return ports[i].index;
        }
        i := i + 1;
      }
      return InvalidPortIndex;
    }

    /** Private::getPortValue (symbol): the buffer of the first control port
        with the symbol (here its index), 4 bytes of float type; none, size
        0 and type 0 when there is no such port. */
    method GetPortValue(symbol: string) returns (port: Option<nat>, size: uint32, valueType: uint32)
      requires Tables()
      ensures port == FindPort(ports, symbol, true)
      ensures port.Some? ==> size == 4 && valueType == floatUrid
      ensures port.None? ==> size == 0 && valueType == 0
    {
      var i := 0;
      while i < |ports|
        invariant 0 <= i <= |ports|
        invariant FindPort(ports, symbol, true) == FindPortFrom(ports, symbol, true, i)
      {
        if ports[i].symbol == symbol && ports[i].kind == Control {
          return Some(ports[i].index as nat), 4, floatUrid;
        }
        i := i + 1;
      }
      return None, 0, 0;
    }

    /** Private::setPortValue (symbol, value, size, type): a value of float
        type is stored in the first control port with the symbol; any other
        type, or no such port, changes nothing. */
    method SetPortValue(symbol: string, value: seq<byte>, size: uint32, valueType: uint32)
      requires Valid() && Tables() && 4 <= |value|
      modifies this`values
      ensures Valid()
      ensures var p := FindPort(ports, symbol, true);
        values == if valueType == floatUrid && p.Some? then old(values)[p.value := value[..4]] else old(values)
    {
      if valueType != floatUrid {
        return;
      }
      var i := 0;
      while i < |ports|
        invariant 0 <= i <= |ports|
        invariant FindPort(ports, symbol, true) == FindPortFrom(ports, symbol, true, i)
      {
        if ports[i].symbol == symbol && ports[i].kind == Control {
          values := values[ports[i].index := value[..4]];
          return;
        }
        i := i + 1;
      }
    }

    /** The body of sendControlValues ()'s loop: a control port's index,
        size 4, protocol 0 and value go to the UI and to onPortNotify. The
        ghost parameters are the traces before the loop and the messages
        sent so far, so that each call extends what the loop has sent. */
    method SendControlValue(port: PortDescription, ghost n0: seq<Message>, ghost c0: seq<SuilCall>, ghost sent: seq<Message>)
      requires port.index < |values|
      requires notified == n0 + (if portNotify then sent else [])
      requires ui != null ==> ui.suilCalls == c0 + (if ui.Loaded() then PortEventCalls(sent) else [])
      modifies this`notified, (if ui == null then {} else {ui})`suilCalls
      ensures var next := if port.kind == Control then [Message(port.index, 0, values[port.index])] else [];
        notified == n0 + (if portNotify then sent + next else [])
        && (ui != null ==> ui.suilCalls == c0 + (if ui.Loaded() then PortEventCalls(sent + next) else []))
    {
      ghost var next := if port.kind == Control then [Message(port.index, 0, values[port.index])] else [];
      PortEventCallsAppend(sent, next);
      if port.kind != Control {
        return;
      }
      if ui != null {
        ui.PortEvent(port.index, 4, 0, values[port.index]);
      }
      if portNotify {
        notified := notified + [Message(port.index, 0, values[port.index])];
      }
    }

    /** Private::sendControlValues (): with a UI or onPortNotify, report
        every control port's value, in port order, to both. Each port's
        index must name a buffer (the source looks it up unchecked), which
        the port table of init() guarantees (PortIndicesInRange). */
    method SendControlValues()
      requires forall k :: 0 <= k < |ports| ==> ports[k].index < |values|
      modifies this`notified, (if ui == null then {} else {ui})`suilCalls
      ensures notified == old(notified) + (if portNotify then ControlMessages(ports, values) else [])
      ensures ui != null ==> ui.suilCalls == old(ui.suilCalls) + (if ui.Loaded() then PortEventCalls(ControlMessages(ports, values)) else [])
    {
      if ui == null && !portNotify {
        return;
      }
      ghost var sent: seq<Message> := [];
      var u := ui;
      var i := 0;
      while i < |ports|
        invariant 0 <= i <= |ports| && ui == u
        invariant sent == ControlMessages(ports[..i], values)
        invariant notified == old(notified) + (if portNotify then sent else [])
        invariant u != null ==> u.suilCalls == old(u.suilCalls) + (if u.Loaded() then PortEventCalls(sent) else [])
        modifies this`notified, (if u == null then {} else {u})`suilCalls
      {
        ghost var next := if ports[i].kind == Control then [Message(ports[i].index, 0, values[ports[i].index])] else [];
        assert ports[..i + 1][..i] == ports[..i];
        SendControlValue(ports[i], old(notified), if u != null then old(u.suilCalls) else [], sent);
        sent := sent + next;
        i := i + 1;
      }
      assert ports[..i] == ports;
    }

    /** clearEditor (): forget the editor first, then unload it, so that
        the editor's unload, which calls back here, finds none. */
    method ClearEditor()
      requires ui != null ==> ui.owner == this
      modifies this`ui, ui
      ensures ui == null
      ensures old(ui) != null ==> (!old(ui).Loaded()
        && old(ui).suilCalls == old(ui.suilCalls) + (if old(ui.Loaded()) then [SuilFree] else []))
      decreases if ui != null then 2 else 0
    {
      if ui != null {
        var u := ui;
        ui := null;
        u.Unload();
      }
    }

    /** Private::instantiateUI: a new, unloaded editor for this module
        becomes the module's editor (createEditor calls it only when there
        is none). */
    method InstantiateUI() returns (u: ModuleUI)
      requires ui == null
      modifies this`ui
      ensures fresh(u) && ui == u && u.owner == this && !u.Loaded() && u.suilCalls == []
    {
      u := new ModuleUI(this);
      ui := u;
    }
  }

  class ModuleUI {
    const owner: Module
    /** The suil instance, by identity. */
    var instance: Option<nat>
    /** parent.data, when set. */
    var parent: Option<nat>
    var idleIface: Option<nat>
    ghost var suilCalls: seq<SuilCall>

    constructor (m: Module)
      ensures owner == m && instance.None? && parent.None? && idleIface.None? && suilCalls == []
    {
      owner := m;
      instance := None;
      parent := None;
      idleIface := None;
      suilCalls := [];
    }

    /** loaded (). */
    predicate Loaded()
      reads this`instance
    {
      instance.Some?
    }

    /** unload (): clear the module's editor, then free the suil instance
        when there is one. */
    method Unload()
      requires owner.ui != null ==> owner.ui.owner == owner
      modifies this, owner`ui, owner.ui
      ensures !Loaded() && owner.ui == null
      ensures suilCalls == old(suilCalls) + (if old(Loaded()) then [SuilFree] else [])
      ensures old(owner.ui) != null && old(owner.ui) != this ==> (!old(owner.ui).Loaded()
        && old(owner.ui).suilCalls == old(owner.ui.suilCalls) + (if old(owner.ui.Loaded()) then [SuilFree] else []))
      decreases if owner.ui != null then 3 else 1
    {
      owner.ClearEditor();
      if instance.Some? {
        suilCalls := suilCalls + [SuilFree];
        instance := None;
      }
    }

    /** instantiate (): when not loaded, create the suil instance (`result`
        is what suil_instance_new returns) with the host features, the
        parent feature when a parent is set, and the terminator. */
    method Instantiate(result: Option<nat>)
      modifies this`instance, this`suilCalls
      ensures old(Loaded()) ==> instance == old(instance) && suilCalls == old(suilCalls)
      ensures !old(Loaded()) ==> (instance == result
        && suilCalls == old(suilCalls) + [SuilNew(UiFeatures(owner.world.FeatureList(), parent))])
    {
      if Loaded() {
        return;
      }
      var list := owner.world.FeatureList();
      if parent.Some? {
        list := list + [Some(Feature(UiParentUri, parent.value))];
      }
      list := list + [None];
      assert list == UiFeatures(owner.world.FeatureList(), parent);
      suilCalls := suilCalls + [SuilNew(list)];
      instance := result;
    }

    /** portEvent (port, size, format, buffer): passed to suil only when
        loaded. */
    method PortEvent(port: uint32, size: uint32, format: uint32, buffer: seq<byte>)
      modifies this`suilCalls
      ensures suilCalls == old(suilCalls) + (if Loaded() then [SuilPortEvent(port, size, format, buffer)] else [])
    {
      if instance.None? {
        return;
      }
      suilCalls := suilCalls + [SuilPortEvent(port, size, format, buffer)];
    }

    /** haveIdleInterface (): both the idle interface and the instance are
        there. The source declares it void although it returns this test.
        A UI without an instance never counts as having one. */
    predicate HaveIdleInterface()
      reads this`idleIface, this`instance
      ensures HaveIdleInterface() ==> Loaded()
    {
      idleIface.Some? && instance.Some?
    }

    /** idle (): call the plugin UI's idle only when it has the interface and
        is loaded. */
    method Idle()
      modifies this`suilCalls
      ensures suilCalls == old(suilCalls) + (if idleIface.Some? && instance.Some? then [SuilIdle] else [])
    {
      if !HaveIdleInterface() {
        return;
      }
      suilCalls := suilCalls + [SuilIdle];
    }

    /** setParent (ptr). */
    method SetParent(ptr: Option<nat>)
      modifies this`parent
      ensures parent == ptr
    {
      parent := ptr;
    }

    /** portWrite: the suil controller's write goes unchanged to the
        module's write (). */
    method PortWrite(port: uint32, size: uint32, protocol: uint32, buffer: seq<byte>)
      requires owner.Valid() && size <= |buffer|
      requires size <= owner.evbuf.Length && size <= owner.ntbuf.Length
      requires protocol == 0 ==> port < owner.numPorts
      modifies owner`pending, owner.events, owner.events.block
      ensures owner.Valid()
      ensures var m := Message(port, protocol, buffer[..size]);
        owner.pending == if 0 < size && old(owner.events.CanWrite(HeaderSize + size))
          then old(owner.pending) + [m] else old(owner.pending)
    {
      owner.Write(port, size, protocol, buffer);
    }

    /** portIndex: the module's getPortIndex (). */
    method PortIndex(symbol: string) returns (index: uint32)
      requires owner.Tables()
      ensures FindPort(owner.ports, symbol, false).None? ==> index == InvalidPortIndex
      ensures FindPort(owner.ports, symbol, false).Some? ==> index == FindPort(owner.ports, symbol, false).value
    {
      index := owner.GetPortIndex(symbol);
    }
  }

  /** A zeroed scratch buffer of the requested size, and of at least
      MinScratch bytes. */
  method NewScratch(size: uint32) returns (a: array<byte>)
    ensures fresh(a) && a.Length == (if size < MinScratch then MinScratch else size)
    ensures a[..] == Zeros(a.Length)
  {
    a := new byte[if size < MinScratch then MinScratch else size](_ => 0);
    assert a[..] == Zeros(a.Length);
  }

  /** canWrite (sizeof (PortEvent) + size), then write (ev) and write
      (data, size): a message's frame is queued whole when header and
      payload fit, and the ring is left as it was otherwise. */
  method Enqueue(ring: RingBuffer, m: Message, ghost q: seq<Message>) returns (queued: bool)
    requires ring.Valid() && ring.Size() < U32 && 0 < |m.payload|
    requires AllWellFormed(q) && ring.Contents() == Stream(q)
    modifies ring, ring.block
    ensures ring.Valid()
    ensures queued <==> old(ring.CanWrite(HeaderSize + |m.payload|))
    ensures queued ==> AllWellFormed(q + [m]) && ring.Contents() == Stream(q + [m])
    ensures !queued ==> ring.Contents() == old(ring.Contents())
    ensures ring.WriteSpace() == old(ring.WriteSpace()) - (if queued then HeaderSize + |m.payload| else 0)
  {
    queued := ring.CanWrite(HeaderSize + |m.payload|);
    if queued {
      PushFrame(ring, m);
      StreamAppend(q, m);
    }
  }

  /** write (ev) and then write (data, size) once canWrite has passed:
      the ring gains the message's frame. */
  method PushFrame(ring: RingBuffer, m: Message)
    requires ring.Valid() && WellFormed(m) && ring.CanWrite(HeaderSize + |m.payload|)
    modifies ring, ring.block
    ensures ring.Valid() && ring.Contents() == old(ring.Contents()) + Frame(m)
  {
    ghost var c0 := ring.Contents();
    ring.WriteType(Header(m));
    ghost var c1 := ring.Contents();
    assert c1 == c0 + EncodeHeader(Header(m));
    var _ := ring.Write(m.payload);
    assert c1 + m.payload == c0 + Frame(m);
  }

  /** One turn of the for (;;) loops of run() and timerCallback(), as
      DrainStep specifies it on the bytes the ring holds: stop without a
      whole header; otherwise peek at the header and, when its payload is
      non-empty and the ring can read header and payload, take both off
      the ring, copying the payload to the front of the scratch buffer. */
  method DrainTurn(ring: RingBuffer, scratch: array<byte>) returns (ev: PortEvent, got: bool, stop: bool)
    requires ring.Valid() && scratch != ring.block
    requires HeaderSize <= |ring.Contents()| ==> DecodeHeader(ring.Contents()).size <= scratch.Length
    modifies ring, scratch
    ensures ring.Valid()
    ensures var st := DrainStep(old(ring.Contents()));
      (stop <==> st.Stop?) && (got <==> st.Take?)
      && (got ==> ev == st.ev && ring.Contents() == st.rest && scratch[..] == CopyIn(old(scratch[..]), st.payload))
      && (!got ==> ring.Contents() == old(ring.Contents()) && scratch[..] == old(scratch[..]))
  {
    if !ring.CanRead(HeaderSize) {
      return PortEvent(0, 0, 0, 0), false, true;
    }
    ev := ring.PeekEvent();
    if ev.size > 0 && ring.CanRead((HeaderSize + ev.size) % U32) {
      TakeFrame(ring, scratch, ev);
      return ev, true, false;
    }
    return ev, false, false;
  }

  /** The taking branch of DrainTurn: skip the header, then read up to
      ev.size payload bytes to the front of the scratch buffer. */
  method TakeFrame(ring: RingBuffer, scratch: array<byte>, ev: PortEvent)
    requires ring.Valid() && scratch != ring.block && HeaderSize <= |ring.Contents()|
    requires ev == DecodeHeader(ring.Contents()) && ev.size <= scratch.Length
    modifies ring, scratch
    ensures ring.Valid()
    ensures var q := old(ring.Contents()); var got := Min(ev.size, |q| - HeaderSize);
      ring.Contents() == q[HeaderSize + got..] && scratch[..] == CopyIn(old(scratch[..]), q[HeaderSize..HeaderSize + got])
  {
    ghost var before := scratch[..];
    ghost var q := ring.Contents();
    ring.Advance(HeaderSize);
    ghost var r := ring.Contents();
    var n := ring.Read(scratch, ev.size, true);
    CopiedFront(before, r, scratch[..], n);
    assert r[..n] == q[HeaderSize..HeaderSize + n] && r[n..] == q[HeaderSize + n..];
  }

  /** A buffer whose first n bytes were read from r and whose rest is as
      it was holds r[..n] copied in. */
  lemma CopiedFront(before: seq<byte>, r: seq<byte>, after: seq<byte>, n: nat)
    requires n <= |r| && n <= |before| == |after|
    requires after[..n] == r[..n] && after[n..] == before[n..]
    ensures after == CopyIn(before, r[..n])
  {
    assert after == after[..n] + after[n..];
  }

  /** DrainTurn on a ring that holds the frames of ms: it stops exactly
      when ms is empty, and otherwise takes the oldest message whole. */
  method TakeMessage(ring: RingBuffer, scratch: array<byte>, ghost ms: seq<Message>) returns (ev: PortEvent, got: bool)
    requires ring.Valid() && scratch != ring.block
    requires AllWellFormed(ms) && ring.Contents() == Stream(ms)
    requires forall i :: 0 <= i < |ms| ==> |ms[i].payload| <= scratch.Length
    modifies ring, scratch
    ensures ring.Valid() && (got <==> ms != [])
    ensures got ==> (AllWellFormed(ms[1..]) && ev == Header(ms[0]) && ring.Contents() == Stream(ms[1..])
      && scratch[..] == CopyIn(old(scratch[..]), ms[0].payload))
    ensures !got ==> ring.Contents() == old(ring.Contents()) && scratch[..] == old(scratch[..])
  {
    DrainStepOnStream(ms);
    if ms != [] {
      StreamFront(ms);
    }
    var stop;
    ev, got, stop := DrainTurn(ring, scratch);
    if !got && !stop {
      assert false;
    }
  }

  /** The body of timerCallback ()'s loop once a message is in ntbuf: a
      protocol-0 message goes to the UI and to onPortNotify. */
  method Deliver(mod: Module, u: ModuleUI?, m: Message)
    requires WellFormed(m)
    modifies mod`notified, (if u == null then {} else {u})`suilCalls
    ensures mod.notified == old(mod.notified) + (if mod.portNotify && m.protocol == 0 then [m] else [])
    ensures u != null ==> (u.suilCalls == old(u.suilCalls)
      + (if u.Loaded() then PortEventCalls(if m.protocol == 0 then [m] else []) else []))
  {
    if m.protocol == 0 {
      if u != null {
        u.PortEvent(m.index, |m.payload|, m.protocol, m.payload);
      }
      if mod.portNotify {
        mod.notified := mod.notified + [m];
      }
    }
  }

  /** What timerCallback ()'s loop keeps about the ring after taking
      all[..k]: it holds the rest, and the scratch buffer shows the first
      k payloads copied in turn. */
  ghost predicate Drained(ring: RingBuffer, scratch: array<byte>, all: seq<Message>, k: nat, scratch0: seq<byte>)
    requires forall i :: 0 <= i < |all| ==> |all[i].payload| <= |scratch0|
    reads ring, ring.block, scratch
  {
    ring.Valid() && k <= |all| && AllWellFormed(all[k..]) && ring.Contents() == Stream(all[k..])
    && scratch[..] == ScratchAfter(scratch0, all[..k])
  }

  /** What it keeps about the listeners after delivering all[..k]: both
      traces show the protocol-0 messages among them. */
  ghost predicate Delivered(mod: Module, u: ModuleUI?, all: seq<Message>, k: nat, notified0: seq<Message>, calls0: seq<SuilCall>)
    requires k <= |all|
    reads mod`notified, mod`portNotify, u
  {
    mod.notified == notified0 + (if mod.portNotify then ProtocolZero(all[..k]) else [])
    && (u != null ==> u.suilCalls == calls0 + (if u.Loaded() then PortEventCalls(ProtocolZero(all[..k])) else []))
  }

  /** Delivering all[k] extends what was delivered by one message. */
  method DeliverNext(mod: Module, u: ModuleUI?, m: Message, ghost all: seq<Message>, ghost k: nat,
                     ghost notified0: seq<Message>, ghost calls0: seq<SuilCall>)
    requires k < |all| && m == all[k] && WellFormed(m)
    requires Delivered(mod, u, all, k, notified0, calls0)
    modifies mod`notified, (if u == null then {} else {u})`suilCalls
    ensures Delivered(mod, u, all, k + 1, notified0, calls0)
  {
    ghost var sent := ProtocolZero(all[..k]);
    ghost var next := if m.protocol == 0 then [m] else [];
    assert all[..k + 1][..k] == all[..k];
    assert ProtocolZero(all[..k + 1]) == sent + next;
    PortEventCallsAppend(sent, next);
    Deliver(mod, u, m);
  }

  /** One turn of timerCallback ()'s loop: stop when the ring is empty,
      otherwise take the next message and deliver it. */
  method ForwardOne(mod: Module, ring: RingBuffer, scratch: array<byte>, u: ModuleUI?, ghost all: seq<Message>, ghost k: nat,
                    ghost scratch0: seq<byte>, ghost notified0: seq<Message>, ghost calls0: seq<SuilCall>)
    returns (got: bool)
    requires scratch != ring.block && |scratch0| == scratch.Length
    requires forall i :: 0 <= i < |all| ==> |all[i].payload| <= |scratch0|
    requires Drained(ring, scratch, all, k, scratch0) && Delivered(mod, u, all, k, notified0, calls0)
    modifies ring, scratch, mod`notified, (if u == null then {} else {u})`suilCalls
    ensures got <==> k < |all|
    ensures var j := if got then k + 1 else k;
      Drained(ring, scratch, all, j, scratch0) && Delivered(mod, u, all, j, notified0, calls0)
  {
    ghost var rest := all[k..];
    var ev;
    ev, got := TakeMessage(ring, scratch, rest);
    if !got {
      return;
    }
    var m := Message(ev.index, ev.protocol, scratch[..ev.size]);
    assert m == all[k] == rest[0];
    assert all[k + 1..] == rest[1..];
    assert all[..k + 1][..k] == all[..k];
    assert Drained(ring, scratch, all, k + 1, scratch0);
    DeliverNext(mod, u, m, all, k, notified0, calls0);
  }

  /** timerCallback ()'s for (;;) loop: take each message queued on the
      ring into the scratch buffer and deliver it, until the ring is
      empty. */
  method ForwardNotifications(mod: Module, ring: RingBuffer, scratch: array<byte>, u: ModuleUI?, ghost all: seq<Message>)
    requires ring.Valid() && scratch != ring.block
    requires AllWellFormed(all) && ring.Contents() == Stream(all)
    requires forall i :: 0 <= i < |all| ==> |all[i].payload| <= scratch.Length
    modifies ring, scratch, mod`notified, (if u == null then {} else {u})`suilCalls
    ensures ring.Valid() && ring.Contents() == []
    ensures scratch[..] == ScratchAfter(old(scratch[..]), all)
    ensures mod.notified == old(mod.notified) + (if mod.portNotify then ProtocolZero(all) else [])
    ensures u != null ==> u.suilCalls == old(u.suilCalls) + (if u.Loaded() then PortEventCalls(ProtocolZero(all)) else [])
  {
    ghost var scratch0 := scratch[..];
    ghost var notified0 := mod.notified;
    ghost var calls0 := if u == null then [] else u.suilCalls;
    ghost var k := 0;
    assert all[0..] == all;
    while true
      invariant 0 <= k <= |all|
      invariant Drained(ring, scratch, all, k, scratch0) && Delivered(mod, u, all, k, notified0, calls0)
      decreases |all| - k
    {
      var got := ForwardOne(mod, ring, scratch, u, all, k, scratch0, notified0, calls0);
      if !got {
        assert all[..k] == all && all[k..] == [];
        return;
      }
      k := k + 1;
    }
  }

  /** World::createModule (uri): a module for the plugin with that URI, or
      null when there is none. */
  method CreateModule(world: World, uri: string, evbufsize: uint32, ntbufsize: uint32, floatUrid: uint32)
    returns (m: Module?)
    requires forall i :: 0 <= i < |world.plugins| ==> |world.plugins[i].ports| < U32
    ensures m == null <==> FindPlugin(world.plugins, uri).None?
    ensures m != null ==> (fresh(m) && m.Valid() && m.Tables() && m.world == world
      && m.plugin == FindPlugin(world.plugins, uri).value && m.instance.None?)
  {
    var p := FindPlugin(world.plugins, uri);
    if p.None? {
      return null;
    }
    m := new Module(world, p.value, evbufsize, ntbufsize, floatUrid);
  }
}
