# A verified model of the jlv2 / lvtk LV2 plugin host core

This project models, in Dafny, the parts of the lvtk / jlv2 LV2 host that
carry state and an algorithm:

- `lvtk_RingBuffer.h`, the lock-free byte FIFO (`ring_buffer.dfy`). It is an
  array with a read position and a fill count. `write` and `read` copy in
  two pieces across the wrap point, and `read (…, false)` is a peek.
- the control-message path of `Module` (`host.dfy`, `messages.dfy`,
  `port_event.dfy`):
  - `write()` frames a `PortEvent` header and its payload into the
    `events` ring.
  - `run()` drains that ring message by message. A protocol-0 value is
    stored only when it changes, and a changed value is echoed into the
    `notifications` ring.
  - `run()` then connects the ports and steps the worker and the
    instance, in a fixed order.
  - `timerCallback()` drains `notifications` and forwards the protocol-0
    messages to the UI and to `onPortNotify`.
- the lifecycle of `Module` (`activate`, `deactivate`, `isActive`,
  `freeInstance`, `instantiate`, `setSampleRate`). It is a
  state machine over `instance`, `active`, `worker` and the sample rate.
  Every call into lilv and the worker is recorded in a ghost trace.
- `Module::init()`'s port table and buffer sizing, and the symbol lookups
  `getPortIndex`, `getPortValue` and `setPortValue`.
- `sendControlValues`, and the `ModuleUI` editor with its suil calls
  (also a ghost trace).
- `lvtk_PortType.h` (`port_type.dfy`): port types, their URIs and the
  `canConnect` rule.
- `lvtk_AtomBuffer.cpp/.h` (`atom_buffer.dfy`): an `atom:Sequence` buffer
  whose header, sequence body and events are laid out byte by byte.
- `lvtk_LV2Features.h` (`features.dfy`): the feature array, which holds
  each URI once and builds a null-terminated array.
- `World.cpp` and `lvtk_LV2World.cpp` (`world.dfy`, `lv2_world.dfy`): the
  tests of whether a plugin can be hosted, and the round-robin of worker
  threads.

lilv, suil and JUCE are foreign code, so they become data or parameters:

- a plugin is a `PluginDesc` value (its ports, required features and
  extension data);
- what `lilv_plugin_instantiate` and `suil_instance_new` return is a
  parameter;
- every call into an instance is appended to a ghost trace.

Integers are unbounded. The `uint32` arithmetic of the source (the
`canRead (pesize + ev.size)` sum, `lv2_atom_pad_size`) is written out
with explicit `% 2^32` where it matters.

## Model

| member | source | states |
|---|---|---|
| PortEvents.HeaderRoundTrip | modules/lvtk_core/source/lvtk_PortWriter.h:25-34 | the bytes a PortEvent header is copied into read back as that header (index, protocol, time, size), whatever bytes follow it |
| RingBuffers.ViewAfterWrite | modules/lvtk_core/source/lvtk_RingBuffer.h:43-51 | copying src in two pieces appends src to the queued bytes in order, even across the wrap. The first piece runs from the write position to the end of the block, the second from slot 0 |
| RingBuffers.CopyAt | modules/lvtk_core/source/lvtk_RingBuffer.h:45-49 | memcpy: dest[at + j] is src[j], and every other slot keeps its old value |
| RingBuffers.RingBuffer.constructor | modules/lvtk_core/source/lvtk_RingBuffer.h:25 | a new ring of the given capacity is empty |
| RingBuffers.RingBuffer.ReadSpace | modules/lvtk_core/source/lvtk_RingBuffer.h:31 | readSpace is the number of queued bytes |
| RingBuffers.RingBuffer.WriteSpace | modules/lvtk_core/source/lvtk_RingBuffer.h:34-36 | readSpace + writeSpace + 1 == size: one slot is always kept free, as AbstractFifo's getFreeSpace does |
| RingBuffers.RingBuffer.CanRead | modules/lvtk_core/source/lvtk_RingBuffer.h:30 | canRead (n) holds iff 0 < n <= readSpace, so canRead (0) is false |
| RingBuffers.RingBuffer.CanWrite | modules/lvtk_core/source/lvtk_RingBuffer.h:33 | canWrite (n) holds iff 0 < n and readSpace + n < size, i.e. 0 < n <= writeSpace, so canWrite (0) is false |
| RingBuffers.RingBuffer.Write | modules/lvtk_core/source/lvtk_RingBuffer.h:38-54 | returns min(n, writeSpace), which may be short because write does not check canWrite. Exactly that prefix of src is appended after the bytes already queued, and the read position does not move |
| RingBuffers.RingBuffer.Read | modules/lvtk_core/source/lvtk_RingBuffer.h:67-84 | returns min(n, readSpace). The front of dest gets the oldest bytes and the rest of dest is untouched. The bytes are consumed iff advance; with advance false it is a peek that leaves the contents as they were |
| RingBuffers.RingBuffer.Advance | modules/jlv2_host/host/Module.cpp:794 | advance (n) drops exactly the n oldest bytes |
| RingBuffers.RingBuffer.WriteType | modules/lvtk_core/source/lvtk_RingBuffer.h:61-65 | appends the header's bytes, as many as fit; no count is returned |
| RingBuffers.RingBuffer.PeekEvent | modules/jlv2_host/host/Module.cpp:791 | read (ev, false) returns the header decoded from the front bytes and changes nothing |
| Messages.StreamAppend | modules/jlv2_host/host/Module.cpp:843-847 | queuing one whole frame turns the ring's bytes from Stream(ms) into Stream(ms + [m]) |
| Messages.StreamLength | modules/jlv2_host/host/Module.cpp:789-790 | a ring of whole frames is empty iff nothing is queued; otherwise it holds more than a header |
| Messages.FrameFront | modules/jlv2_host/host/Module.cpp:791 | the header peeked at the front of a frame is that message's header, and the payload follows it |
| Messages.StreamFront | modules/jlv2_host/host/Module.cpp:791-795 | the same, for the oldest message of a queue |
| Messages.DrainStepOnFrame | modules/jlv2_host/host/Module.cpp:789-795 | a loop turn on a well-formed frame takes the whole frame: its header and its payload, and nothing behind them |
| Messages.DrainStepOnStream | modules/jlv2_host/host/Module.cpp:787-811 | on a ring of whole frames, each turn takes exactly the oldest message and the empty ring stops the loop, so messages come out once each, in FIFO order |
| Messages.ZeroSizeWriteStallsDrain | modules/jlv2_host/host/Module.cpp:843 | a size-0 write passes the source's guard, and the header it queues makes a drain turn consume nothing (see Findings) |
| Messages.CopyIn | modules/jlv2_host/host/Module.cpp:795 | reading a payload into the scratch buffer puts it at the front and leaves the bytes behind it unchanged |
| Messages.Apply | modules/jlv2_host/host/Module.cpp:795-809 | one message keeps the number of ports and the scratch size |
| Messages.ApplyAll | modules/jlv2_host/host/Module.cpp:787-811 | the same for every queued message |
| Messages.UnnamedPortKeepsValue | modules/jlv2_host/host/Module.cpp:797-802 | a port that no protocol-0 message names keeps its value through a drain |
| Messages.OtherProtocolsIgnored | modules/jlv2_host/host/Module.cpp:797 | messages whose protocol is not 0 are consumed but change no value and queue no notification |
| Messages.LastWriteWins | modules/jlv2_host/host/Module.cpp:799-802 | after a drain, a port holds the float of the last protocol-0 message naming it |
| Messages.DrainStep | modules/jlv2_host/host/Module.cpp:789-811 | a turn stops exactly when fewer bytes than a header are queued. A turn that takes a message consumes the header it read and at most the announced size of payload (all of it when it is queued), and leaves the rest of the queue. The size test uses the uint32 sum pesize + ev.size |
| Messages.EchoRule | modules/jlv2_host/host/Module.cpp:797-807 | one protocol-0 message: the port's value is replaced iff the payload's float differs from it, and the message is echoed to `notifications`, using up header and payload of free space, iff the value changed and the echo fits |
| Messages.RepeatsNotEchoed | modules/jlv2_host/host/Module.cpp:787-811 | draining messages that only repeat their ports' current values changes no value and echoes nothing |
| Messages.NotificationsAreEchoes | modules/jlv2_host/host/Module.cpp:800-807 | a drain only appends to `notifications`. Each echo is a drained protocol-0 message, and the bytes appended equal the free space used up |
| Messages.ProtocolZeroMembers | modules/jlv2_host/host/Module.cpp:759 | a message is forwarded iff it was queued with protocol 0 |
| Messages.ProtocolZeroAppend | modules/jlv2_host/host/Module.cpp:748-767 | forwarding two runs of messages forwards the first run, then the second |
| Messages.ScratchTailUntouched | modules/jlv2_host/host/Module.cpp:757 | bytes of the scratch buffer past the longest payload keep their values |
| PortTypes.Name | modules/lvtk_core/source/lvtk_PortType.h:110-121 | typeName is the table entry for the id. It is defined only up to Atom, as the source asserts |
| PortTypes.FromUri | modules/lvtk_core/source/lvtk_PortType.h:33-44 | PortType (uri) never yields Midi, and yields Unknown iff the uri is none of the four port URIs |
| PortTypes.Uri | modules/lvtk_core/source/lvtk_PortType.h:96-107 | uri () (line 48) is the URI table's entry at the type's id. It is defined only up to Atom, as the source asserts |
| PortTypes.Less | modules/lvtk_core/source/lvtk_PortType.h:56 | a < b exactly when the types differ and b's id is not below a's, so of two distinct types exactly one is the lesser |
| PortTypes.UriRoundTrip | modules/lvtk_core/source/lvtk_PortType.h:96-107 | for Control, Audio, CV and Atom, PortType (t.uri ()) is t |
| PortTypes.LessIsStrictTotal | modules/lvtk_core/source/lvtk_PortType.h:52-56 | == and < compare only the id; < is a strict total order |
| PortTypes.CanConnect | modules/lvtk_core/source/lvtk_PortType.h:66-81 | canConnect holds iff the types are equal and known, or Audio or Control feeds CV |
| PortTypes.CanConnectTo | modules/lvtk_core/source/lvtk_PortType.h:87-91 | whichever end `this` is, Unknown takes part in no connection, and a known type connects to itself |
| PortTypes.CanConnectFacts | modules/lvtk_core/source/lvtk_PortType.h:68-80 | Unknown connects to nothing, every known type connects to itself, and the rule is not symmetric |
| PortTypes.CanConnectToFacts | modules/lvtk_core/source/lvtk_PortType.h:87-91 | the member canConnect reads the static rule from the source end when isOutput is set, and from the other end otherwise |
| AtomBuffers.PadUp | modules/lvtk_core/source/lvtk_AtomBuffer.cpp:31 | the padded size is the least multiple of 8 at or above the size |
| AtomBuffers.PadSize32 | modules/lvtk_core/source/lvtk_AtomBuffer.cpp:19 | lv2_atom_pad_size in uint32 is a multiple of 8. It is PadUp when size + 7 fits in 32 bits, and 0 when it wraps |
| AtomBuffers.Put | modules/lvtk_core/source/lvtk_AtomBuffer.cpp:26-29 | a memcpy into the block puts the bytes at the offset and keeps the length |
| AtomBuffers.EventReadBack | modules/lvtk_core/source/lvtk_AtomBuffer.cpp:24-29 | an event written at an offset has its size and type fields, and its payload, where the sequence format puts them |
| AtomBuffers.AsWrittenGuardOverruns | modules/lvtk_core/source/lvtk_AtomBuffer.cpp:19 | the source's capacity test accepts events that end past the block (see Findings) |
| AtomBuffers.AppendedHeader | modules/lvtk_core/source/lvtk_AtomBuffer.cpp:31 | after the event and the new atom size are written, the header holds the new size and the old type |
| AtomBuffers.GrownSizeAligned | modules/lvtk_core/source/lvtk_AtomBuffer.cpp:31 | growing an 8-aligned atom by an event header and a padded payload keeps it 8-aligned |
| AtomBuffers.ClearedFacts | modules/lvtk_core/source/lvtk_AtomBuffer.cpp:42-49 | after clear (), the atom size is 8, the type is the buffer's type, and unit and pad are 0; clearing twice is clearing once |
| AtomBuffers.ClearedHeader | modules/lvtk_core/source/lvtk_AtomBuffer.cpp:45-46 | clear () stores size 8 and the buffer type |
| AtomBuffers.ClearedWord | modules/lvtk_core/source/lvtk_AtomBuffer.cpp:45-46 | each of those two header words reads back as the value stored |
| AtomBuffers.ClearedBody | modules/lvtk_core/source/lvtk_AtomBuffer.cpp:47-48 | clear () stores unit 0 and pad 0 |
| AtomBuffers.ClearedTwice | modules/lvtk_core/source/lvtk_AtomBuffer.cpp:42-49 | clear () is idempotent |
| AtomBuffers.AtomBuffer.constructor | modules/lvtk_core/source/lvtk_AtomBuffer.cpp:3-8 | for a block of any size: stores the type and capacity and zero-fills the block, so the atom size reads 0 whenever the block holds an atom header |
| AtomBuffers.AtomBuffer.GetCapacity | modules/lvtk_core/source/lvtk_AtomBuffer.h:16 | the capacity is the block's length; it is a constant, so no method changes it |
| AtomBuffers.AtomBuffer.GetType | modules/lvtk_core/source/lvtk_AtomBuffer.h:20 | getType () returns the stored type |
| AtomBuffers.AtomBuffer.IsAudio | modules/lvtk_core/source/lvtk_AtomBuffer.h:25 | isAudio () is constantly false |
| AtomBuffers.AtomBuffer.IsControl | modules/lvtk_core/source/lvtk_AtomBuffer.h:26 | isControl () is constantly false |
| AtomBuffers.AtomBuffer.IsSequence | modules/lvtk_core/source/lvtk_AtomBuffer.h:27 | isSequence () is constantly true |
| AtomBuffers.AtomBuffer.SetType | modules/lvtk_core/source/lvtk_AtomBuffer.h:20-21 | getType () returns t afterwards, and the block is untouched |
| AtomBuffers.AtomBuffer.Store | modules/lvtk_core/source/lvtk_AtomBuffer.cpp:29 | memcpy into the block |
| AtomBuffers.AtomBuffer.AddEvent | modules/lvtk_core/source/lvtk_AtomBuffer.cpp:16-33 | succeeds iff the event, header included, fits (the corrected test). It writes the event after the atom so far, grows the size by 16 + pad8 (size), keeps the size 8-aligned and inside the block, and keeps the type. On failure nothing changes |
| AtomBuffers.AtomBuffer.Clear | modules/lvtk_core/source/lvtk_AtomBuffer.cpp:35-50 | the audio/control branch is dead, because isAudio and isControl are constantly false (lvtk_AtomBuffer.h:25-27). A sequence is reset to an empty one of the buffer's type |
| Features.FeatureArray.constructor | modules/lvtk_plugins/features/lvtk_LV2Features.h:47 | a new array is empty and needs building |
| Features.FeatureArray.Contains | modules/lvtk_plugins/features/lvtk_LV2Features.h:64-70 | contains (u) is true iff some stored feature has URI u |
| Features.FeatureArray.BuildArray | modules/lvtk_plugins/features/lvtk_LV2Features.h:91-100 | the C array has size () + 1 entries, the features in insertion order and then null, and needsBuilt is cleared |
| Features.FeatureArray.Add | modules/lvtk_plugins/features/lvtk_LV2Features.h:52-61 | a null feature, or one whose URI is stored, changes nothing. A new feature is appended, so contains holds after and size grows by one exactly when the URI was new. URIs stay distinct. Without a rebuild the array and needsBuilt stay as they were |
| Features.FeatureArray.GetFeatures | modules/lvtk_plugins/features/lvtk_LV2Features.h:73-78 | returns the built array, and requires needsBuilt to be false, as the source asserts |
| Features.FeatureArray.Size | modules/lvtk_plugins/features/lvtk_LV2Features.h:80 | the number of stored features |
| Features.FeatureArray.End | modules/lvtk_plugins/features/lvtk_LV2Features.h:82 | on a current array, the entry after the last feature is null |
| Plugins.FindPlugin | modules/jlv2_host/host/World.cpp:215-222 | the plugin found has the URI, and none is found iff no plugin has it |
| Worlds.OptionsTable | modules/jlv2_host/host/World.cpp:35-57 | two instance options with different keys, the minimum block length at most the maximum, then the blank terminator and nothing after it |
| Worlds.NextThread | modules/jlv2_host/host/World.cpp:267-269 | the next thread index stays below numThreads |
| Worlds.AfterCalls | modules/jlv2_host/host/World.cpp:267-269 | after any number of calls the index is below numThreads |
| Worlds.CountsUp | modules/jlv2_host/host/World.cpp:268 | before the counter wraps, each call adds one |
| Worlds.CallsCompose | modules/jlv2_host/host/World.cpp:267-269 | a calls then b calls are a + b calls |
| Worlds.Wraps | modules/jlv2_host/host/World.cpp:267-269 | within numThreads calls the counter counts up from where it was and wraps to 0 once |
| Worlds.RoundRobin | modules/jlv2_host/host/World.cpp:260-272 | from any thread, the first numThreads calls hand out pairwise different threads, so each thread once, and bring the counter back to where it started |
| Worlds.AddNew | modules/jlv2_host/host/World.cpp:147-151 | adding a feature whose URI is new appends it, and a rebuild leaves the array current |
| Worlds.World.constructor | modules/jlv2_host/host/World.cpp:139-151 | currentThread 0, numThreads threads, and the five host features in order, the array current |
| Worlds.World.FeatureList | modules/jlv2_host/host/Module.cpp:345-346 | getFeatures lists every host feature, in order |
| Worlds.World.GetWorkThread | modules/jlv2_host/host/World.cpp:260-272 | tops the pool up to numThreads and returns the current index, which is in range. It advances the index, wrapping to 0, and keeps currentThread < numThreads |
| Worlds.World.IsFeatureSupported | modules/jlv2_host/host/World.cpp:274-285 | true iff the URI is a host feature, the worker schedule or loadDefaultState |
| Worlds.World.IsPluginSupported | modules/jlv2_host/host/World.cpp:299-322 | true iff every required feature is supported; the port loop checks nothing |
| Worlds.World.IsPluginSupportedUri | modules/jlv2_host/host/World.cpp:292-297 | false when no plugin has the URI, else the test above |
| LV2Worlds.LV2World.constructor | modules/lvtk_plugins/host/lvtk_LV2World.cpp:20-35 | an empty feature array over the given plugins |
| LV2Worlds.LV2World.AddFeature | modules/lvtk_plugins/host/lvtk_LV2World.h:66 | the feature array's add: a new URI is appended, a known one or null changes nothing |
| LV2Worlds.LV2World.IsFeatureSupported | modules/lvtk_plugins/host/lvtk_LV2World.cpp:83-93 | true iff the URI is in the features or is the worker schedule (no loadDefaultState case) |
| LV2Worlds.LV2World.IsPluginSupported | modules/lvtk_plugins/host/lvtk_LV2World.cpp:101-133 | true iff the plugin is available, every required feature is supported, and no port is CV, Atom or Event |
| LV2Worlds.LV2World.CreateModule | modules/lvtk_plugins/host/lvtk_LV2World.cpp:55-65 | a module exactly when isPluginSupported, for the plugin with that URI |
| Host.KindOf | modules/jlv2_host/host/Module.cpp:593-609 | getPortType answers Audio whenever the port is audio, never answers Midi, and answers Unknown iff the port is none of the five kinds it asks about |
| Host.BufferFor | modules/jlv2_host/host/Module.cpp:247-275 | an Atom or Event port gets 4096 bytes and every other port 4. Control, Audio and CV hold floats, and only Unknown gets data type 0 |
| Host.BuildPorts | modules/jlv2_host/host/Module.cpp:234-282 | one description and buffer per port, in index order. Control ports start at their default and the others at zero |
| Host.FindPortFrom | modules/jlv2_host/host/Module.cpp:124-130 | the port found is the first match from the start index, and none is found iff no port matches |
| Host.ControlMessagesExact | modules/jlv2_host/host/Module.cpp:99-118 | the reported messages are exactly the control ports, each with protocol 0 and its current value |
| Host.ConnectOrder | modules/jlv2_host/host/Module.cpp:813-814 | every port is connected once, in descending index order |
| Host.RunOrder | modules/jlv2_host/host/Module.cpp:813-822 | the instance runs once, after every port is connected. The worker's responses and end of run surround it exactly when there is a worker |
| Host.FeatureListsTerminated | modules/jlv2_host/host/Module.cpp:345-361 | the instance and UI feature lists end with, and contain only that one, null. They hold the worker or parent feature exactly when it is given |
| Host.Module.PortIndicesInRange | modules/jlv2_host/host/Module.cpp:234-244 | init () gives port p the index p, so every index names a buffer |
| Host.Module.constructor | modules/jlv2_host/host/Module.cpp:214-292 | two empty 4096-byte rings and zeroed scratch buffers of at least 256 bytes. It stores the ranges and the port table, starts control values at their default, and leaves no instance, inactive, at 44100 Hz |
| Host.Module.Write | modules/jlv2_host/host/Module.cpp:835-852 | a message is queued whole, header then payload, iff it is non-empty and header plus payload fit; otherwise the ring is unchanged. The queue stays well-formed |
| Host.Module.ConnectPort | modules/jlv2_host/host/Module.cpp:463-466 | records one connect call |
| Host.Module.ApplyEvent | modules/jlv2_host/host/Module.cpp:797-809 | one message's effect on the values, the scratch buffer and `notifications` is Apply's |
| Host.Module.DrainEvents | modules/jlv2_host/host/Module.cpp:787-811 | the loop ends with `events` empty, and the values, evbuf and `notifications` are what ApplyAll gives on the queued messages |
| Host.Module.DrainOne | modules/jlv2_host/host/Module.cpp:789-811 | stops exactly when nothing is queued, and otherwise applies the oldest message |
| Host.Module.RunInstance | modules/jlv2_host/host/Module.cpp:813-822 | appends RunCalls: the connections, then worker responses, run and end of run |
| Host.Module.Run | modules/jlv2_host/host/Module.cpp:781-823 | run (n) drains and then runs, including for 0 frames (Module.h:141-146) |
| Host.Module.TimerCallback | modules/jlv2_host/host/Module.cpp:742-768 | drains `notifications` through ntbuf; exactly the protocol-0 messages, in order, reach onPortNotify and the loaded UI |
| Host.Module.Activate | modules/jlv2_host/host/Module.cpp:387-395 | activates only an instance that is not active; a second call changes nothing |
| Host.Module.Deactivate | modules/jlv2_host/host/Module.cpp:405-412 | deactivates only an active instance; afterwards it is inactive |
| Host.Module.IsActive | modules/jlv2_host/host/Module.cpp:414-417 | isActive is instance && active |
| Host.Module.FreeInstance | modules/jlv2_host/host/Module.cpp:419-430 | the timer stops, and there is no instance, no worker and no activity afterwards. The calls are deactivate (when active), then free |
| Host.Module.OfferFeatures | modules/jlv2_host/host/Module.cpp:345-361 | the host features, then a worker schedule on the next work thread when the plugin declares the worker interface, then null |
| Host.Module.CreateInstance | modules/jlv2_host/host/Module.cpp:343-384 | records the rate and the offered features. On failure the features and worker are cleared; on success the worker stays only with the interface and the timer starts |
| Host.Module.Instantiate | modules/jlv2_host/host/Module.cpp:339-385 | frees the old instance first, then does the above; ok iff lilv returned an instance |
| Host.Module.SetSampleRate | modules/jlv2_host/host/Module.cpp:432-448 | no change when the rate is the current one or there is no instance. Otherwise it re-instantiates at the new rate and ends active iff it was active and re-instantiation succeeded |
| Host.Module.Reinstantiate | modules/jlv2_host/host/Module.cpp:437-447 | free, instantiate, and activate again when it was active |
| Host.Module.GetPortRange | modules/jlv2_host/host/Module.cpp:583-591 | the plugin's min, max and default for a port, with the outputs untouched for an index past the last |
| Host.Module.GetPortIndex | modules/jlv2_host/host/Module.cpp:669-675 | the index of the first port with the symbol, else LV2UI_INVALID_PORT_INDEX |
| Host.Module.GetPortValue | modules/jlv2_host/host/Module.cpp:120-146 | the first control port with the symbol, size 4 and the float URID; otherwise none, size 0 and type 0 |
| Host.Module.SetPortValue | modules/jlv2_host/host/Module.cpp:148-176 | a float-typed value is stored in the first control port with the symbol; anything else changes nothing |
| Host.Module.SendControlValue | modules/jlv2_host/host/Module.cpp:104-117 | a control port's value is appended to the messages sent so far, in onPortNotify's trace and in the loaded UI's; other ports add nothing |
| Host.Module.SendControlValues | modules/jlv2_host/host/Module.cpp:99-118 | every control port's value, in port order, reaches onPortNotify and the loaded UI |
| Host.Module.ClearEditor | modules/jlv2_host/host/Module.cpp:652-661 | the editor is forgotten before it is unloaded, so the callback recursion ends with the editor unloaded |
| Host.Module.InstantiateUI | modules/jlv2_host/host/Module.cpp:58-97 | a new, unloaded editor of this module becomes the module's editor |
| Host.ModuleUI.constructor | modules/jlv2_host/host/Module.h:317-326 | no suil instance, no parent and no idle interface |
| Host.ModuleUI.Unload | modules/jlv2_host/host/Module.h:233-242 | afterwards it is not loaded and the module's editor is cleared; the suil instance is freed once, if there was one |
| Host.ModuleUI.Instantiate | modules/jlv2_host/host/Module.h:276-297 | nothing when loaded. Otherwise it passes suil the host features, the parent feature only when a parent is set, and null |
| Host.ModuleUI.PortEvent | modules/jlv2_host/host/Module.h:253-258 | forwarded to suil only when loaded |
| Host.ModuleUI.Loaded | modules/jlv2_host/host/Module.h:231 | loaded () is true exactly when a suil instance exists |
| Host.ModuleUI.HaveIdleInterface | modules/jlv2_host/host/Module.h:299 | the idle interface is usable only when it and the instance are there, so never on an unloaded UI |
| Host.ModuleUI.Idle | modules/jlv2_host/host/Module.h:299-306 | the UI's idle runs only with both the idle interface and the instance |
| Host.ModuleUI.SetParent | modules/jlv2_host/host/Module.h:308-311 | stores the parent widget handle |
| Host.ModuleUI.PortWrite | modules/jlv2_host/host/Module.h:334-339 | has exactly the effect of the module's write for the same arguments |
| Host.ModuleUI.PortIndex | modules/jlv2_host/host/Module.h:341-345 | the module's getPortIndex |
| Host.NewScratch | modules/jlv2_host/host/Module.cpp:217-224 | a zeroed buffer of max(size, 256) bytes |
| Host.Enqueue | modules/jlv2_host/host/Module.cpp:843-847 | writes the frame iff canWrite (header + size) and leaves the ring unchanged otherwise; the free space drops by the frame's size |
| Host.PushFrame | modules/jlv2_host/host/Module.cpp:845-846 | write (ev) then write (data) append the frame |
| Host.DrainTurn | modules/jlv2_host/host/Module.cpp:789-795 | one loop turn on the ring does what DrainStep does on its bytes: stop, stall, or take header and payload |
| Host.TakeFrame | modules/jlv2_host/host/Module.cpp:794-795 | advance past the header, then read the payload to the front of the scratch buffer |
| Host.CopiedFront | modules/jlv2_host/host/Module.cpp:795 | a read into the front of a buffer is CopyIn |
| Host.TakeMessage | modules/jlv2_host/host/Module.cpp:789-795 | on a ring of whole frames, a turn stops iff nothing is queued and otherwise takes the oldest message whole |
| Host.Deliver | modules/jlv2_host/host/Module.cpp:759-765 | a protocol-0 message goes to the loaded UI and to onPortNotify; other protocols go nowhere |
| Host.DeliverNext | modules/jlv2_host/host/Module.cpp:759-765 | delivering the next message extends both traces by that message's share |
| Host.ForwardOne | modules/jlv2_host/host/Module.cpp:750-765 | one timerCallback turn: stops iff the ring is empty, else takes and delivers the next message |
| Host.ForwardNotifications | modules/jlv2_host/host/Module.cpp:748-767 | the loop empties the ring, copies each payload through the scratch buffer, and delivers exactly the protocol-0 messages in order |
| Host.CreateModule | modules/jlv2_host/host/World.cpp:184-189 | a new module for the plugin with that URI, or null iff there is none |

## Left out

- Host.Module.Write: the guard also refuses size 0, which the source's `canWrite (sizeof (PortEvent) + size)` lets through (see Findings). It requires the payload to fit the scratch buffers, because `evbufsize` and `ntbufsize` are never initialised before `init()` uses them; their sizes are constructor parameters here. It also requires a protocol-0 port to name a buffer, because `run()` indexes the buffers with it unchecked.
- AtomBuffers.AtomBuffer.AddEvent: uses the corrected capacity test, which counts the 16-byte event header (see Findings). It also requires the block to hold the 8-byte atom header, which the source reads without a check.
- AtomBuffers.AtomBuffer.Clear: requires the block to hold the 16 bytes of atom header and sequence body that it writes, which the source writes without a check.
- Host.Module.SendControlValues: requires every port index to name a buffer, where the source uses `getUnchecked`. `Host.Module.PortIndicesInRange` shows init () guarantees it.
- Host.Module.SetPortValue: requires the value to hold four bytes, where the source reads a float from the buffer it is given.
- Host.Module.GetPortValue: returns the port's index in place of the address of its buffer.
- Host.Module.TimerCallback: the UI's calls and onPortNotify's are kept in two traces, so how the two interleave is not modelled.
- `host/RingBuffer.h` of jlv2 (typed `read (ev, false)`, `write (ev)`, `advance`) is not part of this model. Those overloads are modelled as reads and writes of sizeof (T) bytes, and `advance (n)` as dropping n bytes.
- juce::AbstractFifo is not part of this model. The ring follows its rule of keeping one slot free, so readSpace + writeSpace + 1 == size.
- `PortEvent` is laid out as 24 little-endian bytes with the union 8-aligned. The proofs use the layout only through `HeaderRoundTrip`.
- Port values are the four bytes of a float and are compared as bit patterns. C's `!=` on floats differs for NaN (never equal to itself) and for +0 and -0, which compare equal.
- Floating point (sample rates, port ranges) is carried as opaque values.
- `writeType` is declared to return uint32 but returns nothing. `RingBuffers.RingBuffer.WriteType` returns nothing.
- `ModuleUI::haveIdleInterface` is declared `void` but returns a test, which is ill-formed. It is modelled as the test it evidently means.
- `add (f, false)` on a built array leaves the array stale while `needsBuilt` stays false, so `getFeatures ()`'s assertion cannot catch it. `Features.FeatureArray.Add` states exactly that, and World () relies on the later rebuilds.
- `LV2World::isPluginSupported` calls `get_name ()` on the plugin before it checks the plugin is available, so the call may be made on a null plugin. The model performs no such call.
- `World::isPluginSupported`'s loop over the ports does nothing, and its warning log is output only. Neither is modelled.
- The plugin's extension data is a set. The worker feature that `removeFirstMatchingValue` drops is the entry just before the terminator.
- A worker thread is its index in the pool, and the LV2_Feature of the worker schedule carries it. The worker itself (WorkThread, WorkerFeature, `processWorkResponses`, `endRun`) is not part of this model; its calls are trace steps.
- The URID map is not modelled. `map (LV2_ATOM__Float)` is the constructor parameter `floatUrid`, and data-type URIDs are kept as URIs.
- `host/PortType.h` of jlv2 is not part of this model. Its Event type is taken into `Host.PortKind`.
- `PortBuffer.h` is not part of this model. A port buffer is its first float in `values` plus the `PortBuffer` description.
- `LV2Features.h` of jlv2 and World.h are not part of this model. World's features use the lvtk feature array.
- The state string codec (`getStateString`, `setStateString`) is left out because it calls lilv's serialiser.
- Also left out: the channel configuration (`connectChannel`, `ChannelConfig`), `referAudioReplacing`, `getMidiPort`, `getNotifyPort` and `getNumPorts (type)`. These are lilv and JUCE queries with no state of their own.
- `hasEditor` and `createEditor` (choosing a UI by its support quality) are left out as lilv queries. `instantiateUI` and `sendControlValues`, which they call, are modelled, and `sendPortEvents` is `sendControlValues`.
- `activatePorts`, `cleanup` and `allocateEventBuffers` do nothing in the source and are left out.
- Destructors are left out.
- Concurrency is not modelled: the timer thread, the ring locks and the audio thread against the UI thread. Each ring is taken to have one writer and one reader, working in turn.
- The plugin-format wrappers (LV2PluginFormat) and loading lilv bundles are left out as I/O.

## Findings

| source | as written | input that shows it | evidently intended | confidence | as-written member | corrected member |
|---|---|---|---|---|---|---|
| modules/jlv2_host/host/Module.cpp:843 | `write()` queues a message when `canWrite (sizeof (PortEvent) + size)`, which holds for size 0 | `write (p, 0, 0, buf)` on a ring with 24 free bytes queues a bare header. `run()` then peeks it, sees `ev.size == 0`, consumes nothing and goes round again forever | refuse empty messages, so the ring only ever holds frames the drain loop can take, and the loop ends | not executed | Messages.ZeroSizeWriteStallsDrain | Host.Module.Write |
| modules/lvtk_core/source/lvtk_AtomBuffer.cpp:19 | `addEvent` accepts when `sizeof (LV2_Atom) + atom->size + lv2_atom_pad_size (size) <= capacity` | On a cleared 32-byte buffer (atom size 8), an 8-byte event passes the test (8 + 8 + 8 <= 32) but is written to bytes 16..40. A size of 0xFFFFFFFF pads to 0 in uint32 and passes too | also count `sizeof (LV2_Atom_Event)`, and pad without wrapping, so every accepted event lies inside the block | not executed | AtomBuffers.AsWrittenGuardOverruns | AtomBuffers.AtomBuffer.AddEvent |
