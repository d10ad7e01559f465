/** What the hosts learn about a plugin from lilv, as plain data, and the
    LV2 URIs they compare against.

    lilv's queries (lilv_plugin_get_required_features, lilv_port_is_a,
    lilv_plugin_get_port_ranges_float, lilv_plugin_get_extension_data and
    the rest) are foreign calls; the model replaces them with the fields
    of a `PluginDesc`.
 */
module Plugins {
  import opened Wrappers
  import opened Messages

  const WorkerScheduleUri := "http://lv2plug.in/ns/ext/worker#schedule"
  const WorkerInterfaceUri := "http://lv2plug.in/ns/ext/worker#interface"
  const LoadDefaultStateUri := "http://lv2plug.in/ns/ext/state#loadDefaultState"
  const UridMapUri := "http://lv2plug.in/ns/ext/urid#map"
  const UridUnmapUri := "http://lv2plug.in/ns/ext/urid#unmap"
  const LogUri := "http://lv2plug.in/ns/ext/log#log"
  const OptionsUri := "http://lv2plug.in/ns/ext/options#options"
  const BoundedBlockLengthUri := "http://lv2plug.in/ns/ext/buf-size#boundedBlockLength"
  const MinBlockLengthUri := "http://lv2plug.in/ns/ext/buf-size#minBlockLength"
  const MaxBlockLengthUri := "http://lv2plug.in/ns/ext/buf-size#maxBlockLength"
  const AtomIntUri := "http://lv2plug.in/ns/ext/atom#Int"
  const AtomFloatUri := "http://lv2plug.in/ns/ext/atom#Float"
  const AtomSequenceUri := "http://lv2plug.in/ns/ext/atom#Sequence"
  const MidiEventUri := "http://lv2plug.in/ns/ext/midi#MidiEvent"
  const EventEventUri := "http://lv2plug.in/ns/ext/event#Event"
  const UiParentUri := "http://lv2plug.in/ns/extensions/ui#parent"

  /** The port classes lilv_port_is_a is asked about. */
  datatype PortClass = InputPort | OutputPort | AudioPort | AtomPort | ControlPort | EventPort | CVPort

  /** One port: its symbol and name, the classes it belongs to, and the
      range lilv_plugin_get_port_ranges_float reports for it. */
  datatype PortInfo = PortInfo(symbol: string, name: string, classes: set<PortClass>,
                               min: FloatBits, max: FloatBits, default: FloatBits)

  /** One plugin: its URI and name, its ports in index order, the features it
      requires (in the order lilv lists them) and the set of extension data
      URIs it declares. */
  datatype PluginDesc = PluginDesc(uri: string, name: string, ports: seq<PortInfo>,
                                   requiredFeatures: seq<string>, extensionData: set<string>)

  /** lilv_plugins_get_by_uri: the first plugin with that URI, if any. */
  function FindPlugin(plugins: seq<PluginDesc>, uri: string): (r: Option<PluginDesc>)
    ensures r.None? <==> forall i :: 0 <= i < |plugins| ==> plugins[i].uri != uri
    ensures r.Some? ==> r.value in plugins && r.value.uri == uri
  {
    if plugins == [] then None
    else if plugins[0].uri == uri then Some(plugins[0])
    else FindPlugin(plugins[1..], uri)
  }
}
