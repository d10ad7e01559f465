/** The port types of lvtk_PortType.h, their URIs and the rule for which
    port may feed which. A PortType is an immutable enum value, so it is a
    datatype here and every operation is a function on it. */
module PortTypes {

  datatype PortType = Control | Audio | CV | Atom | Midi | Unknown

  /** The enum ids: Control = 0 up to Unknown = 5. */
  function Id(t: PortType): nat
  {
    match t
    case Control => 0
    case Audio => 1
    case CV => 2
    case Atom => 3
    case Midi => 4
    case Unknown => 5
  }

  const ControlPortUri := "http://lv2plug.in/ns/lv2core#ControlPort"
  const AudioPortUri := "http://lv2plug.in/ns/lv2core#AudioPort"
  const CVPortUri := "http://lv2plug.in/ns/lv2core#CVPort"
  const AtomPortUri := "http://lv2plug.in/ns/ext/atom#AtomPort"

  /** typeURI and typeName assert id <= Atom. */
  predicate HasUri(t: PortType)
  {
    Id(t) <= Id(Atom)
  }

  /** typeURI (id): the URI table read at the type's id. */
  function Uri(t: PortType): (uri: string)
    requires HasUri(t)
    ensures uri == [ControlPortUri, AudioPortUri, CVPortUri, AtomPortUri][Id(t)]
  {
    match t
    case Control => ControlPortUri
    case Audio => AudioPortUri
    case CV => CVPortUri
    case Atom => AtomPortUri
  }

  /** typeName (id). */
  function Name(t: PortType): (name: string)
    requires HasUri(t)
    ensures name == ["Control", "Audio", "CV", "Atom"][Id(t)]
  {
    match t
    case Control => "Control"
    case Audio => "Audio"
    case CV => "CV"
    case Atom => "Atom"
  }

  /** PortType (uri): the type whose URI this is, Unknown for any other string. */
  function FromUri(uri: string): (t: PortType)
    ensures t != Midi
    ensures t == Unknown <==> uri !in {ControlPortUri, AudioPortUri, CVPortUri, AtomPortUri}
  {
    if uri == AudioPortUri then Audio
    else if uri == ControlPortUri then Control
    else if uri == CVPortUri then CV
    else if uri == AtomPortUri then Atom
    else Unknown
  }

  /** Every type that has a URI is recovered from it. */
  lemma UriRoundTrip(t: PortType)
    requires HasUri(t)
    ensures FromUri(Uri(t)) == t
  {
    assert AudioPortUri != ControlPortUri && AudioPortUri != CVPortUri && AudioPortUri != AtomPortUri;
    assert ControlPortUri != CVPortUri && ControlPortUri != AtomPortUri && CVPortUri != AtomPortUri;
  }

  /** operator<: types are ordered by their ids. Since distinct types have
      distinct ids, a is below b exactly when they differ and b's id is not
      below a's: of two distinct types exactly one is the lesser. */
  predicate Less(a: PortType, b: PortType)
    ensures Less(a, b) <==> a != b && !(Id(b) < Id(a))
  {
    Id(a) < Id(b)
  }

  /** Equality of the enum is equality of ids, so `<` is a strict total order. */
  lemma LessIsStrictTotal(a: PortType, b: PortType)
    ensures Id(a) == Id(b) <==> a == b
    ensures !Less(a, a)
    ensures a != b ==> Less(a, b) != Less(b, a)
  {
  }

  /** canConnect (sourceType, destType): a connection is allowed exactly
      between equal known types and from Audio or Control into CV. */
  predicate CanConnect(source: PortType, dest: PortType)
    ensures CanConnect(source, dest) <==>
      (source != Unknown && source == dest)
      || (dest == CV && (source == Audio || source == Control))
  {
    if source == Unknown || dest == Unknown then false
    else if source == dest then true
    else if source == Audio && dest == CV then true
    else if source == Control && dest == CV then true
    else false
  }

  /** The member canConnect (other, isOutput): `this` is the source when
      isOutput is set, the destination otherwise. Either way Unknown takes
      part in no connection, and a known type connects to itself. */
  predicate CanConnectTo(self: PortType, other: PortType, isOutput: bool)
    ensures CanConnectTo(self, other, isOutput) ==> self != Unknown && other != Unknown
    ensures self == other ==> (CanConnectTo(self, other, isOutput) <==> self != Unknown)
  {
    if isOutput then CanConnect(self, other) else CanConnect(other, self)
  }

  /** Consequences: Unknown connects to nothing, every known type connects to
      itself, and the rule is not symmetric. */
  lemma CanConnectFacts(t: PortType)
    ensures !CanConnect(Unknown, t) && !CanConnect(t, Unknown)
    ensures t != Unknown ==> CanConnect(t, t)
    ensures CanConnect(Audio, CV) && !CanConnect(CV, Audio)
    ensures CanConnect(Control, CV) && !CanConnect(CV, Control)
  {
  }

  /** The member form is the static rule read from either end. */
  lemma CanConnectToFacts(self: PortType, other: PortType)
    ensures CanConnectTo(self, other, true) == CanConnect(self, other)
    ensures CanConnectTo(self, other, false) == CanConnectTo(other, self, true)
  {
  }
}
