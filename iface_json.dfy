/** The JSON shape serde derives for the interface records: fields that are
    `None` are left out, the base interface is flattened into the object of
    the interface that holds it, the base's type is not written, and the
    linux-bridge blocks use kebab-case keys. Keys are listed in the order
    serde writes them, which is the order `serde_yaml::to_value` keeps. */
module IfaceJson {
  import opened Common
  import opened IfaceType
  import opened Ip
  import opened Json
  import opened IfaceData

  function StateToJson(st: InterfaceState): Json
  {
    match st
    case Up => JString("up")
    case Down => JString("down")
    case Absent => JString("absent")
    case Unknown => JString("unknown")
  }

  function IpToJson(ip: InterfaceIp): Json
  {
    JObject([("enabled", JBool(ip.enabled))])
  }

  /** The fields a base interface contributes to the object it is flattened
      into. */
  function BaseFields(b: BaseInterface): seq<(string, Json)>
  {
    [("name", JString(b.name)), ("state", StateToJson(b.state))]
    + OptField("ipv4", b.ipv4.Some?, if b.ipv4.Some? then IpToJson(b.ipv4.value) else JNull)
    + OptField("ipv6", b.ipv6.Some?, if b.ipv6.Some? then IpToJson(b.ipv6.value) else JNull)
  }

  function StpToJson(s: LinuxBridgeStpOptions): Json
  {
    JObject(OptField("enabled", s.enabled.Some?, if s.enabled.Some? then JBool(s.enabled.value) else JNull))
  }

  function OptionsToJson(o: LinuxBridgeOptions): Json
  {
    JObject(OptField("stp", o.stp.Some?, if o.stp.Some? then StpToJson(o.stp.value) else JNull))
  }

  function PortToJson(p: LinuxBridgePortConfig): Json
  {
    JObject(
      [("name", JString(p.name))]
      + OptField("stp-hairpin-mode", p.stpHairpinMode.Some?,
                 if p.stpHairpinMode.Some? then JBool(p.stpHairpinMode.value) else JNull)
      + OptField("stp-path-cost", p.stpPathCost.Some?,
                 if p.stpPathCost.Some? then JNumber(p.stpPathCost.value as int) else JNull)
      + OptField("stp-priority", p.stpPriority.Some?,
                 if p.stpPriority.Some? then JNumber(p.stpPriority.value as int) else JNull))
  }

  function PortsToJson(ps: seq<LinuxBridgePortConfig>): (j: seq<Json>)
    ensures |j| == |ps|
    ensures forall i :: 0 <= i < |ps| ==> j[i] == PortToJson(ps[i])
  {
    if ps == [] then [] else [PortToJson(ps[0])] + PortsToJson(ps[1..])
  }

  function BridgeConfigToJson(c: LinuxBridgeConfig): Json
  {
    JObject(
      OptField("options", c.options.Some?, if c.options.Some? then OptionsToJson(c.options.value) else JNull)
      + OptField("port", c.port.Some?, if c.port.Some? then JArray(PortsToJson(c.port.value)) else JNull))
  }

  function LinuxBridgeToJson(b: LinuxBridgeInterface): Json
  {
    JObject(BaseFields(b.base)
      + OptField("bridge", b.bridge.Some?, if b.bridge.Some? then BridgeConfigToJson(b.bridge.value) else JNull))
  }

  function EthernetToJson(e: EthernetInterface): Json
  {
    JObject(BaseFields(e.base) + OptField("bridge", e.bridge.Some?, JObject([])))
  }

  function VethToJson(v: VethInterface): Json
  {
    JObject(BaseFields(v.base)
      + OptField("veth", v.veth.Some?, if v.veth.Some? then JObject([("peer", JString(v.veth.value.peer))]) else JNull))
  }

  function UnknownToJson(u: UnknownInterface): Json
  {
    JObject(BaseFields(u.base) + u.other)
  }

  /** The serialised value of an `Interface` (`serde_yaml::to_value` or
      `serde_json::to_value`, up to key order): the enum is untagged, so
      the value is that of the record it holds. */
  function InterfaceToJson(i: Interface): Json
  {
    match i
    case LinuxBridge(b) => LinuxBridgeToJson(b)
    case Ethernet(e) => EthernetToJson(e)
    case Veth(v) => VethToJson(v)
    case Unknown(u) => UnknownToJson(u)
  }

  // ---------------------------------------------------------------------
  // The linux-bridge serialisation shape
  // ---------------------------------------------------------------------

  lemma KeysAppend(a: seq<(string, Json)>, b: seq<(string, Json)>)
    ensures Keys(a + b) == Keys(a) + Keys(b)
  {
    assert |Keys(a + b)| == |Keys(a) + Keys(b)|;
  }

  lemma BaseKeys(b: BaseInterface)
    ensures Keys(BaseFields(b)) ==
      ["name", "state"] + (if b.ipv4.Some? then ["ipv4"] else []) + (if b.ipv6.Some? then ["ipv6"] else [])
  {
    KeysAppend([("name", JString(b.name)), ("state", StateToJson(b.state))],
      OptField("ipv4", b.ipv4.Some?, if b.ipv4.Some? then IpToJson(b.ipv4.value) else JNull));
    KeysAppend([("name", JString(b.name)), ("state", StateToJson(b.state))]
      + OptField("ipv4", b.ipv4.Some?, if b.ipv4.Some? then IpToJson(b.ipv4.value) else JNull),
      OptField("ipv6", b.ipv6.Some?, if b.ipv6.Some? then IpToJson(b.ipv6.value) else JNull));
  }

  /** The base interface's fields come first in a linux bridge's object,
      flattened, and the type is not among them. */
  lemma LinuxBridgeFlattensBase(b: LinuxBridgeInterface)
    ensures LinuxBridgeToJson(b).fields[..|BaseFields(b.base)|] == BaseFields(b.base)
    ensures "type" !in Keys(LinuxBridgeToJson(b).fields)
  {
    var extra := OptField("bridge", b.bridge.Some?, if b.bridge.Some? then BridgeConfigToJson(b.bridge.value) else JNull);
    assert LinuxBridgeToJson(b).fields == BaseFields(b.base) + extra;
    KeysAppend(BaseFields(b.base), extra);
    BaseKeys(b.base);
    assert Keys(extra) == if b.bridge.Some? then ["bridge"] else [];
  }

  /** A linux bridge has a `bridge` key exactly when its bridge block is
      present, and then it is the last key. */
  lemma LinuxBridgeOmitsNoneBridge(b: LinuxBridgeInterface)
    ensures "bridge" in Keys(LinuxBridgeToJson(b).fields) <==> b.bridge.Some?
    ensures b.bridge.Some? ==> Keys(LinuxBridgeToJson(b).fields)[|BaseFields(b.base)|] == "bridge"
  {
    var extra := OptField("bridge", b.bridge.Some?, if b.bridge.Some? then BridgeConfigToJson(b.bridge.value) else JNull);
    KeysAppend(BaseFields(b.base), extra);
    BaseKeys(b.base);
  }

  /** The `options` and `port` keys of a bridge block, the `stp` key of its
      options and the `enabled` key of the STP options are each written
      exactly when the field is present. */
  lemma BridgeConfigOmitsNone(c: LinuxBridgeConfig, o: LinuxBridgeOptions, s: LinuxBridgeStpOptions)
    ensures Keys(BridgeConfigToJson(c).fields) ==
      (if c.options.Some? then ["options"] else []) + (if c.port.Some? then ["port"] else [])
    ensures Keys(OptionsToJson(o).fields) == (if o.stp.Some? then ["stp"] else [])
    ensures Keys(StpToJson(s).fields) == (if s.enabled.Some? then ["enabled"] else [])
  {
    KeysAppend(OptField("options", c.options.Some?, if c.options.Some? then OptionsToJson(c.options.value) else JNull),
      OptField("port", c.port.Some?, if c.port.Some? then JArray(PortsToJson(c.port.value)) else JNull));
  }

  /** A port block always starts with its `name`; each STP key is written,
      in kebab-case, exactly when that setting is present. */
  lemma PortKeys(p: LinuxBridgePortConfig)
    ensures Keys(PortToJson(p).fields) ==
      ["name"]
      + (if p.stpHairpinMode.Some? then ["stp-hairpin-mode"] else [])
      + (if p.stpPathCost.Some? then ["stp-path-cost"] else [])
      + (if p.stpPriority.Some? then ["stp-priority"] else [])
  {
    var f0 := [("name", JString(p.name))];
    var f1 := OptField("stp-hairpin-mode", p.stpHairpinMode.Some?,
                 if p.stpHairpinMode.Some? then JBool(p.stpHairpinMode.value) else JNull);
    var f2 := OptField("stp-path-cost", p.stpPathCost.Some?,
                 if p.stpPathCost.Some? then JNumber(p.stpPathCost.value as int) else JNull);
    var f3 := OptField("stp-priority", p.stpPriority.Some?,
                 if p.stpPriority.Some? then JNumber(p.stpPriority.value as int) else JNull);
    KeysAppend(f0, f1);
    KeysAppend(f0 + f1, f2);
    KeysAppend(f0 + f1 + f2, f3);
  }

  /** An unknown interface made by `UnknownInterface::new` serialises to
      its base's fields alone, and its name and state are read back from
      them. */
  lemma NewUnknownSerialisesBase(base: BaseInterface)
    ensures InterfaceToJson(Interface.Unknown(NewUnknownInterface(base))) == JObject(BaseFields(base))
    ensures BaseFields(base)[0] == ("name", JString(Name(Interface.Unknown(NewUnknownInterface(base)))))
    ensures BaseFields(base)[1] == ("state", StateToJson(BaseIface(Interface.Unknown(NewUnknownInterface(base))).state))
  {
  }
}
