/** The interface records of nmstate: the base interface shared by every
    kind, the ethernet, veth, linux-bridge and unknown interfaces, and the
    `Interface` enum that holds one of them. All are owned values. */
module IfaceData {
  import opened Common
  import opened IfaceType
  import opened Ip
  import opened Json

  /** `BaseInterface`. `controller` is read by the nispor backend
      (the name of the controlling interface, if any). */
  datatype BaseInterface = BaseInterface(
    name: string,
    ifaceType: InterfaceType,
    state: InterfaceState,
    ipv4: Option<InterfaceIp>,
    ipv6: Option<InterfaceIp>,
    controller: Option<string>)

  const DEFAULT_BASE: BaseInterface :=
    BaseInterface("", InterfaceType.Unknown, InterfaceState.Unknown, None, None, None)

  datatype EthernetConfig = EthernetConfig

  datatype EthernetInterface = EthernetInterface(base: BaseInterface, bridge: Option<EthernetConfig>)

  /** `Default for EthernetInterface`: type `Ethernet`, no `bridge`. */
  const DEFAULT_ETHERNET: EthernetInterface :=
    EthernetInterface(DEFAULT_BASE.(ifaceType := InterfaceType.Ethernet), None)

  datatype VethConfig = VethConfig(peer: string)

  datatype VethInterface = VethInterface(base: BaseInterface, veth: Option<VethConfig>)

  datatype LinuxBridgeStpOptions = LinuxBridgeStpOptions(enabled: Option<bool>)

  datatype LinuxBridgeOptions = LinuxBridgeOptions(stp: Option<LinuxBridgeStpOptions>)

  newtype u16 = x: int | 0 <= x < 0x1_0000
  newtype u32 = x: int | 0 <= x < 0x1_0000_0000

  datatype LinuxBridgePortConfig = LinuxBridgePortConfig(
    name: string,
    stpHairpinMode: Option<bool>,
    stpPathCost: Option<u32>,
    stpPriority: Option<u16>)

  datatype LinuxBridgeConfig = LinuxBridgeConfig(
    options: Option<LinuxBridgeOptions>,
    port: Option<seq<LinuxBridgePortConfig>>)

  datatype LinuxBridgeInterface = LinuxBridgeInterface(base: BaseInterface, bridge: Option<LinuxBridgeConfig>)

  /** `Default for LinuxBridgeInterface`: type `LinuxBridge`, no `bridge`. */
  const DEFAULT_LINUX_BRIDGE: LinuxBridgeInterface :=
    LinuxBridgeInterface(DEFAULT_BASE.(ifaceType := InterfaceType.LinuxBridge), None)

  /** An interface of a type the library does not handle: its base fields
      and every other field of its document, kept as JSON. */
  datatype UnknownInterface = UnknownInterface(base: BaseInterface, other: seq<(string, Json)>)

  /** `UnknownInterface::new`: the given base and no other field. */
  function NewUnknownInterface(base: BaseInterface): (u: UnknownInterface)
    ensures u.base == base && u.other == []
  {
    UnknownInterface(base, [])
  }

  datatype Interface =
    | LinuxBridge(linuxBridge: LinuxBridgeInterface)
    | Ethernet(ethernet: EthernetInterface)
    | Veth(veth: VethInterface)
    | Unknown(unknown: UnknownInterface)

  /** `Default for Interface`. */
  const DEFAULT_INTERFACE: Interface := Interface.Unknown(UnknownInterface(DEFAULT_BASE, []))

  /** `Interface::base_iface`: the base of whichever record the variant
      holds. */
  function BaseIface(i: Interface): (b: BaseInterface)
    ensures i.LinuxBridge? ==> b == i.linuxBridge.base
    ensures i.Ethernet? ==> b == i.ethernet.base
    ensures i.Veth? ==> b == i.veth.base
    ensures i.Unknown? ==> b == i.unknown.base
  {
    match i
    case LinuxBridge(b) => b.base
    case Ethernet(e) => e.base
    case Veth(v) => v.base
    case Unknown(u) => u.base
  }

  /** The interface with its base replaced: what a write through
      `Interface::base_iface_mut` produces. */
  function WithBase(i: Interface, base: BaseInterface): (r: Interface)
    ensures BaseIface(r) == base
  {
    match i
    case LinuxBridge(b) => Interface.LinuxBridge(b.(base := base))
    case Ethernet(e) => Interface.Ethernet(e.(base := base))
    case Veth(v) => Interface.Veth(v.(base := base))
    case Unknown(u) => Interface.Unknown(u.(base := base))
  }

  /** Two interfaces hold the same enum variant. */
  predicate SameVariant(a: Interface, b: Interface)
  {
    (a.LinuxBridge? && b.LinuxBridge?) || (a.Ethernet? && b.Ethernet?)
    || (a.Veth? && b.Veth?) || (a.Unknown? && b.Unknown?)
  }

  /** `Interface::name`: the name of the record the variant holds, which
      is the name of `base_iface`. */
  function Name(i: Interface): (name: string)
    ensures name == BaseIface(i).name
  {
    BaseIface(i).name
  }

  /** `Interface::iface_type`: the type of the record the variant holds,
      which is the type of `base_iface`. */
  function IfaceTypeOf(i: Interface): (t: InterfaceType)
    ensures t == BaseIface(i).ifaceType
  {
    BaseIface(i).ifaceType
  }
}
