/** The parts of nispor's data model that the nispor backend reads
    (`nispor::Iface` and its IP and veth information) and writes
    (`nispor::IfaceConf`, `nispor::NetConf`). */
module NisporTypes {
  import opened Common

  /** `nispor::IfaceType`: the thirteen kinds the backend names, nispor's
      own `Unknown`, and every other kind under its `Debug` name. */
  datatype IfaceType =
    | Bond | Bridge | Dummy | Ethernet | Loopback | MacVlan | MacVtap
    | OpenvSwitch | Tun | Veth | Vlan | Vrf | Vxlan | Unknown
    | Unlisted(debugName: string)

  /** `Debug` of a nispor interface type. */
  function IfaceTypeDebug(t: IfaceType): string
  {
    match t
    case Bond => "Bond"
    case Bridge => "Bridge"
    case Dummy => "Dummy"
    case Ethernet => "Ethernet"
    case Loopback => "Loopback"
    case MacVlan => "MacVlan"
    case MacVtap => "MacVtap"
    case OpenvSwitch => "OpenvSwitch"
    case Tun => "Tun"
    case Veth => "Veth"
    case Vlan => "Vlan"
    case Vrf => "Vrf"
    case Vxlan => "Vxlan"
    case Unknown => "Unknown"
    case Unlisted(n) => n
  }

  /** `nispor::IfaceState`: up, down, or any other operational state. */
  datatype IfaceState = Up | Down | OtherState(debugName: string)

  datatype IpAddrInfo = IpAddrInfo(address: string, prefixLen: nat, validLft: string)

  datatype IpInfo = IpInfo(addresses: seq<IpAddrInfo>)

  datatype VethInfo = VethInfo(peer: string)

  /** `nispor::Iface`. */
  datatype Iface = Iface(
    name: string,
    ifaceType: IfaceType,
    state: IfaceState,
    ipv4: Option<IpInfo>,
    ipv6: Option<IpInfo>,
    controller: Option<string>,
    veth: Option<VethInfo>)

  datatype VethConf = VethConf(peer: string)

  /** `nispor::IfaceConf`. */
  datatype IfaceConf = IfaceConf(
    name: string,
    ifaceType: Option<IfaceType>,
    state: IfaceState,
    controller: Option<string>,
    veth: Option<VethConf>)

  /** `nispor::NetConf`. */
  datatype NetConf = NetConf(ifaces: Option<seq<IfaceConf>>)
}
