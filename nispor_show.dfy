/** The nispor to nmstate translation: interface type, state, IP
    configuration and veth peer of an interface that nispor reports. */
module NisporShow {
  import opened Common
  import opened IfaceType
  import opened Ip
  import opened IfaceData
  import Np = NisporTypes

  /** `np_iface_type_to_nmstate`. A nispor veth is reported as ethernet;
      the kinds without a counterpart become `Other` of their `Debug` name. */
  function NpIfaceTypeToNmstate(t: Np.IfaceType): (r: InterfaceType)
    ensures t == Np.Veth ==> r == InterfaceType.Ethernet
    ensures t == Np.Bridge ==> r == InterfaceType.LinuxBridge
    ensures t == Np.OpenvSwitch ==> r == InterfaceType.OvsInterface
    ensures t == Np.Unknown || t.Unlisted? ==> r == Other(Np.IfaceTypeDebug(t))
    ensures r != InterfaceType.Veth && r != InterfaceType.Unknown
  {
    match t
    case Bond => InterfaceType.Bond
    case Bridge => InterfaceType.LinuxBridge
    case Dummy => InterfaceType.Dummy
    case Ethernet => InterfaceType.Ethernet
    case Loopback => InterfaceType.Loopback
    case MacVlan => InterfaceType.MacVlan
    case MacVtap => InterfaceType.MacVtap
    case OpenvSwitch => InterfaceType.OvsInterface
    case Tun => InterfaceType.Tun
    case Veth => InterfaceType.Ethernet
    case Vlan => InterfaceType.Vlan
    case Vrf => InterfaceType.Vrf
    case Vxlan => InterfaceType.Vxlan
    case _ => Other(Np.IfaceTypeDebug(t))
  }

  /** `np_iface_state_to_nmstate`. */
  function NpIfaceStateToNmstate(s: Np.IfaceState): (r: InterfaceState)
    ensures r == InterfaceState.Up <==> s == Np.Up
    ensures r == InterfaceState.Down <==> s == Np.Down
    ensures r == InterfaceState.Unknown <==> s.OtherState?
  {
    match s
    case Up => InterfaceState.Up
    case Down => InterfaceState.Down
    case OtherState(_) => InterfaceState.Unknown
  }

  /** Some address of the list has a finite lifetime. */
  predicate AnyDynamic(addrs: seq<Np.IpAddrInfo>)
  {
    exists i :: 0 <= i < |addrs| && addrs[i].validLft != "forever"
  }

  function ToIpAddr(a: Np.IpAddrInfo): InterfaceIpAddr
  {
    InterfaceIpAddr(a.address, a.prefixLen)
  }

  /** The nmstate addresses of a nispor address list, in order. */
  function ToIpAddrs(addrs: seq<Np.IpAddrInfo>): (r: seq<InterfaceIpAddr>)
    ensures |r| == |addrs|
    ensures forall i :: 0 <= i < |addrs| ==> r[i] == ToIpAddr(addrs[i])
  {
    if addrs == [] then [] else ToIpAddrs(addrs[..|addrs| - 1]) + [ToIpAddr(addrs[|addrs| - 1])]
  }

  /** The IP block nmstate reports for one address family: from the
      nispor information when there is some; otherwise a disabled block,
      unless the interface has a controller, in which case none. A finite
      lifetime sets `dhcp` for IPv4 and `autoconf` for IPv6. */
  function IpFromNispor(info: Option<Np.IpInfo>, controller: Option<string>, v6: bool): Option<InterfaceIp>
  {
    match info
    case Some(np) =>
      Some(InterfaceIp(|np.addresses| > 0, !v6 && AnyDynamic(np.addresses),
                       v6 && AnyDynamic(np.addresses), ToIpAddrs(np.addresses)))
    case None =>
      if controller.None? then Some(DEFAULT_IP.(enabled := false)) else None
  }

  /** The address loop shared by `np_ipv4_to_nmstate` and
      `np_ipv6_to_nmstate`: pushes every address and raises the flag on a
      finite lifetime. */
  method CollectAddresses(np: Np.IpInfo, v6: bool) returns (ip: InterfaceIp)
    ensures ip.enabled <==> |np.addresses| > 0
    ensures ip.dhcp <==> !v6 && AnyDynamic(np.addresses)
    ensures ip.autoconf <==> v6 && AnyDynamic(np.addresses)
    ensures ip.addresses == ToIpAddrs(np.addresses)
  {
    ip := DEFAULT_IP;
    if |np.addresses| > 0 {
      ip := ip.(enabled := true);
    }
    var i := 0;
    while i < |np.addresses|
      invariant 0 <= i <= |np.addresses|
      invariant ip.enabled <==> |np.addresses| > 0
      invariant ip.dhcp <==> !v6 && AnyDynamic(np.addresses[..i])
      invariant ip.autoconf <==> v6 && AnyDynamic(np.addresses[..i])
      invariant ip.addresses == ToIpAddrs(np.addresses[..i])
    {
      var addr := np.addresses[i];
      assert np.addresses[..i + 1] == np.addresses[..i] + [addr];
      assert np.addresses[..i + 1][..i] == np.addresses[..i];
      if addr.validLft != "forever" {
        if v6 {
          ip := ip.(autoconf := true);
        } else {
          ip := ip.(dhcp := true);
        }
      }
      assert AnyDynamic(np.addresses[..i + 1]) <==>
        AnyDynamic(np.addresses[..i]) || addr.validLft != "forever";
      ip := ip.(addresses := ip.addresses + [ToIpAddr(addr)]);
      i := i + 1;
    }
    assert np.addresses[..i] == np.addresses;
  }

  /** `np_ipv4_to_nmstate`. */
  method NpIpv4ToNmstate(np: Np.Iface) returns (ip: Option<InterfaceIp>)
    ensures ip == IpFromNispor(np.ipv4, np.controller, false)
    ensures np.ipv4.Some? ==> ip.Some? && ip.value.addresses == ToIpAddrs(np.ipv4.value.addresses)
    ensures np.ipv4.Some? ==> (ip.value.enabled <==> |np.ipv4.value.addresses| > 0)
    ensures np.ipv4.Some? ==> (ip.value.dhcp <==> AnyDynamic(np.ipv4.value.addresses)) && !ip.value.autoconf
    ensures np.ipv4.None? && np.controller.None? ==> ip.Some? && !ip.value.enabled
    ensures np.ipv4.None? && np.controller.Some? ==> ip.None?
  {
    if np.ipv4.Some? {
      var collected := CollectAddresses(np.ipv4.value, false);
      ip := Some(collected);
    } else if np.controller.None? {
      ip := Some(DEFAULT_IP.(enabled := false));
    } else {
      ip := None;
    }
  }

  /** `np_ipv6_to_nmstate`. */
  method NpIpv6ToNmstate(np: Np.Iface) returns (ip: Option<InterfaceIp>)
    ensures ip == IpFromNispor(np.ipv6, np.controller, true)
    ensures np.ipv6.Some? ==> ip.Some? && ip.value.addresses == ToIpAddrs(np.ipv6.value.addresses)
    ensures np.ipv6.Some? ==> (ip.value.enabled <==> |np.ipv6.value.addresses| > 0)
    ensures np.ipv6.Some? ==> (ip.value.autoconf <==> AnyDynamic(np.ipv6.value.addresses)) && !ip.value.dhcp
    ensures np.ipv6.None? && np.controller.None? ==> ip.Some? && !ip.value.enabled
    ensures np.ipv6.None? && np.controller.Some? ==> ip.None?
  {
    if np.ipv6.Some? {
      var collected := CollectAddresses(np.ipv6.value, true);
      ip := Some(collected);
    } else if np.controller.None? {
      ip := Some(DEFAULT_IP.(enabled := false));
    } else {
      ip := None;
    }
  }

  /** `np_iface_to_base_iface`. */
  function NpIfaceToBaseIface(np: Np.Iface): (b: BaseInterface)
    ensures b.name == np.name
    ensures b.ifaceType == NpIfaceTypeToNmstate(np.ifaceType)
    ensures b.state == NpIfaceStateToNmstate(np.state)
    ensures b.ipv4 == IpFromNispor(np.ipv4, np.controller, false)
    ensures b.ipv6 == IpFromNispor(np.ipv6, np.controller, true)
    ensures b.controller.None?
  {
    DEFAULT_BASE.(
      name := np.name,
      state := NpIfaceStateToNmstate(np.state),
      ifaceType := NpIfaceTypeToNmstate(np.ifaceType),
      ipv4 := IpFromNispor(np.ipv4, np.controller, false),
      ipv6 := IpFromNispor(np.ipv6, np.controller, true))
  }

  /** `np_veth_to_nmstate`: the base is kept and the peer is copied when
      nispor reports veth information. */
  function NpVethToNmstate(np: Np.Iface, base: BaseInterface): (v: VethInterface)
    ensures v.base == base
    ensures np.veth.None? ==> v.veth.None?
    ensures np.veth.Some? ==> v.veth == Some(VethConfig(np.veth.value.peer))
  {
    VethInterface(base, if np.veth.Some? then Some(VethConfig(np.veth.value.peer)) else None)
  }

  /** The veth result depends on nothing of the nispor interface but its
      veth information. */
  lemma NpVethDependsOnlyOnVeth(a: Np.Iface, b: Np.Iface, base: BaseInterface)
    requires a.veth == b.veth
    ensures NpVethToNmstate(a, base) == NpVethToNmstate(b, base)
  {
  }
}
