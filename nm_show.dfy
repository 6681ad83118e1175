/** The NetworkManager backend's retrieval: the applied NetworkManager
    connections turned into nmstate interfaces. */
module NmShow {
  import opened Common
  import opened IfaceType
  import opened Ip
  import opened IfaceData
  import opened NmIp
  import opened NmConn
  import opened NetStateData
  import opened Seqs

  const NM_SETTING_BRIDGE_SETTING_NAME: string := "bridge"
  const NM_SETTING_WIRED_SETTING_NAME: string := "802-3-ethernet"

  /** `nm_iface_type_to_nmstate`: only the wired and bridge setting names
      are recognised. */
  function NmIfaceTypeToNmstate(nmType: string): (r: InterfaceType)
    ensures r == InterfaceType.Ethernet <==> nmType == NM_SETTING_WIRED_SETTING_NAME
    ensures r == InterfaceType.LinuxBridge <==> nmType == NM_SETTING_BRIDGE_SETTING_NAME
    ensures r == InterfaceType.Unknown <==> nmType !in {NM_SETTING_WIRED_SETTING_NAME, NM_SETTING_BRIDGE_SETTING_NAME}
  {
    if nmType == NM_SETTING_WIRED_SETTING_NAME then InterfaceType.Ethernet
    else if nmType == NM_SETTING_BRIDGE_SETTING_NAME then InterfaceType.LinuxBridge
    else InterfaceType.Unknown
  }

  /** `nm_ip_setting_to_nmstate4`: a setting without a method is the
      default (disabled) IPv4; otherwise IPv4 is enabled unless the method
      is `disabled`, and uses DHCP only for `auto`. */
  function NmIpSettingToNmstate4(s: NmSettingIp): (r: InterfaceIp)
    ensures s.ipMethod.None? ==> r == DEFAULT_IP
    ensures s.ipMethod.Some? ==> (r.enabled <==> s.ipMethod.value != Disabled)
    ensures r.dhcp <==> s.ipMethod == Some(Auto)
    ensures !r.autoconf && r.addresses == []
  {
    match s.ipMethod
    case None => DEFAULT_IP
    case Some(m) =>
      var (enabled, dhcp) := match m
        case Disabled => (false, false)
        case LinkLocal | Manual | Shared => (true, false)
        case Auto => (true, true)
        case _ => (true, false);
      DEFAULT_IP.(enabled := enabled, dhcp := dhcp)
  }

  /** `nm_ip_setting_to_nmstate6`: as for IPv4, and in addition DHCP is used
      for `dhcp`, and autoconfiguration for every enabled method except
      `dhcp`. */
  function NmIpSettingToNmstate6(s: NmSettingIp): (r: InterfaceIp)
    ensures s.ipMethod.None? ==> r == DEFAULT_IP
    ensures s.ipMethod.Some? ==> (r.enabled <==> s.ipMethod.value != Disabled)
    ensures r.dhcp <==> s.ipMethod == Some(Auto) || s.ipMethod == Some(Dhcp)
    ensures r.autoconf <==> s.ipMethod.Some? && s.ipMethod.value !in {Disabled, Dhcp}
    ensures r.addresses == []
  {
    match s.ipMethod
    case None => DEFAULT_IP
    case Some(m) =>
      var (enabled, dhcp, autoconf) := match m
        case Disabled => (false, false, false)
        case LinkLocal | Manual | Shared => (true, false, true)
        case Auto => (true, true, true)
        case Dhcp => (true, true, false)
        case Ignore => (true, false, true);
      DEFAULT_IP.(enabled := enabled, dhcp := dhcp, autoconf := autoconf)
  }

  /** The two families agree on whether IP is enabled; they differ on DHCP
      only for the `dhcp` method, which IPv4 does not use for DHCP. */
  lemma Ipv4Ipv6Agree(s: NmSettingIp)
    ensures NmIpSettingToNmstate4(s).enabled == NmIpSettingToNmstate6(s).enabled
    ensures NmIpSettingToNmstate4(s).dhcp ==> NmIpSettingToNmstate6(s).dhcp
    ensures NmIpSettingToNmstate4(s).dhcp != NmIpSettingToNmstate6(s).dhcp <==> s.ipMethod == Some(Dhcp)
  {
  }

  /** `nm_conn_to_base_iface`: a connection naming both its interface and
      its type becomes an interface that is up, of the recognised type, with
      an IP configuration for each family the connection has a setting for. */
  function NmConnToBaseIface(c: NmConnection): (r: Option<BaseInterface>)
    ensures r.Some? <==> IfaceName(c).Some? && NmConn.IfaceType(c).Some?
    ensures r.Some? ==>
      && r.value.name == IfaceName(c).value
      && r.value.state == InterfaceState.Up
      && r.value.ifaceType == NmIfaceTypeToNmstate(NmConn.IfaceType(c).value)
      && (r.value.ipv4.Some? <==> c.ipv4.Some?)
      && (r.value.ipv6.Some? <==> c.ipv6.Some?)
      && (c.ipv4.Some? ==> r.value.ipv4.value == NmIpSettingToNmstate4(c.ipv4.value))
      && (c.ipv6.Some? ==> r.value.ipv6.value == NmIpSettingToNmstate6(c.ipv6.value))
      && r.value.controller.None?
  {
    if IfaceName(c).Some? && NmConn.IfaceType(c).Some? then
      var ipv4 := if c.ipv4.Some? then Some(NmIpSettingToNmstate4(c.ipv4.value)) else None;
      var ipv6 := if c.ipv6.Some? then Some(NmIpSettingToNmstate6(c.ipv6.value)) else None;
      Some(DEFAULT_BASE.(name := IfaceName(c).value, state := InterfaceState.Up,
                         ifaceType := NmIfaceTypeToNmstate(NmConn.IfaceType(c).value),
                         ipv4 := ipv4, ipv6 := ipv6))
    else
      None
  }

  /** The interface `nm_retrieve` builds around a base: a linux bridge or
      an ethernet interface with default settings, or an unknown interface
      with no extra fields. */
  function IfaceFromBase(b: BaseInterface): (r: Interface)
    ensures BaseIface(r) == b
    ensures r.LinuxBridge? <==> b.ifaceType == InterfaceType.LinuxBridge
    ensures r.Ethernet? <==> b.ifaceType == InterfaceType.Ethernet
    ensures r.Unknown? <==> b.ifaceType !in {InterfaceType.LinuxBridge, InterfaceType.Ethernet}
    ensures r.LinuxBridge? ==> r.linuxBridge.bridge.None?
    ensures r.Ethernet? ==> r.ethernet.bridge.None?
    ensures r.Unknown? ==> r.unknown.other == []
  {
    match b.ifaceType
    case LinuxBridge => Interface.LinuxBridge(DEFAULT_LINUX_BRIDGE.(base := b))
    case Ethernet => Interface.Ethernet(DEFAULT_ETHERNET.(base := b))
    case _ => Interface.Unknown(NewUnknownInterface(b))
  }

  /** The interface of one connection, if it names its interface and type. */
  function IfaceOfConn(c: NmConnection): (r: Option<Interface>)
    ensures r.Some? <==> NmConnToBaseIface(c).Some?
    ensures r.Some? ==> r.value == IfaceFromBase(NmConnToBaseIface(c).value)
  {
    var b := NmConnToBaseIface(c);
    if b.Some? then Some(IfaceFromBase(b.value)) else None
  }

  /** The interfaces `nm_retrieve` collects, in the order of the connections. */
  function RetrievedIfaces(conns: seq<NmConnection>): seq<Interface>
  {
    FilterMap(conns, IfaceOfConn)
  }

  /** One interface per connection that names its interface and type, in
      order, each up and named after its connection; the other connections
      are skipped. */
  lemma RetrievedIfacesInOrder(conns: seq<NmConnection>)
    ensures var idx := AcceptedIndices(conns, IfaceOfConn);
      && |idx| == |RetrievedIfaces(conns)|
      && (forall j :: 0 <= j < |idx| ==>
            && idx[j] < |conns|
            && IfaceName(conns[idx[j]]).Some?
            && Name(RetrievedIfaces(conns)[j]) == IfaceName(conns[idx[j]]).value
            && BaseIface(RetrievedIfaces(conns)[j]).state == InterfaceState.Up)
      && (forall j, j' :: 0 <= j < j' < |idx| ==> idx[j] < idx[j'])
      && (forall k :: 0 <= k < |conns| ==>
            (k in idx <==> IfaceName(conns[k]).Some? && NmConn.IfaceType(conns[k]).Some?))
  {
    FilterMapInOrder(conns, IfaceOfConn);
  }

  /** `nm_retrieve`. The outcomes of the two NetworkManager calls it makes
      (opening the API, listing the applied connections) are the
      parameters; an error from either is turned into a `Bug`. The returned
      state lists no explicit property. */
  method NmRetrieve(apiNew: Option<NmError>, applied: Result<seq<NmConnection>, NmError>)
    returns (r: Result<NetworkState, NmstateError>)
    ensures apiNew.Some? ==> r == Err(NmErrorToNmstate(apiNew.value))
    ensures apiNew.None? && applied.Err? ==> r == Err(NmErrorToNmstate(applied.error))
    ensures r.Ok? <==> apiNew.None? && applied.Ok?
    ensures r.Ok? ==> fresh(r.value) && r.value.interfaces == RetrievedIfaces(applied.value)
                      && r.value.propList == [] && !r.value.kernelOnly
  {
    var netState := new NetworkState();
    if apiNew.Some? {
      return Err(NmErrorToNmstate(apiNew.value));
    }
    if applied.Err? {
      return Err(NmErrorToNmstate(applied.error));
    }
    var conns := applied.value;
    for i := 0 to |conns|
      invariant fresh(netState)
      invariant netState.interfaces == RetrievedIfaces(conns[..i])
      invariant netState.propList == [] && !netState.kernelOnly
    {
      var conn := conns[i];
      assert conns[..i + 1] == conns[..i] + [conn];
      FilterMapSnoc(conns[..i], conn, IfaceOfConn);
      var baseIface := NmConnToBaseIface(conn);
      if baseIface.Some? {
        var b := baseIface.value;
        var iface := match b.ifaceType
          case LinuxBridge => Interface.LinuxBridge(DEFAULT_LINUX_BRIDGE.(base := b))
          case Ethernet => Interface.Ethernet(DEFAULT_ETHERNET.(base := b))
          case _ => Interface.Unknown(NewUnknownInterface(b));
        netState.AppendInterfaceData(iface);
      }
    }
    assert conns[..|conns|] == conns;
    r := Ok(netState);
  }
}
