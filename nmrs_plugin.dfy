/** The prototype keyfile plugin: one NetworkManager keyfile per interface
    of a plugin state, for ethernet interfaces only. */
module NmrsPlugin {
  import opened Common
  import opened IfaceType
  import opened Seqs

  /** An interface as the plugin protocol carries it: its name and its type
      as text. */
  datatype NetIface = NetIface(name: string, ifaceType: string)

  /** A state as the plugin protocol carries it; the interface list is
      optional. */
  datatype PluginNetState = PluginNetState(interfaces: Option<seq<NetIface>>)

  datatype NmPlugin = NmPlugin

  /** `NmPlugin::new` never fails. */
  function NewPlugin(): (r: Result<NmPlugin, NmstateError>)
    ensures r.Ok?
  {
    Ok(NmPlugin)
  }

  /** The error for a type the plugin cannot write. */
  function UnsupportedType(t: InterfaceType): NmstateError
  {
    NmstateError(InvalidArgument, "Unsupported interface type: " + InterfaceTypeDebug(t))
  }

  /** The NetworkManager name of an interface type: only ethernet has one. */
  function NmstateIfaceTypeToNm(t: InterfaceType): (r: Result<string, NmstateError>)
    ensures r.Ok? <==> t == Ethernet
    ensures r.Ok? ==> r.value == "ethernet"
    ensures r.Err? ==> r.error.kind == InvalidArgument && r.error == UnsupportedType(t)
  {
    match t
    case Ethernet => Ok("ethernet")
    case _ => Err(UnsupportedType(t))
  }

  /** The `[connection]` setting of a keyfile. */
  datatype NmrsSettingConnection = NmrsSettingConnection(id: string, uuid: string, ifaceType: string, ifaceName: string)

  /** `NmrsSettingConnection::new`, with the fresh random UUID as a
      parameter. */
  function NewSettingConnection(iface: NetIface, uuid: string): (r: Result<NmrsSettingConnection, NmstateError>)
    ensures r.Ok? <==> InterfaceTypeFromStr(iface.ifaceType) == Ethernet
    ensures r.Ok? ==> r.value == NmrsSettingConnection(iface.name, uuid, "ethernet", iface.name)
    ensures r.Err? ==> r.error == UnsupportedType(InterfaceTypeFromStr(iface.ifaceType))
  {
    var t :- NmstateIfaceTypeToNm(InterfaceTypeFromStr(iface.ifaceType));
    Ok(NmrsSettingConnection(iface.name, uuid, t, iface.name))
  }

  /** Only the type text `ethernet` is accepted. */
  lemma NewAcceptsOnlyEthernet(iface: NetIface, uuid: string)
    ensures NewSettingConnection(iface, uuid).Ok? <==> iface.ifaceType == "ethernet"
  {
    if InterfaceTypeFromStr(iface.ifaceType) == Ethernet {
      PrintParseRoundTrip(iface.ifaceType);
    }
  }

  // ---------------------------------------------------------------------
  // Keyfiles, as sections of key/value pairs
  // ---------------------------------------------------------------------

  datatype Section = Section(name: string, entries: seq<(string, string)>)

  type Keyfile = seq<Section>

  /** `to_keyfile_string`: a `[connection]` section with the id, the UUID
      and the type; the interface name is not written. */
  function ToKeyfile(c: NmrsSettingConnection): Keyfile
  {
    [Section("connection", [("id", c.id), ("uuid", c.uuid), ("type", c.ifaceType)])]
  }

  /** The value of `key` in the section `section`, if the keyfile has it. */
  function Lookup(kf: Keyfile, section: string, key: string): (r: Option<string>)
    ensures r.Some? ==> exists s :: s in kf && s.name == section && (key, r.value) in s.entries
  {
    if kf == [] then None
    else if kf[0].name == section then
      match LookupKey(kf[0].entries, key)
      case Some(v) => Some(v)
      case None => Lookup(kf[1..], section, key)
    else Lookup(kf[1..], section, key)
  }

  /** The keyfile holds the id, UUID and type under `[connection]`, and no
      `interface-name`. */
  lemma KeyfileKeys(c: NmrsSettingConnection)
    ensures Lookup(ToKeyfile(c), "connection", "id") == Some(c.id)
    ensures Lookup(ToKeyfile(c), "connection", "uuid") == Some(c.uuid)
    ensures Lookup(ToKeyfile(c), "connection", "type") == Some(c.ifaceType)
    ensures Lookup(ToKeyfile(c), "connection", "interface-name").None?
  {
    var e := ToKeyfile(c)[0].entries;
    assert e[1..] == [("uuid", c.uuid), ("type", c.ifaceType)];
    assert e[1..][1..] == [("type", c.ifaceType)];
    assert LookupKey(e[1..], "type") == Some(c.ifaceType);
    assert LookupKey(e, "uuid") == Some(c.uuid);
    assert LookupKey(e, "type") == Some(c.ifaceType);
    assert ToKeyfile(c)[1..] == [];
  }

  /** Reading a `[connection]` setting back from a keyfile. The interface
      name is not in the file, so it is taken to be the id. */
  function FromKeyfile(kf: Keyfile): Option<NmrsSettingConnection>
  {
    var id := Lookup(kf, "connection", "id");
    var uuid := Lookup(kf, "connection", "uuid");
    var t := Lookup(kf, "connection", "type");
    if id.Some? && uuid.Some? && t.Some? then Some(NmrsSettingConnection(id.value, uuid.value, t.value, id.value))
    else None
  }

  /** A setting the plugin builds can be read back from its keyfile: nothing
      is lost by leaving out the interface name, because it equals the id. */
  lemma KeyfileRoundTrip(iface: NetIface, uuid: string)
    requires NewSettingConnection(iface, uuid).Ok?
    ensures FromKeyfile(ToKeyfile(NewSettingConnection(iface, uuid).value)) == Some(NewSettingConnection(iface, uuid).value)
  {
    KeyfileKeys(NewSettingConnection(iface, uuid).value);
  }

  /** `NmrsProfile::try_from` followed by `to_keyfile_string`. */
  function ProfileKeyfile(iface: NetIface, uuid: string): Result<Keyfile, NmstateError>
  {
    var c :- NewSettingConnection(iface, uuid);
    Ok(ToKeyfile(c))
  }

  // ---------------------------------------------------------------------
  // generate_configs
  // ---------------------------------------------------------------------

  /** The keyfile of each interface, or its error, the `i`-th built with
      `uuidAt(i)`. */
  function Profiles(ifaces: seq<NetIface>, uuidAt: nat -> string): (rs: seq<Result<Keyfile, NmstateError>>)
    ensures |rs| == |ifaces|
  {
    seq(|ifaces|, i requires 0 <= i < |ifaces| => ProfileKeyfile(ifaces[i], uuidAt(i)))
  }

  /** The configs for `ifaces`: all of them, or the error of the first
      interface that cannot be written. */
  function ConfigsSpec(ifaces: seq<NetIface>, uuidAt: nat -> string): Result<seq<Keyfile>, NmstateError>
  {
    Collect(Profiles(ifaces, uuidAt))
  }

  /** The position of the first interface whose type is not ethernet, or
      the length when there is none. */
  function FirstUnsupported(ifaces: seq<NetIface>): (k: nat)
    ensures k <= |ifaces|
    ensures forall j :: 0 <= j < k ==> ifaces[j].ifaceType == "ethernet"
    ensures k < |ifaces| ==> ifaces[k].ifaceType != "ethernet"
  {
    if ifaces == [] then 0
    else if ifaces[0].ifaceType != "ethernet" then 0
    else 1 + FirstUnsupported(ifaces[1..])
  }

  /** The keyfile of an ethernet interface with a given UUID. */
  function EthernetKeyfile(iface: NetIface, uuid: string): Keyfile
  {
    ToKeyfile(NmrsSettingConnection(iface.name, uuid, "ethernet", iface.name))
  }

  /** One interface's conversion: the ethernet keyfile, or the error naming
      its parsed type. */
  lemma ProfileKeyfileMeaning(iface: NetIface, uuid: string)
    ensures ProfileKeyfile(iface, uuid).Ok? <==> iface.ifaceType == "ethernet"
    ensures ProfileKeyfile(iface, uuid).Ok? ==> ProfileKeyfile(iface, uuid).value == EthernetKeyfile(iface, uuid)
    ensures ProfileKeyfile(iface, uuid).Err? ==>
      ProfileKeyfile(iface, uuid).error == UnsupportedType(InterfaceTypeFromStr(iface.ifaceType))
  {
    NewAcceptsOnlyEthernet(iface, uuid);
  }

  /** The configs succeed exactly when every interface is ethernet; then
      there is one keyfile per interface, in order, each named after its
      interface; otherwise the error is that of the first interface that
      is not ethernet. */
  lemma ConfigsMeaning(ifaces: seq<NetIface>, uuidAt: nat -> string)
    ensures var r := ConfigsSpec(ifaces, uuidAt);
      var k := FirstUnsupported(ifaces);
      && (r.Ok? <==> k == |ifaces|)
      && (r.Ok? ==> |r.value| == |ifaces|
                    && forall i :: 0 <= i < |ifaces| ==> r.value[i] == EthernetKeyfile(ifaces[i], uuidAt(i)))
      && (r.Err? ==> k < |ifaces| && r.error == UnsupportedType(InterfaceTypeFromStr(ifaces[k].ifaceType)))
  {
    var rs := Profiles(ifaces, uuidAt);
    CollectMeaning(rs);
    forall i | 0 <= i < |ifaces|
      ensures rs[i].Ok? <==> ifaces[i].ifaceType == "ethernet"
      ensures rs[i].Ok? ==> rs[i].value == EthernetKeyfile(ifaces[i], uuidAt(i))
      ensures rs[i].Err? ==> rs[i].error == UnsupportedType(InterfaceTypeFromStr(ifaces[i].ifaceType))
    {
      ProfileKeyfileMeaning(ifaces[i], uuidAt(i));
    }
    var k := FirstErr(rs);
    var k' := FirstUnsupported(ifaces);
    assert k == k';
  }

  /** `NmPlugin::generate_configs`, the `i`-th interface's UUID being
      `uuidAt(i)`. */
  method GenerateConfigs(self: NmPlugin, netState: PluginNetState, uuidAt: nat -> string)
    returns (r: Result<seq<Keyfile>, NmstateError>)
    ensures netState.interfaces.None? ==> r == Ok([])
    ensures netState.interfaces.Some? ==> r == ConfigsSpec(netState.interfaces.value, uuidAt)
  {
    if netState.interfaces.None? {
      return Ok([]);
    }
    var ifaces := netState.interfaces.value;
    ghost var rs := Profiles(ifaces, uuidAt);
    var confs: seq<Keyfile> := [];
    for i := 0 to |ifaces|
      invariant Collect(rs[..i]) == Ok(confs)
    {
      assert rs[..i + 1][..i] == rs[..i];
      var profile := ProfileKeyfile(ifaces[i], uuidAt(i));
      if profile.Err? {
        CollectErrPersists(rs, i + 1);
        return Err(profile.error);
      }
      confs := confs + [profile.value];
    }
    assert rs[..|ifaces|] == rs;
    r := Ok(confs);
  }
}
