/** A NetworkManager connection (`NmConnection`) and its `connection`
    setting (`NmSettingConnection`), with their D-Bus parsers, serialisers
    and accessors. The bridge and bridge-port settings are not part of this
    model. */
module NmConn {
  import opened Common
  import opened DbusValue
  import opened NmIp

  const NM_AUTOCONNECT_PORT_DEFAULT: i32 := -1
  const NM_AUTOCONNECT_PORT_YES: i32 := 1
  const NM_AUTOCONNECT_PORT_NO: i32 := 0

  datatype NmSettingConnection = NmSettingConnection(
    id: Option<string>,
    uuid: Option<string>,
    ifaceType: Option<string>,
    ifaceName: Option<string>,
    controller: Option<string>,
    controllerType: Option<string>,
    autoconnect: Option<bool>,
    autoconnectPorts: Option<bool>)

  datatype NmConnection = NmConnection(
    connection: Option<NmSettingConnection>,
    ipv4: Option<NmSettingIp>,
    ipv6: Option<NmSettingIp>)

  const DEFAULT_NM_CONNECTION: NmConnection := NmConnection(None, None, None)

  /** The string-valued keys of the `connection` setting. */
  const STRING_KEYS: set<string> := {"id", "uuid", "type", "interface-name", "master", "slave-type"}

  /** Every key the parser reads holds a value of the type it expects. */
  predicate WellTyped(m: Setting)
  {
    && (forall k :: k in STRING_KEYS && k in m ==> m[k].DStr?)
    && ("autoconnect" in m ==> m["autoconnect"].DBool?)
    && ("autoconnect-slaves" in m ==> m["autoconnect-slaves"].DInt32?)
  }

  /** `NmSettingConnection::try_from`. */
  function ParseSettingConnection(m: Setting): (r: Result<NmSettingConnection, NmError>)
    ensures r.Ok? <==> WellTyped(m)
    ensures r.Ok? && "autoconnect" !in m ==> r.value.autoconnect == Some(true)
    ensures r.Ok? && "autoconnect" in m ==> r.value.autoconnect == Some(m["autoconnect"].b)
    ensures r.Ok? ==> (r.value.autoconnectPorts == Some(true) <==>
                         "autoconnect-slaves" in m && m["autoconnect-slaves"].i == NM_AUTOCONNECT_PORT_YES)
    ensures r.Ok? ==> (r.value.autoconnectPorts == Some(false) <==>
                         "autoconnect-slaves" in m && m["autoconnect-slaves"].i == NM_AUTOCONNECT_PORT_NO)
    ensures r.Ok? ==> (r.value.ifaceName.Some? <==> "interface-name" in m)
  {
    var ports :- GetI32(m, "autoconnect-slaves");
    var autoconnectPorts :=
      if ports == Some(NM_AUTOCONNECT_PORT_YES) then Some(true)
      else if ports == Some(NM_AUTOCONNECT_PORT_NO) then Some(false)
      else None;
    var id :- GetString(m, "id");
    var uuid :- GetString(m, "uuid");
    var ifaceType :- GetString(m, "type");
    var ifaceName :- GetString(m, "interface-name");
    var controller :- GetString(m, "master");
    var controllerType :- GetString(m, "slave-type");
    var autoconnect :- GetBool(m, "autoconnect");
    Ok(NmSettingConnection(id, uuid, ifaceType, ifaceName, controller, controllerType,
      if autoconnect.Some? then autoconnect else Some(true),
      autoconnectPorts))
  }

  /** Inserts `key` when the optional string is present. */
  function PutStr(m: Setting, key: string, v: Option<string>): (r: Setting)
    ensures key in r <==> key in m || v.Some?
    ensures v.Some? ==> r[key] == DStr(v.value)
  {
    if v.Some? then m[key := DStr(v.value)] else m
  }

  function PortsCode(p: Option<bool>): i32
  {
    match p
    case Some(true) => NM_AUTOCONNECT_PORT_YES
    case Some(false) => NM_AUTOCONNECT_PORT_NO
    case None => NM_AUTOCONNECT_PORT_DEFAULT
  }

  /** The map `NmSettingConnection::to_value` builds. */
  function SettingConnectionValue(s: NmSettingConnection): Setting
  {
    var m1 := PutStr(map[], "id", s.id);
    var m2 := PutStr(m1, "uuid", s.uuid);
    var m3 := PutStr(m2, "type", s.ifaceType);
    var m4 := PutStr(m3, "interface-name", s.ifaceName);
    var m5 := PutStr(m4, "master", s.controller);
    var m6 := PutStr(m5, "slave-type", s.controllerType);
    var m7 := m6["autoconnect" := DBool(s.autoconnect != Some(false))];
    m7["autoconnect-slaves" := DInt32(PortsCode(s.autoconnectPorts))]
  }

  /** The keys `to_value` writes: each string field under its own key
      exactly when it is set, `autoconnect` always (false only for
      `Some(false)`), and `autoconnect-slaves` always, as 1, 0 or -1. */
  lemma SettingConnectionValueKeys(s: NmSettingConnection)
    ensures var ret := SettingConnectionValue(s);
      && ("id" in ret <==> s.id.Some?) && ("uuid" in ret <==> s.uuid.Some?)
      && ("type" in ret <==> s.ifaceType.Some?) && ("interface-name" in ret <==> s.ifaceName.Some?)
      && ("master" in ret <==> s.controller.Some?) && ("slave-type" in ret <==> s.controllerType.Some?)
      && (s.id.Some? ==> ret["id"] == DStr(s.id.value))
      && (s.uuid.Some? ==> ret["uuid"] == DStr(s.uuid.value))
      && (s.ifaceType.Some? ==> ret["type"] == DStr(s.ifaceType.value))
      && (s.ifaceName.Some? ==> ret["interface-name"] == DStr(s.ifaceName.value))
      && (s.controller.Some? ==> ret["master"] == DStr(s.controller.value))
      && (s.controllerType.Some? ==> ret["slave-type"] == DStr(s.controllerType.value))
      && ret["autoconnect"] == DBool(s.autoconnect != Some(false))
      && (s.autoconnectPorts == Some(true) ==> ret["autoconnect-slaves"] == DInt32(1))
      && (s.autoconnectPorts == Some(false) ==> ret["autoconnect-slaves"] == DInt32(0))
      && (s.autoconnectPorts == None ==> ret["autoconnect-slaves"] == DInt32(-1))
      && ret.Keys <= STRING_KEYS + {"autoconnect", "autoconnect-slaves"}
  {
  }

  /** `NmSettingConnection::to_value`. */
  method SettingConnectionToValue(s: NmSettingConnection) returns (ret: Setting)
    ensures ret == SettingConnectionValue(s)
    ensures "autoconnect" in ret && "autoconnect-slaves" in ret
    ensures ParseSettingConnection(ret) == Ok(NormalisedSetting(s))
  {
    ret := map[];
    ret := PutStr(ret, "id", s.id);
    ret := PutStr(ret, "uuid", s.uuid);
    ret := PutStr(ret, "type", s.ifaceType);
    ret := PutStr(ret, "interface-name", s.ifaceName);
    ret := PutStr(ret, "master", s.controller);
    ret := PutStr(ret, "slave-type", s.controllerType);
    ret := ret["autoconnect" := if s.autoconnect == Some(false) then DBool(false) else DBool(true)];
    var code := match s.autoconnectPorts
      case Some(true) => NM_AUTOCONNECT_PORT_YES
      case Some(false) => NM_AUTOCONNECT_PORT_NO
      case None => NM_AUTOCONNECT_PORT_DEFAULT;
    ret := ret["autoconnect-slaves" := DInt32(code)];
    SettingConnectionRoundTrip(s);
  }

  /** What survives a trip through D-Bus: `autoconnect` is always written,
      so an unset one comes back as `Some(true)`. */
  function NormalisedSetting(s: NmSettingConnection): NmSettingConnection
  {
    s.(autoconnect := Some(s.autoconnect != Some(false)))
  }

  /** Parsing what `to_value` wrote gives back the setting, with only
      `autoconnect` normalised; a normalised setting round-trips exactly. */
  lemma SettingConnectionRoundTrip(s: NmSettingConnection)
    ensures ParseSettingConnection(SettingConnectionValue(s)) == Ok(NormalisedSetting(s))
    ensures NormalisedSetting(NormalisedSetting(s)) == NormalisedSetting(s)
  {
    var m := SettingConnectionValue(s);
    ValueWellTyped(s);
    ValueFields(s);
    ParseWellTyped(m);
  }

  lemma ValueWellTyped(s: NmSettingConnection)
    ensures WellTyped(SettingConnectionValue(s))
  {
    SettingConnectionValueKeys(s);
  }

  /** The fields read back from the map `to_value` builds. */
  lemma ValueFields(s: NmSettingConnection)
    ensures var m := SettingConnectionValue(s);
      && StrAt(m, "id") == s.id && StrAt(m, "uuid") == s.uuid && StrAt(m, "type") == s.ifaceType
      && StrAt(m, "interface-name") == s.ifaceName && StrAt(m, "master") == s.controller
      && StrAt(m, "slave-type") == s.controllerType
      && "autoconnect" in m && m["autoconnect"] == DBool(s.autoconnect != Some(false))
      && "autoconnect-slaves" in m && m["autoconnect-slaves"] == DInt32(PortsCode(s.autoconnectPorts))
  {
    SettingConnectionValueKeys(s);
  }

  /** The string under `key`, when there is one. */
  function StrAt(m: Setting, key: string): Option<string>
  {
    if key in m && m[key].DStr? then Some(m[key].s) else None
  }

  /** What the parser makes of a well-typed map, field by field. */
  lemma ParseWellTyped(m: Setting)
    requires WellTyped(m)
    ensures ParseSettingConnection(m) == Ok(NmSettingConnection(
      StrAt(m, "id"), StrAt(m, "uuid"), StrAt(m, "type"), StrAt(m, "interface-name"),
      StrAt(m, "master"), StrAt(m, "slave-type"),
      if "autoconnect" in m then Some(m["autoconnect"].b) else Some(true),
      if "autoconnect-slaves" !in m then None
      else if m["autoconnect-slaves"].i == NM_AUTOCONNECT_PORT_YES then Some(true)
      else if m["autoconnect-slaves"].i == NM_AUTOCONNECT_PORT_NO then Some(false)
      else None))
  {
    assert GetString(m, "id") == Ok(StrAt(m, "id"));
    assert GetString(m, "uuid") == Ok(StrAt(m, "uuid"));
    assert GetString(m, "type") == Ok(StrAt(m, "type"));
    assert GetString(m, "interface-name") == Ok(StrAt(m, "interface-name"));
    assert GetString(m, "master") == Ok(StrAt(m, "master"));
    assert GetString(m, "slave-type") == Ok(StrAt(m, "slave-type"));
  }

  // ---------------------------------------------------------------------
  // NmConnection
  // ---------------------------------------------------------------------

  /** The outcome of `NmConnection::try_from`: each present section is
      parsed, in the order connection, ipv4, ipv6, and the first failure is
      the result. */
  function ParsedConnection(v: ConnectionValue): Result<NmConnection, NmError>
  {
    var connection :- if "connection" in v then MapSome(ParseSettingConnection(v["connection"])) else Ok(None);
    var ipv4 :- if "ipv4" in v then MapSome(ParseSettingIp(v["ipv4"])) else Ok(None);
    var ipv6 :- if "ipv6" in v then MapSome(ParseSettingIp(v["ipv6"])) else Ok(None);
    Ok(NmConnection(connection, ipv4, ipv6))
  }

  function MapSome<T>(r: Result<T, NmError>): (s: Result<Option<T>, NmError>)
    ensures s.Ok? <==> r.Ok?
    ensures s.Ok? ==> s.value == Some(r.value)
    ensures s.Err? ==> s.error == r.error
  {
    match r
    case Ok(x) => Ok(Some(x))
    case Err(e) => Err(e)
  }

  /** `NmConnection::try_from`: starts from the default connection and
      fills in each section present in the map. */
  method ParseConnection(v: ConnectionValue) returns (r: Result<NmConnection, NmError>)
    ensures r == ParsedConnection(v)
    ensures r.Ok? ==>
      && (r.value.connection.Some? <==> "connection" in v)
      && (r.value.ipv4.Some? <==> "ipv4" in v)
      && (r.value.ipv6.Some? <==> "ipv6" in v)
    ensures "connection" in v && ParseSettingConnection(v["connection"]).Err? ==>
              r == Err(ParseSettingConnection(v["connection"]).error)
  {
    var nmConn := DEFAULT_NM_CONNECTION;
    if "connection" in v {
      var c := ParseSettingConnection(v["connection"]);
      if c.Err? {
        return Err(c.error);
      }
      nmConn := nmConn.(connection := Some(c.value));
    }
    if "ipv4" in v {
      var ip := ParseSettingIp(v["ipv4"]);
      if ip.Err? {
        return Err(ip.error);
      }
      nmConn := nmConn.(ipv4 := Some(ip.value));
    }
    if "ipv6" in v {
      var ip := ParseSettingIp(v["ipv6"]);
      if ip.Err? {
        return Err(ip.error);
      }
      nmConn := nmConn.(ipv6 := Some(ip.value));
    }
    r := Ok(nmConn);
  }

  /** The map `NmConnection::to_value` builds. */
  function ConnectionValueOf(c: NmConnection): ConnectionValue
  {
    var v1: ConnectionValue := if c.connection.Some? then map["connection" := SettingConnectionValue(c.connection.value)] else map[];
    var v2 := if c.ipv4.Some? then v1["ipv4" := SettingIpValue(c.ipv4.value)] else v1;
    if c.ipv6.Some? then v2["ipv6" := SettingIpValue(c.ipv6.value)] else v2
  }

  /** `NmConnection::to_value`: one section per present setting, under the
      key `try_from` reads it from. */
  method ConnectionToValue(c: NmConnection) returns (ret: ConnectionValue)
    ensures ret == ConnectionValueOf(c)
    ensures ("connection" in ret <==> c.connection.Some?)
         && ("ipv4" in ret <==> c.ipv4.Some?)
         && ("ipv6" in ret <==> c.ipv6.Some?)
    ensures ret.Keys <= {"connection", "ipv4", "ipv6"}
    ensures RoundTrips(c.ipv4) && RoundTrips(c.ipv6) ==>
      ParsedConnection(ret) ==
        Ok(c.(connection := if c.connection.Some? then Some(NormalisedSetting(c.connection.value)) else None))
  {
    ret := map[];
    if c.connection.Some? {
      var s := SettingConnectionToValue(c.connection.value);
      ret := ret["connection" := s];
    }
    if c.ipv4.Some? {
      var s := SettingIpToValue(c.ipv4.value);
      ret := ret["ipv4" := s];
    }
    if c.ipv6.Some? {
      var s := SettingIpToValue(c.ipv6.value);
      ret := ret["ipv6" := s];
    }
    ConnectionRoundTrip(c);
  }

  /** An IP setting that survives a trip through D-Bus. */
  predicate RoundTrips(ip: Option<NmSettingIp>)
  {
    ip.Some? ==> ip.value.ipMethod.Some? && ip.value.ipMethod.value != LinkLocal
  }

  /** Serialising a connection and parsing it back gives the connection
      with `autoconnect` normalised, provided each IP setting has a method
      other than `LinkLocal`; an IP setting with `LinkLocal` makes the
      parse fail. */
  lemma ConnectionRoundTrip(c: NmConnection)
    ensures RoundTrips(c.ipv4) && RoundTrips(c.ipv6) ==>
      ParsedConnection(ConnectionValueOf(c)) ==
        Ok(c.(connection := if c.connection.Some? then Some(NormalisedSetting(c.connection.value)) else None))
    ensures c.ipv4 == Some(NmSettingIp(Some(LinkLocal))) ==> ParsedConnection(ConnectionValueOf(c)).Err?
  {
    var v := ConnectionValueOf(c);
    if c.connection.Some? {
      SettingConnectionRoundTrip(c.connection.value);
      assert v["connection"] == SettingConnectionValue(c.connection.value);
    }
    if c.ipv4.Some? {
      SettingIpRoundTrip(c.ipv4.value);
      assert v["ipv4"] == SettingIpValue(c.ipv4.value);
    }
    if c.ipv6.Some? {
      SettingIpRoundTrip(c.ipv6.value);
      assert v["ipv6"] == SettingIpValue(c.ipv6.value);
    }
  }

  /** `NmConnection::iface_name`. */
  function IfaceName(c: NmConnection): (r: Option<string>)
    ensures r.Some? <==> c.connection.Some? && c.connection.value.ifaceName.Some?
    ensures r.Some? ==> r.value == c.connection.value.ifaceName.value
  {
    if c.connection.Some? then c.connection.value.ifaceName else None
  }

  /** `NmConnection::iface_type`. */
  function IfaceType(c: NmConnection): (r: Option<string>)
    ensures r.Some? <==> c.connection.Some? && c.connection.value.ifaceType.Some?
    ensures r.Some? ==> r.value == c.connection.value.ifaceType.value
  {
    if c.connection.Some? then c.connection.value.ifaceType else None
  }

  /** `NmConnection::uuid`. */
  function Uuid(c: NmConnection): (r: Option<string>)
    ensures r.Some? <==> c.connection.Some? && c.connection.value.uuid.Some?
    ensures r.Some? ==> r.value == c.connection.value.uuid.value
  {
    if c.connection.Some? then c.connection.value.uuid else None
  }

  /** The accessors read back what the serialised connection section
      carries under `interface-name`, `type` and `uuid`. */
  lemma AccessorsMatchValue(c: NmConnection)
    requires c.connection.Some?
    ensures var s := ConnectionValueOf(c)["connection"];
      && (IfaceName(c).Some? <==> "interface-name" in s)
      && (IfaceName(c).Some? ==> s["interface-name"] == DStr(IfaceName(c).value))
      && (IfaceType(c).Some? <==> "type" in s)
      && (IfaceType(c).Some? ==> s["type"] == DStr(IfaceType(c).value))
      && (Uuid(c).Some? <==> "uuid" in s)
      && (Uuid(c).Some? ==> s["uuid"] == DStr(Uuid(c).value))
  {
    assert ConnectionValueOf(c)["connection"] == SettingConnectionValue(c.connection.value);
  }
}
