/** The IP setting of a NetworkManager connection (`NmSettingIp`) and its
    `method`, with the D-Bus parser and serialiser. */
module NmIp {
  import opened Common
  import opened DbusValue

  datatype NmSettingIpMethod = Auto | Disabled | LinkLocal | Manual | Shared | Dhcp | Ignore

  /** `Default for NmSettingIpMethod`. */
  const DEFAULT_IP_METHOD: NmSettingIpMethod := Auto

  /** The default method is `Auto`, and it survives being printed and
      parsed again. */
  lemma DefaultMethodIsAuto()
    ensures DEFAULT_IP_METHOD == Auto
    ensures MethodFromString(MethodToString(DEFAULT_IP_METHOD)) == Ok(DEFAULT_IP_METHOD)
  {
  }

  datatype NmSettingIp = NmSettingIp(ipMethod: Option<NmSettingIpMethod>)

  /** `Display for NmSettingIpMethod`. Every method prints to a name the
      parser maps back to it, except `LinkLocal`, whose printed form is not
      an accepted name at all. */
  function MethodToString(m: NmSettingIpMethod): (s: string)
    ensures m != LinkLocal ==> s in METHOD_NAMES && MethodFromString(s) == Ok(m)
    ensures m == LinkLocal ==> s !in METHOD_NAMES
  {
    match m
    case Auto => "auto"
    case Disabled => "disabled"
    case LinkLocal => "link-local"
    case Manual => "manual"
    case Shared => "shared"
    case Dhcp => "dhcp"
    case Ignore => "ignore"
  }

  /** The seven strings `TryFrom<&str>` accepts. Note `link_local` with an
      underscore, while `Display` writes `link-local`. */
  const METHOD_NAMES: set<string> :=
    {"auto", "disabled", "link_local", "manual", "shared", "dhcp", "ignore"}

  /** `TryFrom<&str> for NmSettingIpMethod`. */
  function MethodFromString(s: string): (r: Result<NmSettingIpMethod, NmError>)
    ensures r.Ok? <==> s in METHOD_NAMES
    ensures r.Err? ==> r.error == NmError(NmInvalidArgument, "Invalid IP method " + s)
  {
    match s
    case "auto" => Ok(Auto)
    case "disabled" => Ok(Disabled)
    case "link_local" => Ok(LinkLocal)
    case "manual" => Ok(Manual)
    case "shared" => Ok(Shared)
    case "dhcp" => Ok(Dhcp)
    case "ignore" => Ok(Ignore)
    case _ => Err(NmError(NmInvalidArgument, "Invalid IP method " + s))
  }

  /** Every printed method parses back, except `LinkLocal`: it prints as
      `link-local`, which the parser rejects. */
  lemma MethodRoundTrip(m: NmSettingIpMethod)
    ensures m != LinkLocal ==> MethodFromString(MethodToString(m)) == Ok(m)
    ensures m == LinkLocal ==> MethodFromString(MethodToString(m)).Err?
  {
  }

  /** Every accepted string parses, and each one other than `link_local`
      is exactly what its method prints. */
  lemma MethodParsePrint(s: string)
    requires s in METHOD_NAMES
    ensures MethodFromString(s).Ok?
    ensures s != "link_local" ==> MethodToString(MethodFromString(s).value) == s
    ensures s == "link_local" ==> MethodFromString(s).value == LinkLocal
  {
  }

  /** `NmSettingIp::try_from`: the `method` key is mandatory. */
  function ParseSettingIp(setting: Setting): (r: Result<NmSettingIp, NmError>)
    ensures "method" !in setting ==> r == Err(NmError(NmInvalidArgument, "No IP method found"))
    ensures r.Ok? ==> r.value.ipMethod.Some?
    ensures r.Ok? <==> "method" in setting && setting["method"].DStr? && setting["method"].s in METHOD_NAMES
  {
    var methodStr :- GetString(setting, "method");
    if methodStr.Some? then
      var m :- MethodFromString(methodStr.value);
      Ok(NmSettingIp(Some(m)))
    else
      Err(NmError(NmInvalidArgument, "No IP method found"))
  }

  /** The map `NmSettingIp::to_value` builds. */
  function SettingIpValue(ip: NmSettingIp): Setting
  {
    if ip.ipMethod.Some? then map["method" := DStr(MethodToString(ip.ipMethod.value))] else map[]
  }

  /** `NmSettingIp::to_value`: writes `method` exactly when it is set. */
  method SettingIpToValue(ip: NmSettingIp) returns (ret: Setting)
    ensures ret == SettingIpValue(ip)
    ensures "method" in ret <==> ip.ipMethod.Some?
    ensures ret.Keys <= {"method"}
  {
    ret := map[];
    if ip.ipMethod.Some? {
      ret := ret["method" := DStr(MethodToString(ip.ipMethod.value))];
    }
  }

  /** Serialising and parsing back gives the same setting whenever the
      method is set and is not `LinkLocal`; a setting without a method, or
      with `LinkLocal`, does not survive. */
  lemma SettingIpRoundTrip(ip: NmSettingIp)
    ensures ip.ipMethod.Some? && ip.ipMethod.value != LinkLocal ==> ParseSettingIp(SettingIpValue(ip)) == Ok(ip)
    ensures ip.ipMethod.None? ==> ParseSettingIp(SettingIpValue(ip)).Err?
    ensures ip.ipMethod == Some(LinkLocal) ==> ParseSettingIp(SettingIpValue(ip)).Err?
  {
    if ip.ipMethod.Some? {
      MethodRoundTrip(ip.ipMethod.value);
    }
  }
}
