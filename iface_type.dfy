/** The interface type and interface state enums of nmstate, with their
    string conversions (`From<&str>`, `Display`) and the serde decoding of the
    `"type"` field of an interface document. */
module IfaceType {
  import opened Common

  datatype InterfaceType =
    | Bond | LinuxBridge | Dummy | Ethernet | Loopback | MacVlan | MacVtap
    | OvsInterface | Tun | Veth | Vlan | Vrf | Vxlan | Unknown
    | Other(name: string)

  datatype InterfaceState = Up | Down | Absent | Unknown

  /** Both enums default to their `Unknown` variant. */
  const DEFAULT_INTERFACE_TYPE: InterfaceType := InterfaceType.Unknown
  const DEFAULT_INTERFACE_STATE: InterfaceState := InterfaceState.Unknown

  /** Both enums default to `Unknown`, and the default type survives being
      printed and parsed again. */
  lemma DefaultsAreUnknown()
    ensures DEFAULT_INTERFACE_TYPE == InterfaceType.Unknown
    ensures DEFAULT_INTERFACE_STATE == InterfaceState.Unknown
    ensures InterfaceTypeFromStr(InterfaceTypeToString(DEFAULT_INTERFACE_TYPE)) == DEFAULT_INTERFACE_TYPE
  {
  }

  /** The fourteen strings that `From<&str>` recognises. */
  const KNOWN_TYPE_NAMES: set<string> :=
    {"bond", "linux-bridge", "dummy", "ethernet", "loopback", "macvlan", "macvtap",
     "ovs-interface", "tun", "veth", "vlan", "vrf", "vxlan", "unknown"}

  /** `From<&str> for InterfaceType`. */
  function InterfaceTypeFromStr(s: string): (t: InterfaceType)
    ensures t.Other? <==> s !in KNOWN_TYPE_NAMES
    ensures t.Other? ==> t.name == s
  {
    match s
    case "bond" => Bond
    case "linux-bridge" => LinuxBridge
    case "dummy" => Dummy
    case "ethernet" => Ethernet
    case "loopback" => Loopback
    case "macvlan" => MacVlan
    case "macvtap" => MacVtap
    case "ovs-interface" => OvsInterface
    case "tun" => Tun
    case "veth" => Veth
    case "vlan" => Vlan
    case "vrf" => Vrf
    case "vxlan" => Vxlan
    case "unknown" => InterfaceType.Unknown
    case _ => Other(s)
  }

  /** `Display for InterfaceType`. Two variants print differently from the
      string that parses to them: `LinuxBridge` and `OvsInterface`. */
  function InterfaceTypeToString(t: InterfaceType): (s: string)
    ensures t.Other? ==> s == t.name
    ensures !t.Other? ==> s in KNOWN_TYPE_NAMES + {"linuxbridge", "ovsinterface"}
  {
    match t
    case Bond => "bond"
    case LinuxBridge => "linuxbridge"
    case Dummy => "dummy"
    case Ethernet => "ethernet"
    case Loopback => "loopback"
    case MacVlan => "macvlan"
    case MacVtap => "macvtap"
    case OvsInterface => "ovsinterface"
    case Tun => "tun"
    case Veth => "veth"
    case Vlan => "vlan"
    case Vrf => "vrf"
    case Vxlan => "vxlan"
    case Unknown => "unknown"
    case Other(s) => s
  }

  /** Parsing what was printed gives back the type, except for the two
      variants whose printed form lacks the dash, and except for an `Other`
      that carries one of the known names. */
  lemma ParsePrintRoundTrip(t: InterfaceType)
    ensures InterfaceTypeFromStr(InterfaceTypeToString(t)) == t
        <==> !(t == LinuxBridge || t == OvsInterface || (t.Other? && t.name in KNOWN_TYPE_NAMES))
  {
  }

  /** The two lossy variants print to names that parse to `Other`. */
  lemma LossyVariants()
    ensures InterfaceTypeFromStr(InterfaceTypeToString(LinuxBridge)) == Other("linuxbridge")
    ensures InterfaceTypeFromStr(InterfaceTypeToString(OvsInterface)) == Other("ovsinterface")
  {
  }

  /** Printing what was parsed gives back the string, except for the two
      dashed names. */
  lemma PrintParseRoundTrip(s: string)
    ensures InterfaceTypeToString(InterfaceTypeFromStr(s)) == s
        <==> s != "linux-bridge" && s != "ovs-interface"
  {
  }

  /** `From<&str> for InterfaceState`. */
  function InterfaceStateFromStr(s: string): (st: InterfaceState)
    ensures st == Up <==> s == "up"
    ensures st == Down <==> s == "down"
    ensures st == Absent <==> s == "absent"
    ensures st == InterfaceState.Unknown <==> s !in {"up", "down", "absent"}
  {
    match s
    case "up" => Up
    case "down" => Down
    case "absent" => Absent
    case _ => InterfaceState.Unknown
  }

  /** A character that `{:?}` on a string does not write as itself: the
      quote, the backslash and the ASCII control characters. (Rust also
      escapes non-printable characters outside ASCII; those are not
      modelled.) */
  predicate NeedsEscape(c: char)
  {
    c == '"' || c == '\\' || c < ' ' || c as int == 0x7f
  }

  function HexDigit(d: nat): char
    requires d < 16
  {
    if d < 10 then ('0' as int + d) as char else ('a' as int + d - 10) as char
  }

  /** How `{:?}` writes one character of a string. */
  function EscapeDebugChar(c: char): (r: string)
    ensures !NeedsEscape(c) ==> r == [c]
    ensures NeedsEscape(c) ==> |r| >= 2 && r[0] == '\\'
  {
    if c == '"' then "\\\""
    else if c == '\\' then "\\\\"
    else if c == '\t' then "\\t"
    else if c == '\r' then "\\r"
    else if c == '\n' then "\\n"
    else if c == '\0' then "\\0"
    else if NeedsEscape(c) then
      var n := c as int;
      "\\u{" + (if n < 16 then [HexDigit(n)] else [HexDigit(n / 16), HexDigit(n % 16)]) + "}"
    else [c]
  }

  /** The body `{:?}` writes between the quotes of a string: a string with
      nothing to escape is written as it is, and the result is never
      shorter. */
  function EscapeDebug(s: string): (r: string)
    ensures (forall i :: 0 <= i < |s| ==> !NeedsEscape(s[i])) ==> r == s
    ensures |r| >= |s|
  {
    if s == [] then [] else EscapeDebugChar(s[0]) + EscapeDebug(s[1..])
  }

  /** Every quote in the escaped body follows a backslash, so the quotes
      around it are never matched early. */
  lemma {:induction false} EscapedQuotes(s: string)
    ensures forall i :: 0 < i < |EscapeDebug(s)| && EscapeDebug(s)[i] == '"' ==> EscapeDebug(s)[i - 1] == '\\'
    ensures |EscapeDebug(s)| > 0 ==> EscapeDebug(s)[0] != '"'
  {
    if s != [] {
      EscapedQuotes(s[1..]);
      var head, tail := EscapeDebugChar(s[0]), EscapeDebug(s[1..]);
      assert EscapeDebug(s) == head + tail;
      forall i | 0 < i < |head + tail| && (head + tail)[i] == '"'
        ensures (head + tail)[i - 1] == '\\'
      {
        if i >= |head| {
          assert (head + tail)[i] == tail[i - |head|];
          if i > |head| {
            assert (head + tail)[i - 1] == tail[i - 1 - |head|];
          }
        }
      }
    }
  }

  /** The `Debug` rendering of a type, used in error messages. */
  function InterfaceTypeDebug(t: InterfaceType): string
  {
    match t
    case Bond => "Bond"
    case LinuxBridge => "LinuxBridge"
    case Dummy => "Dummy"
    case Ethernet => "Ethernet"
    case Loopback => "Loopback"
    case MacVlan => "MacVlan"
    case MacVtap => "MacVtap"
    case OvsInterface => "OvsInterface"
    case Tun => "Tun"
    case Veth => "Veth"
    case Vlan => "Vlan"
    case Vrf => "Vrf"
    case Vxlan => "Vxlan"
    case Unknown => "Unknown"
    case Other(s) => "Other(\"" + EscapeDebug(s) + "\")"
  }

  // ---------------------------------------------------------------------
  // serde decoding of the "type" field
  // ---------------------------------------------------------------------

  /** The JSON value found under the `"type"` key of an interface object:
      absent or null, a string, an object with one key naming a unit
      variant and a null value (serde's map form of a unit variant, which
      it decodes like the string), an object `{"other": <string>}` (serde's
      form of the `Other` variant), or anything else. */
  datatype TypeField = Missing | Text(text: string) | UnitTagged(variant: string) | OtherTagged(inner: string) | Malformed

  /** The variant name a string or a unit-variant map spells. */
  function SpelledName(f: TypeField): (r: Option<string>)
    ensures r.Some? <==> f.Text? || f.UnitTagged?
  {
    match f
    case Text(s) => Some(s)
    case UnitTagged(s) => Some(s)
    case _ => None
  }

  /** The name serde gives each unit variant (`rename_all = "kebab-case"`). */
  function SerdeTypeName(t: InterfaceType): string
    requires !t.Other?
  {
    match t
    case Bond => "bond"
    case LinuxBridge => "linux-bridge"
    case Dummy => "dummy"
    case Ethernet => "ethernet"
    case Loopback => "loopback"
    case MacVlan => "mac-vlan"
    case MacVtap => "mac-vtap"
    case OvsInterface => "ovs-interface"
    case Tun => "tun"
    case Veth => "veth"
    case Vlan => "vlan"
    case Vrf => "vrf"
    case Vxlan => "vxlan"
    case Unknown => "unknown"
  }

  const SERDE_TYPE_NAMES: set<string> :=
    {"bond", "linux-bridge", "dummy", "ethernet", "loopback", "mac-vlan", "mac-vtap",
     "ovs-interface", "tun", "veth", "vlan", "vrf", "vxlan", "unknown"}

  /** The unit variant a kebab-case name selects. */
  function DecodeUnitVariant(s: string): (r: Result<Option<InterfaceType>, string>)
    ensures r.Ok? <==> s in SERDE_TYPE_NAMES
    ensures r.Ok? ==> r.value.Some? && !r.value.value.Other? && SerdeTypeName(r.value.value) == s
  {
    match s
    case "bond" => Ok(Some(Bond))
    case "linux-bridge" => Ok(Some(LinuxBridge))
    case "dummy" => Ok(Some(Dummy))
    case "ethernet" => Ok(Some(Ethernet))
    case "loopback" => Ok(Some(Loopback))
    case "mac-vlan" => Ok(Some(MacVlan))
    case "mac-vtap" => Ok(Some(MacVtap))
    case "ovs-interface" => Ok(Some(OvsInterface))
    case "tun" => Ok(Some(Tun))
    case "veth" => Ok(Some(Veth))
    case "vlan" => Ok(Some(Vlan))
    case "vrf" => Ok(Some(Vrf))
    case "vxlan" => Ok(Some(Vxlan))
    case "unknown" => Ok(Some(InterfaceType.Unknown))
    case _ => Err("unknown variant " + s)
  }

  /** `Option::<InterfaceType>::deserialize(&v["type"])`: a missing type is
      `None`; a string, or a one-key map with a null value, must be the
      kebab-case name of a unit variant; `{"other": <string>}` is `Other`;
      any other value is a decoding error. */
  function DeserializeTypeField(f: TypeField): (r: Result<Option<InterfaceType>, string>)
    ensures f.Missing? ==> r == Ok(None)
    ensures f.OtherTagged? ==> r == Ok(Some(Other(f.inner)))
    ensures SpelledName(f).Some? ==> (r.Ok? <==> SpelledName(f).value in SERDE_TYPE_NAMES)
    ensures SpelledName(f).Some? && r.Ok? ==>
      r.value.Some? && !r.value.value.Other? && SerdeTypeName(r.value.value) == SpelledName(f).value
    ensures f.Malformed? ==> r.Err?
  {
    match f
    case Missing => Ok(None)
    case OtherTagged(s) => Ok(Some(Other(s)))
    case Malformed => Err("invalid type: expected a string or a map")
    case Text(s) => DecodeUnitVariant(s)
    case UnitTagged(s) => DecodeUnitVariant(s)
  }

  /** The serde name of every unit variant decodes back to that variant,
      written as a string or as a one-key map. */
  lemma SerdeTypeNameDecodes(t: InterfaceType)
    requires !t.Other?
    ensures DeserializeTypeField(Text(SerdeTypeName(t))) == Ok(Some(t))
    ensures DeserializeTypeField(UnitTagged(SerdeTypeName(t))) == Ok(Some(t))
  {
  }
}
