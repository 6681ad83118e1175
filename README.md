# nmstate-rs core, modelled in Dafny

This project models the core of nmstate-rs, the Rust rewrite of nmstate, a
declarative network manager: the user writes the desired network state (a
list of interfaces with their type, state and IP settings) and nmstate
applies it through NetworkManager or, in kernel-only mode, directly through
nispor (netlink), then verifies the result.

The model covers:

- **The interface data model** (`src/lib/iface.rs`, `src/lib/ifaces/*`,
  `src/lib/ip.rs`): `InterfaceType` and `InterfaceState` parsing and
  printing, the dispatch of a deserialised interface on its `type` field,
  the per-variant `update` merges, `BaseInterface::update_full`,
  `pre_verify_cleanup` and `verify`. The Rust values that `&mut self`
  methods change are datatypes; each such method takes the old value and
  returns the new one, assigning its fields step by step, and is proved
  against a function stating the merged value.
- **Apply and verify control** (`src/lib/net_state.rs`,
  `src/lib/nm/apply.rs`): `NetworkState` is a class whose methods change its
  fields in place. Every foreign call (NetworkManager D-Bus calls,
  checkpoint create/extend/rollback/destroy, nispor applies, verification
  attempts) is an event `Trace.Call`. Whether the n-th call of a run fails
  is given by an oracle `fails: nat -> Option<Fault>`. Each method returns
  the calls it makes, and these are proved equal to a plan function. The
  proofs cover the bounded `with_retry` loop, checkpoint commit and
  rollback, the kernel-only and NetworkManager branches with their retry
  counts and timeout arithmetic, the delete → add → change order, the
  60-second timeout extension before every 20th interface, and activation
  after all additions.
- **Backend translations**:
  - nispor → nmstate (`src/lib/nispor/base_iface.rs`, `ip.rs`, `veth.rs`);
  - nmstate → nispor (`src/lib/nispor/apply.rs`);
  - NetworkManager connections → nmstate (`src/lib/nm/show.rs`);
  - the `NmConnection`/`NmSettingConnection`/`NmSettingIp` serialiser and
    parser for D-Bus key/value maps (`src/libnm_dbus/connection/*`), with
    their round-trip properties.
- **The command line's output** (`src/cli/nmstatectl.rs`): the stable sort
  by name, the reordering of each interface mapping with `name` and `type`
  first, the verbosity table, and the interface-name filter of `show`.
- **The prototype keyfile plugin** (`src/plugin_nmrs`): one keyfile per
  interface, failing on the first interface that is not ethernet.

`Common` holds the `Option`/`Result` types and `NmstateError`. `Json`
models the serde values the source builds and compares. `Seqs` holds the
filter-map and collect-until-first-error shapes shared by several loops.

The modelled code defines some things inconsistently; the model follows the
evident local behaviour of each function:

- `BaseInterface::update` takes an `Interface` but its callers pass a base.
  The model has both forms (`BaseUpdate.UpdateFromInterface`,
  `BaseUpdate.UpdateFull`), and the variant updates merge the base with
  `update_full`.
- `BaseInterface` is given the `controller` field that
  `src/lib/nispor/apply.rs` reads.
- `InterfaceIpv4`/`InterfaceIpv6` are one record `Ip.InterfaceIp` with
  `enabled`, `dhcp`, `autoconf` and `addresses`. Its `update` copies
  `enabled` only, as `src/lib/ip.rs` does.
- `nispor_apply` is modelled with the three states it declares. The fourth
  argument at its call site is ignored.

## Model

| member | source | states |
|---|---|---|
| Ip.Update | src/lib/ip.rs:9-11 | `enabled` is taken from the other block; `dhcp`, `autoconf` and the addresses are kept |
| Ip.UpdateIdempotent | src/lib/ip.rs:9-11 | updating twice with the same block is the same as updating once |
| Ip.UpdateWithSelf | src/lib/ip.rs:9-11 | updating a block with itself changes nothing |
| Ip.DefaultIpDisabled | src/lib/ip.rs:3-6 | the default IP block is disabled, with no flag and no address |
| BaseUpdate.UpdateIpBlock | src/lib/ifaces/base.rs:38-52 | no other block keeps ours, no block of ours takes theirs, two blocks merge with `enabled` taken from theirs |
| BaseUpdate.UpdateFull | src/lib/ifaces/base.rs:30-53 | the name is always taken; type and state only when the other's is not `Unknown`; each IP family by the three-way rule; the controller is kept |
| BaseUpdate.UpdateFromInterface | src/lib/ifaces/base.rs:18-28 | only an `Unknown` interface is merged in; any other variant leaves the base unchanged |
| BaseUpdate.MergeIdempotent | src/lib/ifaces/base.rs:30-53 | merging the same base twice equals merging it once |
| BaseUpdate.MergeWithSelf | src/lib/ifaces/base.rs:30-53 | merging a base into itself changes nothing |
| BaseUpdate.MergeOfBlankOnlyRenames | src/lib/ifaces/base.rs:30-53 | a base with only a name set (everything else default) only renames |
| IfaceType.InterfaceTypeFromStr | src/lib/iface.rs:35-55 | exactly the fourteen known names parse to a named variant; any other string becomes `Other` carrying that string |
| IfaceType.InterfaceTypeToString | src/lib/iface.rs:57-81 | `Other` prints its own string; every named variant prints a known name or one of the two undashed forms `linuxbridge`, `ovsinterface` |
| IfaceType.ParsePrintRoundTrip | src/lib/iface.rs:35-81 | parsing the printed form gives the type back exactly when it is not `LinuxBridge`, not `OvsInterface` and not an `Other` holding a known name |
| IfaceType.LossyVariants | src/lib/iface.rs:37-78 | `LinuxBridge` and `OvsInterface` print to names that parse back as `Other` |
| IfaceType.PrintParseRoundTrip | src/lib/iface.rs:35-81 | printing a parsed string gives it back exactly when it is neither `linux-bridge` nor `ovs-interface` |
| IfaceType.InterfaceStateFromStr | src/lib/iface.rs:98-107 | `up`, `down` and `absent` each map to their state (both directions); every other string is `Unknown` |
| IfaceType.DefaultsAreUnknown | src/lib/iface.rs:29-96 | both the interface type and the interface state default to `Unknown`; the default type prints and parses back to itself |
| IfaceType.DecodeUnitVariant | src/lib/iface.rs:9-27 | a name decodes exactly when it is the kebab-case name of a unit variant, and then to the variant of that name |
| IfaceType.DeserializeTypeField | src/lib/iface.rs:9-27 | a missing type decodes to `None`; a string, or a one-key map with a null value, decodes exactly when it spells a kebab-case variant name, to the variant of that name; `{"other": s}` decodes to `Other(s)`; any other value is an error |
| IfaceType.SerdeTypeNameDecodes | src/lib/iface.rs:9-27 | the serialised name of every unit variant decodes back to that variant, written as a string or as a one-key map |
| IfaceType.EscapeDebugChar | src/lib/iface.rs:9 | the derived `Debug` writes a character as itself unless it is a quote, a backslash or an ASCII control character, which become a backslash sequence |
| IfaceType.EscapeDebug | src/lib/iface.rs:9 | the string inside `Other("…")` is written unchanged when nothing in it needs escaping, and never shorter |
| IfaceType.EscapedQuotes | src/lib/iface.rs:9 | every quote in the escaped string directly follows a backslash, and the escaped string never starts with a quote |
| IfaceData.NewUnknownInterface | src/lib/iface.rs:117-119 | a new unknown interface holds the given base and no other field |
| IfaceData.BaseIface | src/lib/iface.rs:215-222 | the base of the record held by each of the four variants |
| IfaceData.Name | src/lib/iface.rs:181-188 | the name of the record the variant holds, which is the name of its base (`IfaceData.BaseIface`) |
| IfaceData.IfaceTypeOf | src/lib/iface.rs:198-205 | the type of the record the variant holds, which is the type of its base (`IfaceData.BaseIface`) |
| IfaceData.WithBase | src/lib/iface.rs:224-231 | writing through the base accessor leaves exactly the written base in the interface |
| Iface.Deserialize | src/lib/iface.rs:141-178 | a rejected `"type"` field fails the whole document with that field's error |
| Iface.DeserializeDispatch | src/lib/iface.rs:147-176 | the variant is chosen by the type alone: `ethernet`, `linux-bridge`, `veth` pick their record; every other accepted type, or none, gives `Unknown`; each direction of each case |
| Iface.DeserializeKeepsRecord | src/lib/iface.rs:150-175 | the decoded interface holds exactly the record its decoder produced |
| Iface.IsUp | src/lib/iface.rs:207-209 | an interface is up exactly when its base's state is `Up` |
| Iface.IsAbsent | src/lib/iface.rs:211-213 | an interface is absent exactly when its base's state is `Absent`, and then it is not up |
| Iface.UpAndAbsentFollowState | src/lib/iface.rs:194-213 | an update makes an interface up or absent as the other side is, unless that side's state is unknown; setting the type and the pre-verify cleanup leave both unchanged |
| Iface.Ports | src/lib/iface.rs:233-238 | only a linux bridge has ports, and they are its bridge's port list |
| Iface.WithBaseLaws | src/lib/iface.rs:215-231 | writing back the base that was read changes nothing; a second write replaces the first; the variant is kept |
| Iface.SetIfaceType | src/lib/iface.rs:194-196 | the new interface reports the given type and differs from the old one only in the base's type |
| Iface.SetIfaceTypeOnlyType | src/lib/iface.rs:194-196 | setting the type keeps the variant and every other field; setting the old type back restores the interface |
| Iface.UnknownUpdate | src/lib/iface.rs:122-125 | the base is merged with the other's base, the extra JSON fields are kept |
| Iface.Update | src/lib/iface.rs:240-287 | different variants leave the interface unchanged; the same variant merges the bases |
| Iface.UpdatedProperties | src/lib/iface.rs:240-287 | an update keeps the variant, takes the other's name, and is idempotent |
| Iface.UpdatedWithSelf | src/lib/iface.rs:240-287 | updating an interface from itself leaves it unchanged |
| Iface.PreVerifyCleanup | src/lib/iface.rs:289-304 | the variant and name are kept, and a veth afterwards reports type ethernet |
| Iface.CleanedUpProperties | src/lib/iface.rs:289-304 | the cleanup is idempotent, leaves non-veth interfaces unchanged, and only changes a veth's type to ethernet |
| Iface.Verify | src/lib/iface.rs:306-327 | succeeds exactly when the cleaned-up desired and current JSON values show no difference under the path `<name>.interface`; otherwise a `VerificationError` carrying the difference |
| IfaceJson.BaseKeys | src/lib/ifaces/base.rs:5-15 | a base serialises as `name`, `state`, then `ipv4` and `ipv6` only when present; the type is never written |
| IfaceJson.LinuxBridgeFlattensBase | src/lib/ifaces/linux_bridge.rs:5-11 | a linux bridge's object starts with its base's fields, flattened, and has no `type` key |
| IfaceJson.LinuxBridgeOmitsNoneBridge | src/lib/ifaces/linux_bridge.rs:9-10 | a `bridge` key is written exactly when the bridge block is present, and right after the base fields |
| IfaceJson.BridgeConfigOmitsNone | src/lib/ifaces/linux_bridge.rs:13-46 | `options`, `port`, `stp` and `enabled` are each written exactly when their field is present |
| IfaceJson.PortKeys | src/lib/ifaces/linux_bridge.rs:22-32 | a port object starts with `name`, then has each kebab-case STP key exactly when that setting is present |
| IfaceJson.NewUnknownSerialisesBase | src/lib/iface.rs:109-119 | a new unknown interface serialises to its base's fields alone, starting with its name and state |
| EthernetIface.EthernetUpdate | src/lib/ifaces/ethernet.rs:29-32 | the base is merged with the other's, `bridge` is untouched |
| EthernetIface.DefaultEthernetShape | src/lib/ifaces/ethernet.rs:16-26 | the default ethernet has type `Ethernet`, no `bridge`, and otherwise the default base |
| VethIface.VethUpdate | src/lib/ifaces/veth.rs:31-37 | the base is merged; the other's `veth` block replaces ours only when it has one |
| VethIface.VethPreVerifyCleanup | src/lib/ifaces/veth.rs:39-42 | the type becomes ethernet; the `veth` block, name and state are kept |
| VethIface.CleanupIdempotent | src/lib/ifaces/veth.rs:39-42 | cleaning up twice is the same as cleaning up once |
| LinuxBridgeIface.DefaultLinuxBridgeShape | src/lib/ifaces/linux_bridge.rs:48-58 | the default bridge has type `LinuxBridge`, no `bridge` block, and otherwise the default base |
| LinuxBridgeIface.LinuxBridgeUpdate | src/lib/iface.rs:242-245 | the base is merged with the other's, the `bridge` block is kept |
| LinuxBridgeIface.LinuxBridgePorts | src/lib/iface.rs:233-238 | ports exist exactly when the bridge block and its port list do, and they are the port names in order |
| DbusValue.GetString | src/libnm_dbus/connection/conn.rs:155-160 | a missing key reads as `None`, a string value as itself, a value of another type is an `InvalidArgument` error |
| DbusValue.GetBool | src/libnm_dbus/connection/conn.rs:161 | a missing key reads as `None`, a boolean as itself, a value of another type is an `InvalidArgument` error |
| DbusValue.GetI32 | src/libnm_dbus/connection/conn.rs:149 | a missing key reads as `None`, a 32-bit integer as itself, a value of another type is an `InvalidArgument` error |
| NmConn.ParseSettingConnection | src/libnm_dbus/connection/conn.rs:143-169 | parsing succeeds exactly when every key read holds the expected type; a missing `autoconnect` means true; `autoconnect-slaves` 1 is `Some(true)` and 0 is `Some(false)` (both directions); the interface name is set exactly when its key is present |
| NmConn.ParseWellTyped | src/libnm_dbus/connection/conn.rs:148-167 | on a well-typed map, each field is the string under its key; `autoconnect` defaults to true; `autoconnect-slaves` 1/0/other gives true/false/none |
| NmConn.PutStr | src/libnm_dbus/connection/conn.rs:176-193 | a key is added, holding the string, exactly when the field is set; other keys are kept |
| NmConn.SettingConnectionValueKeys | src/libnm_dbus/connection/conn.rs:172-211 | each string field is written under its key exactly when set; `autoconnect` is always written, false only for `Some(false)`; `autoconnect-slaves` is always written as 1, 0 or -1; no other key appears |
| NmConn.ValueFields | src/libnm_dbus/connection/conn.rs:172-211 | the map written holds each field's string under its own key, and the two autoconnect codes |
| NmConn.SettingConnectionToValue | src/libnm_dbus/connection/conn.rs:172-211 | both autoconnect keys are always present, and parsing the map gives the setting back with `autoconnect` normalised |
| NmConn.SettingConnectionRoundTrip | src/libnm_dbus/connection/conn.rs:143-211 | parse after serialise is the identity up to an unset `autoconnect` reading back as true; the normalisation is idempotent |
| NmConn.ParseConnection | src/libnm_dbus/connection/conn.rs:49-74 | a parsed connection has a section exactly when the map has its key; a failing `connection` section is the result |
| NmConn.ConnectionToValue | src/libnm_dbus/connection/conn.rs:101-119 | one entry per present setting, no other key, and parsing it back gives the connection (normalised) when neither IP method is link-local |
| NmConn.ConnectionRoundTrip | src/libnm_dbus/connection/conn.rs:49-119 | serialise then parse gives the connection back when both IP settings round-trip; a link-local IPv4 setting makes the parse fail |
| NmConn.IfaceName | src/libnm_dbus/connection/conn.rs:77-87 | present exactly when the connection setting and its interface name are, and equal to that name |
| NmConn.IfaceType | src/libnm_dbus/connection/conn.rs:89-99 | present exactly when the connection setting and its type are, and equal to that type |
| NmConn.Uuid | src/libnm_dbus/connection/conn.rs:121-128 | present exactly when the connection setting and its UUID are, and equal to that UUID |
| NmConn.AccessorsMatchValue | src/libnm_dbus/connection/conn.rs:77-128 | the three accessors agree with what the serialised `connection` section holds under `interface-name`, `type` and `uuid` |
| NmIp.MethodToString | src/libnm_dbus/connection/ip.rs:41-57 | every method but `LinkLocal` prints to an accepted name that parses back to it; `LinkLocal` prints to `link-local`, which is not an accepted name |
| NmIp.MethodFromString | src/libnm_dbus/connection/ip.rs:59-76 | exactly the seven accepted names parse; any other string is an `InvalidArgument` error naming it |
| NmIp.MethodRoundTrip | src/libnm_dbus/connection/ip.rs:41-76 | every printed method parses back to itself except `LinkLocal`, whose printed form `link-local` is rejected |
| NmIp.MethodParsePrint | src/libnm_dbus/connection/ip.rs:41-76 | every accepted name parses; all but `link_local` print back as themselves, and `link_local` is `LinkLocal` |
| NmIp.DefaultMethodIsAuto | src/libnm_dbus/connection/ip.rs:35-39 | the default method is `Auto`, which prints and parses back to itself |
| NmIp.ParseSettingIp | src/libnm_dbus/connection/ip.rs:83-99 | the `method` key is mandatory; parsing succeeds exactly when it holds an accepted string, and then the method is set |
| NmIp.SettingIpToValue | src/libnm_dbus/connection/ip.rs:101-111 | `method` is written exactly when it is set, and no other key |
| NmIp.SettingIpRoundTrip | src/libnm_dbus/connection/ip.rs:41-111 | a setting with a method other than `LinkLocal` survives serialise then parse; one without a method, or with `LinkLocal`, fails |
| NmShow.NmIfaceTypeToNmstate | src/lib/nm/show.rs:44-50 | `802-3-ethernet` and only it maps to ethernet, `bridge` and only it to linux bridge, everything else to unknown |
| NmShow.NmIpSettingToNmstate4 | src/lib/nm/show.rs:76-98 | no method gives the default block; otherwise enabled unless `Disabled`; DHCP exactly for `Auto`; never autoconf, no addresses |
| NmShow.NmIpSettingToNmstate6 | src/lib/nm/show.rs:100-121 | no method gives the default block; otherwise enabled unless `Disabled`; DHCP exactly for `Auto` and `Dhcp`; autoconf exactly for a method other than `Disabled` and `Dhcp` |
| NmShow.Ipv4Ipv6Agree | src/lib/nm/show.rs:76-121 | both families agree on `enabled`; IPv4 DHCP implies IPv6 DHCP, and they differ only for the `Dhcp` method |
| NmShow.NmConnToBaseIface | src/lib/nm/show.rs:52-74 | a base exists exactly when the connection names its interface and type; it is up, named after the connection, of the mapped type, with an IP block for each IP setting present, converted |
| NmShow.IfaceFromBase | src/lib/nm/show.rs:23-37 | bridge and ethernet bases become default interfaces of their variant, any other type an unknown interface with no extra fields; the base is kept |
| NmShow.IfaceOfConn | src/lib/nm/show.rs:22-37 | a connection gives an interface exactly when it gives a base, wrapped by type |
| NmShow.RetrievedIfacesInOrder | src/lib/nm/show.rs:21-40 | one interface per connection that names its interface and type, in connection order, each up and named after its connection; the others are skipped |
| NmShow.NmRetrieve | src/lib/nm/show.rs:13-42 | succeeds exactly when both NetworkManager calls do, with errors mapped from the failing call; the state holds the retrieved interfaces in order |
| Common.NmErrorToNmstate | src/lib/nm/error.rs:8-13 | every NetworkManager error becomes an nmstate error of kind `Bug` |
| Common.NmErrorToNmstateInjective | src/lib/nm/error.rs:8-13 | the message keeps the original kind and message: two NetworkManager errors that convert to the same nmstate error are the same |
| Trace.CallError | src/lib/nm/error.rs:8-13 | a NetworkManager failure becomes a `Bug` error; any nispor failure becomes a `PluginFailure` |
| Trace.ExecutedIsFailFast | src/lib/nm/apply.rs:24-29 | a run makes a prefix of the planned calls; it succeeds exactly when it made them all and none failed; otherwise it ends with the failing call, whose error it returns |
| Trace.Perform | src/lib/nm/apply.rs:76-78 | one call with `?`: the run goes on exactly when the call succeeds; otherwise the whole plan's outcome is that call's error |
| NmApply.ExtendStepEffects | src/lib/nm/apply.rs:63-72 | before the interface at `index` the timeout is extended by 60 seconds exactly when `index % 20 == 19`, and nothing is added or activated |
| NmApply.ProfileStepEffects | src/lib/nm/apply.rs:73-88 | a profile is added, with its uuid, exactly for an interface whose type is not `Unknown` |
| NmApply.ProfileStepFilter | src/lib/nm/apply.rs:73-88 | a profile is built, added, then the interface's older profiles are deleted, in that order |
| NmApply.AddStepEffects | src/lib/nm/apply.rs:62-89 | one interface adds its profile exactly when its type is known, activates nothing, and extends the timeout by 60 seconds at the end of each group of 20 |
| NmApply.GroupStep | src/lib/nm/apply.rs:65-66 | going one interface further crosses a group boundary exactly at index 19 modulo 20 |
| NmApply.AddPhaseEffects | src/lib/nm/apply.rs:62-89 | the addition loop adds exactly the profiles of the known-type interfaces, in order, activates none, and extends the timeout once per complete group of 20, by 60 seconds each time |
| NmApply.UnknownMakesNoProfile | src/lib/nm/apply.rs:73 | an interface of type `Unknown` leads to no call but a possible timeout extension |
| NmApply.ActivatePhaseShape | src/lib/nm/apply.rs:90-98 | the activation loop alternates a 60 second timeout extension and the activation of the next uuid |
| NmApply.ActivatePhaseEffects | src/lib/nm/apply.rs:90-98 | the activation loop activates exactly the given uuids in order, and adds nothing |
| NmApply.SinglePlanActivatesAdded | src/lib/nm/apply.rs:33-100 | for one state, the profiles activated are exactly those added, in the same order |
| NmApply.NoActivationIn | src/lib/nm/apply.rs:62-89 | calls that activate nothing contain no activation call |
| NmApply.ActivationsFollow | src/lib/nm/apply.rs:90-98 | after calls that activate nothing, every activation comes after all of them and right after a 60 second extension |
| NmApply.SinglePlanOrder | src/lib/nm/apply.rs:33-100 | every activation comes after every addition, and directly after a 60 second timeout extension |
| NmApply.AddPhaseUnfold | src/lib/nm/apply.rs:62-89 | the calls for the interfaces from `index` on are those of the interface at `index` followed by the rest |
| NmApply.UuidsStep | src/lib/nm/apply.rs:87 | after each interface, the collected uuids and the ones still to come make up all the added uuids |
| NmApply.AddInterface | src/lib/nm/apply.rs:63-88 | one loop turn makes exactly its planned calls up to the first failure; on success it yields the uuid exactly when a profile was added |
| NmApply.ActivateAll | src/lib/nm/apply.rs:90-98 | the activation loop makes its planned calls up to the first failure, whose error it returns |
| NmApply.AddNext | src/lib/nm/apply.rs:62-89 | one loop turn keeps the remaining calls and uuids in step with the plan, or stops the plan at its first failure |
| NmApply.AddAll | src/lib/nm/apply.rs:62-89 | the addition loop makes its planned calls up to the first failure; on success it collected exactly the uuids of the known-type interfaces |
| NmApply.ApplySingleState | src/lib/nm/apply.rs:33-100 | the calls made and the outcome are exactly those of running the state's plan until its first failing call |
| NmApply.ApplyPart | src/lib/nm/apply.rs:27-29 | one state's apply inside a larger plan continues that plan, or ends it with its first failure |
| NmApply.NmApplyStates | src/lib/nm/apply.rs:17-31 | opens the API, then applies the deletion, addition and change states in that order; calls and outcome are those of the whole plan up to the first failure |
| NisporShow.NpIfaceTypeToNmstate | src/lib/nispor/base_iface.rs:6-26 | a nispor veth is reported as ethernet, a bridge as linux bridge, Open vSwitch as `OvsInterface`, an unlisted kind as `Other` of its debug name; the result is never `Veth` nor `Unknown` |
| NisporShow.NpIfaceStateToNmstate | src/lib/nispor/base_iface.rs:28-36 | up and down map to themselves (both directions); every other state is `Unknown` |
| NisporShow.ToIpAddrs | src/lib/nispor/ip.rs:15-18 | one address per nispor address, in order, with the same address and prefix length |
| NisporShow.CollectAddresses | src/lib/nispor/ip.rs:6-20 | the block is enabled exactly when there are addresses; a finite lifetime sets `dhcp` (IPv4) or `autoconf` (IPv6) and nothing else; the addresses are copied in order |
| NisporShow.NpIpv4ToNmstate | src/lib/nispor/ip.rs:3-32 | with IPv4 information: enabled iff some address, DHCP iff some finite lifetime, never autoconf, addresses copied; without: a disabled block, or none when the interface has a controller |
| NisporShow.NpIpv6ToNmstate | src/lib/nispor/ip.rs:34-63 | the IPv4 rules with `autoconf` in place of `dhcp` |
| NisporShow.NpIfaceToBaseIface | src/lib/nispor/base_iface.rs:38-50 | the name is copied; type, state and both IP blocks are the mapped ones; no controller |
| NisporShow.NpVethToNmstate | src/lib/nispor/veth.rs:3-17 | the base is returned unchanged; the veth block is present exactly when nispor has one, with its peer copied |
| NisporShow.NpVethDependsOnlyOnVeth | src/lib/nispor/veth.rs:3-17 | two nispor interfaces with the same veth information give the same result |
| NisporApply.NmstateIfaceTypeToNp | src/lib/nispor/apply.rs:61-70 | exactly linux bridge, ethernet and veth have a nispor type, and the result is one of bridge, ethernet, veth or unknown |
| NisporApply.TypeMappingsAgree | src/lib/nispor/apply.rs:61-70 | bridge and ethernet survive the trip to nispor and back in both directions; a veth comes back as ethernet |
| NisporApply.NmsVethConfToNp | src/lib/nispor/apply.rs:94-104 | a nispor veth configuration exists exactly when ours does, with the same peer |
| NisporApply.NmstateIfaceToNp | src/lib/nispor/apply.rs:72-92 | never fails; the configuration is up, named and typed as given, has the interface's controller, and a veth peer exactly for a veth with a veth block |
| NisporApply.ConfOf | src/lib/nispor/apply.rs:39-53 | an interface yields a configuration exactly when it is up and its type has a nispor counterpart |
| NisporApply.ConfsOfKeptInOrder | src/lib/nispor/apply.rs:39-53 | the configurations are exactly those of the kept interfaces, one each, in input order, each named after its interface |
| NisporApply.ConfsOfAreUp | src/lib/nispor/apply.rs:39-53 | every configuration handed to nispor is up and of a known nispor type |
| NisporApply.NetStateToNispor | src/lib/nispor/apply.rs:34-59 | never fails, and the loop yields exactly the filtered and converted interfaces |
| NisporApply.NisporFailuresArePluginFailures | src/lib/nispor/apply.rs:11-30 | a run of nispor applies can only fail with `PluginFailure` |
| NisporApply.NisporApplyStates | src/lib/nispor/apply.rs:5-32 | deletions, additions, changes are applied in that order, stopping at the first failure, reported as `PluginFailure` |
| NetStateData.NetworkState.constructor | src/lib/net_state.rs:38-40 | a new state has no interfaces, no explicit property and is not kernel-only |
| NetStateData.NetworkState.SetKernelOnly | src/lib/net_state.rs:33-36 | sets the kernel-only flag and changes nothing else |
| NetStateData.NetworkState.AppendInterfaceData | src/lib/net_state.rs:54-56 | the interface is added at the end of the list; the rest of the state is unchanged |
| NetStateData.NetworkState.UpdateState | src/lib/net_state.rs:124-130 | the other state's interfaces are merged in only when it lists `interfaces` as an explicit property; otherwise nothing changes and the update succeeds; a failed merge leaves the interfaces as they were |
| NetStateData.NewFromJson | src/lib/net_state.rs:44-52 | succeeds exactly when the JSON decodes, with the decoded interfaces; a decoding failure is an `InvalidArgument` error whose message starts with `Invalid json string: ` |
| NetStateData.GenStateForApply | src/lib/net_state.rs:148-173 | fails exactly when the split fails, with its error; otherwise gives three new states holding the interfaces to add, change and delete, each marking `interfaces` as explicitly set |
| NetState.RetryFromMeaning | src/lib/net_state.rs:199-216 | from any attempt on, attempts follow one another until one succeeds or none is left; the run fails only when the last allowed attempt failed, with its error |
| NetState.RetryMeaning | src/lib/net_state.rs:191-217 | at most `count` attempts; with none allowed it succeeds without calling; it succeeds if any allowed attempt would succeed, after only failed ones; it fails only when all `count` attempts failed, with the last one's error |
| NetState.WithRetry | src/lib/net_state.rs:191-217 | the loop makes exactly the attempts `Retry` describes: at most `count`, and a failure only after all `count` of them, with the last one's error |
| NetState.CallOutcome | src/lib/net_state.rs:79 | a foreign call fails exactly when its trace position is marked as failing |
| NetState.RetryRunMeaning | src/lib/net_state.rs:112-120 | verification is retried at most `count` times; a failed verification run made all `count` attempts, each failed, and reports the last one's error; a successful one ends with a successful verification |
| NetState.WithNmCheckpoint | src/lib/net_state.rs:176-189 | after the function, exactly one checkpoint call: destroy when it succeeded (the destroy's outcome is the result), rollback when it failed (the function's error is the result) |
| NetState.RollbackKeepsError | src/lib/net_state.rs:183-187 | a failed rollback never replaces the function's error |
| NetState.KernelModeMeaning | src/lib/net_state.rs:104-121 | kernel mode makes only nispor applies and verifications, never a checkpoint call; it verifies only after all three applies succeeded, at most 6 times; a failed apply is a `PluginFailure` |
| NetState.NmBodyMeaning | src/lib/net_state.rs:78-103 | under the checkpoint, verification happens only after the whole NetworkManager plan succeeded and the checkpoint timeout was extended by 30 seconds, and at most 60 times |
| NetState.FailedPlanBody | src/lib/net_state.rs:80-87 | a failed NetworkManager apply stops the function: no verification follows |
| NetState.SucceededPlanBody | src/lib/net_state.rs:80-101 | after a successful plan come the timeout extension and at most 60 verifications |
| NetState.VerifyRunShape | src/lib/net_state.rs:88-102 | the verification step extends the checkpoint timeout by 30 seconds (60 attempts 500 ms apart), then makes at most 60 verifications |
| NetState.NmModeMeaning | src/lib/net_state.rs:78-103 | NetworkManager mode first creates a checkpoint; if that fails nothing else happens; otherwise the run ends by destroying the checkpoint exactly when apply and verification succeeded and by rolling it back otherwise, keeping the error that caused the rollback |
| NetState.Retrieved | src/lib/net_state.rs:58-66 | retrieve succeeds only when the kernel read succeeds and, outside kernel-only mode, the NetworkManager reads succeed; its interfaces are the kernel's; each failure is reported as it occurred |
| NetState.Retrieve | src/lib/net_state.rs:58-66 | the state's outcome is the one `Retrieved` gives; the kernel's interfaces replace the state's as soon as they are read; the flags are unchanged |
| NetState.NmBodyApply | src/lib/net_state.rs:79-102 | the function run under the checkpoint makes exactly the calls and has exactly the outcome of `NmBody` |
| NetState.ExtendAndVerify | src/lib/net_state.rs:88-101 | the timeout extension then the retried verification, as `VerifyRun` describes |
| NetState.AllSucceededIsPlan | src/lib/nm/apply.rs:17-31 | a plan that succeeded was carried out in full |
| NetState.NmModeApply | src/lib/net_state.rs:78-103 | the NetworkManager branch makes exactly the calls and has exactly the outcome of `NmModeRun` |
| NetState.CheckpointNotCreated | src/lib/net_state.rs:78-79 | when the checkpoint cannot be created, that failure is the whole run |
| NetState.CheckpointCreated | src/lib/net_state.rs:176-189 | once the checkpoint exists, the function runs and the checkpoint is closed according to its outcome |
| NetState.KernelModeApply | src/lib/net_state.rs:104-121 | the kernel branch makes exactly the calls and has exactly the outcome of `KernelModeRun` |
| NetState.Apply | src/lib/net_state.rs:68-122 | the current state is retrieved in the desired state's mode, then split; a failure of either is the result and makes no call; otherwise the run is that of kernel mode or NetworkManager mode, as the kernel-only flag says |
| Nmstatectl.LogFilterFor | src/cli/nmstatectl.rs:72-78 | no `-v` logs warnings of nmstate, one logs info, two debug; three or more log debug for every module |
| Nmstatectl.LogFilterMonotonic | src/cli/nmstatectl.rs:72-78 | more `-v` never logs less: the level never drops and a filter over all modules stays so |
| Nmstatectl.Insert | src/cli/nmstatectl.rs:143-146 | a new key is added at the end of the `serde_yaml` mapping; an existing key takes the new value (in its place, as serde_yaml 0.9 does) |
| Nmstatectl.InsertAllFresh | src/cli/nmstatectl.rs:149-156 | inserting distinct new keys appends them in order |
| Nmstatectl.TopFieldsShape | src/cli/nmstatectl.rs:139-148 | the top-priority pairs are `name` then `type`, each when present, and repeat no key |
| Nmstatectl.RestFieldsShape | src/cli/nmstatectl.rs:149-156 | the other pairs are exactly those whose key is neither `name` nor `type`, with unique keys |
| Nmstatectl.NormalisedIsConcat | src/cli/nmstatectl.rs:138-158 | the rebuilt mapping is the top-priority pairs followed by every other pair in the original order |
| Nmstatectl.NormalisedMeaning | src/cli/nmstatectl.rs:138-158 | in the rebuilt mapping `name` comes first and `type` next when present, and each key appears once |
| Nmstatectl.TopFieldsExact | src/cli/nmstatectl.rs:139-148 | the top-priority pairs are exactly the mapping's pairs with key `name` or `type` |
| Nmstatectl.NormalisedSamePairs | src/cli/nmstatectl.rs:138-158 | the rebuilt mapping holds exactly the pairs of the original: nothing is lost or added |
| Nmstatectl.NormaliseMapping | src/cli/nmstatectl.rs:138-158 | the two inner loops build exactly the reordered mapping |
| Nmstatectl.NormaliseValue | src/cli/nmstatectl.rs:134-168 | the outer loop keeps one reordered mapping per mapping entry of a sequence value, and nothing for any other value |
| Nmstatectl.NormalisedEntriesInOrder | src/cli/nmstatectl.rs:136-159 | exactly the mapping entries are kept, in order, each reordered |
| Nmstatectl.InterfacesValue | src/cli/nmstatectl.rs:134 | the interfaces serialise to a sequence with one entry per interface |
| Nmstatectl.SortNetstate | src/cli/nmstatectl.rs:128-169 | the interfaces are sorted by name, serialised and each reordered with `name` and `type` first |
| Nmstatectl.Show | src/cli/nmstatectl.rs:172-190 | fails exactly when the retrieve fails, with its error; with an interface name gives exactly that name's interfaces in retrieved order; otherwise the sorted state |
| Nmstatectl.WithNameKeepsExactly | src/cli/nmstatectl.rs:181-185 | the filtered list keeps exactly the interfaces of the given name, in their original order |
| NameSort.NameLeRefl | src/cli/nmstatectl.rs:132 | the name order is reflexive |
| NameSort.NameLeTotal | src/cli/nmstatectl.rs:132 | any two names are comparable |
| NameSort.NameLeTrans | src/cli/nmstatectl.rs:132 | the name order is transitive |
| NameSort.NameLeAntisym | src/cli/nmstatectl.rs:132 | names ordered both ways are equal |
| NameSort.SortByNameSorted | src/cli/nmstatectl.rs:131-132 | the sort's result is in ascending order of name |
| NameSort.SortByNamePermutes | src/cli/nmstatectl.rs:131-132 | the sort's result is a permutation of its input |
| NameSort.SortByNameStable | src/cli/nmstatectl.rs:131-132 | interfaces with the same name keep their relative order |
| NameSort.SortByName | src/cli/nmstatectl.rs:131-132 | the insertion sort gives the stable sort's order: sorted by name and a permutation of the input |
| NmrsPlugin.NewPlugin | src/plugin_nmrs/plugin.rs:10-12 | creating the plugin never fails |
| NmrsPlugin.NmstateIfaceTypeToNm | src/plugin_nmrs/nm/connection.rs:40-50 | only ethernet has a NetworkManager type, `ethernet`; every other type is an `InvalidArgument` error naming it |
| NmrsPlugin.NewSettingConnection | src/plugin_nmrs/nm/connection.rs:16-23 | succeeds exactly for an ethernet type, with id and interface name both the interface's name and the given UUID |
| NmrsPlugin.NewAcceptsOnlyEthernet | src/plugin_nmrs/nm/connection.rs:16-23 | the only type text accepted is `ethernet` |
| NmrsPlugin.KeyfileKeys | src/plugin_nmrs/nm/connection.rs:25-37 | the keyfile holds the id, UUID and type under `[connection]` and no interface name |
| NmrsPlugin.KeyfileRoundTrip | src/plugin_nmrs/nm/connection.rs:25-37 | a setting the plugin builds is read back unchanged from its keyfile |
| NmrsPlugin.ProfileKeyfileMeaning | src/plugin_nmrs/nm/profile.rs:11-27 | one interface's profile is its ethernet keyfile, or the unsupported-type error |
| NmrsPlugin.ConfigsMeaning | src/plugin_nmrs/plugin.rs:14-28 | configs are produced exactly when every interface is ethernet, one keyfile per interface in order; otherwise the error is that of the first non-ethernet interface |
| NmrsPlugin.GenerateConfigs | src/plugin_nmrs/plugin.rs:14-28 | no interface list gives no configs; otherwise the loop gives exactly `ConfigsSpec`, stopping at the first failure |
| Seqs.LookupKey | src/cli/nmstatectl.rs:139-141 | a value found for a key is one stored under that key; the same lookup reads keyfile entries in the plugin |
| Seqs.LookupKeyFinds | src/cli/nmstatectl.rs:139-141 | a lookup finds a value exactly when the key occurs in the mapping |
| Seqs.FilterMapInOrder | src/lib/nispor/apply.rs:39-53 | a filtering loop keeps exactly the accepted items, one result each, in their original order |
| Seqs.CollectMeaning | src/plugin_nmrs/plugin.rs:20-23 | a loop stopping at the first `?` gives every value in order when none fails, and the first error otherwise |
| Seqs.CollectErrPersists | src/plugin_nmrs/plugin.rs:21 | once an item fails, the loop's result is that failure whatever follows |

## Left out

- Logging (`log`, `env_logger`), printing and process exit: they have no effect on the modelled state. Only the verbosity table of `src/cli/nmstatectl.rs` is modelled.
- `std::thread::sleep` between attempts: time is not modelled. Retries are counted by attempt, and `NetState.WithRetry` takes the interval only as an unused parameter.
- The foreign calls are not modelled. These are nispor's `NetState::retrieve`, every NetworkManager D-Bus call (`NmApi` and the checkpoint functions of `src/lib/nm/checkpoint.rs`) and nispor's apply. Their results are parameters or events of `Trace` whose failure is given by the oracle. Each verification attempt re-reads and compares the state; it is one `Verify` event whose outcome is given by the oracle.
- `src/lib/nispor/show.rs`: its only logic is the foreign nispor read and the per-interface converters. The converters are modelled in `NisporShow`; the read is the parameter `kernel` of `NetState.Retrieve`.
- `Interfaces::update`, `Interfaces::verify` and `Interfaces::gen_state_for_apply` are not shown. They are the parameters `merge` and `split`, and the verification event.
- `get_json_value_difference` and serde's `to_value` are not part of this model. The difference is the parameter `difference` of `Iface.Verify`. The serialised shapes of interfaces are stated in `IfaceJson` as key lists; serde's own errors are not modelled.
- YAML values are modelled by the `Json` datatype, whose mappings have string keys only. `sort_netstate` never sees other keys from its own serialisation.
- `Json` objects keep their keys in the order serde writes them, which is what a `serde_yaml::Mapping` keeps. A `serde_json::Map` without the `preserve_order` feature sorts its keys, and that order is not modelled: the key lists of `IfaceJson` describe the `serde_yaml::to_value` output of `sort_netstate`, and `Iface.Verify` does not depend on key order. The order of the extra fields of an `UnknownInterface` (a `serde_json::Map`) is taken as given.
- Nmstatectl.Insert: re-inserting a key already present keeps its place, as serde_yaml 0.9's `IndexMap` does. serde_yaml 0.8's `LinkedHashMap` moves it to the end instead; that version-dependent position is not modelled. `sort_netstate` never re-inserts a key (`Nmstatectl.InsertAllFresh`, `Nmstatectl.NormalisedSamePairs`), so its output is the same either way.
- Nmstatectl.SortNetstate: `sort_by` sorts a `Vec` in place. The model sorts a `seq` by insertion (`NameSort.SortByName`), proved sorted, a permutation and stable, which is what the standard library's stable sort promises. The in-place update is not captured.
- IfaceType.EscapeDebug: the derived `Debug` of `InterfaceType::Other` also escapes non-printable characters outside ASCII, such as unassigned code points and combining marks at the start of the string. The model escapes only the quote, the backslash and the ASCII control characters, so error messages naming such a type can differ.
- The `ini` library's text output and escaping are not modelled. `NmrsPlugin.ToKeyfile` is the list of sections and keys that `to_keyfile_string` sets.
- Random UUIDs (`Uuid::new_v4`) are the parameters `uuidAt` of the plugin. The UUIDs chosen by `iface_to_nm_connection`, which is not part of this model, are `addUuid`/`chgUuid`/`delUuid`/`uuidFor` in the NetworkManager apply.
- Building a profile (`iface_to_nm_connection`) and deleting an interface's older profiles (`delete_exist_profiles`) are `Trace` events: their code is not part of this model.
- The `ports` map that `apply_single_state` builds (`src/lib/nm/apply.rs:50-60`) is never read, so it is not modelled.
- `src/lib/nm/show.rs:64` sets a `prop_list` on a `BaseInterface`, which has no such field. The model leaves it out. The state `nm_retrieve` returns has an empty explicit-property list, so `retrieve` never merges NetworkManager's interfaces (`NetState.Retrieved`).
- The plugin's `NetIface` carries only the name and the type text. Its other fields are not read by the plugin.
- `IfaceType` in `src/plugin_nmrs/nm/connection.rs` is taken to be the library's `InterfaceType`, parsed with its `From<&str>`.
- The `pre_verify_cleanup` of `BaseInterface`, `EthernetInterface` and `LinuxBridgeInterface` is not shown. It is modelled as the identity.
- `LinuxBridgeInterface::update` and `::ports` are not shown. They are modelled as merging the base only and as the port names of the bridge's `port` list.
- The `bridge` and `bridge-port` settings of `NmConnection` are not modelled: their types live in `src/libnm_dbus/connection/bridge.rs`, which is not part of this model.
- `VethInterface::default` calls itself without end (`src/lib/ifaces/veth.rs:25`), so it is not modelled and nothing relies on it.
- `NmSettingIpMethod::LinkLocal` prints as `link-local` but parses only `link_local`. The model keeps the code as written, and `NmIp.MethodRoundTrip` and `NmConn.ConnectionRoundTrip` state the lost round trip.
- Integer widths (`u32`, `u64`, `usize`, `i32`) are unbounded: every modelled value is small (30 and 60 seconds, counts of 6 and 60, the codes -1, 0 and 1). Interface counts beyond `usize` are not modelled.
- Left out because they are outside the core: the command line's `main`, `apply` and `gen_conf` (file I/O and argument parsing), `NetworkState::gen_conf` (`todo!()`), the varlink servers, the old plugin architecture in `src/libnmstate`, the Python bindings, the D-Bus client plumbing of `src/libnm_dbus`, and the tests that need a live NetworkManager.
