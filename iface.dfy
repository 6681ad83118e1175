/** Operations on the `Interface` enum: deserialisation dispatch on the
    `"type"` field, accessors, the same-variant `update`, `set_iface_type`,
    `pre_verify_cleanup` and `verify`. */
module Iface {
  import opened Common
  import opened IfaceType
  import opened Json
  import opened IfaceData
  import opened BaseUpdate
  import opened EthernetIface
  import opened VethIface
  import opened LinuxBridgeIface
  import opened IfaceJson

  // ---------------------------------------------------------------------
  // Deserialisation
  // ---------------------------------------------------------------------

  /** An interface document as the dispatch sees it: the value under its
      `"type"` key, and the outcome of decoding the whole document as each
      of the four interface records (serde's derived decoders, which this
      model does not unfold). */
  datatype InterfaceDoc = InterfaceDoc(
    typeField: TypeField,
    asEthernet: Result<EthernetInterface, string>,
    asLinuxBridge: Result<LinuxBridgeInterface, string>,
    asVeth: Result<VethInterface, string>,
    asUnknown: Result<UnknownInterface, string>)

  /** `Deserialize for Interface`. */
  function Deserialize(doc: InterfaceDoc): (r: Result<Interface, string>)
    ensures DeserializeTypeField(doc.typeField).Err? ==> r == Err(DeserializeTypeField(doc.typeField).error)
  {
    var t :- DeserializeTypeField(doc.typeField);
    match t
    case Some(Ethernet) =>
      var inner :- doc.asEthernet;
      Ok(Interface.Ethernet(inner))
    case Some(LinuxBridge) =>
      var inner :- doc.asLinuxBridge;
      Ok(Interface.LinuxBridge(inner))
    case Some(Veth) =>
      var inner :- doc.asVeth;
      Ok(Interface.Veth(inner))
    case _ =>
      var inner :- doc.asUnknown;
      Ok(Interface.Unknown(inner))
  }

  /** The variant is chosen by the `"type"` string alone: `ethernet`,
      `linux-bridge` and `veth` pick their own record; any other accepted
      type, or no type at all, decodes the document as an unknown
      interface. A document fails exactly when its type is rejected or the
      chosen record does not decode. */
  lemma DeserializeDispatch(doc: InterfaceDoc)
    ensures var r := Deserialize(doc); var n := SpelledName(doc.typeField);
      && (r.Ok? && r.value.Ethernet? <==> n == Some("ethernet") && doc.asEthernet.Ok?)
      && (r.Ok? && r.value.LinuxBridge? <==> n == Some("linux-bridge") && doc.asLinuxBridge.Ok?)
      && (r.Ok? && r.value.Veth? <==> n == Some("veth") && doc.asVeth.Ok?)
      && (r.Ok? && r.value.Unknown? <==>
            doc.asUnknown.Ok?
            && (doc.typeField.Missing? || doc.typeField.OtherTagged?
                || (n.Some? && n.value in SERDE_TYPE_NAMES - {"ethernet", "linux-bridge", "veth"})))
  {
    var n := SpelledName(doc.typeField);
    if n.Some? {
      var t := DeserializeTypeField(doc.typeField);
      if t.Ok? {
        assert SerdeTypeName(t.value.value) == n.value;
      }
    }
  }

  /** A decoded interface is the record its decoder produced. */
  lemma DeserializeKeepsRecord(doc: InterfaceDoc)
    ensures var r := Deserialize(doc);
      && (r.Ok? && r.value.Ethernet? ==> r.value.ethernet == doc.asEthernet.value)
      && (r.Ok? && r.value.LinuxBridge? ==> r.value.linuxBridge == doc.asLinuxBridge.value)
      && (r.Ok? && r.value.Veth? ==> r.value.veth == doc.asVeth.value)
      && (r.Ok? && r.value.Unknown? ==> r.value.unknown == doc.asUnknown.value)
  {
  }

  // ---------------------------------------------------------------------
  // Accessors
  // ---------------------------------------------------------------------

  /** `Interface::is_up`. */
  function IsUp(i: Interface): (up: bool)
    ensures up <==> BaseIface(i).state == InterfaceState.Up
  {
    BaseIface(i).state == InterfaceState.Up
  }

  /** `Interface::is_absent`; an interface is never both up and absent. */
  function IsAbsent(i: Interface): (absent: bool)
    ensures absent <==> BaseIface(i).state == InterfaceState.Absent
    ensures absent ==> !IsUp(i)
  {
    BaseIface(i).state == InterfaceState.Absent
  }

  /** `Interface::ports`: only a linux bridge has ports. */
  function Ports(i: Interface): (r: Option<seq<string>>)
    ensures !i.LinuxBridge? ==> r.None?
    ensures i.LinuxBridge? ==> r == LinuxBridgePorts(i.linuxBridge)
  {
    match i
    case LinuxBridge(b) => LinuxBridgePorts(b)
    case _ => None
  }

  /** Writing back the base that was read changes nothing, and a second
      write replaces the first. */
  lemma WithBaseLaws(i: Interface, b1: BaseInterface, b2: BaseInterface)
    ensures WithBase(i, BaseIface(i)) == i
    ensures WithBase(WithBase(i, b1), b2) == WithBase(i, b2)
    ensures SameVariant(WithBase(i, b1), i)
  {
  }

  /** `Interface::set_iface_type`. */
  method SetIfaceType(self: Interface, t: InterfaceType) returns (updated: Interface)
    ensures updated == WithBase(self, BaseIface(self).(ifaceType := t))
    ensures IfaceTypeOf(updated) == t
  {
    var base := BaseIface(self);
    base := base.(ifaceType := t);
    updated := WithBase(self, base);
  }

  /** Setting the type touches nothing but `base.iface_type`: the variant,
      the name, the state and everything outside the base are kept, and
      restoring the old type gives the interface back. */
  lemma SetIfaceTypeOnlyType(self: Interface, t: InterfaceType)
    ensures var r := WithBase(self, BaseIface(self).(ifaceType := t));
      && SameVariant(r, self)
      && BaseIface(r).(ifaceType := IfaceTypeOf(self)) == BaseIface(self)
      && WithBase(r, BaseIface(self)) == self
  {
    var r := WithBase(self, BaseIface(self).(ifaceType := t));
    WithBaseLaws(self, BaseIface(self).(ifaceType := t), BaseIface(self));
  }

  // ---------------------------------------------------------------------
  // update
  // ---------------------------------------------------------------------

  /** `UnknownInterface::update`: merges the other base into ours. */
  method UnknownUpdate(self: UnknownInterface, other: UnknownInterface) returns (updated: UnknownInterface)
    ensures updated.base == MergedBase(self.base, other.base)
    ensures updated.other == self.other
  {
    updated := self;
    var base := UpdateFull(updated.base, other.base);
    updated := updated.(base := base);
  }

  /** The value `self.update(other)` leaves in `self`. */
  function Updated(self: Interface, other: Interface): Interface
  {
    match (self, other)
    case (LinuxBridge(s), LinuxBridge(o)) => Interface.LinuxBridge(s.(base := MergedBase(s.base, o.base)))
    case (Ethernet(s), Ethernet(o)) => Interface.Ethernet(s.(base := MergedBase(s.base, o.base)))
    case (Veth(s), Veth(o)) =>
      Interface.Veth(VethInterface(MergedBase(s.base, o.base), if o.veth.Some? then o.veth else s.veth))
    case (Unknown(s), Unknown(o)) => Interface.Unknown(s.(base := MergedBase(s.base, o.base)))
    case _ => self
  }

  /** `Interface::update`: an interface is only updated from one of the
      same variant; any other pairing is reported and changes nothing. */
  method Update(self: Interface, other: Interface) returns (updated: Interface)
    ensures updated == Updated(self, other)
    ensures !SameVariant(self, other) ==> updated == self
    ensures SameVariant(self, other) ==> BaseIface(updated) == MergedBase(BaseIface(self), BaseIface(other))
  {
    updated := self;
    match self {
      case LinuxBridge(s) =>
        if other.LinuxBridge? {
          var u := LinuxBridgeUpdate(s, other.linuxBridge);
          updated := Interface.LinuxBridge(u);
        }
      case Ethernet(s) =>
        if other.Ethernet? {
          var u := EthernetUpdate(s, other.ethernet);
          updated := Interface.Ethernet(u);
        }
      case Veth(s) =>
        if other.Veth? {
          var u := VethUpdate(s, other.veth);
          updated := Interface.Veth(u);
        }
      case Unknown(s) =>
        if other.Unknown? {
          var u := UnknownUpdate(s, other.unknown);
          updated := Interface.Unknown(u);
        }
    }
  }

  /** An update keeps the variant, takes the other's name, and repeating
      it changes nothing more. */
  lemma UpdatedProperties(self: Interface, other: Interface)
    ensures SameVariant(Updated(self, other), self)
    ensures SameVariant(self, other) ==> Name(Updated(self, other)) == Name(other)
    ensures Updated(Updated(self, other), other) == Updated(self, other)
  {
    match (self, other)
    case (LinuxBridge(s), LinuxBridge(o)) => MergeIdempotent(s.base, o.base);
    case (Ethernet(s), Ethernet(o)) => MergeIdempotent(s.base, o.base);
    case (Veth(s), Veth(o)) => MergeIdempotent(s.base, o.base);
    case (Unknown(s), Unknown(o)) => MergeIdempotent(s.base, o.base);
    case _ =>
  }

  /** Updating an interface from itself leaves it as it is. */
  lemma UpdatedWithSelf(self: Interface)
    ensures Updated(self, self) == self
  {
    MergeWithSelf(BaseIface(self));
  }

  // ---------------------------------------------------------------------
  // pre_verify_cleanup and verify
  // ---------------------------------------------------------------------

  /** The value `pre_verify_cleanup` leaves: a veth is compared as an
      ethernet interface; the other variants only clean their base, which
      leaves it as it is. */
  function CleanedUp(i: Interface): Interface
  {
    match i
    case Veth(v) => Interface.Veth(VethCleanedUp(v))
    case _ => WithBase(i, BasePreVerifyCleanup(BaseIface(i)))
  }

  /** `Interface::pre_verify_cleanup`. */
  method PreVerifyCleanup(self: Interface) returns (cleaned: Interface)
    ensures cleaned == CleanedUp(self)
    ensures SameVariant(cleaned, self) && Name(cleaned) == Name(self)
    ensures self.Veth? ==> IfaceTypeOf(cleaned) == InterfaceType.Ethernet
  {
    match self {
      case Veth(v) =>
        var c := VethPreVerifyCleanup(v);
        cleaned := Interface.Veth(c);
      case _ =>
        cleaned := WithBase(self, BasePreVerifyCleanup(BaseIface(self)));
    }
  }

  /** Cleaning up is idempotent and keeps everything but a veth's type. */
  lemma CleanedUpProperties(i: Interface)
    ensures CleanedUp(CleanedUp(i)) == CleanedUp(i)
    ensures !i.Veth? ==> CleanedUp(i) == i
    ensures i.Veth? ==> CleanedUp(i) == WithBase(i, BaseIface(i).(ifaceType := InterfaceType.Ethernet))
  {
    WithBaseLaws(i, BaseIface(i), BaseIface(i));
  }

  /** Whether an interface is up or absent follows its base's state
      through every operation: an update takes the other's state unless
      it is unknown, while setting the type and the pre-verify cleanup
      keep it. */
  lemma UpAndAbsentFollowState(self: Interface, other: Interface, t: InterfaceType)
    ensures SameVariant(self, other) ==>
      var u := Updated(self, other);
      var from := if BaseIface(other).state == InterfaceState.Unknown then self else other;
      (IsUp(u) <==> IsUp(from)) && (IsAbsent(u) <==> IsAbsent(from))
    ensures var r := WithBase(self, BaseIface(self).(ifaceType := t));
      (IsUp(r) <==> IsUp(self)) && (IsAbsent(r) <==> IsAbsent(self))
    ensures (IsUp(CleanedUp(self)) <==> IsUp(self)) && (IsAbsent(CleanedUp(self)) <==> IsAbsent(self))
  {
  }

  /** `Interface::verify`. The JSON comparison (`get_json_value_difference`)
      is the parameter `difference`: given a path and the desired and the
      current value, it reports the first difference, if any. */
  method Verify(self: Interface, current: Interface, difference: (string, Json, Json) -> Option<string>)
    returns (r: Result<(), NmstateError>)
    ensures var d := difference(Name(self) + ".interface",
                                InterfaceToJson(CleanedUp(self)), InterfaceToJson(CleanedUp(current)));
      && (r.Ok? <==> d.None?)
      && (d.Some? ==> r == Err(NmstateError(VerificationError, "Verification failure: " + d.value)))
  {
    var selfClone := PreVerifyCleanup(self);
    var selfValue := InterfaceToJson(selfClone);
    var currentClone := PreVerifyCleanup(current);
    var currentValue := InterfaceToJson(currentClone);
    var d := difference(Name(self) + ".interface", selfValue, currentValue);
    if d.Some? {
      r := Err(NmstateError(VerificationError, "Verification failure: " + d.value));
    } else {
      r := Ok(());
    }
  }
}
