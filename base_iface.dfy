/** `BaseInterface::update_full` and `BaseInterface::update`: merge another
    base interface into this one, overwriting a field only when the other
    side knows its value. */
module BaseUpdate {
  import opened Common
  import opened IfaceType
  import opened Ip
  import opened IfaceData

  /** The three-way rule for an optional IP block: nothing to merge keeps
      ours, nothing of ours takes theirs, both present merges theirs in. */
  function MergedIp(self: Option<InterfaceIp>, other: Option<InterfaceIp>): Option<InterfaceIp>
  {
    match other
    case None => self
    case Some(o) =>
      match self
      case None => other
      case Some(s) => Some(UpdatedIp(s, o))
  }

  /** The value `self.update_full(other)` leaves in `self`. */
  function MergedBase(self: BaseInterface, other: BaseInterface): BaseInterface
  {
    BaseInterface(
      other.name,
      if other.ifaceType != InterfaceType.Unknown then other.ifaceType else self.ifaceType,
      if other.state != InterfaceState.Unknown then other.state else self.state,
      MergedIp(self.ipv4, other.ipv4),
      MergedIp(self.ipv6, other.ipv6),
      self.controller)
  }

  /** Merges one optional IP block in place, as the two `if let` blocks of
      `update_full` do. */
  method UpdateIpBlock(self: Option<InterfaceIp>, other: Option<InterfaceIp>) returns (updated: Option<InterfaceIp>)
    ensures updated == MergedIp(self, other)
    ensures other.None? ==> updated == self
    ensures self.None? ==> updated == other
    ensures self.Some? && other.Some? ==> updated.Some? && updated.value.enabled == other.value.enabled
  {
    updated := self;
    if other.Some? {
      if self.Some? {
        var merged := Update(self.value, other.value);
        updated := Some(merged);
      } else {
        updated := other;
      }
    }
  }

  /** `BaseInterface::update_full`. */
  method UpdateFull(self: BaseInterface, other: BaseInterface) returns (updated: BaseInterface)
    ensures updated == MergedBase(self, other)
    ensures updated.name == other.name
    ensures updated.ifaceType == (if other.ifaceType == InterfaceType.Unknown then self.ifaceType else other.ifaceType)
    ensures updated.state == (if other.state == InterfaceState.Unknown then self.state else other.state)
    ensures other.ipv4.None? ==> updated.ipv4 == self.ipv4
    ensures self.ipv4.None? ==> updated.ipv4 == other.ipv4
    ensures self.ipv4.Some? && other.ipv4.Some? ==> updated.ipv4 == Some(UpdatedIp(self.ipv4.value, other.ipv4.value))
    ensures other.ipv6.None? ==> updated.ipv6 == self.ipv6
    ensures self.ipv6.None? ==> updated.ipv6 == other.ipv6
    ensures self.ipv6.Some? && other.ipv6.Some? ==> updated.ipv6 == Some(UpdatedIp(self.ipv6.value, other.ipv6.value))
    ensures updated.controller == self.controller
  {
    updated := self;
    updated := updated.(name := other.name);
    if other.ifaceType != InterfaceType.Unknown {
      updated := updated.(ifaceType := other.ifaceType);
    }
    if other.state != InterfaceState.Unknown {
      updated := updated.(state := other.state);
    }
    var ipv4 := UpdateIpBlock(updated.ipv4, other.ipv4);
    updated := updated.(ipv4 := ipv4);
    var ipv6 := UpdateIpBlock(updated.ipv6, other.ipv6);
    updated := updated.(ipv6 := ipv6);
  }

  /** `BaseInterface::update`: only an `Unknown` interface is merged in;
      any other variant is reported and changes nothing. */
  method UpdateFromInterface(self: BaseInterface, other: Interface) returns (updated: BaseInterface)
    ensures other.Unknown? ==> updated == MergedBase(self, other.unknown.base)
    ensures !other.Unknown? ==> updated == self
  {
    match other
    case Unknown(u) =>
      updated := UpdateFull(self, u.base);
    case _ =>
      updated := self;
  }

  /** Merging the same base twice is the same as merging it once. */
  lemma MergeIdempotent(self: BaseInterface, other: BaseInterface)
    ensures MergedBase(MergedBase(self, other), other) == MergedBase(self, other)
  {
  }

  /** Merging a base into itself changes nothing. */
  lemma MergeWithSelf(self: BaseInterface)
    ensures MergedBase(self, self) == self
  {
  }

  /** A base that knows nothing but its name only renames. */
  lemma MergeOfBlankOnlyRenames(self: BaseInterface, name: string)
    ensures MergedBase(self, DEFAULT_BASE.(name := name)) == self.(name := name)
  {
  }
}
