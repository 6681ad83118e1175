/** `VethInterface::update` and `VethInterface::pre_verify_cleanup`. */
module VethIface {
  import opened Common
  import opened IfaceType
  import opened IfaceData
  import opened BaseUpdate

  /** `BaseInterface::pre_verify_cleanup`. Its body is not part of this
      model; it is taken to leave the base as it is. */
  function BasePreVerifyCleanup(base: BaseInterface): BaseInterface
  {
    base
  }

  /** `VethInterface::update`: merges the base, and takes the other `veth`
      block whole when it has one. */
  method VethUpdate(self: VethInterface, other: VethInterface) returns (updated: VethInterface)
    ensures updated.base == MergedBase(self.base, other.base)
    ensures other.veth.Some? ==> updated.veth == other.veth
    ensures other.veth.None? ==> updated.veth == self.veth
  {
    updated := self;
    var base := UpdateFull(updated.base, other.base);
    updated := updated.(base := base);
    if other.veth.Some? {
      updated := updated.(veth := other.veth);
    }
  }

  /** The value `pre_verify_cleanup` leaves: a veth is compared as an
      ethernet interface. */
  function VethCleanedUp(self: VethInterface): VethInterface
  {
    self.(base := BasePreVerifyCleanup(self.base).(ifaceType := InterfaceType.Ethernet))
  }

  /** `VethInterface::pre_verify_cleanup`. */
  method VethPreVerifyCleanup(self: VethInterface) returns (cleaned: VethInterface)
    ensures cleaned == VethCleanedUp(self)
    ensures cleaned.base.ifaceType == InterfaceType.Ethernet
    ensures cleaned.veth == self.veth
    ensures cleaned.base.name == self.base.name && cleaned.base.state == self.base.state
  {
    cleaned := self;
    cleaned := cleaned.(base := BasePreVerifyCleanup(cleaned.base));
    cleaned := cleaned.(base := cleaned.base.(ifaceType := InterfaceType.Ethernet));
  }

  /** Cleaning up twice is cleaning up once. */
  lemma CleanupIdempotent(self: VethInterface)
    ensures VethCleanedUp(VethCleanedUp(self)) == VethCleanedUp(self)
  {
  }
}
