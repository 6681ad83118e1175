/** `EthernetInterface::update` and the ethernet default. */
module EthernetIface {
  import opened Common
  import opened IfaceType
  import opened IfaceData
  import opened BaseUpdate

  /** `EthernetInterface::update`: merges the other interface's base into
      ours; the `bridge` field is never touched. */
  method EthernetUpdate(self: EthernetInterface, other: EthernetInterface) returns (updated: EthernetInterface)
    ensures updated.base == MergedBase(self.base, other.base)
    ensures updated.bridge == self.bridge
  {
    updated := self;
    var base := UpdateFull(updated.base, other.base);
    updated := updated.(base := base);
  }

  /** The default ethernet interface is of type `Ethernet`, has no `bridge`
      and otherwise holds the default base. */
  lemma DefaultEthernetShape()
    ensures DEFAULT_ETHERNET.base.ifaceType == InterfaceType.Ethernet
    ensures DEFAULT_ETHERNET.bridge == None
    ensures DEFAULT_ETHERNET.base.(ifaceType := InterfaceType.Unknown) == DEFAULT_BASE
  {
  }
}
