/** The linux-bridge interface: its default, its update and the names of
    its ports. */
module LinuxBridgeIface {
  import opened Common
  import opened IfaceType
  import opened IfaceData
  import opened BaseUpdate

  /** The default linux bridge is of type `LinuxBridge`, has no `bridge`
      block and otherwise holds the default base. */
  lemma DefaultLinuxBridgeShape()
    ensures DEFAULT_LINUX_BRIDGE.base.ifaceType == InterfaceType.LinuxBridge
    ensures DEFAULT_LINUX_BRIDGE.bridge == None
    ensures DEFAULT_LINUX_BRIDGE.base.(ifaceType := InterfaceType.Unknown) == DEFAULT_BASE
  {
  }

  /** `LinuxBridgeInterface::update`, whose body is not part of this model:
      like the ethernet update it merges the other base into ours and
      keeps our `bridge` block. */
  method LinuxBridgeUpdate(self: LinuxBridgeInterface, other: LinuxBridgeInterface)
    returns (updated: LinuxBridgeInterface)
    ensures updated.base == MergedBase(self.base, other.base)
    ensures updated.bridge == self.bridge
  {
    updated := self;
    var base := UpdateFull(updated.base, other.base);
    updated := updated.(base := base);
  }

  /** The names of a list of port configurations, in order. */
  function PortNames(ports: seq<LinuxBridgePortConfig>): (names: seq<string>)
    ensures |names| == |ports|
    ensures forall k :: 0 <= k < |ports| ==> names[k] == ports[k].name
  {
    if ports == [] then [] else [ports[0].name] + PortNames(ports[1..])
  }

  /** `LinuxBridgeInterface::ports` (not part of this model's sources): the
      port names of the bridge block's port list, when both are given. */
  function LinuxBridgePorts(b: LinuxBridgeInterface): (r: Option<seq<string>>)
    ensures r.Some? <==> b.bridge.Some? && b.bridge.value.port.Some?
    ensures r.Some? ==> |r.value| == |b.bridge.value.port.value|
    ensures r.Some? ==> forall k :: 0 <= k < |r.value| ==> r.value[k] == b.bridge.value.port.value[k].name
  {
    if b.bridge.Some? && b.bridge.value.port.Some? then Some(PortNames(b.bridge.value.port.value)) else None
  }
}
