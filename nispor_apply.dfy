/** The kernel backend: a network state turned into a nispor `NetConf`,
    and the three nispor applies (deletions, additions, changes). */
module NisporApply {
  import opened Common
  import opened IfaceType
  import opened IfaceData
  import opened Iface
  import opened NisporShow
  import opened Trace
  import opened NetStateData
  import opened Seqs
  import Np = NisporTypes

  /** `nmstate_iface_type_to_np`: only the linux bridge, ethernet and veth
      kinds have a nispor counterpart. */
  function NmstateIfaceTypeToNp(t: InterfaceType): (r: Np.IfaceType)
    ensures r != Np.Unknown <==> t in {InterfaceType.LinuxBridge, InterfaceType.Ethernet, InterfaceType.Veth}
    ensures r in {Np.Bridge, Np.Ethernet, Np.Veth, Np.Unknown}
  {
    match t
    case LinuxBridge => Np.Bridge
    case Ethernet => Np.Ethernet
    case Veth => Np.Veth
    case _ => Np.Unknown
  }

  /** The type mappings of the two directions agree: bridge and ethernet
      survive the trip nmstate to nispor and back (and nispor to nmstate
      and back); a veth comes back as ethernet, because nispor's veth is
      reported as ethernet. */
  lemma TypeMappingsAgree(t: InterfaceType, n: Np.IfaceType)
    ensures t == InterfaceType.LinuxBridge || t == InterfaceType.Ethernet
            ==> NpIfaceTypeToNmstate(NmstateIfaceTypeToNp(t)) == t
    ensures t == InterfaceType.Veth ==> NpIfaceTypeToNmstate(NmstateIfaceTypeToNp(t)) == InterfaceType.Ethernet
    ensures n == Np.Bridge || n == Np.Ethernet ==> NmstateIfaceTypeToNp(NpIfaceTypeToNmstate(n)) == n
    ensures n == Np.Veth ==> NmstateIfaceTypeToNp(NpIfaceTypeToNmstate(n)) == Np.Ethernet
  {
  }

  /** `nms_veth_conf_to_np`: the peer is carried over. */
  function NmsVethConfToNp(c: Option<VethConfig>): (r: Option<Np.VethConf>)
    ensures r.Some? <==> c.Some?
    ensures r.Some? ==> r.value.peer == c.value.peer
  {
    if c.Some? then Some(Np.VethConf(c.value.peer)) else None
  }

  /** The nispor configuration of one interface: up, under its own name and
      the given type, with its controller, and with the veth peer of a veth
      interface. */
  function ConfFor(iface: Interface, t: Np.IfaceType): Np.IfaceConf
  {
    Np.IfaceConf(
      Name(iface), Some(t), Np.Up, BaseIface(iface).controller,
      if iface.Veth? then NmsVethConfToNp(iface.veth.veth) else None)
  }

  /** `nmstate_iface_to_np`, which never fails. */
  method NmstateIfaceToNp(iface: Interface, t: Np.IfaceType) returns (r: Result<Np.IfaceConf, NmstateError>)
    ensures r == Ok(ConfFor(iface, t))
    ensures r.value.name == Name(iface) && r.value.ifaceType == Some(t) && r.value.state == Np.Up
    ensures r.value.controller == BaseIface(iface).controller
    ensures r.value.veth.Some? <==> iface.Veth? && iface.veth.veth.Some?
    ensures r.value.veth.Some? ==> r.value.veth.value.peer == iface.veth.veth.value.peer
  {
    var np := Np.IfaceConf(Name(iface), Some(t), Np.Up, None, None);
    if BaseIface(iface).controller.Some? {
      np := np.(controller := Some(BaseIface(iface).controller.value));
    }
    match iface {
      case Veth(v) =>
        np := np.(veth := NmsVethConfToNp(v.veth));
      case _ =>
    }
    r := Ok(np);
  }

  /** An interface that goes to nispor: it is up and its type has a nispor
      counterpart. */
  predicate Keep(iface: Interface)
  {
    IsUp(iface) && NmstateIfaceTypeToNp(IfaceTypeOf(iface)) != Np.Unknown
  }

  /** The configuration of an interface that is kept, none for the others. */
  function ConfOf(iface: Interface): (r: Option<Np.IfaceConf>)
    ensures r.Some? <==> Keep(iface)
  {
    if Keep(iface) then Some(ConfFor(iface, NmstateIfaceTypeToNp(IfaceTypeOf(iface)))) else None
  }

  /** The configurations `net_state_to_nispor` collects, in order. */
  function ConfsOf(ifaces: seq<Interface>): seq<Np.IfaceConf>
  {
    FilterMap(ifaces, ConfOf)
  }

  /** The configurations are exactly those of the kept interfaces, one per
      kept interface, in the order of the interfaces; an interface that is
      not up or has a type nispor does not know is skipped. Each one is up,
      of a known nispor type, and named after its interface. */
  lemma ConfsOfKeptInOrder(ifaces: seq<Interface>)
    ensures var idx := AcceptedIndices(ifaces, ConfOf);
      && |idx| == |ConfsOf(ifaces)|
      && (forall j :: 0 <= j < |idx| ==>
            idx[j] < |ifaces|
            && ConfsOf(ifaces)[j] == ConfFor(ifaces[idx[j]], NmstateIfaceTypeToNp(IfaceTypeOf(ifaces[idx[j]])))
            && ConfsOf(ifaces)[j].name == Name(ifaces[idx[j]]))
      && (forall j, j' :: 0 <= j < j' < |idx| ==> idx[j] < idx[j'])
      && (forall k :: 0 <= k < |ifaces| ==> (k in idx <==> Keep(ifaces[k])))
  {
    FilterMapInOrder(ifaces, ConfOf);
  }

  /** Every configuration handed to nispor is an up interface of a known
      nispor type. */
  lemma ConfsOfAreUp(ifaces: seq<Interface>)
    ensures forall c :: c in ConfsOf(ifaces) ==>
      c.state == Np.Up && c.ifaceType.Some? && c.ifaceType.value in {Np.Bridge, Np.Ethernet, Np.Veth}
  {
    FilterMapResults(ifaces, ConfOf,
      (c: Np.IfaceConf) => c.state == Np.Up && c.ifaceType.Some? && c.ifaceType.value in {Np.Bridge, Np.Ethernet, Np.Veth});
  }

  /** `net_state_to_nispor`, which never fails. */
  method NetStateToNispor(netState: NetworkState) returns (r: Result<Np.NetConf, NmstateError>)
    ensures r == Ok(Np.NetConf(Some(ConfsOf(netState.interfaces))))
  {
    var ifaces := netState.interfaces;
    var npIfaces: seq<Np.IfaceConf> := [];
    for i := 0 to |ifaces|
      invariant npIfaces == ConfsOf(ifaces[..i])
    {
      var iface := ifaces[i];
      assert ifaces[..i + 1] == ifaces[..i] + [iface];
      FilterMapSnoc(ifaces[..i], iface, ConfOf);
      if !IsUp(iface) {
        continue;
      }
      var npType := NmstateIfaceTypeToNp(IfaceTypeOf(iface));
      if npType == Np.Unknown {
        continue;
      }
      var conf := NmstateIfaceToNp(iface, npType);
      npIfaces := npIfaces + [conf.value];
    }
    assert ifaces[..|ifaces|] == ifaces;
    r := Ok(Np.NetConf(Some(npIfaces)));
  }

  /** The calls `nispor_apply` makes: deletions first, then additions, then
      changes. */
  function NisporPlan(add: seq<Interface>, chg: seq<Interface>, del: seq<Interface>): seq<Call>
  {
    [NisporApply(Np.NetConf(Some(ConfsOf(del)))),
     NisporApply(Np.NetConf(Some(ConfsOf(add)))),
     NisporApply(Np.NetConf(Some(ConfsOf(chg))))]
  }

  /** A plan made only of nispor applies fails only with `PluginFailure`. */
  lemma NisporFailuresArePluginFailures(plan: seq<Call>, start: nat, fails: Oracle)
    requires forall c :: c in plan ==> c.NisporApply?
    ensures PlanOutcome(plan, start, fails).Err? ==> PlanOutcome(plan, start, fails).error.kind == PluginFailure
  {
    ExecutedIsFailFast(plan, start, fails);
    var done := Executed(plan, start, fails);
    if PlanOutcome(plan, start, fails).Err? {
      assert done[|done| - 1] == plan[|done| - 1];
      assert plan[|done| - 1] in plan;
    }
  }

  /** `nispor_apply`: each state is converted and applied in turn, stopping
      at the first nispor error, which is reported as a `PluginFailure`. */
  method NisporApplyStates(add: NetworkState, chg: NetworkState, del: NetworkState, start: nat, fails: Oracle)
    returns (r: Result<(), NmstateError>, calls: seq<Call>)
    ensures calls == Executed(NisporPlan(add.interfaces, chg.interfaces, del.interfaces), start, fails)
    ensures r == PlanOutcome(NisporPlan(add.interfaces, chg.interfaces, del.interfaces), start, fails)
    ensures r.Err? ==> r.error.kind == PluginFailure
  {
    ghost var plan := NisporPlan(add.interfaces, chg.interfaces, del.interfaces);
    NisporFailuresArePluginFailures(plan, start, fails);
    var err: Option<NmstateError>;
    var delConf := NetStateToNispor(del);
    err, calls := Perform(NisporApply(delConf.value), plan, plan[1..], start, fails, []);
    if err.Some? {
      return Err(err.value), calls;
    }
    var addConf := NetStateToNispor(add);
    err, calls := Perform(NisporApply(addConf.value), plan, plan[2..], start, fails, calls);
    if err.Some? {
      return Err(err.value), calls;
    }
    var chgConf := NetStateToNispor(chg);
    err, calls := Perform(NisporApply(chgConf.value), plan, [], start, fails, calls);
    if err.Some? {
      return Err(err.value), calls;
    }
    AllSucceeded(plan, start, fails);
    r := Ok(());
  }
}
