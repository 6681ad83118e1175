/** `NetworkState`: the interfaces of a network state, the list of the
    properties a desired state sets explicitly, and whether it is limited
    to the kernel. The methods here change only the state they are called
    on. */
module NetStateData {
  import opened Common
  import opened IfaceData

  class NetworkState {
    var interfaces: seq<Interface>
    /** The names of the members the desired state defines explicitly
        (`prop_list`); never serialised. */
    var propList: seq<string>
    var kernelOnly: bool

    /** `NetworkState::new`: the default, empty state. */
    constructor()
      ensures interfaces == [] && propList == [] && !kernelOnly
    {
      interfaces := [];
      propList := [];
      kernelOnly := false;
    }

    /** `NetworkState::set_kernel_only`. */
    method SetKernelOnly(value: bool)
      modifies this
      ensures kernelOnly == value
      ensures interfaces == old(interfaces) && propList == old(propList)
    {
      kernelOnly := value;
    }

    /** `NetworkState::append_interface_data`. */
    method AppendInterfaceData(iface: Interface)
      modifies this
      ensures interfaces == old(interfaces) + [iface]
      ensures propList == old(propList) && kernelOnly == old(kernelOnly)
    {
      interfaces := interfaces + [iface];
    }

    /** `NetworkState::update_state`: the other state's interfaces are
        merged in only when it lists `interfaces` among its explicit
        properties. The merge (`Interfaces::update`) is the parameter
        `merge`; when it fails, the interfaces are left as they were. */
    method UpdateState(other: NetworkState,
                       merge: (seq<Interface>, seq<Interface>) -> Result<seq<Interface>, NmstateError>)
      returns (r: Result<(), NmstateError>)
      requires other != this
      modifies this
      ensures "interfaces" !in other.propList ==> r == Ok(()) && interfaces == old(interfaces)
      ensures "interfaces" in other.propList ==>
        var merged := merge(old(interfaces), other.interfaces);
        && (merged.Ok? ==> r == Ok(()) && interfaces == merged.value)
        && (merged.Err? ==> r == Err(merged.error) && interfaces == old(interfaces))
      ensures propList == old(propList) && kernelOnly == old(kernelOnly)
    {
      if "interfaces" in other.propList {
        var merged := merge(interfaces, other.interfaces);
        if merged.Ok? {
          interfaces := merged.value;
          r := Ok(());
        } else {
          r := Err(merged.error);
        }
      } else {
        r := Ok(());
      }
    }
  }

  /** `NetworkState::new_from_json`. The JSON decoding itself is the
      parameter `parsed`: the interfaces it read (none when the document
      has no `interfaces` key) or the decoder's message. The explicit
      property list and the kernel-only flag are not read from JSON. */
  method NewFromJson(parsed: Result<seq<Interface>, string>) returns (r: Result<NetworkState, NmstateError>)
    ensures r.Ok? <==> parsed.Ok?
    ensures r.Ok? ==> fresh(r.value) && r.value.interfaces == parsed.value
                      && r.value.propList == [] && !r.value.kernelOnly
    ensures r.Err? ==> r.error == NmstateError(InvalidArgument, "Invalid json string: " + parsed.error)
  {
    match parsed {
      case Ok(ifaces) =>
        var s := new NetworkState();
        s.interfaces := ifaces;
        r := Ok(s);
      case Err(e) =>
        r := Err(NmstateError(InvalidArgument, "Invalid json string: " + e));
    }
  }

  /** `NetworkState::gen_state_for_apply`. The split of the desired
      interfaces into those to add, to change and to delete
      (`Interfaces::gen_state_for_apply`) is the parameter `split`. Each of
      the three new states marks `interfaces` as explicitly set. */
  method GenStateForApply(self: NetworkState, current: NetworkState,
                          split: (seq<Interface>, seq<Interface>) ->
                                   Result<(seq<Interface>, seq<Interface>, seq<Interface>), NmstateError>)
    returns (r: Result<(NetworkState, NetworkState, NetworkState), NmstateError>)
    ensures var s := split(self.interfaces, current.interfaces);
      && (r.Ok? <==> s.Ok?)
      && (r.Err? ==> r.error == s.error)
      && (r.Ok? ==>
            && fresh(r.value.0) && fresh(r.value.1) && fresh(r.value.2)
            && r.value.0.interfaces == s.value.0 && r.value.0.propList == ["interfaces"]
            && r.value.1.interfaces == s.value.1 && r.value.1.propList == ["interfaces"]
            && r.value.2.interfaces == s.value.2 && r.value.2.propList == ["interfaces"])
  {
    var add := new NetworkState();
    var chg := new NetworkState();
    var del := new NetworkState();
    var s := split(self.interfaces, current.interfaces);
    if s.Err? {
      return Err(s.error);
    }
    add.interfaces := s.value.0;
    add.propList := ["interfaces"];
    chg.interfaces := s.value.1;
    chg.propList := ["interfaces"];
    del.interfaces := s.value.2;
    del.propList := ["interfaces"];
    r := Ok((add, chg, del));
  }
}
