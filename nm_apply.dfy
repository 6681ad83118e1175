/** The NetworkManager backend's apply: for each of the deletion, addition
    and change states, one profile per interface of a known type is added
    (replacing the interface's older profiles) and then activated, with the
    checkpoint's timeout extended as the work goes on. The uuid a profile
    gets is chosen from the existing connections (`iface_to_nm_connection`,
    not part of this model) and is a parameter. */
module NmApply {
  import opened Common
  import opened IfaceType
  import opened IfaceData
  import opened Trace
  import opened NetStateData
  import opened Seqs

  /** The timeout is extended once for every 20 profile additions. */
  const TIMEOUT_ADJUST_PROFILE_ADDTION_GROUP_SIZE: nat := 20
  const TIMEOUT_SECONDS_FOR_PROFILE_ADDTION: nat := 60
  const TIMEOUT_SECONDS_FOR_PROFILE_ACTIVATION: nat := 60

  /** An interface for which a profile is made. */
  predicate HasProfile(iface: Interface)
  {
    IfaceTypeOf(iface) != InterfaceType.Unknown
  }

  /** The timeout extension made before the interface at `index`: one at
      the last index of each group of 20. */
  function ExtendStep(index: nat): seq<Call>
  {
    if index % TIMEOUT_ADJUST_PROFILE_ADDTION_GROUP_SIZE == TIMEOUT_ADJUST_PROFILE_ADDTION_GROUP_SIZE - 1
    then [CheckpointExtend(TIMEOUT_SECONDS_FOR_PROFILE_ADDTION)] else []
  }

  /** For an interface of a known type: building its profile, adding it and
      deleting the interface's other profiles. */
  function ProfileStep(iface: Interface, uuidFor: Interface -> string): seq<Call>
  {
    if HasProfile(iface)
    then [ProfileBuild(Name(iface)), ConnectionAdd(uuidFor(iface)), ProfilesDelete(Name(iface), uuidFor(iface))]
    else []
  }

  /** The calls made for the interface at `index`. */
  function AddStep(index: nat, iface: Interface, uuidFor: Interface -> string): seq<Call>
  {
    ExtendStep(index) + ProfileStep(iface, uuidFor)
  }

  /** The calls for the interfaces from position `i` on. */
  function AddPhaseFrom(ifaces: seq<Interface>, i: nat, uuidFor: Interface -> string): seq<Call>
    requires i <= |ifaces|
    decreases |ifaces| - i
  {
    if i == |ifaces| then [] else AddStep(i, ifaces[i], uuidFor) + AddPhaseFrom(ifaces, i + 1, uuidFor)
  }

  /** The uuids of the profiles added for the interfaces from position `i`
      on, in order. */
  function AddedUuidsFrom(ifaces: seq<Interface>, i: nat, uuidFor: Interface -> string): seq<string>
    requires i <= |ifaces|
    decreases |ifaces| - i
  {
    if i == |ifaces| then []
    else (if HasProfile(ifaces[i]) then [uuidFor(ifaces[i])] else []) + AddedUuidsFrom(ifaces, i + 1, uuidFor)
  }

  /** The activations: each one after its own timeout extension. */
  function ActivatePhase(uuids: seq<string>): seq<Call>
  {
    if uuids == [] then []
    else [CheckpointExtend(TIMEOUT_SECONDS_FOR_PROFILE_ACTIVATION), ConnectionActivate(uuids[0])]
         + ActivatePhase(uuids[1..])
  }

  /** The calls `apply_single_state` makes for the interfaces of one state. */
  function SinglePlan(ifaces: seq<Interface>, uuidFor: Interface -> string): seq<Call>
  {
    [ConnectionsGet, ActiveConnectionsGet]
    + AddPhaseFrom(ifaces, 0, uuidFor)
    + ActivatePhase(AddedUuidsFrom(ifaces, 0, uuidFor))
  }

  /** The calls `nm_apply` makes: opening the API, then the deletion state,
      the addition state and the change state. */
  function NmApplyPlan(add: seq<Interface>, chg: seq<Interface>, del: seq<Interface>,
                       addUuid: Interface -> string, chgUuid: Interface -> string,
                       delUuid: Interface -> string): seq<Call>
  {
    [NmApiNew] + (SinglePlan(del, delUuid) + (SinglePlan(add, addUuid) + SinglePlan(chg, chgUuid)))
  }

  // ---------------------------------------------------------------------
  // Properties of the plan
  // ---------------------------------------------------------------------

  function AddOf(c: Call): Option<string>
  {
    if c.ConnectionAdd? then Some(c.uuid) else None
  }

  function ActivationOf(c: Call): Option<string>
  {
    if c.ConnectionActivate? then Some(c.uuid) else None
  }

  function ExtensionOf(c: Call): Option<nat>
  {
    if c.CheckpointExtend? then Some(c.seconds) else None
  }

  /** The uuids added, in the order of the additions. */
  function Adds(calls: seq<Call>): seq<string>
  {
    FilterMap(calls, AddOf)
  }

  /** The uuids activated, in the order of the activations. */
  function Activations(calls: seq<Call>): seq<string>
  {
    FilterMap(calls, ActivationOf)
  }

  /** The timeout extensions, in seconds, in order. */
  function Extensions(calls: seq<Call>): seq<nat>
  {
    FilterMap(calls, ExtensionOf)
  }

  /** Filter-mapping the calls for one interface's profile, call by call. */
  lemma ProfileStepFilter<U>(iface: Interface, uuidFor: Interface -> string, f: Call -> Option<U>)
    requires HasProfile(iface)
    ensures FilterMap(ProfileStep(iface, uuidFor), f)
      == Opt(f(ProfileBuild(Name(iface)))) + Opt(f(ConnectionAdd(uuidFor(iface))))
         + Opt(f(ProfilesDelete(Name(iface), uuidFor(iface))))
  {
    var b, a, d := ProfileBuild(Name(iface)), ConnectionAdd(uuidFor(iface)), ProfilesDelete(Name(iface), uuidFor(iface));
    assert ProfileStep(iface, uuidFor) == [b] + ([a] + [d]);
    FilterMapCons(b, [a] + [d], f);
    FilterMapCons(a, [d], f);
    FilterMapSingle(d, f);
  }

  /** The extension step extends the timeout by 60 seconds at the last
      index of each group of 20, and neither adds nor activates. */
  lemma ExtendStepEffects(index: nat)
    ensures Adds(ExtendStep(index)) == [] && Activations(ExtendStep(index)) == []
    ensures Extensions(ExtendStep(index)) == if index % 20 == 19 then [60] else []
  {
    if index % 20 == 19 {
      FilterMapSingle(CheckpointExtend(60), AddOf);
      FilterMapSingle(CheckpointExtend(60), ActivationOf);
      FilterMapSingle(CheckpointExtend(60), ExtensionOf);
    }
  }

  /** The profile step adds the interface's profile when its type is known,
      and neither activates nor extends the timeout. */
  lemma ProfileStepEffects(iface: Interface, uuidFor: Interface -> string)
    ensures Adds(ProfileStep(iface, uuidFor)) == if HasProfile(iface) then [uuidFor(iface)] else []
    ensures Activations(ProfileStep(iface, uuidFor)) == [] && Extensions(ProfileStep(iface, uuidFor)) == []
  {
    if HasProfile(iface) {
      ProfileStepFilter(iface, uuidFor, AddOf);
      ProfileStepFilter(iface, uuidFor, ActivationOf);
      ProfileStepFilter(iface, uuidFor, ExtensionOf);
    }
  }

  /** What one interface contributes: its profile's addition when its type
      is known, no activation, and one timeout extension exactly at the
      last index of a group of 20. */
  lemma AddStepEffects(index: nat, iface: Interface, uuidFor: Interface -> string)
    ensures Adds(AddStep(index, iface, uuidFor)) == if HasProfile(iface) then [uuidFor(iface)] else []
    ensures Activations(AddStep(index, iface, uuidFor)) == []
    ensures Extensions(AddStep(index, iface, uuidFor)) == if index % 20 == 19 then [60] else []
  {
    var ext, prof := ExtendStep(index), ProfileStep(iface, uuidFor);
    ExtendStepEffects(index);
    ProfileStepEffects(iface, uuidFor);
    FilterMapAppend(ext, prof, AddOf);
    FilterMapAppend(ext, prof, ActivationOf);
    FilterMapAppend(ext, prof, ExtensionOf);
  }

  /** Going one interface further adds one group boundary exactly when the
      index is the last of a group of 20. */
  lemma GroupStep(i: nat)
    ensures (i + 1) / 20 == i / 20 + (if i % 20 == 19 then 1 else 0)
  {
  }

  /** The additions for the interfaces from `i` on add exactly the profiles
      of the interfaces of a known type, in order, activate nothing, and
      extend the timeout once per index `k` with `k % 20 == 19`: `n`
      interfaces get `n / 20` extensions of 60 seconds. */
  lemma {:induction false} AddPhaseEffects(ifaces: seq<Interface>, i: nat, uuidFor: Interface -> string)
    requires i <= |ifaces|
    ensures Adds(AddPhaseFrom(ifaces, i, uuidFor)) == AddedUuidsFrom(ifaces, i, uuidFor)
    ensures Activations(AddPhaseFrom(ifaces, i, uuidFor)) == []
    ensures |Extensions(AddPhaseFrom(ifaces, i, uuidFor))| == |ifaces| / 20 - i / 20
    ensures forall s :: s in Extensions(AddPhaseFrom(ifaces, i, uuidFor)) ==> s == 60
    decreases |ifaces| - i
  {
    if i < |ifaces| {
      var step := AddStep(i, ifaces[i], uuidFor);
      var later := AddPhaseFrom(ifaces, i + 1, uuidFor);
      AddStepEffects(i, ifaces[i], uuidFor);
      AddPhaseEffects(ifaces, i + 1, uuidFor);
      FilterMapAppend(step, later, AddOf);
      FilterMapAppend(step, later, ActivationOf);
      FilterMapAppend(step, later, ExtensionOf);
      GroupStep(i);
    }
  }

  /** An interface of type `Unknown` contributes at most a timeout
      extension: no profile is built, added, deleted or activated for it. */
  lemma UnknownMakesNoProfile(index: nat, iface: Interface, uuidFor: Interface -> string)
    requires IfaceTypeOf(iface) == InterfaceType.Unknown
    ensures forall c :: c in AddStep(index, iface, uuidFor) ==> c == CheckpointExtend(60)
  {
  }

  /** The activation phase alternates: a 60 second timeout extension at
      each even position, the activation of the next uuid at each odd one. */
  lemma {:induction false} ActivatePhaseShape(uuids: seq<string>)
    ensures |ActivatePhase(uuids)| == 2 * |uuids|
    ensures forall k :: 0 <= k < |ActivatePhase(uuids)| ==>
      && (k % 2 == 0 ==> ActivatePhase(uuids)[k] == CheckpointExtend(60))
      && (k % 2 == 1 ==> ActivatePhase(uuids)[k] == ConnectionActivate(uuids[k / 2]))
    decreases |uuids|
  {
    if uuids != [] {
      var later := ActivatePhase(uuids[1..]);
      ActivatePhaseShape(uuids[1..]);
      forall k | 2 <= k < |ActivatePhase(uuids)|
        ensures k % 2 == 0 ==> ActivatePhase(uuids)[k] == CheckpointExtend(60)
        ensures k % 2 == 1 ==> ActivatePhase(uuids)[k] == ConnectionActivate(uuids[k / 2])
      {
        assert ActivatePhase(uuids)[k] == later[k - 2];
        assert (k - 2) % 2 == k % 2 && (k - 2) / 2 == k / 2 - 1;
      }
    }
  }

  /** The activation phase activates the given uuids in order and adds
      nothing. */
  lemma {:induction false} ActivatePhaseEffects(uuids: seq<string>)
    ensures Activations(ActivatePhase(uuids)) == uuids
    ensures Adds(ActivatePhase(uuids)) == []
    decreases |uuids|
  {
    if uuids != [] {
      var e, a := CheckpointExtend(60), ConnectionActivate(uuids[0]);
      var later := ActivatePhase(uuids[1..]);
      ActivatePhaseEffects(uuids[1..]);
      assert ActivatePhase(uuids) == [e] + ([a] + later);
      FilterMapCons(e, [a] + later, AddOf);
      FilterMapCons(a, later, AddOf);
      FilterMapCons(e, [a] + later, ActivationOf);
      FilterMapCons(a, later, ActivationOf);
    }
  }

  /** In the calls for one state, the activations are exactly the
      additions, in the same order. */
  lemma SinglePlanActivatesAdded(ifaces: seq<Interface>, uuidFor: Interface -> string)
    ensures Activations(SinglePlan(ifaces, uuidFor)) == AddedUuidsFrom(ifaces, 0, uuidFor)
    ensures Adds(SinglePlan(ifaces, uuidFor)) == AddedUuidsFrom(ifaces, 0, uuidFor)
  {
    var adds := AddPhaseFrom(ifaces, 0, uuidFor);
    var acts := ActivatePhase(AddedUuidsFrom(ifaces, 0, uuidFor));
    assert SinglePlan(ifaces, uuidFor) == [ConnectionsGet] + ([ActiveConnectionsGet] + (adds + acts));
    AddPhaseEffects(ifaces, 0, uuidFor);
    ActivatePhaseEffects(AddedUuidsFrom(ifaces, 0, uuidFor));
    FilterMapCons(ConnectionsGet, [ActiveConnectionsGet] + (adds + acts), AddOf);
    FilterMapCons(ActiveConnectionsGet, adds + acts, AddOf);
    FilterMapAppend(adds, acts, AddOf);
    FilterMapCons(ConnectionsGet, [ActiveConnectionsGet] + (adds + acts), ActivationOf);
    FilterMapCons(ActiveConnectionsGet, adds + acts, ActivationOf);
    FilterMapAppend(adds, acts, ActivationOf);
  }

  /** A sequence without a given kind of call has no call of that kind at
      any position. */
  lemma NoActivationIn(calls: seq<Call>)
    requires Activations(calls) == []
    ensures forall a :: 0 <= a < |calls| ==> !calls[a].ConnectionActivate?
  {
    FilterMapInOrder(calls, ActivationOf);
  }

  /** After calls that activate nothing, the activation phase's
      activations sit at its odd positions, each right after a timeout
      extension, and it adds nothing. */
  lemma ActivationsFollow(x: seq<Call>, uuids: seq<string>)
    requires forall a :: 0 <= a < |x| ==> !x[a].ConnectionActivate?
    ensures var p := x + ActivatePhase(uuids);
      && (forall a :: 0 <= a < |p| && p[a].ConnectionActivate? ==>
            a > |x| && p[a - 1] == CheckpointExtend(60))
      && (forall b :: 0 <= b < |p| && p[b].ConnectionAdd? ==> b < |x|)
  {
    var acts := ActivatePhase(uuids);
    var p := x + acts;
    ActivatePhaseShape(uuids);
    forall a | 0 <= a < |p| && p[a].ConnectionActivate?
      ensures a > |x| && p[a - 1] == CheckpointExtend(60)
    {
      if a < |x| {
        assert false;
      } else {
        assert p[a] == acts[a - |x|];
        assert p[a - 1] == acts[a - 1 - |x|];
      }
    }
    forall b | 0 <= b < |p| && p[b].ConnectionAdd?
      ensures b < |x|
    {
      if b >= |x| {
        assert false;
      }
    }
  }

  /** In the calls for one state, every activation comes after every
      addition, and directly after a 60 second timeout extension. */
  lemma SinglePlanOrder(ifaces: seq<Interface>, uuidFor: Interface -> string)
    ensures var p := SinglePlan(ifaces, uuidFor);
      && (forall a, b :: 0 <= a < |p| && 0 <= b < |p| && p[a].ConnectionActivate? && p[b].ConnectionAdd? ==> b < a)
      && (forall a :: 0 <= a < |p| && p[a].ConnectionActivate? ==> a > 0 && p[a - 1] == CheckpointExtend(60))
  {
    var adds := AddPhaseFrom(ifaces, 0, uuidFor);
    var x := [ConnectionsGet] + ([ActiveConnectionsGet] + adds);
    assert SinglePlan(ifaces, uuidFor) == x + ActivatePhase(AddedUuidsFrom(ifaces, 0, uuidFor));
    AddPhaseEffects(ifaces, 0, uuidFor);
    FilterMapCons(ConnectionsGet, [ActiveConnectionsGet] + adds, ActivationOf);
    FilterMapCons(ActiveConnectionsGet, adds, ActivationOf);
    NoActivationIn(x);
    ActivationsFollow(x, AddedUuidsFrom(ifaces, 0, uuidFor));
  }

  // ---------------------------------------------------------------------
  // The apply itself
  // ---------------------------------------------------------------------

  /** One iteration of the addition loop of `apply_single_state`, for the
      interface at `index`: the timeout extension due at that index, then,
      for an interface of a known type, its profile is built, added and its
      older profiles deleted. `added` is the uuid of the added profile. */
  method AddInterface(index: nat, iface: Interface, uuidFor: Interface -> string,
                      ghost plan: seq<Call>, ghost tail: seq<Call>,
                      start: nat, fails: Oracle, done: seq<Call>)
    returns (err: Option<NmstateError>, calls: seq<Call>, added: Option<string>)
    requires plan == done + (AddStep(index, iface, uuidFor) + tail)
    requires AllSucceed(start, |done|, fails)
    ensures err.Some? ==> calls == Executed(plan, start, fails) && PlanOutcome(plan, start, fails) == Err(err.value)
    ensures err.None? ==> AllSucceed(start, |calls|, fails) && plan == calls + tail
    ensures err.None? ==> added == if HasProfile(iface) then Some(uuidFor(iface)) else None
  {
    ghost var prof := ProfileStep(iface, uuidFor);
    calls := done;
    added := None;
    if index % TIMEOUT_ADJUST_PROFILE_ADDTION_GROUP_SIZE == TIMEOUT_ADJUST_PROFILE_ADDTION_GROUP_SIZE - 1 {
      err, calls := Perform(CheckpointExtend(TIMEOUT_SECONDS_FOR_PROFILE_ADDTION), plan, prof + tail,
                            start, fails, calls);
      if err.Some? {
        return;
      }
    }
    assert plan == calls + (prof + tail);
    if IfaceTypeOf(iface) != InterfaceType.Unknown {
      var uuid := uuidFor(iface);
      err, calls := Perform(ProfileBuild(Name(iface)), plan, prof[1..] + tail, start, fails, calls);
      if err.Some? {
        return;
      }
      err, calls := Perform(ConnectionAdd(uuid), plan, prof[2..] + tail, start, fails, calls);
      if err.Some? {
        return;
      }
      err, calls := Perform(ProfilesDelete(Name(iface), uuid), plan, tail, start, fails, calls);
      if err.Some? {
        return;
      }
      added := Some(uuid);
    }
    err := None;
  }

  /** The activation loop of `apply_single_state`: a timeout extension,
      then the activation, for each uuid in turn. */
  method ActivateAll(uuids: seq<string>, ghost plan: seq<Call>, start: nat, fails: Oracle, done: seq<Call>)
    returns (err: Option<NmstateError>, calls: seq<Call>)
    requires plan == done + ActivatePhase(uuids)
    requires AllSucceed(start, |done|, fails)
    ensures err.Some? ==> calls == Executed(plan, start, fails) && PlanOutcome(plan, start, fails) == Err(err.value)
    ensures err.None? ==> AllSucceed(start, |calls|, fails) && plan == calls
  {
    calls := done;
    for k := 0 to |uuids|
      invariant AllSucceed(start, |calls|, fails)
      invariant plan == calls + ActivatePhase(uuids[k..])
    {
      assert uuids[k..][1..] == uuids[k + 1..];
      err, calls := Perform(CheckpointExtend(TIMEOUT_SECONDS_FOR_PROFILE_ACTIVATION), plan,
                            [ConnectionActivate(uuids[k])] + ActivatePhase(uuids[k + 1..]), start, fails, calls);
      if err.Some? {
        return;
      }
      err, calls := Perform(ConnectionActivate(uuids[k]), plan, ActivatePhase(uuids[k + 1..]), start, fails, calls);
      if err.Some? {
        return;
      }
    }
    err := None;
    assert uuids[|uuids|..] == [];
  }

  /** Going past the interface at `index`: its calls come first. */
  lemma AddPhaseUnfold(ifaces: seq<Interface>, index: nat, uuidFor: Interface -> string, tail: seq<Call>)
    requires index < |ifaces|
    ensures AddPhaseFrom(ifaces, index, uuidFor) + tail
         == AddStep(index, ifaces[index], uuidFor) + (AddPhaseFrom(ifaces, index + 1, uuidFor) + tail)
  {
  }

  /** Going past the interface at `index`: the uuid of its profile, if any,
      is the next one added. */
  lemma UuidsStep(ifaces: seq<Interface>, index: nat, uuidFor: Interface -> string,
                  before: seq<string>, added: Option<string>, all: seq<string>)
    requires index < |ifaces|
    requires before + AddedUuidsFrom(ifaces, index, uuidFor) == all
    requires added == if HasProfile(ifaces[index]) then Some(uuidFor(ifaces[index])) else None
    ensures (before + Opt(added)) + AddedUuidsFrom(ifaces, index + 1, uuidFor) == all
  {
    assert AddedUuidsFrom(ifaces, index, uuidFor) == Opt(added) + AddedUuidsFrom(ifaces, index + 1, uuidFor);
  }

  /** One turn of the addition loop: the interface at `index` is added and
      its uuid, if any, joins those collected. */
  method AddNext(ifaces: seq<Interface>, index: nat, uuidFor: Interface -> string, ghost plan: seq<Call>,
                 ghost tail: seq<Call>, start: nat, fails: Oracle, done: seq<Call>,
                 uuids: seq<string>, ghost all: seq<string>)
    returns (err: Option<NmstateError>, calls: seq<Call>, uuids': seq<string>)
    requires index < |ifaces|
    requires plan == done + (AddPhaseFrom(ifaces, index, uuidFor) + tail)
    requires AllSucceed(start, |done|, fails)
    requires uuids + AddedUuidsFrom(ifaces, index, uuidFor) == all
    ensures err.Some? ==> calls == Executed(plan, start, fails) && PlanOutcome(plan, start, fails) == Err(err.value)
    ensures err.None? ==>
      && AllSucceed(start, |calls|, fails)
      && plan == calls + (AddPhaseFrom(ifaces, index + 1, uuidFor) + tail)
      && uuids' + AddedUuidsFrom(ifaces, index + 1, uuidFor) == all
  {
    AddPhaseUnfold(ifaces, index, uuidFor, tail);
    var added: Option<string>;
    err, calls, added := AddInterface(index, ifaces[index], uuidFor, plan,
                                      AddPhaseFrom(ifaces, index + 1, uuidFor) + tail, start, fails, done);
    uuids' := uuids;
    if err.None? {
      UuidsStep(ifaces, index, uuidFor, uuids, added, all);
      uuids' := uuids + Opt(added);
    }
  }

  /** The addition loop of `apply_single_state`: each interface in turn,
      collecting the uuids of the added profiles. */
  method AddAll(ifaces: seq<Interface>, uuidFor: Interface -> string, ghost plan: seq<Call>, ghost tail: seq<Call>,
                start: nat, fails: Oracle, done: seq<Call>)
    returns (err: Option<NmstateError>, calls: seq<Call>, uuids: seq<string>)
    requires plan == done + (AddPhaseFrom(ifaces, 0, uuidFor) + tail)
    requires AllSucceed(start, |done|, fails)
    ensures err.Some? ==> calls == Executed(plan, start, fails) && PlanOutcome(plan, start, fails) == Err(err.value)
    ensures err.None? ==> AllSucceed(start, |calls|, fails) && plan == calls + tail
    ensures err.None? ==> uuids == AddedUuidsFrom(ifaces, 0, uuidFor)
  {
    calls := done;
    uuids := [];
    err := None;
    ghost var all := AddedUuidsFrom(ifaces, 0, uuidFor);
    var index := 0;
    while index < |ifaces| && err.None?
      invariant index <= |ifaces|
      invariant err.Some? ==> calls == Executed(plan, start, fails) && PlanOutcome(plan, start, fails) == Err(err.value)
      invariant err.None? ==>
        && AllSucceed(start, |calls|, fails)
        && plan == calls + (AddPhaseFrom(ifaces, index, uuidFor) + tail)
        && uuids + AddedUuidsFrom(ifaces, index, uuidFor) == all
    {
      err, calls, uuids := AddNext(ifaces, index, uuidFor, plan, tail, start, fails, calls, uuids, all);
      index := index + 1;
    }
    assert uuids + [] == uuids;
  }

  /** `apply_single_state`: reads the existing and the active connections,
      adds the profiles one interface at a time, then activates them; the
      first failing call ends it with that call's error. */
  method ApplySingleState(netState: NetworkState, uuidFor: Interface -> string, start: nat, fails: Oracle)
    returns (r: Result<(), NmstateError>, calls: seq<Call>)
    ensures calls == Executed(SinglePlan(netState.interfaces, uuidFor), start, fails)
    ensures r == PlanOutcome(SinglePlan(netState.interfaces, uuidFor), start, fails)
  {
    var ifaces := netState.interfaces;
    ghost var plan := SinglePlan(ifaces, uuidFor);
    ghost var adds := AddPhaseFrom(ifaces, 0, uuidFor);
    ghost var acts := ActivatePhase(AddedUuidsFrom(ifaces, 0, uuidFor));
    assert plan == [] + [ConnectionsGet] + ([ActiveConnectionsGet] + (adds + acts));
    var err: Option<NmstateError>;
    var uuids: seq<string>;
    err, calls := Perform(ConnectionsGet, plan, [ActiveConnectionsGet] + (adds + acts), start, fails, []);
    if err.None? {
      err, calls := Perform(ActiveConnectionsGet, plan, adds + acts, start, fails, calls);
    }
    if err.None? {
      err, calls, uuids := AddAll(ifaces, uuidFor, plan, acts, start, fails, calls);
    }
    if err.None? {
      err, calls := ActivateAll(uuids, plan, start, fails, calls);
    }
    if err.None? {
      AllSucceeded(plan, start, fails);
      r := Ok(());
    } else {
      r := Err(err.value);
    }
  }

  /** One state's `apply_single_state` as a part of a larger plan, after
      the calls `done`, which all succeeded. */
  method ApplyPart(netState: NetworkState, uuidFor: Interface -> string, ghost plan: seq<Call>, ghost rest: seq<Call>,
                   start: nat, fails: Oracle, done: seq<Call>)
    returns (err: Option<NmstateError>, calls: seq<Call>)
    requires plan == done + (SinglePlan(netState.interfaces, uuidFor) + rest)
    requires AllSucceed(start, |done|, fails)
    ensures err.Some? ==> calls == Executed(plan, start, fails) && PlanOutcome(plan, start, fails) == Err(err.value)
    ensures err.None? ==> AllSucceed(start, |calls|, fails) && plan == calls + rest
  {
    RunPart(plan, done, SinglePlan(netState.interfaces, uuidFor), rest, start, fails);
    var r, more := ApplySingleState(netState, uuidFor, start + |done|, fails);
    calls := done + more;
    err := if r.Ok? then None else Some(r.error);
  }

  /** `nm_apply`: opens the API, then applies the deletion state, the
      addition state and the change state, stopping at the first error. */
  method NmApplyStates(add: NetworkState, chg: NetworkState, del: NetworkState,
                       addUuid: Interface -> string, chgUuid: Interface -> string, delUuid: Interface -> string,
                       start: nat, fails: Oracle)
    returns (r: Result<(), NmstateError>, calls: seq<Call>)
    ensures calls == Executed(NmApplyPlan(add.interfaces, chg.interfaces, del.interfaces, addUuid, chgUuid, delUuid), start, fails)
    ensures r == PlanOutcome(NmApplyPlan(add.interfaces, chg.interfaces, del.interfaces, addUuid, chgUuid, delUuid), start, fails)
  {
    ghost var pAdd := SinglePlan(add.interfaces, addUuid);
    ghost var pChg := SinglePlan(chg.interfaces, chgUuid);
    ghost var plan := NmApplyPlan(add.interfaces, chg.interfaces, del.interfaces, addUuid, chgUuid, delUuid);
    assert plan == [] + [NmApiNew] + (SinglePlan(del.interfaces, delUuid) + (pAdd + pChg));
    var err: Option<NmstateError>;
    err, calls := Perform(NmApiNew, plan, SinglePlan(del.interfaces, delUuid) + (pAdd + pChg), start, fails, []);
    if err.None? {
      err, calls := ApplyPart(del, delUuid, plan, pAdd + pChg, start, fails, calls);
    }
    if err.None? {
      err, calls := ApplyPart(add, addUuid, plan, pChg, start, fails, calls);
    }
    if err.None? {
      assert plan == calls + (pChg + []);
      err, calls := ApplyPart(chg, chgUuid, plan, [], start, fails, calls);
    }
    if err.None? {
      AllSucceeded(plan, start, fails);
      r := Ok(());
    } else {
      r := Err(err.value);
    }
  }
}
