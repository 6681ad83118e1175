/** The calls an apply makes outside the library (NetworkManager over
    D-Bus, the nispor plugin, the checkpoint service, the verification
    read-back) as a trace of events. Whether a call fails is not known to
    the library; it is given by an oracle `fails`, indexed by the position
    of the call in the trace. */
module Trace {
  import opened Common
  import Np = NisporTypes

  datatype Call =
    | NmApiNew
    | ConnectionsGet
    | ActiveConnectionsGet
    | ProfileBuild(name: string)
    | ConnectionAdd(uuid: string)
    | ProfilesDelete(name: string, uuid: string)
    | ConnectionActivate(uuid: string)
    | CheckpointCreate
    | CheckpointExtend(seconds: nat)
    | CheckpointDestroy
    | CheckpointRollback
    | NisporApply(conf: Np.NetConf)
    | Verify

  /** The way a call can fail: NetworkManager reports an `NmError`, the
      library's own helpers an `NmstateError`, nispor an error message. */
  datatype Fault = NmFault(nm: NmError) | LibFault(lib: NmstateError) | NisporFault(np: string)

  type Oracle = nat -> Option<Fault>

  function FaultText(f: Fault): string
  {
    match f
    case NmFault(e) => e.msg
    case LibFault(e) => e.msg
    case NisporFault(m) => m
  }

  /** The error a failing call makes the library return: a NetworkManager
      error is turned into a `Bug` by `nm_error_to_nmstate`, and anything
      the nispor plugin reports becomes a `PluginFailure`. */
  function CallError(c: Call, f: Fault): (e: NmstateError)
    ensures c.NisporApply? ==> e.kind == PluginFailure
    ensures !c.NisporApply? && f.NmFault? ==> e.kind == Bug
  {
    if c.NisporApply? then
      NmstateError(PluginFailure, "Unknown error from nipsor plugin: " + FaultText(f))
    else match f
      case NmFault(e) => NmErrorToNmstate(e)
      case LibFault(e) => e
      case NisporFault(m) => NmstateError(PluginFailure, m)
  }

  /** The calls made when `plan` is run from trace position `start`: each
      call in turn, stopping after the first one that fails. */
  function Executed(plan: seq<Call>, start: nat, fails: Oracle): seq<Call>
  {
    if plan == [] then []
    else if fails(start).Some? then [plan[0]]
    else [plan[0]] + Executed(plan[1..], start + 1, fails)
  }

  /** The result of running `plan` from `start`: the error of the first
      failing call, or success when none fails. */
  function PlanOutcome(plan: seq<Call>, start: nat, fails: Oracle): Result<(), NmstateError>
  {
    if plan == [] then Ok(())
    else if fails(start).Some? then Err(CallError(plan[0], fails(start).value))
    else PlanOutcome(plan[1..], start + 1, fails)
  }

  /** None of the calls at positions `start .. start + n` fails. */
  ghost predicate AllSucceed(start: nat, n: nat, fails: Oracle)
  {
    forall k :: start <= k < start + n ==> fails(k).None?
  }

  /** A run makes the calls of a prefix of the plan; it succeeds exactly
      when it made them all and none failed, and otherwise it stops at the
      first failure, whose error it returns. */
  lemma {:induction false} ExecutedIsFailFast(plan: seq<Call>, start: nat, fails: Oracle)
    ensures var done := Executed(plan, start, fails);
      && done <= plan
      && (PlanOutcome(plan, start, fails).Ok? <==> done == plan && AllSucceed(start, |plan|, fails))
      && AllSucceed(start, if PlanOutcome(plan, start, fails).Ok? then |done| else |done| - 1, fails)
      && (PlanOutcome(plan, start, fails).Err? ==>
            |done| > 0 && fails(start + |done| - 1).Some?
            && PlanOutcome(plan, start, fails).error
               == CallError(done[|done| - 1], fails(start + |done| - 1).value))
    decreases |plan|
  {
    if plan != [] && fails(start).None? {
      ExecutedIsFailFast(plan[1..], start + 1, fails);
    }
  }

  /** Running one call, then a plan. */
  lemma ExecutedCons(c: Call, rest: seq<Call>, start: nat, fails: Oracle)
    ensures Executed([c] + rest, start, fails)
      == if fails(start).Some? then [c] else [c] + Executed(rest, start + 1, fails)
    ensures PlanOutcome([c] + rest, start, fails)
      == if fails(start).Some? then Err(CallError(c, fails(start).value)) else PlanOutcome(rest, start + 1, fails)
  {
    assert ([c] + rest)[1..] == rest;
  }

  /** Running two plans one after the other is running their
      concatenation: the second starts only when the first succeeded. */
  lemma {:induction false} ExecutedAppend(p1: seq<Call>, p2: seq<Call>, start: nat, fails: Oracle)
    ensures Executed(p1 + p2, start, fails)
      == if PlanOutcome(p1, start, fails).Ok? then p1 + Executed(p2, start + |p1|, fails)
         else Executed(p1, start, fails)
    ensures PlanOutcome(p1 + p2, start, fails)
      == if PlanOutcome(p1, start, fails).Ok? then PlanOutcome(p2, start + |p1|, fails)
         else PlanOutcome(p1, start, fails)
    decreases |p1|
  {
    if p1 == [] {
      assert p1 + p2 == p2;
    } else {
      var q := p1 + p2;
      assert q[0] == p1[0];
      assert q[1..] == p1[1..] + p2;
      if fails(start).None? {
        ExecutedAppend(p1[1..], p2, start + 1, fails);
        assert Executed(q, start, fails) == [p1[0]] + Executed(p1[1..] + p2, start + 1, fails);
        assert PlanOutcome(q, start, fails) == PlanOutcome(p1[1..] + p2, start + 1, fails);
        assert PlanOutcome(p1, start, fails) == PlanOutcome(p1[1..], start + 1, fails);
        if PlanOutcome(p1[1..], start + 1, fails).Ok? {
          assert [p1[0]] + p1[1..] == p1;
        } else {
          assert Executed(p1, start, fails) == [p1[0]] + Executed(p1[1..], start + 1, fails);
        }
      } else {
        assert Executed(q, start, fails) == [p1[0]] == Executed(p1, start, fails);
      }
    }
  }

  /** A plan whose calls all succeed runs to its end and succeeds. */
  lemma AllSucceeded(plan: seq<Call>, start: nat, fails: Oracle)
    requires AllSucceed(start, |plan|, fails)
    ensures Executed(plan, start, fails) == plan
    ensures PlanOutcome(plan, start, fails) == Ok(())
  {
    ExecutedIsFailFast(plan, start, fails);
  }

  /** Running the rest of a plan after a prefix whose calls all succeeded. */
  lemma {:induction false} AfterSucceededPrefix(done: seq<Call>, rest: seq<Call>, start: nat, fails: Oracle)
    requires AllSucceed(start, |done|, fails)
    ensures Executed(done + rest, start, fails) == done + Executed(rest, start + |done|, fails)
    ensures PlanOutcome(done + rest, start, fails) == PlanOutcome(rest, start + |done|, fails)
  {
    AllSucceeded(done, start, fails);
    ExecutedAppend(done, rest, start, fails);
  }

  /** Running a part `p` of `plan`, after the calls `done`, which all
      succeeded: if the part fails, the whole plan fails there with the
      same error; if it succeeds, all its calls were made and succeeded,
      and `rest` remains. */
  lemma RunPart(plan: seq<Call>, done: seq<Call>, p: seq<Call>, rest: seq<Call>, start: nat, fails: Oracle)
    requires plan == done + (p + rest)
    requires AllSucceed(start, |done|, fails)
    ensures PlanOutcome(p, start + |done|, fails).Err? ==>
      && done + Executed(p, start + |done|, fails) == Executed(plan, start, fails)
      && PlanOutcome(p, start + |done|, fails) == PlanOutcome(plan, start, fails)
    ensures PlanOutcome(p, start + |done|, fails).Ok? ==>
      && Executed(p, start + |done|, fails) == p
      && AllSucceed(start, |done + p|, fails)
      && plan == (done + p) + rest
  {
    var at := start + |done|;
    AfterSucceededPrefix(done, p + rest, start, fails);
    ExecutedAppend(p, rest, at, fails);
    ExecutedIsFailFast(p, at, fails);
    if PlanOutcome(p, at, fails).Ok? {
      assert AllSucceed(at, |p|, fails);
      forall k | start <= k < start + |done + p|
        ensures fails(k).None?
      {
        if k >= at {
          assert at <= k < at + |p|;
        }
      }
      assert plan == (done + p) + rest;
    }
  }

  /** Carrying out the next call `c` of `plan`, after the calls `done`,
      which all succeeded: the call is appended to the trace and its outcome
      is read from the oracle at its position. A failure ends the plan's run
      with that call's error. */
  method Perform(c: Call, ghost plan: seq<Call>, ghost rest: seq<Call>, start: nat, fails: Oracle, done: seq<Call>)
    returns (err: Option<NmstateError>, calls: seq<Call>)
    requires plan == done + [c] + rest
    requires AllSucceed(start, |done|, fails)
    ensures calls == done + [c]
    ensures fails(start + |done|).Some? ==> err == Some(CallError(c, fails(start + |done|).value))
    ensures fails(start + |done|).None? ==> err.None?
    ensures err.Some? ==> calls == Executed(plan, start, fails) && PlanOutcome(plan, start, fails) == Err(err.value)
    ensures err.None? ==> AllSucceed(start, |calls|, fails) && plan == calls + rest
  {
    calls := done + [c];
    var f := fails(start + |done|);
    if f.Some? {
      err := Some(CallError(c, f.value));
    } else {
      err := None;
    }
    assert done + [c] + rest == done + ([c] + rest);
    AfterSucceededPrefix(done, [c] + rest, start, fails);
    ExecutedCons(c, rest, start + |done|, fails);
  }
}
