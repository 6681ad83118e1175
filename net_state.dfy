/** `NetworkState::retrieve` and `NetworkState::apply`: reading the current
    state from the kernel (and NetworkManager), and applying a desired
    state through NetworkManager under a checkpoint, or straight to the
    kernel, followed by verification attempts. */
module NetState {
  import opened Common
  import opened IfaceData
  import opened Trace
  import opened NetStateData
  import opened NmConn
  import opened NmShow
  import opened NisporApply
  import opened NmApply

  const VERIFY_RETRY_INTERVAL_MILLISECONDS: nat := 500
  const VERIFY_RETRY_COUNT: nat := 60
  const VERIFY_RETRY_COUNT_KERNEL_MODE: nat := 6
  /** The checkpoint timeout extension before verification, in seconds:
      long enough for every verification attempt and the pauses between
      them. */
  const VERIFY_TIMEOUT_SECONDS: nat := VERIFY_RETRY_INTERVAL_MILLISECONDS * VERIFY_RETRY_COUNT / 1000

  // ---------------------------------------------------------------------
  // with_retry
  // ---------------------------------------------------------------------

  /** The outcome of `with_retry` from attempt `k` on, and how many attempts
      it makes: it stops at the first success, and the failure of the last
      allowed attempt is its error. */
  function Retry(count: nat, attempt: nat -> Result<(), NmstateError>, k: nat): (Result<(), NmstateError>, nat)
    decreases count - k
  {
    if k >= count then (Ok(()), 0)
    else if attempt(k).Ok? then (Ok(()), 1)
    else if k == count - 1 then (Err(attempt(k).error), 1)
    else var (o, t) := Retry(count, attempt, k + 1); (o, t + 1)
  }

  /** From attempt `k` on, attempts are made one after the other until one
      succeeds or none is left. */
  lemma {:induction false} RetryFromMeaning(count: nat, attempt: nat -> Result<(), NmstateError>, k: nat)
    requires k < count
    ensures var (o, t) := Retry(count, attempt, k);
      && 1 <= t <= count - k
      && (forall j :: k <= j < k + t - 1 ==> attempt(j).Err?)
      && (o.Ok? <==> attempt(k + t - 1).Ok?)
      && (o.Err? ==> k + t == count && o == attempt(count - 1))
    decreases count - k
  {
    if attempt(k).Err? && k < count - 1 {
      RetryFromMeaning(count, attempt, k + 1);
    }
  }

  /** `with_retry` calls the function at most `count` times. With no
      attempt allowed it succeeds without calling it. It succeeds as soon
      as an attempt succeeds, after only failed attempts; it fails only
      when all `count` attempts failed, with the last attempt's error. */
  lemma RetryMeaning(count: nat, attempt: nat -> Result<(), NmstateError>)
    ensures var (o, t) := Retry(count, attempt, 0);
      && t <= count
      && (count == 0 ==> o == Ok(()) && t == 0)
      && (forall j :: 0 <= j < t - 1 ==> attempt(j).Err?)
      && (o.Ok? && count > 0 ==> t >= 1 && attempt(t - 1).Ok?)
      && (o.Err? ==> count > 0 && t == count && o == attempt(count - 1)
                     && forall j :: 0 <= j < count ==> attempt(j).Err?)
      && ((exists j :: 0 <= j < count && attempt(j).Ok?) ==> o.Ok?)
  {
    if count > 0 {
      RetryFromMeaning(count, attempt, 0);
    }
  }

  /** `with_retry`. The pause of `interval_ms` between attempts is not
      modelled. `tries` is the number of attempts made. */
  method WithRetry(intervalMs: nat, count: nat, attempt: nat -> Result<(), NmstateError>)
    returns (r: Result<(), NmstateError>, tries: nat)
    ensures (r, tries) == Retry(count, attempt, 0)
    ensures tries <= count
    ensures r.Err? ==> count > 0 && tries == count && r == attempt(count - 1)
  {
    var curCount := 0;
    while curCount < count
      invariant curCount <= count
      invariant Retry(count, attempt, 0) == (Retry(count, attempt, curCount).0, curCount + Retry(count, attempt, curCount).1)
      decreases count - curCount
    {
      var res := attempt(curCount);
      if res.Err? {
        if curCount == count - 1 {
          r, tries := Err(res.error), curCount + 1;
          RetryMeaning(count, attempt);
          return;
        } else {
          curCount := curCount + 1;
          continue;
        }
      } else {
        r, tries := Ok(()), curCount + 1;
        RetryMeaning(count, attempt);
        return;
      }
    }
    r, tries := Ok(()), curCount;
    RetryMeaning(count, attempt);
  }

  // ---------------------------------------------------------------------
  // Runs: the outcome of a part of an apply and the calls it makes
  // ---------------------------------------------------------------------

  datatype Run = Run(outcome: Result<(), NmstateError>, calls: seq<Call>)

  /** The outcome of the single call `c` at trace position `pos`. */
  function CallOutcome(c: Call, pos: nat, fails: Oracle): (r: Result<(), NmstateError>)
    ensures r.Err? <==> fails(pos).Some?
  {
    if fails(pos).Some? then Err(CallError(c, fails(pos).value)) else Ok(())
  }

  /** The verification attempts, one call each, from trace position
      `start`: each one reads the state back and compares it with the
      desired state, which together make the call `Verify`. */
  function VerifyAttempts(start: nat, fails: Oracle): nat -> Result<(), NmstateError>
  {
    (k: nat) => CallOutcome(Verify, start + k, fails)
  }

  /** `with_retry` over the verification attempts, from `start`. */
  function RetryRun(count: nat, start: nat, fails: Oracle): Run
  {
    var (o, t) := Retry(count, VerifyAttempts(start, fails), 0);
    Run(o, seq(t, _ => Verify))
  }

  /** At most `count` verifications are made; a failed run made all
      `count` of them, each of which failed, and reports the last one's
      error; a successful run with at least one attempt ends with a
      verification that succeeded. */
  lemma RetryRunMeaning(count: nat, start: nat, fails: Oracle)
    ensures var rr := RetryRun(count, start, fails);
      && |rr.calls| <= count
      && (forall c :: c in rr.calls ==> c == Verify)
      && (rr.outcome.Err? ==>
            && |rr.calls| == count > 0
            && (forall k :: start <= k < start + count ==> fails(k).Some?)
            && rr.outcome == CallOutcome(Verify, start + count - 1, fails))
      && (rr.outcome.Ok? && count > 0 ==> |rr.calls| > 0 && fails(start + |rr.calls| - 1).None?)
  {
    var a := VerifyAttempts(start, fails);
    assert forall j: nat :: a(j) == CallOutcome(Verify, start + j, fails);
    RetryMeaning(count, a);
    var rr := RetryRun(count, start, fails);
    if rr.outcome.Err? {
      forall k | start <= k < start + count
        ensures fails(k).Some?
      {
        assert a(k - start).Err?;
      }
    }
  }

  // ---------------------------------------------------------------------
  // with_nm_checkpoint
  // ---------------------------------------------------------------------

  /** `with_nm_checkpoint`, once its function has run with outcome `body`:
      a success destroys the checkpoint, and the destroy's outcome is the
      result; a failure rolls the checkpoint back and returns the
      function's error, whether or not the rollback succeeds. */
  function WithNmCheckpoint(body: Result<(), NmstateError>, pos: nat, fails: Oracle): (r: Run)
    ensures |r.calls| == 1
    ensures r.calls[0] == CheckpointRollback <==> body.Err?
    ensures r.calls[0] == CheckpointDestroy <==> body.Ok?
    ensures body.Ok? ==> r.outcome == CallOutcome(CheckpointDestroy, pos, fails)
    ensures body.Err? ==> r.outcome == body
  {
    if body.Ok? then Run(CallOutcome(CheckpointDestroy, pos, fails), [CheckpointDestroy])
    else Run(body, [CheckpointRollback])
  }

  /** A failing function's error is the result whatever the rollback does:
      a rollback failure never replaces it. */
  lemma RollbackKeepsError(e: NmstateError, pos: nat, fails: Oracle, fails': Oracle)
    requires fails(pos).None? && fails'(pos).Some?
    ensures WithNmCheckpoint(Err(e), pos, fails) == WithNmCheckpoint(Err(e), pos, fails')
    ensures WithNmCheckpoint(Err(e), pos, fails').outcome == Err(e)
  {
  }

  // ---------------------------------------------------------------------
  // The two apply modes
  // ---------------------------------------------------------------------

  /** The function run under the checkpoint: the NetworkManager apply, the
      extension of the checkpoint's timeout for the verification, and up
      to 60 verification attempts. */
  function NmBody(plan: seq<Call>, start: nat, fails: Oracle): Run
  {
    if PlanOutcome(plan, start, fails).Err? then
      Run(PlanOutcome(plan, start, fails), Executed(plan, start, fails))
    else
      var v := VerifyRun(start + |plan|, fails);
      Run(v.outcome, plan + v.calls)
  }

  /** After the plan: the checkpoint's timeout is extended, then the state
      is verified with retries. */
  function VerifyRun(pos: nat, fails: Oracle): Run
  {
    var ext := CallOutcome(CheckpointExtend(VERIFY_TIMEOUT_SECONDS), pos, fails);
    if ext.Err? then Run(ext, [CheckpointExtend(VERIFY_TIMEOUT_SECONDS)])
    else
      var rr := RetryRun(VERIFY_RETRY_COUNT, pos + 1, fails);
      Run(rr.outcome, [CheckpointExtend(VERIFY_TIMEOUT_SECONDS)] + rr.calls)
  }

  /** The NetworkManager mode of `apply`: a checkpoint is created, and the
      body runs under it. */
  function NmModeRun(plan: seq<Call>, start: nat, fails: Oracle): Run
  {
    UnderCheckpoint(NmBody(plan, start + 1, fails), start, fails)
  }

  /** A body run under a checkpoint: the checkpoint is created first, and
      the body, which starts right after, only runs when that succeeded. */
  function UnderCheckpoint(body: Run, start: nat, fails: Oracle): Run
  {
    var created := CallOutcome(CheckpointCreate, start, fails);
    if created.Err? then Run(created, [CheckpointCreate])
    else
      var close := WithNmCheckpoint(body.outcome, start + 1 + |body.calls|, fails);
      Run(close.outcome, [CheckpointCreate] + body.calls + close.calls)
  }

  /** The kernel mode of `apply`: the nispor applies, then up to 6
      verification attempts, with no checkpoint. */
  function KernelModeRun(plan: seq<Call>, start: nat, fails: Oracle): Run
  {
    if PlanOutcome(plan, start, fails).Err? then
      Run(PlanOutcome(plan, start, fails), Executed(plan, start, fails))
    else
      var rr := RetryRun(VERIFY_RETRY_COUNT_KERNEL_MODE, start + |plan|, fails);
      Run(rr.outcome, plan + rr.calls)
  }

  predicate IsCheckpointCall(c: Call)
  {
    c.CheckpointCreate? || c.CheckpointExtend? || c.CheckpointDestroy? || c.CheckpointRollback?
  }

  /** Kernel mode touches no checkpoint; it verifies only after all three
      nispor applies succeeded, at most 6 times; a failing nispor apply is
      reported as a plugin failure. */
  lemma KernelModeMeaning(add: seq<Interface>, chg: seq<Interface>, del: seq<Interface>, start: nat, fails: Oracle)
    ensures var plan := NisporPlan(add, chg, del);
      var kr := KernelModeRun(plan, start, fails);
      && (forall c :: c in kr.calls ==> c.NisporApply? || c == Verify)
      && (forall c :: c in kr.calls ==> !IsCheckpointCall(c))
      && (Verify in kr.calls ==> PlanOutcome(plan, start, fails).Ok? && |kr.calls| >= 3 && kr.calls[..3] == plan)
      && |kr.calls| <= 3 + VERIFY_RETRY_COUNT_KERNEL_MODE
      && (PlanOutcome(plan, start, fails).Err? ==> kr.outcome.Err? && kr.outcome.error.kind == PluginFailure)
  {
    var plan := NisporPlan(add, chg, del);
    ExecutedIsFailFast(plan, start, fails);
    NisporFailuresArePluginFailures(plan, start, fails);
    RetryRunMeaning(VERIFY_RETRY_COUNT_KERNEL_MODE, start + |plan|, fails);
    var kr := KernelModeRun(plan, start, fails);
    if PlanOutcome(plan, start, fails).Err? {
      assert forall c :: c in kr.calls ==> c in plan;
    }
  }

  /** Under the checkpoint, verification comes only after the whole apply
      plan succeeded and the checkpoint's timeout was extended by 30
      seconds, and is attempted at most 60 times. */
  lemma NmBodyMeaning(plan: seq<Call>, start: nat, fails: Oracle)
    requires Verify !in plan
    ensures var body := NmBody(plan, start, fails);
      && (Verify in body.calls ==>
            && PlanOutcome(plan, start, fails).Ok?
            && |body.calls| > |plan|
            && body.calls[..|plan|] == plan
            && body.calls[|plan|] == CheckpointExtend(30))
      && |body.calls| <= |plan| + 1 + VERIFY_RETRY_COUNT
  {
    if PlanOutcome(plan, start, fails).Err? {
      FailedPlanBody(plan, start, fails);
    } else {
      SucceededPlanBody(plan, start, fails);
    }
  }

  /** A failed plan is all the body does. */
  lemma FailedPlanBody(plan: seq<Call>, start: nat, fails: Oracle)
    requires Verify !in plan
    requires PlanOutcome(plan, start, fails).Err?
    ensures Verify !in NmBody(plan, start, fails).calls
    ensures |NmBody(plan, start, fails).calls| <= |plan|
  {
    ExecutedIsFailFast(plan, start, fails);
    var done := Executed(plan, start, fails);
    assert done == plan[..|done|];
  }

  /** After a successful plan come the timeout extension and the
      verifications. */
  lemma SucceededPlanBody(plan: seq<Call>, start: nat, fails: Oracle)
    requires PlanOutcome(plan, start, fails).Ok?
    ensures var body := NmBody(plan, start, fails);
      && |plan| < |body.calls| <= |plan| + 1 + VERIFY_RETRY_COUNT
      && body.calls[..|plan|] == plan
      && body.calls[|plan|] == CheckpointExtend(VERIFY_TIMEOUT_SECONDS)
  {
    var v := VerifyRun(start + |plan|, fails);
    assert NmBody(plan, start, fails).calls == plan + v.calls;
    VerifyRunShape(start + |plan|, fails);
    assert (plan + v.calls)[..|plan|] == plan;
  }

  /** The verification step starts with the timeout extension and makes at
      most 60 verifications. */
  lemma VerifyRunShape(pos: nat, fails: Oracle)
    ensures var v := VerifyRun(pos, fails);
      && 1 <= |v.calls| <= 1 + VERIFY_RETRY_COUNT
      && v.calls[0] == CheckpointExtend(VERIFY_TIMEOUT_SECONDS)
  {
    RetryRunMeaning(VERIFY_RETRY_COUNT, pos + 1, fails);
  }

  /** NetworkManager mode starts with creating a checkpoint. Once it is
      created, the run ends by destroying it when the apply and the
      verification succeeded and by rolling it back otherwise, in which
      case the result is the error that caused the rollback. */
  lemma NmModeMeaning(plan: seq<Call>, start: nat, fails: Oracle)
    ensures var nr := NmModeRun(plan, start, fails);
      var body := NmBody(plan, start + 1, fails);
      && |nr.calls| >= 1 && nr.calls[0] == CheckpointCreate
      && (fails(start).Some? ==> nr.calls == [CheckpointCreate] && nr.outcome.Err?)
      && (fails(start).None? ==>
            && nr.calls[1..|nr.calls| - 1] == body.calls
            && (nr.calls[|nr.calls| - 1] == CheckpointRollback <==> body.outcome.Err?)
            && (nr.calls[|nr.calls| - 1] == CheckpointDestroy <==> body.outcome.Ok?)
            && (body.outcome.Err? ==> nr.outcome == body.outcome)
            && (nr.outcome.Ok? ==> body.outcome.Ok?))
  {
    var body := NmBody(plan, start + 1, fails);
    var nr := UnderCheckpoint(body, start, fails);
    if fails(start).None? {
      var close := WithNmCheckpoint(body.outcome, start + 1 + |body.calls|, fails);
      assert nr.calls == [CheckpointCreate] + body.calls + close.calls;
      assert nr.calls[1..|nr.calls| - 1] == body.calls;
    }
  }

  // ---------------------------------------------------------------------
  // retrieve and apply
  // ---------------------------------------------------------------------

  /** What `retrieve` reads: the kernel's interfaces, or the first error
      met. NetworkManager's connections are read too (unless in kernel-only
      mode) and can fail the read, but the state they form lists no
      explicit property, so it is never merged in. */
  function Retrieved(kernelOnly: bool, kernel: Result<seq<Interface>, NmstateError>,
                     apiNew: Option<NmError>, applied: Result<seq<NmConnection>, NmError>)
    : (r: Result<seq<Interface>, NmstateError>)
    ensures r.Ok? ==> kernel.Ok? && r.value == kernel.value
    ensures kernel.Err? ==> r == Err(kernel.error)
    ensures kernelOnly && kernel.Ok? ==> r == Ok(kernel.value)
    ensures !kernelOnly && kernel.Ok? ==>
      (r.Ok? <==> apiNew.None? && applied.Ok?)
      && (apiNew.Some? ==> r == Err(NmErrorToNmstate(apiNew.value)))
      && (apiNew.None? && applied.Err? ==> r == Err(NmErrorToNmstate(applied.error)))
  {
    if kernel.Err? then Err(kernel.error)
    else if kernelOnly then Ok(kernel.value)
    else if apiNew.Some? then Err(NmErrorToNmstate(apiNew.value))
    else if applied.Err? then Err(NmErrorToNmstate(applied.error))
    else Ok(kernel.value)
  }

  /** `NetworkState::retrieve`. The kernel's state (`nispor_retrieve`, not
      part of this model) is the parameter `kernel`; NetworkManager's is
      read by `nm_retrieve` from the outcomes `apiNew` and `applied`. The
      kernel's interfaces replace the state's as soon as they are read,
      even when the NetworkManager read then fails. */
  method Retrieve(self: NetworkState, kernel: Result<seq<Interface>, NmstateError>,
                  apiNew: Option<NmError>, applied: Result<seq<NmConnection>, NmError>,
                  merge: (seq<Interface>, seq<Interface>) -> Result<seq<Interface>, NmstateError>)
    returns (r: Result<(), NmstateError>)
    modifies self
    ensures var expected := Retrieved(old(self.kernelOnly), kernel, apiNew, applied);
      && (r.Ok? <==> expected.Ok?)
      && (r.Err? ==> r.error == expected.error)
    ensures kernel.Ok? ==> self.interfaces == kernel.value
    ensures kernel.Err? ==> self.interfaces == old(self.interfaces)
    ensures self.propList == old(self.propList) && self.kernelOnly == old(self.kernelOnly)
  {
    if kernel.Err? {
      return Err(kernel.error);
    }
    self.interfaces := kernel.value;
    if !self.kernelOnly {
      var nmState := NmRetrieve(apiNew, applied);
      if nmState.Err? {
        return Err(nmState.error);
      }
      r := self.UpdateState(nmState.value, merge);
      return;
    }
    r := Ok(());
  }

  /** The function `apply` runs under the checkpoint. */
  method NmBodyApply(add: NetworkState, chg: NetworkState, del: NetworkState,
                     addUuid: Interface -> string, chgUuid: Interface -> string, delUuid: Interface -> string,
                     start: nat, fails: Oracle)
    returns (r: Result<(), NmstateError>, calls: seq<Call>)
    ensures Run(r, calls) == NmBody(NmApplyPlan(add.interfaces, chg.interfaces, del.interfaces, addUuid, chgUuid, delUuid), start, fails)
  {
    r, calls := NmApplyStates(add, chg, del, addUuid, chgUuid, delUuid, start, fails);
    if r.Err? {
      return;
    }
    AllSucceededIsPlan(NmApplyPlan(add.interfaces, chg.interfaces, del.interfaces, addUuid, chgUuid, delUuid), start, fails);
    var verifyCalls;
    r, verifyCalls := ExtendAndVerify(start + |calls|, fails);
    calls := calls + verifyCalls;
  }

  /** The timeout extension, then `with_retry` over the verification. */
  method ExtendAndVerify(pos: nat, fails: Oracle) returns (r: Result<(), NmstateError>, calls: seq<Call>)
    ensures Run(r, calls) == VerifyRun(pos, fails)
  {
    r := CallOutcome(CheckpointExtend(VERIFY_TIMEOUT_SECONDS), pos, fails);
    calls := [CheckpointExtend(VERIFY_TIMEOUT_SECONDS)];
    if r.Err? {
      return;
    }
    var tries;
    r, tries := WithRetry(VERIFY_RETRY_INTERVAL_MILLISECONDS, VERIFY_RETRY_COUNT, VerifyAttempts(pos + 1, fails));
    calls := calls + seq(tries, _ => Verify);
  }

  /** A plan that succeeded was carried out in full. */
  lemma AllSucceededIsPlan(plan: seq<Call>, start: nat, fails: Oracle)
    requires PlanOutcome(plan, start, fails).Ok?
    ensures Executed(plan, start, fails) == plan
  {
    ExecutedIsFailFast(plan, start, fails);
  }

  /** The NetworkManager branch of `apply`. */
  method NmModeApply(add: NetworkState, chg: NetworkState, del: NetworkState,
                     addUuid: Interface -> string, chgUuid: Interface -> string, delUuid: Interface -> string,
                     start: nat, fails: Oracle)
    returns (r: Result<(), NmstateError>, calls: seq<Call>)
    ensures Run(r, calls) == NmModeRun(NmApplyPlan(add.interfaces, chg.interfaces, del.interfaces, addUuid, chgUuid, delUuid), start, fails)
  {
    ghost var plan := NmApplyPlan(add.interfaces, chg.interfaces, del.interfaces, addUuid, chgUuid, delUuid);
    r := CallOutcome(CheckpointCreate, start, fails);
    calls := [CheckpointCreate];
    if r.Err? {
      CheckpointNotCreated(plan, start, fails);
      return;
    }
    var bodyCalls;
    r, bodyCalls := NmBodyApply(add, chg, del, addUuid, chgUuid, delUuid, start + 1, fails);
    var close := WithNmCheckpoint(r, start + 1 + |bodyCalls|, fails);
    CheckpointCreated(plan, start, fails, Run(r, bodyCalls));
    r := close.outcome;
    calls := calls + bodyCalls + close.calls;
  }

  /** When the checkpoint cannot be created, nothing else runs. */
  lemma CheckpointNotCreated(plan: seq<Call>, start: nat, fails: Oracle)
    requires fails(start).Some?
    ensures NmModeRun(plan, start, fails) == Run(CallOutcome(CheckpointCreate, start, fails), [CheckpointCreate])
  {
  }

  /** Once the checkpoint is created, the body runs and the checkpoint is
      then closed according to its outcome. */
  lemma CheckpointCreated(plan: seq<Call>, start: nat, fails: Oracle, body: Run)
    requires fails(start).None?
    requires body == NmBody(plan, start + 1, fails)
    ensures var close := WithNmCheckpoint(body.outcome, start + 1 + |body.calls|, fails);
      NmModeRun(plan, start, fails) == Run(close.outcome, [CheckpointCreate] + body.calls + close.calls)
  {
  }

  /** The kernel-only branch of `apply`. */
  method KernelModeApply(add: NetworkState, chg: NetworkState, del: NetworkState, start: nat, fails: Oracle)
    returns (r: Result<(), NmstateError>, calls: seq<Call>)
    ensures Run(r, calls) == KernelModeRun(NisporPlan(add.interfaces, chg.interfaces, del.interfaces), start, fails)
  {
    r, calls := NisporApplyStates(add, chg, del, start, fails);
    if r.Err? {
      return;
    }
    AllSucceededIsPlan(NisporPlan(add.interfaces, chg.interfaces, del.interfaces), start, fails);
    var tries;
    r, tries := WithRetry(VERIFY_RETRY_INTERVAL_MILLISECONDS, VERIFY_RETRY_COUNT_KERNEL_MODE,
                          VerifyAttempts(start + |calls|, fails));
    calls := calls + seq(tries, _ => Verify);
  }

  /** `NetworkState::apply`: the current state is retrieved (in the desired
      state's mode), the desired state is split into additions, changes and
      deletions (`split`), and these are applied in NetworkManager mode or
      in kernel mode. The calls of the apply, from position 0 of the trace,
      are returned. */
  method Apply(self: NetworkState, kernel: Result<seq<Interface>, NmstateError>,
               apiNew: Option<NmError>, applied: Result<seq<NmConnection>, NmError>,
               merge: (seq<Interface>, seq<Interface>) -> Result<seq<Interface>, NmstateError>,
               split: (seq<Interface>, seq<Interface>) ->
                        Result<(seq<Interface>, seq<Interface>, seq<Interface>), NmstateError>,
               addUuid: Interface -> string, chgUuid: Interface -> string, delUuid: Interface -> string,
               fails: Oracle)
    returns (r: Result<(), NmstateError>, calls: seq<Call>)
    ensures var cur := Retrieved(self.kernelOnly, kernel, apiNew, applied);
      && (cur.Err? ==> r == Err(cur.error) && calls == [])
      && (cur.Ok? ==>
            var s := split(self.interfaces, cur.value);
            && (s.Err? ==> r == Err(s.error) && calls == [])
            && (s.Ok? && self.kernelOnly ==>
                  Run(r, calls) == KernelModeRun(NisporPlan(s.value.0, s.value.1, s.value.2), 0, fails))
            && (s.Ok? && !self.kernelOnly ==>
                  Run(r, calls) == NmModeRun(NmApplyPlan(s.value.0, s.value.1, s.value.2,
                                                         addUuid, chgUuid, delUuid), 0, fails)))
  {
    calls := [];
    var cur := new NetworkState();
    cur.SetKernelOnly(self.kernelOnly);
    r := Retrieve(cur, kernel, apiNew, applied, merge);
    if r.Err? {
      return;
    }
    var states := GenStateForApply(self, cur, split);
    if states.Err? {
      return Err(states.error), [];
    }
    var (add, chg, del) := states.value;
    if !self.kernelOnly {
      r, calls := NmModeApply(add, chg, del, addUuid, chgUuid, delUuid, 0, fails);
    } else {
      r, calls := KernelModeApply(add, chg, del, 0, fails);
    }
  }
}
