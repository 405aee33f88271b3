/** The guard and the apply, reset and recovery it protects, as the code runs them. */
module ApplyProgram {
  import opened Ints
  import opened Ceiling
  import opened Transitions
  import opened ApplyRun
  import opened ApplyScripts
  import opened Options

  /** The driver. Each call may fail, as the script says; `capActive` and `capMHz` are the program's own
      record of a transition cap. */
  class Gpu {
    const vfGlobal: bool
    const setControl: bool       // the driver exports the call that installs a locked-clock range
    const releaseControl: bool   // and the one that releases it
    const script: Script
    var capActive: bool
    var capMHz: U32
    var asked: nat
    ghost var log: seq<Call>
    ghost var now: Watch
    ghost var obeyed: bool

    constructor (vfGlobal: bool, setControl: bool, releaseControl: bool, script: Script)
      ensures Value() == Fresh(vfGlobal, setControl, releaseControl, script)
    {
      this.vfGlobal, this.setControl, this.releaseControl, this.script := vfGlobal, setControl, releaseControl, script;
      capActive, capMHz, asked, log, now, obeyed := false, 0, 0, [], WatchAfter([], vfGlobal), true;
    }

    ghost function Value(): Hw
      reads this
    {
      Hw(vfGlobal, setControl, releaseControl, capActive, capMHz, script, asked, log, now, obeyed)
    }

    ghost method Mark(c: Call)
      modifies this`log, this`now, this`obeyed
      ensures Value() == old(Value()).Marked(c)
    {
      log, obeyed, now := log + [c], obeyed && now.Allows(c), now.After(c, vfGlobal);
    }

    /** The next answer. */
    method Ask() returns (r: Reply)
      modifies this`asked
      ensures r == old(Value()).Next() && Value() == old(Value()).Asked()
    {
      r := script(asked);
      asked := asked + 1;
    }

    /** Install a transition clamp. */
    method ClampClocks(hi: U32) returns (ok: bool, notSupported: bool)
      modifies this
      ensures ok == old(Value()).Next().ok && notSupported == (!ok && old(Value()).Next().notSupported)
      ensures Value() == old(Value()).Clamped(hi)
    {
      var r := Ask();
      ok, notSupported := r.ok, !r.ok && r.notSupported;
      Mark(Lock(hi, ok, notSupported));
      if ok { capActive, capMHz := true, hi; }
    }

    method PinClocks(hi: U32) returns (ok: bool)
      modifies this
      ensures ok == old(Value()).Next().ok && Value() == old(Value()).Called(Pin(hi, ok))
    {
      var r := Ask();
      ok := r.ok;
      Mark(Pin(hi, ok));
    }

    method ResetLockedClocks() returns (ok: bool)
      modifies this
      ensures ok == old(Value()).Next().ok && Value() == old(Value()).Released()
    {
      var r := Ask();
      ok := r.ok;
      Mark(Unlock(ok));
      if ok { capActive := false; }
    }

    /** One verified write of the curve or the core offset. */
    method WriteClock(curve: bool) returns (verified: bool)
      modifies this
      ensures verified == old(Value()).Next().ok && Value() == old(Value()).Called(Write(curve, verified))
    {
      var r := Ask();
      verified := r.ok;
      Mark(Write(curve, verified));
    }

    method ResetScalar() returns (verified: bool)
      modifies this
      ensures verified == old(Value()).Next().ok && Value() == old(Value()).Called(ScalarReset(verified))
    {
      var r := Ask();
      verified := r.ok;
      Mark(ScalarReset(verified));
    }

    method ResetCurve() returns (verified: bool)
      modifies this
      ensures verified == old(Value()).Next().ok && Value() == old(Value()).Called(CurveReset(verified))
    {
      var r := Ask();
      verified := r.ok;
      Mark(CurveReset(verified));
    }

    method ResetCoreClockControls(ownsScalar: bool) returns (r: Recovery)
      modifies this
      ensures (Value(), r) == StockReset(old(Value()), ownsScalar)
      ensures Recovering(old(Value()), ownsScalar) ==>
                && StillRecovering(old(Value()), Value()) && (PermitsRelease(r) <==> now.curveOk && now.scalarOk)
                && (r.curve.attempted <==> r.gpuOffset.verified)
    {
      if Recovering(Value(), ownsScalar) { StockResetIsOrdered(Value(), ownsScalar); }
      r := Recovery(Domain(false, false), Domain(false, vfGlobal || !ownsScalar), false);
      if !r.gpuOffset.verified {
        var verified := ResetScalar();
        r := r.(gpuOffset := Domain(true, verified));
        if !verified { return; }
      }
      var verified := ResetCurve();
      r := r.(curve := Domain(true, verified));
    }

    /** Return to stock, and release the cap only once that is proved. */
    method Rollback(pascal: bool, hardPin: bool) returns (r: Recovery)
      modifies this
      ensures (Value(), r) == RolledBack(old(Value()), pascal, hardPin)
      ensures Recovering(old(Value()), true) ==> Sound(Value()) && ReleasedOnlyProved(old(Value()), Value(), r)
    {
      if Recovering(Value(), true) { RollbackReleasesOnlyProved(Value(), pascal, hardPin); }
      r := ResetCoreClockControls(true);
      if !PermitsRelease(r) { return; }
      if ControlProvenAbsent(pascal, capActive, hardPin) || !releaseControl {
        r := r.(released := true);
      } else {
        var ready := Ask();
        if ready.ok {
          var ok := ResetLockedClocks();
          r := r.(released := ok);
        }
      }
    }

    /** The explicit Reset request. */
    method ResetAll(pascal: bool, hardPin: bool, lockBelieved: bool) returns (r: Recovery)
      modifies this
      ensures (Value(), r) == ResetDone(old(Value()), pascal, hardPin, lockBelieved)
      ensures Sound(old(Value())) ==>
                && Sound(Value()) && ReleasedOnlyProved(old(Value()), Value(), r)
                && (PermitsRelease(r) && !lockBelieved && !old(capActive) ==> r.released)
    {
      if Sound(Value()) { ResetReleasesOnlyProved(Value(), pascal, hardPin, lockBelieved); }
      Mark(Reset(true));
      r := ResetCoreClockControls(true);
      if !PermitsRelease(r) { return; }
      if ControlProvenAbsent(pascal, capActive, hardPin) || !releaseControl {
        r := r.(released := true);
      } else {
        var mayExist := lockBelieved || capActive;
        var ready := Ask();
        var ok := false;
        if ready.ok { ok := ResetLockedClocks(); }
        r := r.(released := ok || !mayExist);
      }
    }
  }

  /** The scope-bound guard of one apply. */
  class Guard {
    const gpu: Gpu
    const plan: CeilingPlan
    var armed: bool
    var armResult: ArmResult

    ghost function State(): Arming
      reads this
    {
      Arming(armed, armResult)
    }

    constructor (gpu: Gpu, t: Transition)
      modifies gpu`log, gpu`now, gpu`obeyed
      ensures this.gpu == gpu && plan == old(gpu.Value()).Plan(t) && State() == Arming(false, ArmNotNeeded)
      ensures gpu.Value() == old(gpu.Value()).Marked(Begin(plan))
    {
      this.gpu, armed, armResult := gpu, false, ArmNotNeeded;
      plan := PlanCeiling(Observed(t, gpu.setControl && gpu.releaseControl, gpu.capActive, gpu.capMHz));
      new;
      gpu.Mark(Begin(plan));
    }

    /** Arm the clamp, unless this guard has it armed already: the open-ended form first, then the
        symmetric one where the plan permits it. */
    method Arm()
      modifies this, gpu
      ensures (gpu.Value(), State()) == Armed(old(gpu.Value()), plan, old(State()))
      ensures Guarded(old(gpu.Value()), plan, old(State())) && (old(armed) || !old(gpu.now).declined) ==>
                Guarded(gpu.Value(), plan, State()) && ArmedFrom(old(gpu.Value()), gpu.Value(), plan, State())
    {
      if Guarded(gpu.Value(), plan, State()) && (armed || !gpu.now.declined) { ArmingProtects(gpu.Value(), plan, State()); }
      if armed { return; }
      if !plan.arm {
        armResult := if !plan.required then ArmNotNeeded else if plan.clampControlAbsent then Unsupported else Unavailable;
        return;
      }
      var open, openNotSupported := gpu.ClampClocks(plan.ceilingMHz);
      if open {
        armed, armResult := true, Installed;
      } else if !plan.symmetricFallbackAllowed {
        armResult := if openNotSupported then Unsupported else Refused;
      } else {
        var symmetric, symmetricNotSupported := gpu.ClampClocks(plan.ceilingMHz);
        armed := symmetric;
        armResult := if symmetric then Installed
                     else if openNotSupported && symmetricNotSupported then Unsupported else Refused;
      }
    }

    /** Whether this apply must stop before mutating anything. */
    predicate MustRefuseTransition()
      reads this
    {
      MustRefuse(plan.required, armResult, plan.reason)
    }
  }

  /** Recovery of a failed apply: re-establish protection first, then return to stock. */
  method RecoverApply(guard: Guard, pascal: bool, hardPin: bool) returns (e: Ending)
    modifies guard, guard.gpu
    ensures (guard.gpu.Value(), e) == Recovered(old(guard.gpu.Value()), guard.plan, old(guard.State()), pascal, hardPin)
    ensures Guarded(old(guard.gpu.Value()), guard.plan, old(guard.State())) ==>
              && Sound(guard.gpu.Value()) && (e == RecoveryStopped ==> guard.gpu.now.cap == old(guard.gpu.now).cap)
              && (e.RecoveredTo? && e.r.released ==> PermitsRelease(e.r) && !guard.gpu.now.transition)
              && (e.RecoveredTo? && !e.r.released && old(guard.gpu.now).transition ==> guard.gpu.now.transition)
  {
    if Guarded(guard.gpu.Value(), guard.plan, guard.State()) {
      RecoveryIsProtected(guard.gpu.Value(), guard.plan, guard.State(), pascal, hardPin);
    }
    guard.gpu.Mark(Recover(true));
    if guard.plan.required {
      guard.armed := false;
      guard.Arm();
      if guard.MustRefuseTransition() { return RecoveryStopped; }
    }
    e := ReturnToStock(guard, pascal, hardPin);
  }

  method ReturnToStock(guard: Guard, pascal: bool, hardPin: bool) returns (e: Ending)
    modifies guard, guard.gpu
    ensures (guard.gpu.Value(), e) == Readopted(old(guard.gpu.Value()), old(guard.State()), pascal, hardPin)
  {
    var r := guard.gpu.Rollback(pascal, hardPin);
    if r.released && guard.armed {
      guard.armed := false;
      guard.gpu.capActive := false;
    }
    return RecoveredTo(r);
  }

  /** A core offset, if one is due. One that is not verified fails the apply at once. */
  method WriteOffset(gpu: Gpu, due: bool) returns (ok: bool)
    modifies gpu
    ensures (gpu.Value(), ok) == OffsetWritten(old(gpu.Value()), due)
  {
    ok := true;
    if due { ok := gpu.WriteClock(false); }
  }

  /** Correction passes rewrite the batch while it does not verify; they may end early. */
  method CorrectCurve(gpu: Gpu, passes: nat, first: bool) returns (verified: bool)
    modifies gpu
    ensures (gpu.Value(), verified) == Corrected(old(gpu.Value()), passes, first)
  {
    ghost var goal := Corrected(gpu.Value(), passes, first);
    verified := first;
    var pass: nat := 0;
    while pass < passes && !verified
      invariant pass <= passes && goal == Corrected(gpu.Value(), passes - pass, verified)
    {
      var mayStart := gpu.Ask();
      if !mayStart.ok { return; }
      verified := gpu.WriteClock(true);
      pass := pass + 1;
    }
  }

  /** A curve batch, if one is due, and its correction; a verified batch may still fail the checks
      that follow. */
  method WriteCurve(gpu: Gpu, due: bool, passes: nat) returns (ok: bool)
    modifies gpu
    ensures (gpu.Value(), ok) == CurveWritten(old(gpu.Value()), due, passes)
  {
    if !due { return true; }
    var first := gpu.WriteClock(true);
    var verified := CorrectCurve(gpu, passes, first);
    var checked := gpu.Ask();
    return verified && checked.ok;
  }

  /** The reset-to-stock baseline: the core offset first, then always the curve. */
  method WriteBaseline(gpu: Gpu, writes: Writes) returns (ok: bool)
    modifies gpu
    ensures (gpu.Value(), ok) == BaselineWritten(old(gpu.Value()), writes)
  {
    ok := WriteOffset(gpu, writes.baselineOffset);
    if ok { ok := WriteCurve(gpu, true, 0); }
  }

  /** The writes proper, in their order; the first failure ends them. */
  method WriteClocks(gpu: Gpu, writes: Writes) returns (ok: bool)
    modifies gpu
    ensures (gpu.Value(), ok) == ClocksWritten(old(gpu.Value()), writes)
  {
    ok := WriteOffset(gpu, writes.offset);
    if ok { ok := WriteOffset(gpu, writes.clearOffset); }
    if ok { ok := WriteCurve(gpu, writes.curve, writes.passes); }
  }

  /** The final lock step: a hard pin takes the clamp over, any other request that owns the lock
      domain releases it. */
  method FinalLockStep(guard: Guard, t: Transition, pascal: bool, hardPin: bool) returns (ok: bool)
    modifies guard, guard.gpu
    ensures (guard.gpu.Value(), guard.State(), ok) == LockStepped(old(guard.gpu.Value()), old(guard.State()), t, pascal, hardPin)
    ensures ReadyToLock(old(guard.gpu.Value()), guard.plan, old(guard.State())) ==>
              && Guarded(guard.gpu.Value(), guard.plan, guard.State())
              && (ok && HardLock(t) ==> guard.gpu.now.cap == Some(t.lockMHz))
              && (ok && (HardLock(t) || t.ownsClockDomain) ==> !guard.gpu.now.transition)
              && (!ok || !(HardLock(t) || t.ownsClockDomain) ==> guard.gpu.now == old(guard.gpu.now))
  {
    if ReadyToLock(guard.gpu.Value(), guard.plan, guard.State()) {
      LockStepSettlesTheCap(guard.gpu.Value(), guard.plan, guard.State(), t, pascal, hardPin);
    }
    ok := true;
    if HardLock(t) {
      ok := guard.gpu.PinClocks(t.lockMHz);
      if ok && guard.armed { guard.gpu.capActive := false; }
      if ok { guard.armed := false; }
    } else if t.ownsClockDomain && guard.gpu.releaseControl
              && !ControlProvenAbsent(pascal, guard.armed || guard.gpu.capActive, hardPin) {
      ok := guard.gpu.ResetLockedClocks();
      if ok { guard.armed := false; }
    }
  }

  /** The part of an apply behind its refusals. Any failure after a write is recovered, also one of the
      fan, memory or power settings written before and after the lock step. */
  method WriteAndFinish(guard: Guard, t: Transition, writes: Writes, begun: bool, pascal: bool, hardPin: bool)
    returns (e: Ending)
    modifies guard, guard.gpu
    ensures (guard.gpu.Value(), e) == Written(old(guard.gpu.Value()), guard.plan, old(guard.State()), t, writes, begun, pascal, hardPin)
  {
    var ok := begun;
    if ok { ok := WriteClocks(guard.gpu, writes); }
    var early := guard.gpu.Ask();
    var late := guard.gpu.Ask();
    e := CloseApply(guard, t, ok && early.ok, late.ok, pascal, hardPin);
  }

  method CloseApply(guard: Guard, t: Transition, ok: bool, late: bool, pascal: bool, hardPin: bool) returns (e: Ending)
    modifies guard, guard.gpu
    ensures (guard.gpu.Value(), e) == Closed(old(guard.gpu.Value()), guard.plan, old(guard.State()), t, ok, late, pascal, hardPin)
  {
    var stepped := ok;
    if stepped { stepped := FinalLockStep(guard, t, pascal, hardPin); }
    if stepped && late { return Finished; }
    e := RecoverApply(guard, pascal, hardPin);
  }

  /** One apply: arm or refuse, bring the baseline to stock where asked for, write, and let the final
      lock step take over. */
  method RunApply(gpu: Gpu, t: Transition, writes: Writes, pascal: bool, hardPin: bool) returns (e: Ending)
    modifies gpu
    ensures (gpu.Value(), e) == Applied(old(gpu.Value()), t, writes, pascal, hardPin)
  {
    var guard := new Guard(gpu, t);
    var going := gpu.Ask();
    if !going.ok { return Abandoned; }
    guard.Arm();
    if guard.MustRefuseTransition() { return Refusal; }
    var ok := true;
    if t.resetsToStock {
      ok := WriteBaseline(gpu, writes);
      if ok {
        guard.Arm();
        if guard.MustRefuseTransition() { return RefusedAtStock; }
      }
    }
    e := WriteAndFinish(guard, t, writes, ok, pascal, hardPin);
  }

  /** The monitor reads the record of calls, and finds the rules obeyed. */
  ghost predicate Safe(hw: Hw) {
    Faithful(hw) && Sound(hw)
  }

  /** An apply as a caller sees it: whatever the driver answers the rules are kept, a finished one leaves
      no transition cap and its hard lock pinned, and a refused one has written no clock, or only the
      verified stock baseline, and that only under a plan that could be armed and asks for no pin. */
  method ApplyProfile(gpu: Gpu, t: Transition, writes: Writes, pascal: bool, hardPin: bool) returns (e: Ending)
    requires Safe(gpu.Value())
    modifies gpu
    ensures (gpu.Value(), e) == Applied(old(gpu.Value()), t, writes, pascal, hardPin)
    ensures Safe(gpu.Value()) && EndsSafely(gpu.Value(), t, e)
    ensures e == Refusal || e == Abandoned ==> OnlyClamps(old(gpu.log) + [Begin(old(gpu.Value()).Plan(t))], gpu.log)
    ensures e == RefusedAtStock ==> gpu.now.curveOk && gpu.now.scalarOk && CanRefuseAtStock(t, old(gpu.Value()).Plan(t))
  {
    ghost var before := gpu.Value();
    ApplyKeepsTheRules(before, t, writes, pascal, hardPin);
    ApplyIsFaithful(before, t, writes, pascal, hardPin);
    RefusedAtStockNeeds(before, t, writes, pascal, hardPin);
    e := RunApply(gpu, t, writes, pascal, hardPin);
  }

  datatype Request = ApplyRequest(t: Transition, writes: Writes, hardPin: bool) | ResetRequest(hardPin: bool, lockBelieved: bool)

  /** Any session of applies and resets keeps the rules, so the record of all its calls is obeyed. */
  method Session(gpu: Gpu, requests: seq<Request>, pascal: bool)
    requires Safe(gpu.Value())
    modifies gpu
    ensures Safe(gpu.Value()) && Obeyed(gpu.log, gpu.vfGlobal)
  {
    for i := 0 to |requests|
      invariant Safe(gpu.Value())
    {
      match requests[i]
      case ApplyRequest(t, writes, hardPin) =>
        var _ := ApplyProfile(gpu, t, writes, pascal, hardPin);
      case ResetRequest(hardPin, lockBelieved) =>
        ResetReleasesOnlyProved(gpu.Value(), pascal, hardPin, lockBelieved);
        ResetIsFaithful(gpu.Value(), pascal, hardPin, lockBelieved);
        var _ := gpu.ResetAll(pascal, hardPin, lockBelieved);
    }
  }
}
