/** The transition clock ceiling: what to arm, when to refuse, and what recovery must prove. */
module Ceiling {
  import opened Ints
  import opened CurveOffset

  datatype LockMode = NoLock | Flatten | Hard

  datatype Reason = NotNeeded | RequestedLock | RequestedFlatten | ResetDropsCap

  datatype CeilingPlan = CeilingPlan(
    arm: bool, ceilingMHz: U32, finalPinIsCeiling: bool, required: bool,
    symmetricFallbackAllowed: bool, clampControlAbsent: bool, reason: Reason)

  const NO_PLAN := CeilingPlan(false, 0, false, false, false, false, NotNeeded)

  datatype Transition = Transition(
    ownsClockDomain: bool, hasLock: bool, lockMode: LockMode, lockMHz: U32, lockControl: bool,
    resetsToStock: bool, outgoingHoldsDown: bool, outgoingCeilingMHz: U32)
  {
    predicate IncomingLock() {
      hasLock && lockMode != NoLock && lockMHz > 0
    }

    predicate NeedsProtection() {
      ownsClockDomain && (IncomingLock() || (resetsToStock && outgoingHoldsDown))
    }
  }

  function PlanCeiling(t: Transition): CeilingPlan {
    if !t.ownsClockDomain then NO_PLAN
    else if !t.IncomingLock() && !(t.resetsToStock && t.outgoingHoldsDown) then NO_PLAN
    else
      var plan := NO_PLAN.(
        required := true,
        clampControlAbsent := !t.lockControl,
        reason := if !t.IncomingLock() then ResetDropsCap
                  else if t.lockMode == Hard then RequestedLock else RequestedFlatten);
      var incoming := if t.IncomingLock() then t.lockMHz else 0;
      var bound := if t.outgoingCeilingMHz > 0 && (incoming == 0 || t.outgoingCeilingMHz < incoming)
                   then t.outgoingCeilingMHz else incoming;
      if bound == 0 then plan
      else plan.(
        ceilingMHz := bound,
        finalPinIsCeiling := t.IncomingLock() && t.lockMode == Hard && bound == t.lockMHz,
        symmetricFallbackAllowed := t.IncomingLock(),
        arm := t.lockControl)
  }

  /** A value both endpoints of the transition permit: no higher than the requested lock, nor
      than what the outgoing state was entitled to run. */
  predicate BothPermit(t: Transition, mhz: U32) {
    && (t.IncomingLock() ==> mhz <= t.lockMHz)
    && (t.outgoingCeilingMHz > 0 ==> mhz <= t.outgoingCeilingMHz)
  }

  /** The plan is the highest ceiling both endpoints permit; it exists exactly when protection is
      needed and some endpoint names a value, and is armed exactly when it can be installed. */
  lemma PlanIsHighestPermittedCeiling(t: Transition)
    ensures var plan := PlanCeiling(t);
      && (plan.required <==> t.NeedsProtection())
      && (plan.ceilingMHz > 0 <==> t.NeedsProtection() && (t.IncomingLock() || t.outgoingCeilingMHz > 0))
      && (plan.ceilingMHz > 0 ==> BothPermit(t, plan.ceilingMHz)
                                  && forall mhz: U32 :: BothPermit(t, mhz) ==> mhz <= plan.ceilingMHz)
      && (plan.arm <==> plan.ceilingMHz > 0 && t.lockControl)
      && (plan.finalPinIsCeiling <==> plan.ceilingMHz > 0 && t.IncomingLock() && t.lockMode == Hard && BothPermit(t, t.lockMHz))
  {
    var plan := PlanCeiling(t);
    if plan.ceilingMHz > 0 {
      assert BothPermit(t, plan.ceilingMHz);
    }
  }

  /** Why a plan protects, read off the request: towards a hard pin, towards a flattened curve, or over a
      reset that drops what holds the clocks down. Only a request with a lock may be clamped from below. */
  lemma PlanReasons(t: Transition)
    ensures var plan := PlanCeiling(t);
      && (plan.reason == RequestedLock <==> t.ownsClockDomain && t.hasLock && t.lockMode == Hard && t.lockMHz > 0)
      && (plan.reason == RequestedFlatten <==> t.ownsClockDomain && t.hasLock && t.lockMode == Flatten && t.lockMHz > 0)
      && (plan.reason == ResetDropsCap <==> t.NeedsProtection() && !t.IncomingLock())
      && (plan.reason == NotNeeded <==> !t.NeedsProtection())
      && (plan.symmetricFallbackAllowed <==> plan.required && t.IncomingLock())
      && (plan.clampControlAbsent <==> plan.required && !t.lockControl)
  {
  }

  // ------------------------------------------------------ the outgoing ceiling

  ghost function HighestKHz(curveKHz: seq<U32>): U32 {
    if curveKHz == [] then 0 else Max(HighestKHz(curveKHz[..|curveKHz| - 1]), curveKHz[|curveKHz| - 1])
  }

  /** The displayed peak of a curve is its highest frequency, displayed: rounding never reorders. */
  lemma PeakDisplaysTheHighest(a: U32, b: U32)
    ensures Max(DisplayMHz(a), DisplayMHz(b)) == DisplayMHz(Max(a, b))
  {
    DisplayMonotone(Min(a, b), Max(a, b));
  }

  /** The highest clock the outgoing state may run: a retained cap, else its pin, else its curve's peak. */
  method OutgoingCeiling(capActive: bool, capMHz: U32, hardPin: bool, appliedMHz: U32, lockedMHz: U32, curveKHz: seq<U32>)
    returns (mhz: U32)
    ensures capActive && capMHz > 0 ==> mhz == capMHz
    ensures !(capActive && capMHz > 0) && hardPin && appliedMHz > 0 ==> mhz == appliedMHz
    ensures !(capActive && capMHz > 0) && hardPin && appliedMHz == 0 && lockedMHz > 0 ==> mhz == lockedMHz
    ensures !(capActive && capMHz > 0) && !(hardPin && (appliedMHz > 0 || lockedMHz > 0)) ==> mhz == DisplayMHz(HighestKHz(curveKHz))
  {
    if capActive && capMHz > 0 { return capMHz; }
    if hardPin && appliedMHz > 0 { return appliedMHz; }
    if hardPin && lockedMHz > 0 { return lockedMHz; }
    mhz := 0;
    for i := 0 to |curveKHz|
      invariant mhz == DisplayMHz(HighestKHz(curveKHz[..i]))
    {
      assert curveKHz[..i + 1][..i] == curveKHz[..i];
      PeakDisplaysTheHighest(HighestKHz(curveKHz[..i]), curveKHz[i]);
      if curveKHz[i] == 0 { continue; }
      var shown := DisplayMHz(curveKHz[i]);
      if shown > mhz { mhz := shown; }
    }
    assert curveKHz[..|curveKHz|] == curveKHz;
  }

  datatype ArmResult = ArmNotNeeded | Installed | Unavailable | Refused | Unsupported

  /** A required protection that is not installed stops the transition, unless no permitted form
      exists on this GPU and the final state needs no hard pin. */
  predicate MustRefuse(required: bool, result: ArmResult, reason: Reason) {
    && required
    && result != Installed
    && !(result == Unsupported && (reason == ResetDropsCap || reason == RequestedFlatten))
  }

  // ---------------------------------------------------------------- recovery

  datatype Domain = Domain(attempted: bool, verified: bool)

  datatype Recovery = Recovery(curve: Domain, gpuOffset: Domain, released: bool)

  predicate PermitsRelease(r: Recovery) {
    r.curve.verified && r.gpuOffset.verified
  }

  /** Pascal has no locked-clock control: with nothing of ours or inherited holding the clocks there
      is nothing to release. */
  predicate ControlProvenAbsent(pascal: bool, capActive: bool, hardPin: bool) {
    pascal && !capActive && !hardPin
  }
}
