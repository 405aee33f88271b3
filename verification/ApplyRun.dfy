/**
 One apply, one recovery and one reset as functions of the answers they get, and the proof that
 they keep the rules of the transition whatever those answers are.
 */
module ApplyRun {
  import opened Ints
  import opened Ceiling
  import opened Transitions
  import opened Options

  /** An answer of the driver, or of a check outside the clock domain. */
  datatype Reply = Reply(ok: bool, notSupported: bool)

  /** The answer to every question, by its number. */
  type Script = nat -> Reply

  /** The driver's exports, the program's record of a transition cap, the answers with how many were
      used, and the calls so far with what the monitor makes of them. */
  datatype Hw = Hw(
    vfGlobal: bool, setControl: bool, releaseControl: bool, capActive: bool, capMHz: U32, script: Script, asked: nat,
    log: seq<Call>, now: Watch, obeyed: bool)
  {
    function Next(): Reply {
      script(asked)
    }

    function Asked(): Hw {
      this.(asked := asked + 1)
    }

    function Marked(c: Call): Hw {
      this.(log := log + [c], now := now.After(c, vfGlobal), obeyed := obeyed && now.Allows(c))
    }

    function Called(c: Call): Hw {
      Asked().Marked(c)
    }

    function Clamped(hi: U32): Hw {
      var ok := Next().ok;
      Called(Lock(hi, ok, !ok && Next().notSupported)).(capActive := capActive || ok, capMHz := if ok then hi else capMHz)
    }

    function Released(): Hw {
      Called(Unlock(Next().ok)).(capActive := capActive && !Next().ok)
    }

    function Plan(t: Transition): CeilingPlan {
      PlanCeiling(Observed(t, setControl && releaseControl, capActive, capMHz))
    }
  }

  /** Before the first call. */
  ghost function Fresh(vfGlobal: bool, setControl: bool, releaseControl: bool, script: Script): Hw {
    Hw(vfGlobal, setControl, releaseControl, false, 0, script, 0, [], WatchAfter([], vfGlobal), true)
  }

  /** The state an apply leaves, as read off this GPU: a recorded transition cap is both the
      outgoing ceiling and something a reset would drop. */
  function Observed(t: Transition, lockControl: bool, capActive: bool, capMHz: U32): Transition {
    t.(lockControl := lockControl,
       outgoingCeilingMHz := if capActive && capMHz > 0 then capMHz else t.outgoingCeilingMHz,
       outgoingHoldsDown := capActive || t.outgoingHoldsDown)
  }

  function StockReset(hw: Hw, ownsScalar: bool): (Hw, Recovery) {
    var free := hw.vfGlobal || !ownsScalar;
    var h := if free then hw else hw.Called(ScalarReset(hw.Next().ok));
    var offset := Domain(!free, free || hw.Next().ok);
    if !offset.verified then (h, Recovery(Domain(false, false), offset, false))
    else (h.Called(CurveReset(h.Next().ok)), Recovery(Domain(true, h.Next().ok), offset, false))
  }

  function RolledBack(hw: Hw, pascal: bool, hardPin: bool): (Hw, Recovery) {
    var (h, r) := StockReset(hw, true);
    if !PermitsRelease(r) then (h, r)
    else if ControlProvenAbsent(pascal, h.capActive, hardPin) || !h.releaseControl then (h, r.(released := true))
    else if !h.Next().ok then (h.Asked(), r)
    else (h.Asked().Released(), r.(released := h.Asked().Next().ok))
  }

  /** The explicit Reset request. A refused or impossible release counts as none needed while neither a
      lock nor a transition cap is believed active. */
  function ResetDone(hw: Hw, pascal: bool, hardPin: bool, lockBelieved: bool): (Hw, Recovery) {
    var (h, r) := StockReset(hw.Marked(Reset(true)), true);
    if !PermitsRelease(r) then (h, r)
    else if ControlProvenAbsent(pascal, h.capActive, hardPin) || !h.releaseControl then (h, r.(released := true))
    else
      var mayExist := lockBelieved || h.capActive;
      if !h.Next().ok then (h.Asked(), r.(released := !mayExist))
      else (h.Asked().Released(), r.(released := h.Asked().Next().ok || !mayExist))
  }

  datatype Arming = Arming(armed: bool, result: ArmResult)

  function ArmedClamp(hw: Hw, plan: CeilingPlan): (Hw, Arming) {
    var open, h := hw.Next(), hw.Clamped(plan.ceilingMHz);
    if open.ok then (h, Arming(true, Installed))
    else if !plan.symmetricFallbackAllowed then (h, Arming(false, if open.notSupported then Unsupported else Refused))
    else ArmedSymmetric(h, plan, open.notSupported)
  }

  function ArmedSymmetric(hw: Hw, plan: CeilingPlan, openNotSupported: bool): (Hw, Arming) {
    var reply := hw.Next();
    (hw.Clamped(plan.ceilingMHz),
     if reply.ok then Arming(true, Installed)
     else Arming(false, if openNotSupported && reply.notSupported then Unsupported else Refused))
  }

  function Unarmable(plan: CeilingPlan): ArmResult {
    if !plan.required then ArmNotNeeded else if plan.clampControlAbsent then Unsupported else Unavailable
  }

  function Armed(hw: Hw, plan: CeilingPlan, a: Arming): (Hw, Arming) {
    if a.armed then (hw, a)
    else if plan.arm then ArmedClamp(hw, plan)
    else (hw, Arming(false, Unarmable(plan)))
  }

  predicate Refuses(plan: CeilingPlan, a: Arming) {
    MustRefuse(plan.required, a.result, plan.reason)
  }

  datatype Ending = Refusal | RefusedAtStock | Abandoned | Finished | RecoveredTo(r: Recovery) | RecoveryStopped

  function Recovered(hw: Hw, plan: CeilingPlan, a: Arming, pascal: bool, hardPin: bool): (Hw, Ending) {
    var h0 := hw.Marked(Recover(true));
    var (h, b) := if plan.required then Armed(h0, plan, a.(armed := false)) else (h0, a);
    if plan.required && Refuses(plan, b) then (h, RecoveryStopped)
    else Readopted(h, b, pascal, hardPin)
  }

  /** The rollback, after which the guard lets go of a clamp that was released. */
  function Readopted(hw: Hw, a: Arming, pascal: bool, hardPin: bool): (Hw, Ending) {
    var (h, r) := RolledBack(hw, pascal, hardPin);
    (if r.released && a.armed then h.(capActive := false) else h, RecoveredTo(r))
  }

  /** Which clock writes an apply makes: a core offset in the baseline, the outgoing offset cleared,
      the new offset, and a curve batch with its correction passes. */
  datatype Writes = Writes(baselineOffset: bool, clearOffset: bool, offset: bool, curve: bool, passes: nat)

  function OffsetWritten(hw: Hw, due: bool): (Hw, bool) {
    if due then (hw.Called(Write(false, hw.Next().ok)), hw.Next().ok) else (hw, true)
  }

  function Corrected(hw: Hw, passes: nat, verified: bool): (Hw, bool)
    decreases passes
  {
    if passes == 0 || verified then (hw, verified)
    else if !hw.Next().ok then (hw.Asked(), false)
    else
      var h := hw.Asked();
      Corrected(h.Called(Write(true, h.Next().ok)), passes - 1, h.Next().ok)
  }

  function CurveWritten(hw: Hw, due: bool, passes: nat): (Hw, bool) {
    if !due then (hw, true)
    else
      var (h, verified) := Corrected(hw.Called(Write(true, hw.Next().ok)), passes, hw.Next().ok);
      (h.Asked(), verified && h.Next().ok)
  }

  function BaselineWritten(hw: Hw, writes: Writes): (Hw, bool) {
    var (h, ok) := OffsetWritten(hw, writes.baselineOffset);
    if ok then CurveWritten(h, true, 0) else (h, false)
  }

  /** The writes proper, in their order; the first failure ends them. */
  function ClocksWritten(hw: Hw, writes: Writes): (Hw, bool) {
    var (h, ok) := OffsetWritten(hw, writes.offset);
    if ok then LaterWritten(h, writes) else (h, false)
  }

  function LaterWritten(hw: Hw, writes: Writes): (Hw, bool) {
    var (h, ok) := OffsetWritten(hw, writes.clearOffset);
    if ok then CurveWritten(h, writes.curve, writes.passes) else (h, false)
  }

  predicate HardLock(t: Transition) {
    t.IncomingLock() && t.lockMode == Hard
  }

  function LockStepped(hw: Hw, a: Arming, t: Transition, pascal: bool, hardPin: bool): (Hw, Arming, bool) {
    var ok := hw.Next().ok;
    var b := if ok then a.(armed := false) else a;
    if HardLock(t) then
      var h := hw.Called(Pin(t.lockMHz, ok));
      (if ok && a.armed then h.(capActive := false) else h, b, ok)
    else if t.ownsClockDomain && hw.releaseControl && !ControlProvenAbsent(pascal, a.armed || hw.capActive, hardPin) then
      (hw.Released(), b, ok)
    else (hw, a, true)
  }

  /** The lock step, if the apply got that far, and recovery from whatever failed. */
  function Closed(hw: Hw, plan: CeilingPlan, a: Arming, t: Transition, ok: bool, late: bool, pascal: bool, hardPin: bool): (Hw, Ending) {
    var (h, b, stepped) := if ok then LockStepped(hw, a, t, pascal, hardPin) else (hw, a, false);
    if stepped && late then (h, Ending.Finished) else Recovered(h, plan, b, pascal, hardPin)
  }

  /** The part of an apply behind its refusals; `begun` says whether the baseline succeeded. The
      settings outside the clock domain are written before and after the lock step. */
  function Written(hw: Hw, plan: CeilingPlan, a: Arming, t: Transition, writes: Writes, begun: bool, pascal: bool, hardPin: bool): (Hw, Ending) {
    var (h, ok) := if begun then ClocksWritten(hw, writes) else (hw, false);
    Closed(h.Asked().Asked(), plan, a, t, ok && h.Next().ok, h.Asked().Next().ok, pascal, hardPin)
  }

  /** An apply that resets to stock, from its first arming on: baseline, second arming, writes. */
  function FromBaseline(hw: Hw, plan: CeilingPlan, a: Arming, t: Transition, writes: Writes, pascal: bool, hardPin: bool): (Hw, Ending) {
    var (h, ok) := BaselineWritten(hw, writes);
    if !ok then Written(h, plan, a, t, writes, false, pascal, hardPin)
    else
      var (h', a') := Armed(h, plan, a);
      if Refuses(plan, a') then (h', RefusedAtStock)
      else Written(h', plan, a', t, writes, true, pascal, hardPin)
  }

  /** One apply. Before its first call it may still be given up. */
  function Applied(hw: Hw, t: Transition, writes: Writes, pascal: bool, hardPin: bool): (Hw, Ending) {
    var plan := hw.Plan(t);
    var h0 := hw.Marked(Begin(plan));
    if !h0.Next().ok then (h0.Asked(), Abandoned)
    else
      var (h, a) := Armed(h0.Asked(), plan, Arming(false, ArmNotNeeded));
      if Refuses(plan, a) then (h, Refusal)
      else if t.resetsToStock then FromBaseline(h, plan, a, t, writes, pascal, hardPin)
      else Written(h, plan, a, t, writes, true, pascal, hardPin)
  }

  // ------------------------------------------------------------ keeping the rules

  /** The rules were obeyed so far, and the program knows of an installed transition cap, which it can
      release. */
  predicate Sound(hw: Hw) {
    && hw.obeyed
    && (hw.now.transition ==> hw.releaseControl && hw.capActive && hw.capMHz > 0 && hw.now.cap == Some(hw.capMHz))
  }

  /** Same driver, same record of the cap. */
  predicate SameCapRecord(a: Hw, b: Hw) {
    && a.vfGlobal == b.vfGlobal && a.setControl == b.setControl && a.releaseControl == b.releaseControl
    && a.capActive == b.capActive && a.capMHz == b.capMHz
  }

  lemma MarkerIsSound(hw: Hw, c: Call)
    requires Sound(hw) && IsMarker(c)
    ensures Sound(hw.Marked(c))
  {
  }

  lemma PinIsSound(hw: Hw, hi: U32)
    requires Sound(hw) && !hw.now.recovering && hw.now.curveOk && hw.now.scalarOk
    ensures Sound(hw.Called(Pin(hi, hw.Next().ok)))
  {
  }

  lemma ClampIsSound(hw: Hw, hi: U32)
    requires Sound(hw) && hw.releaseControl && hw.now.plan.required && 0 < hi == hw.now.plan.ceilingMHz
    requires hw.now.transition ==> hi <= hw.capMHz
    ensures
      var ok := hw.Next().ok;
      Sound(hw.Clamped(hi)) && hw.Clamped(hi).now == hw.now.After(Lock(hi, ok, !ok && hw.Next().notSupported), hw.vfGlobal)
  {
  }

  lemma ReleaseIsSound(hw: Hw)
    requires Sound(hw) && hw.now.curveOk && hw.now.scalarOk
    ensures Sound(hw.Released()) && hw.Released().now == hw.now.After(Unlock(hw.Next().ok), hw.vfGlobal)
  {
  }

  lemma ForgettingIsSound(hw: Hw)
    requires Sound(hw) && !hw.now.transition
    ensures Sound(hw.(capActive := false)) && hw.(capActive := false).now == hw.now
  {
  }

  lemma AskingIsSound(hw: Hw)
    ensures Sound(hw.Asked()) == Sound(hw) && hw.Asked().now == hw.now
  {
  }

  // ---------------------------------------------------------------- recovery

  /** A recovery may start here: nothing is reset yet. */
  predicate Recovering(hw: Hw, ownsScalar: bool) {
    && Sound(hw) && hw.now.recovering && hw.now.Protected()
    && !hw.now.curveOk && hw.now.scalarOk == (hw.vfGlobal || !ownsScalar)
  }

  /** Still recovering, under the same cap. */
  predicate StillRecovering(before: Hw, after: Hw) {
    Sound(after) && SameCapRecord(after, before) && after.now.SameCap(before.now)
  }

  lemma OffsetReset(hw: Hw, ok: bool)
    requires Sound(hw) && hw.now.recovering && hw.now.Protected()
    ensures
      var h := hw.Called(ScalarReset(ok));
      StillRecovering(hw, h) && h.now.Protected() && h.now.scalarOk == ok && !h.now.curveOk
  {
  }

  lemma CurveResetAfterOffset(hw: Hw, ok: bool)
    requires Sound(hw) && hw.now.recovering && hw.now.Protected() && hw.now.scalarOk
    ensures
      var h := hw.Called(CurveReset(ok));
      StillRecovering(hw, h) && h.now.curveOk == ok && h.now.scalarOk
  {
  }

  /** The ordered two-domain reset: the curve is left alone while a separate offset is unknown, and
      release is permitted exactly when both verified. */
  lemma StockResetIsOrdered(hw: Hw, ownsScalar: bool)
    requires Recovering(hw, ownsScalar)
    ensures
      var (h, r) := StockReset(hw, ownsScalar);
      && StillRecovering(hw, h)
      && (PermitsRelease(r) <==> h.now.curveOk && h.now.scalarOk)
      && (r.gpuOffset.attempted <==> !hw.vfGlobal && ownsScalar)
      && (r.curve.attempted <==> r.gpuOffset.verified)
      && !r.released
  {
    if hw.vfGlobal || !ownsScalar {
      CurveResetAfterOffset(hw, hw.Next().ok);
    } else {
      OffsetReset(hw, hw.Next().ok);
      var h := hw.Called(ScalarReset(hw.Next().ok));
      if hw.Next().ok { CurveResetAfterOffset(h, h.Next().ok); }
    }
  }

  /** What a result says of a cap: it is released only with stock proved, and then no transition cap is
      left; otherwise the cap is as it was. */
  predicate ReleasedOnlyProved(before: Hw, after: Hw, r: Recovery) {
    && (r.released ==> PermitsRelease(r) && !after.now.transition)
    && (r.released && before.now.transition ==> after.now.cap == None)
    && (!r.released ==> after.now.cap == before.now.cap && after.now.transition == before.now.transition
                        && after.capActive == before.capActive)
  }

  lemma RollbackReleasesOnlyProved(hw: Hw, pascal: bool, hardPin: bool)
    requires Recovering(hw, true)
    ensures
      var (h, r) := RolledBack(hw, pascal, hardPin);
      Sound(h) && h.now.plan == hw.now.plan && ReleasedOnlyProved(hw, h, r)
  {
    StockResetIsOrdered(hw, true);
    var (h, r) := StockReset(hw, true);
    AskingIsSound(h);
    if PermitsRelease(r) { ReleaseIsSound(h.Asked()); }
  }

  lemma ResetReleasesOnlyProved(hw: Hw, pascal: bool, hardPin: bool, lockBelieved: bool)
    requires Sound(hw)
    ensures
      var (h, r) := ResetDone(hw, pascal, hardPin, lockBelieved);
      && Sound(h) && ReleasedOnlyProved(hw, h, r)
      && (PermitsRelease(r) && !lockBelieved && !hw.capActive ==> r.released)
  {
    MarkerIsSound(hw, Reset(true));
    StockResetIsOrdered(hw.Marked(Reset(true)), true);
    var (h, r) := StockReset(hw.Marked(Reset(true)), true);
    AskingIsSound(h);
    if PermitsRelease(r) { ReleaseIsSound(h.Asked()); }
  }

  // ------------------------------------------------------------------- arming

  /** The guard's record of its plan and clamp agrees with the calls. */
  predicate Guarded(hw: Hw, plan: CeilingPlan, a: Arming) {
    && Sound(hw) && hw.now.plan == plan
    && (plan.arm ==> plan.required && plan.ceilingMHz > 0 && hw.releaseControl)
    && (plan.arm && hw.now.transition ==> plan.ceilingMHz <= hw.capMHz)
    && (a.armed ==> plan.required && a.result == Installed && hw.now.cap == Some(plan.ceilingMHz))
  }

  lemma PlanIsGuarded(hw: Hw, t: Transition)
    requires Sound(hw)
    ensures Guarded(hw.Marked(Begin(hw.Plan(t))), hw.Plan(t), Arming(false, ArmNotNeeded))
    ensures hw.Marked(Begin(hw.Plan(t))).now == hw.now.After(Begin(hw.Plan(t)), hw.vfGlobal)
  {
    MarkerIsSound(hw, Begin(hw.Plan(t)));
  }

  /** What every way of arming keeps: only clamps are called, and unless the transition must be refused
      the GPU is protected. */
  ghost predicate ArmedFrom(before: Hw, after: Hw, plan: CeilingPlan, a: Arming) {
    && OnlyClamps(before.log, after.log)
    && after.now.SameOperation(before.now)
    && after.now.cap == (if a.armed then Some(plan.ceilingMHz) else before.now.cap)
    && (before.now.transition ==> after.now.transition)
    && (!Refuses(plan, a) ==> after.now.Protected())
    && (!Refuses(plan, a) && !a.armed ==> !after.now.declined)
  }

  /** One clamp form. */
  lemma ClampTried(hw: Hw, plan: CeilingPlan)
    requires Guarded(hw, plan, Arming(false, ArmNotNeeded)) && plan.arm
    ensures
      var h, ok, reply := hw.Clamped(plan.ceilingMHz), hw.Next().ok, hw.Next();
      && Guarded(h, plan, Arming(ok, Installed)) && h.now.SameOperation(hw.now)
      && h.log == hw.log + [Lock(plan.ceilingMHz, ok, !ok && reply.notSupported)]
      && h.now.cap == (if ok then Some(plan.ceilingMHz) else hw.now.cap) && (hw.now.transition ==> h.now.transition)
      && h.now.tried && h.now.declined == (hw.now.declined || (!ok && !reply.notSupported))
  {
    ClampIsSound(hw, plan.ceilingMHz);
  }

  lemma SymmetricIsGuarded(hw: Hw, plan: CeilingPlan, openNotSupported: bool)
    requires Guarded(hw, plan, Arming(false, ArmNotNeeded)) && plan.arm && hw.now.tried
    requires openNotSupported ==> !hw.now.declined
    ensures
      var (h, a) := ArmedSymmetric(hw, plan, openNotSupported);
      Guarded(h, plan, a) && ArmedFrom(hw, h, plan, a)
  {
    ClampTried(hw, plan);
  }

  lemma ArmedFromThere(a: Hw, b: Hw, c: Hw, plan: CeilingPlan, arming: Arming)
    requires OnlyClamps(a.log, b.log) && b.now.SameOperation(a.now) && b.now.cap == a.now.cap && (a.now.transition ==> b.now.transition)
    requires ArmedFrom(b, c, plan, arming)
    ensures ArmedFrom(a, c, plan, arming)
  {
    assert c.log[..|a.log|] == c.log[..|b.log|][..|a.log|];
  }

  lemma ClampIsGuarded(hw: Hw, plan: CeilingPlan)
    requires Guarded(hw, plan, Arming(false, ArmNotNeeded)) && plan.arm && !hw.now.declined
    ensures
      var (h, a) := ArmedClamp(hw, plan);
      Guarded(h, plan, a) && ArmedFrom(hw, h, plan, a)
  {
    ClampTried(hw, plan);
    var h := hw.Clamped(plan.ceilingMHz);
    if !hw.Next().ok && plan.symmetricFallbackAllowed {
      SymmetricIsGuarded(h, plan, hw.Next().notSupported);
      var (h', a) := ArmedSymmetric(h, plan, hw.Next().notSupported);
      ArmedFromThere(hw, h, h', plan, a);
    }
  }

  /** Arming tries clamps only, leaves an armed clamp alone, and ends protected or must refuse. */
  lemma ArmingProtects(hw: Hw, plan: CeilingPlan, a: Arming)
    requires Guarded(hw, plan, a) && (a.armed || !hw.now.declined)
    ensures
      var (h, b) := Armed(hw, plan, a);
      Guarded(h, plan, b) && ArmedFrom(hw, h, plan, b) && (a.armed ==> b.armed && h == hw)
  {
    if !a.armed && plan.arm { ClampIsGuarded(hw, plan); }
  }

  /** Recovery re-establishes protection before anything is reset, or stops with the cap as it was. */
  lemma RecoveryIsProtected(hw: Hw, plan: CeilingPlan, a: Arming, pascal: bool, hardPin: bool)
    requires Guarded(hw, plan, a)
    ensures
      var (h, e) := Recovered(hw, plan, a, pascal, hardPin);
      && Sound(h) && (e == RecoveryStopped || e.RecoveredTo?)
      && (e == RecoveryStopped ==> h.now.cap == hw.now.cap)
      && (e.RecoveredTo? && e.r.released ==> PermitsRelease(e.r) && !h.now.transition)
      && (e.RecoveredTo? && !e.r.released && hw.now.transition ==> h.now.transition)
  {
    MarkerIsSound(hw, Recover(true));
    var h0 := hw.Marked(Recover(true));
    var (h, b) := if plan.required then Armed(h0, plan, a.(armed := false)) else (h0, a);
    if plan.required { ArmingProtects(h0, plan, a.(armed := false)); }
    if !(plan.required && Refuses(plan, b)) {
      RollbackReleasesOnlyProved(h, pascal, hardPin);
      var (back, r) := RolledBack(h, pascal, hardPin);
      if r.released { ForgettingIsSound(back); }
    }
  }

  // -------------------------------------------------------------- the writes

  /** The writes of an apply run under its guard, protected. */
  predicate Writing(hw: Hw, plan: CeilingPlan, a: Arming) {
    Guarded(hw, plan, a) && hw.now.Protected() && !hw.now.recovering
  }

  /** Writing goes on, the record of the cap is as it was. */
  predicate WritesOn(before: Hw, after: Hw, plan: CeilingPlan, a: Arming) {
    Writing(after, plan, a) && SameCapRecord(after, before) && after.now.SameCap(before.now)
  }

  lemma WritesOnAndOn(a: Hw, b: Hw, c: Hw, plan: CeilingPlan, arming: Arming)
    requires WritesOn(a, b, plan, arming) && WritesOn(b, c, plan, arming)
    ensures WritesOn(a, c, plan, arming)
  {
  }

  lemma AskingWritesOn(hw: Hw, plan: CeilingPlan, a: Arming)
    requires Writing(hw, plan, a)
    ensures WritesOn(hw, hw.Asked(), plan, a) && hw.Asked().now == hw.now
  {
  }

  lemma OneWrite(hw: Hw, plan: CeilingPlan, a: Arming, curve: bool, verified: bool)
    requires Writing(hw, plan, a)
    ensures
      var h := hw.Called(Write(curve, verified));
      && WritesOn(hw, h, plan, a)
      && h.now.curveOk == (if curve then verified else hw.now.curveOk)
      && h.now.scalarOk == (if curve then hw.now.scalarOk else hw.now.scalarOk && verified)
  {
  }

  lemma OffsetMustVerify(hw: Hw, plan: CeilingPlan, a: Arming, due: bool)
    requires Writing(hw, plan, a)
    ensures
      var (h, ok) := OffsetWritten(hw, due);
      WritesOn(hw, h, plan, a) && h.now.curveOk == hw.now.curveOk && h.now.scalarOk == (hw.now.scalarOk && ok)
  {
    OneWrite(hw, plan, a, false, hw.Next().ok);
  }

  /** One correction pass that may start. */
  lemma OnePass(hw: Hw, plan: CeilingPlan, a: Arming)
    requires Writing(hw, plan, a)
    ensures
      var verified := hw.Asked().Next().ok;
      var h := hw.Asked().Called(Write(true, verified));
      WritesOn(hw, h, plan, a) && h.now.curveOk == verified && h.now.scalarOk == hw.now.scalarOk
  {
    AskingWritesOn(hw, plan, a);
    OneWrite(hw.Asked(), plan, a, true, hw.Asked().Next().ok);
    WritesOnAndOn(hw, hw.Asked(), hw.Asked().Called(Write(true, hw.Asked().Next().ok)), plan, a);
  }

  /** However many passes it takes, the last verification decides. */
  lemma {:induction false} LastPassDecides(hw: Hw, plan: CeilingPlan, a: Arming, passes: nat, verified: bool)
    requires Writing(hw, plan, a) && hw.now.curveOk == verified
    ensures
      var (h, ok) := Corrected(hw, passes, verified);
      WritesOn(hw, h, plan, a) && h.now.curveOk == ok && h.now.scalarOk == hw.now.scalarOk
    decreases passes
  {
    if passes > 0 && !verified {
      if hw.Next().ok {
        var v := hw.Asked().Next().ok;
        var h := hw.Asked().Called(Write(true, v));
        OnePass(hw, plan, a);
        LastPassDecides(h, plan, a, passes - 1, v);
        WritesOnAndOn(hw, h, Corrected(h, passes - 1, v).0, plan, a);
      } else {
        AskingWritesOn(hw, plan, a);
      }
    }
  }

  /** A batch and its correction passes. */
  lemma {:induction false} BatchIsCorrected(hw: Hw, plan: CeilingPlan, a: Arming, passes: nat)
    requires Writing(hw, plan, a)
    ensures
      var (h, ok) := Corrected(hw.Called(Write(true, hw.Next().ok)), passes, hw.Next().ok);
      WritesOn(hw, h, plan, a) && h.now.curveOk == ok && h.now.scalarOk == hw.now.scalarOk
  {
    var first := hw.Next().ok;
    var h := hw.Called(Write(true, first));
    OneWrite(hw, plan, a, true, first);
    LastPassDecides(h, plan, a, passes, first);
    WritesOnAndOn(hw, h, Corrected(h, passes, first).0, plan, a);
  }

  lemma BatchMustVerify(hw: Hw, plan: CeilingPlan, a: Arming, due: bool, passes: nat)
    requires Writing(hw, plan, a)
    ensures
      var (h, ok) := CurveWritten(hw, due, passes);
      && WritesOn(hw, h, plan, a) && h.now.scalarOk == hw.now.scalarOk
      && (ok ==> if due then h.now.curveOk else h == hw)
  {
    if due {
      BatchIsCorrected(hw, plan, a, passes);
      var h := Corrected(hw.Called(Write(true, hw.Next().ok)), passes, hw.Next().ok).0;
      AskingWritesOn(h, plan, a);
      WritesOnAndOn(hw, h, h.Asked(), plan, a);
    }
  }

  /** The baseline succeeds only with both domains verified. */
  lemma BaselineVerifies(hw: Hw, plan: CeilingPlan, a: Arming, writes: Writes)
    requires Writing(hw, plan, a) && hw.now.scalarOk
    ensures
      var (h, ok) := BaselineWritten(hw, writes);
      WritesOn(hw, h, plan, a) && (ok ==> h.now.curveOk && h.now.scalarOk)
  {
    OffsetMustVerify(hw, plan, a, writes.baselineOffset);
    var (h, ok) := OffsetWritten(hw, writes.baselineOffset);
    if ok {
      BatchMustVerify(h, plan, a, true, 0);
      WritesOnAndOn(hw, h, CurveWritten(h, true, 0).0, plan, a);
    }
  }

  /** And so do the writes proper. */
  lemma ClocksVerify(hw: Hw, plan: CeilingPlan, a: Arming, writes: Writes)
    requires Writing(hw, plan, a) && hw.now.curveOk && hw.now.scalarOk
    ensures
      var (h, ok) := ClocksWritten(hw, writes);
      WritesOn(hw, h, plan, a) && (ok ==> h.now.curveOk && h.now.scalarOk)
  {
    OffsetMustVerify(hw, plan, a, writes.offset);
    var (h, ok) := OffsetWritten(hw, writes.offset);
    if ok {
      LaterClocksVerify(h, plan, a, writes);
      WritesOnAndOn(hw, h, ClocksWritten(hw, writes).0, plan, a);
    }
  }

  lemma LaterClocksVerify(hw: Hw, plan: CeilingPlan, a: Arming, writes: Writes)
    requires Writing(hw, plan, a) && hw.now.curveOk && hw.now.scalarOk
    ensures
      var (h, ok) := LaterWritten(hw, writes);
      WritesOn(hw, h, plan, a) && (ok ==> h.now.curveOk && h.now.scalarOk)
  {
    OffsetMustVerify(hw, plan, a, writes.clearOffset);
    var (h, ok) := OffsetWritten(hw, writes.clearOffset);
    if ok {
      BatchMustVerify(h, plan, a, writes.curve, writes.passes);
      WritesOnAndOn(hw, h, CurveWritten(h, writes.curve, writes.passes).0, plan, a);
    }
  }

  // ------------------------------------------------------- the final lock step

  /** Both domains are verified, so the lock step may come. */
  predicate ReadyToLock(hw: Hw, plan: CeilingPlan, a: Arming) {
    Guarded(hw, plan, a) && !hw.now.recovering && hw.now.curveOk && hw.now.scalarOk
  }

  /** A hard lock ends at its pin, any other owner of the lock domain without a transition cap; a step
      that fails or is not entitled to the domain changes nothing. */
  lemma LockStepSettlesTheCap(hw: Hw, plan: CeilingPlan, a: Arming, t: Transition, pascal: bool, hardPin: bool)
    requires ReadyToLock(hw, plan, a)
    ensures
      var (h, b, ok) := LockStepped(hw, a, t, pascal, hardPin);
      && Guarded(h, plan, b) && h.now.curveOk && h.now.scalarOk
      && (ok && HardLock(t) ==> h.now.cap == Some(t.lockMHz))
      && (ok && (HardLock(t) || t.ownsClockDomain) ==> !h.now.transition)
      && (ok && !HardLock(t) && t.ownsClockDomain && hw.now.transition ==> h.now.cap == None)
      && (!ok || !(HardLock(t) || t.ownsClockDomain) ==> h.now == hw.now)
  {
    var ok := hw.Next().ok;
    if HardLock(t) {
      PinIsSound(hw, t.lockMHz);
      if ok { ForgettingIsSound(hw.Called(Pin(t.lockMHz, ok))); }
    } else {
      ReleaseIsSound(hw);
    }
  }

  // ------------------------------------------------------------- whole applies

  /** What an ending promises of the cap. */
  predicate EndsSafely(h: Hw, t: Transition, e: Ending) {
    && Sound(h)
    && (e == Ending.Finished && (HardLock(t) || t.ownsClockDomain) ==> !h.now.transition)
    && (e == Ending.Finished && HardLock(t) ==> h.now.cap == Some(t.lockMHz))
    && (e == Ending.Finished ==> h.now.curveOk && h.now.scalarOk)
    && (e.RecoveredTo? && e.r.released ==> PermitsRelease(e.r) && !h.now.transition)
  }

  lemma ClosingEndsSafely(hw: Hw, plan: CeilingPlan, a: Arming, t: Transition, ok: bool, late: bool, pascal: bool, hardPin: bool)
    requires Guarded(hw, plan, a) && (ok ==> !hw.now.recovering && hw.now.curveOk && hw.now.scalarOk)
    ensures
      var (h, e) := Closed(hw, plan, a, t, ok, late, pascal, hardPin);
      EndsSafely(h, t, e) && (e == Ending.Finished || e == RecoveryStopped || e.RecoveredTo?)
  {
    if ok { LockStepSettlesTheCap(hw, plan, a, t, pascal, hardPin); }
    var (h, b, stepped) := if ok then LockStepped(hw, a, t, pascal, hardPin) else (hw, a, false);
    if !(stepped && late) { RecoveryIsProtected(h, plan, b, pascal, hardPin); }
  }

  lemma WritingEndsSafely(hw: Hw, plan: CeilingPlan, a: Arming, t: Transition, writes: Writes, begun: bool, pascal: bool, hardPin: bool)
    requires Writing(hw, plan, a) && (begun ==> hw.now.curveOk && hw.now.scalarOk)
    ensures
      var (h, e) := Written(hw, plan, a, t, writes, begun, pascal, hardPin);
      EndsSafely(h, t, e) && (e == Ending.Finished || e == RecoveryStopped || e.RecoveredTo?)
  {
    if begun { ClocksVerify(hw, plan, a, writes); }
    var (h, ok) := if begun then ClocksWritten(hw, writes) else (hw, false);
    AskingWritesOn(h, plan, a);
    AskingWritesOn(h.Asked(), plan, a);
    ClosingEndsSafely(h.Asked().Asked(), plan, a, t, ok && h.Next().ok, h.Asked().Next().ok, pascal, hardPin);
  }

  /** Whatever the driver answers, an apply keeps the rules and ends safely; one that is refused before
      the baseline or given up has only tried clamps, one refused after it has verified stock. */
  lemma ApplyKeepsTheRules(hw: Hw, t: Transition, writes: Writes, pascal: bool, hardPin: bool)
    requires Sound(hw)
    ensures
      var (h, e) := Applied(hw, t, writes, pascal, hardPin);
      && EndsSafely(h, t, e)
      && (e == Refusal || e == Abandoned ==> OnlyClamps(hw.log + [Begin(hw.Plan(t))], h.log))
      && (e == RefusedAtStock ==> h.now.curveOk && h.now.scalarOk)
  {
    var plan := hw.Plan(t);
    PlanIsGuarded(hw, t);
    var h0 := hw.Marked(Begin(plan)).Asked();
    AskingIsSound(hw.Marked(Begin(plan)));
    ArmingProtects(h0, plan, Arming(false, ArmNotNeeded));
    var (h, a) := Armed(h0, plan, Arming(false, ArmNotNeeded));
    if hw.Next().ok && !Refuses(plan, a) {
      if t.resetsToStock {
        AfterTheFirstArming(h, plan, a, t, writes, pascal, hardPin);
      } else {
        WritingEndsSafely(h, plan, a, t, writes, true, pascal, hardPin);
      }
    }
  }

  lemma AfterTheFirstArming(hw: Hw, plan: CeilingPlan, a: Arming, t: Transition, writes: Writes, pascal: bool, hardPin: bool)
    requires Writing(hw, plan, a) && hw.now.scalarOk && (a.armed || !hw.now.declined)
    ensures
      var (h, e) := FromBaseline(hw, plan, a, t, writes, pascal, hardPin);
      EndsSafely(h, t, e) && e != Refusal && e != Abandoned && (e == RefusedAtStock ==> h.now.curveOk && h.now.scalarOk)
  {
    BaselineVerifies(hw, plan, a, writes);
    var (h, ok) := BaselineWritten(hw, writes);
    if !ok {
      WritingEndsSafely(h, plan, a, t, writes, false, pascal, hardPin);
    } else {
      ArmingProtects(h, plan, a);
      var (h', a') := Armed(h, plan, a);
      if !Refuses(plan, a') { WritingEndsSafely(h', plan, a', t, writes, true, pascal, hardPin); }
    }
  }

  // ------------------------------------------------ the monitor reads the record

  /** What the monitor says is what it says of the record of calls. */
  ghost predicate Faithful(hw: Hw) {
    hw.now == WatchAfter(hw.log, hw.vfGlobal) && hw.obeyed == Obeyed(hw.log, hw.vfGlobal)
  }

  /** A property that every call after the first of an operation, every answer and every change to the
      cap's record keeps. */
  ghost predicate Stable(P: Hw -> bool) {
    && (forall h: Hw, c: Call :: P(h) && !c.Begin? && !c.Reset? ==> P(h.Marked(c)))
    && (forall h: Hw :: P(h) ==> P(h.Asked()))
    && (forall h: Hw, active: bool, mhz: U32 :: P(h) ==> P(h.(capActive := active, capMHz := mhz)))
  }

  lemma StableSteps(P: Hw -> bool, h: Hw, c: Call, hi: U32)
    requires Stable(P) && P(h) && !c.Begin? && !c.Reset?
    ensures P(h.Called(c)) && P(h.Clamped(hi)) && P(h.Released()) && P(h.Asked()) && P(h.(capActive := false))
  {
    assert P(h.Asked()) && P(h.Called(c));
    var lock, unlock := Lock(hi, h.Next().ok, !h.Next().ok && h.Next().notSupported), Unlock(h.Next().ok);
    assert P(h.Called(lock)) && P(h.Called(unlock));
    assert h.Clamped(hi) == h.Called(lock).(capActive := h.capActive || h.Next().ok, capMHz := if h.Next().ok then hi else h.capMHz);
    assert h.Released() == h.Called(unlock).(capActive := h.capActive && !h.Next().ok, capMHz := h.capMHz);
    assert h.(capActive := false) == h.(capActive := false, capMHz := h.capMHz);
  }

  lemma StableStockReset(P: Hw -> bool, hw: Hw)
    requires Stable(P) && P(hw)
    ensures P(StockReset(hw, true).0)
  {
    StableSteps(P, hw, ScalarReset(hw.Next().ok), 0);
    var h := if hw.vfGlobal then hw else hw.Called(ScalarReset(hw.Next().ok));
    StableSteps(P, h, CurveReset(h.Next().ok), 0);
  }

  lemma StableRollback(P: Hw -> bool, hw: Hw, pascal: bool, hardPin: bool)
    requires Stable(P) && P(hw)
    ensures P(RolledBack(hw, pascal, hardPin).0)
  {
    StableStockReset(P, hw);
    var h := StockReset(hw, true).0;
    StableSteps(P, h, Unlock(true), 0);
    StableSteps(P, h.Asked(), Unlock(true), 0);
  }

  lemma StableReset(P: Hw -> bool, hw: Hw, pascal: bool, hardPin: bool, lockBelieved: bool)
    requires Stable(P) && P(hw.Marked(Reset(true)))
    ensures P(ResetDone(hw, pascal, hardPin, lockBelieved).0)
  {
    StableStockReset(P, hw.Marked(Reset(true)));
    var h := StockReset(hw.Marked(Reset(true)), true).0;
    StableSteps(P, h, Unlock(true), 0);
    StableSteps(P, h.Asked(), Unlock(true), 0);
  }

  lemma StableArming(P: Hw -> bool, hw: Hw, plan: CeilingPlan, a: Arming)
    requires Stable(P) && P(hw)
    ensures P(Armed(hw, plan, a).0)
  {
    StableSteps(P, hw, Unlock(true), plan.ceilingMHz);
    StableSteps(P, hw.Clamped(plan.ceilingMHz), Unlock(true), plan.ceilingMHz);
  }

  lemma StableRecovery(P: Hw -> bool, hw: Hw, plan: CeilingPlan, a: Arming, pascal: bool, hardPin: bool)
    requires Stable(P) && P(hw)
    ensures P(Recovered(hw, plan, a, pascal, hardPin).0)
  {
    var h0 := hw.Marked(Recover(true));
    StableArming(P, h0, plan, a.(armed := false));
    var h := if plan.required then Armed(h0, plan, a.(armed := false)).0 else h0;
    StableRollback(P, h, pascal, hardPin);
    StableSteps(P, RolledBack(h, pascal, hardPin).0, Unlock(true), 0);
  }

  lemma {:induction false} StableCorrection(P: Hw -> bool, hw: Hw, passes: nat, verified: bool)
    requires Stable(P) && P(hw)
    ensures P(Corrected(hw, passes, verified).0)
    decreases passes
  {
    if passes > 0 && !verified && hw.Next().ok {
      var h := hw.Asked();
      StableSteps(P, h, Write(true, h.Next().ok), 0);
      StableCorrection(P, h.Called(Write(true, h.Next().ok)), passes - 1, h.Next().ok);
    }
  }

  lemma StableWrites(P: Hw -> bool, hw: Hw, due: bool, passes: nat)
    requires Stable(P) && P(hw)
    ensures P(OffsetWritten(hw, due).0) && P(CurveWritten(hw, due, passes).0)
  {
    StableSteps(P, hw, Write(false, hw.Next().ok), 0);
    StableSteps(P, hw, Write(true, hw.Next().ok), 0);
    StableCorrection(P, hw.Called(Write(true, hw.Next().ok)), passes, hw.Next().ok);
  }

  lemma StableClocks(P: Hw -> bool, hw: Hw, writes: Writes)
    requires Stable(P) && P(hw)
    ensures P(BaselineWritten(hw, writes).0) && P(ClocksWritten(hw, writes).0)
  {
    StableWrites(P, hw, writes.baselineOffset, 0);
    StableWrites(P, OffsetWritten(hw, writes.baselineOffset).0, true, 0);
    StableWrites(P, hw, writes.offset, 0);
    var h := OffsetWritten(hw, writes.offset).0;
    StableWrites(P, h, writes.clearOffset, 0);
    StableWrites(P, OffsetWritten(h, writes.clearOffset).0, writes.curve, writes.passes);
  }

  lemma StableClosing(P: Hw -> bool, hw: Hw, plan: CeilingPlan, a: Arming, t: Transition, ok: bool, late: bool, pascal: bool, hardPin: bool)
    requires Stable(P) && P(hw)
    ensures P(Closed(hw, plan, a, t, ok, late, pascal, hardPin).0)
  {
    StableSteps(P, hw, Pin(t.lockMHz, hw.Next().ok), 0);
    StableSteps(P, hw.Called(Pin(t.lockMHz, hw.Next().ok)), Unlock(true), 0);
    var (h, b, stepped) := if ok then LockStepped(hw, a, t, pascal, hardPin) else (hw, a, false);
    StableRecovery(P, h, plan, b, pascal, hardPin);
  }

  lemma StableWritten(P: Hw -> bool, hw: Hw, plan: CeilingPlan, a: Arming, t: Transition, writes: Writes, begun: bool, pascal: bool, hardPin: bool)
    requires Stable(P) && P(hw)
    ensures P(Written(hw, plan, a, t, writes, begun, pascal, hardPin).0)
  {
    StableClocks(P, hw, writes);
    var (h, ok) := if begun then ClocksWritten(hw, writes) else (hw, false);
    assert P(h.Asked()) && P(h.Asked().Asked());
    StableClosing(P, h.Asked().Asked(), plan, a, t, ok && h.Next().ok, h.Asked().Next().ok, pascal, hardPin);
  }

  /** Whatever holds once an apply has begun and is kept by every single step holds of the whole apply. */
  lemma StableApply(P: Hw -> bool, hw: Hw, t: Transition, writes: Writes, pascal: bool, hardPin: bool)
    requires Stable(P) && P(hw.Marked(Begin(hw.Plan(t))))
    ensures P(Applied(hw, t, writes, pascal, hardPin).0)
  {
    var plan := hw.Plan(t);
    var h0 := hw.Marked(Begin(plan)).Asked();
    assert P(hw.Marked(Begin(plan))) && P(h0);
    StableArming(P, h0, plan, Arming(false, ArmNotNeeded));
    var (h, a) := Armed(h0, plan, Arming(false, ArmNotNeeded));
    StableWritten(P, h, plan, a, t, writes, true, pascal, hardPin);
    StableClocks(P, h, writes);
    var (h', ok) := BaselineWritten(h, writes);
    StableWritten(P, h', plan, a, t, writes, false, pascal, hardPin);
    StableArming(P, h', plan, a);
    var (h'', a') := Armed(h', plan, a);
    StableWritten(P, h'', plan, a', t, writes, true, pascal, hardPin);
  }

  lemma FaithfulIsStable()
    ensures Stable(h => Faithful(h))
  {
    forall h: Hw, c: Call | Faithful(h)
      ensures Faithful(h.Marked(c))
    {
      Extend(h.log, c, h.vfGlobal);
    }
  }

  /** An apply keeps the record and the monitor's reading of it together. */
  lemma ApplyIsFaithful(hw: Hw, t: Transition, writes: Writes, pascal: bool, hardPin: bool)
    requires Faithful(hw)
    ensures Faithful(Applied(hw, t, writes, pascal, hardPin).0)
  {
    FaithfulIsStable();
    Extend(hw.log, Begin(hw.Plan(t)), hw.vfGlobal);
    StableApply(h => Faithful(h), hw, t, writes, pascal, hardPin);
  }

  lemma ResetIsFaithful(hw: Hw, pascal: bool, hardPin: bool, lockBelieved: bool)
    requires Faithful(hw)
    ensures Faithful(ResetDone(hw, pascal, hardPin, lockBelieved).0)
  {
    FaithfulIsStable();
    Extend(hw.log, Reset(true), hw.vfGlobal);
    StableReset(h => Faithful(h), hw, pascal, hardPin, lockBelieved);
  }
}
