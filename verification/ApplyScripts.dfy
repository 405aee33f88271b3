/** Which answers of the driver lead to a refusal behind a write, and to the loss of a retained cap. */
module ApplyScripts {
  import opened Ceiling
  import opened Transitions
  import opened ApplyRun

  // ------------------------------------------------------------- clean refusals

  /** The two armings of one apply can disagree: only behind a reset to stock is there a second one, only
      a plan that can be armed asks the driver again, and only towards no pin did the first one let the
      apply go on without a clamp. */
  predicate CanRefuseAtStock(t: Transition, plan: CeilingPlan) {
    t.resetsToStock && plan.arm && plan.reason != RequestedLock
  }

  lemma PlanArmsOnlyWhatItRequires(hw: Hw, t: Transition)
    ensures hw.Plan(t).arm ==> hw.Plan(t).required && hw.Plan(t).reason != NotNeeded
  {
  }

  /** Armed, or armed with the same result, or asked again. */
  lemma SecondArming(hw: Hw, plan: CeilingPlan, again: Hw)
    requires plan.arm ==> plan.required
    ensures
      var a := Armed(hw, plan, Arming(false, ArmNotNeeded)).1;
      !Refuses(plan, a) && Refuses(plan, Armed(again, plan, a).1) ==> plan.arm && plan.reason != RequestedLock && !a.armed
  {
  }

  lemma WritingNeverRefuses(hw: Hw, plan: CeilingPlan, a: Arming, t: Transition, writes: Writes, begun: bool, pascal: bool, hardPin: bool)
    ensures var e := Written(hw, plan, a, t, writes, begun, pascal, hardPin).1; e != Refusal && e != RefusedAtStock
  {
  }

  /** The state behind the first arming. */
  function FirstArming(hw: Hw, t: Transition): (Hw, Arming) {
    Armed(hw.Marked(Begin(hw.Plan(t))).Asked(), hw.Plan(t), Arming(false, ArmNotNeeded))
  }

  /** Where the two refusals come from. */
  lemma RefusalsCome(hw: Hw, t: Transition, writes: Writes, pascal: bool, hardPin: bool)
    ensures
      var plan := hw.Plan(t);
      var (h, a) := FirstArming(hw, t);
      var (end, e) := Applied(hw, t, writes, pascal, hardPin);
      && (e == Refusal ==> end == h)
      && (e == RefusedAtStock ==>
            var (h', ok) := BaselineWritten(h, writes);
            t.resetsToStock && !Refuses(plan, a) && ok && Refuses(plan, Armed(h', plan, a).1) && end == Armed(h', plan, a).0)
  {
    var plan := hw.Plan(t);
    var (h, a) := FirstArming(hw, t);
    WritingNeverRefuses(h, plan, a, t, writes, true, pascal, hardPin);
    var h' := BaselineWritten(h, writes).0;
    WritingNeverRefuses(h', plan, a, t, writes, false, pascal, hardPin);
    var (h'', a') := Armed(h', plan, a);
    WritingNeverRefuses(h'', plan, a', t, writes, true, pascal, hardPin);
  }

  lemma RefusedAtStockNeeds(hw: Hw, t: Transition, writes: Writes, pascal: bool, hardPin: bool)
    ensures Applied(hw, t, writes, pascal, hardPin).1 == RefusedAtStock ==> CanRefuseAtStock(t, hw.Plan(t))
  {
    RefusalsCome(hw, t, writes, pascal, hardPin);
    PlanArmsOnlyWhatItRequires(hw, t);
    SecondArming(hw.Marked(Begin(hw.Plan(t))).Asked(), hw.Plan(t), BaselineWritten(FirstArming(hw, t).0, writes).0);
  }

  // ------------------------------------------- refusals behind a write, exactly

  /** The apply ends in a refusal although a clock was written. */
  ghost predicate RefusesAfterAWrite(hw: Hw, script: Script, t: Transition, writes: Writes, pascal: bool, hardPin: bool) {
    var (h, e) := Applied(hw.(script := script), t, writes, pascal, hardPin);
    (e == Refusal || e == RefusedAtStock) && WroteSince(hw.log, h.log)
  }

  ghost predicate WroteSince(before: seq<Call>, after: seq<Call>) {
    exists k :: |before| <= k < |after| && after[k].Write?
  }

  lemma ArmingOnlyClamps(hw: Hw, plan: CeilingPlan, a: Arming)
    ensures OnlyClamps(hw.log, Armed(hw, plan, a).0.log)
  {
  }

  lemma BaselineIsWritten(hw: Hw, writes: Writes)
    requires BaselineWritten(hw, writes).1
    ensures |hw.log| < |BaselineWritten(hw, writes).0.log| && WroteSince(hw.log, BaselineWritten(hw, writes).0.log)
  {
    var h := OffsetWritten(hw, writes.baselineOffset).0;
    assert BaselineWritten(hw, writes).0.log == h.log + [Write(true, h.Next().ok)];
    assert BaselineWritten(hw, writes).0.log[|h.log|].Write?;
  }

  lemma WroteBefore(a: seq<Call>, b: seq<Call>, c: seq<Call>, d: seq<Call>)
    requires |a| <= |b| && WroteSince(b, c) && |c| <= |d| && d[..|c|] == c
    ensures WroteSince(a, d)
  {
    var k :| |b| <= k < |c| && c[k].Write?;
    assert d[k] == d[..|c|][k];
  }

  /** A first refusal has written nothing, a second one always has. */
  lemma RefusalsAndWrites(hw: Hw, t: Transition, writes: Writes, pascal: bool, hardPin: bool)
    ensures
      var (h, e) := Applied(hw, t, writes, pascal, hardPin);
      (e == Refusal ==> !WroteSince(hw.log, h.log)) && (e == RefusedAtStock ==> WroteSince(hw.log, h.log))
  {
    var plan := hw.Plan(t);
    var h0 := hw.Marked(Begin(plan)).Asked();
    RefusalsCome(hw, t, writes, pascal, hardPin);
    ArmingOnlyClamps(h0, plan, Arming(false, ArmNotNeeded));
    var (h, a) := FirstArming(hw, t);
    FirstRefusalIsClean(hw.log, Begin(plan), h.log);
    if Applied(hw, t, writes, pascal, hardPin).1 == RefusedAtStock {
      var h' := BaselineWritten(h, writes).0;
      BaselineIsWritten(h, writes);
      ArmingOnlyClamps(h', plan, a);
      WroteBefore(hw.log, h.log, h'.log, Armed(h', plan, a).0.log);
    }
  }

  lemma FirstRefusalIsClean(before: seq<Call>, c: Call, after: seq<Call>)
    requires c.Begin? && OnlyClamps(before + [c], after)
    ensures !WroteSince(before, after)
  {
    assert after[|before|] == after[..|before| + 1][|before|] == c;
  }

  /** The driver that supports no clamp form at first, takes the baseline, and declines afterwards. */
  function Wavering(from: nat, forms: nat, writes: nat): Script {
    (i: nat) =>
      if i <= from then Reply(true, false)
      else if i <= from + forms then Reply(false, true)
      else if i <= from + forms + writes then Reply(true, false)
      else Reply(false, false)
  }

  lemma FormsUnsupported(hw: Hw, plan: CeilingPlan, forms: nat)
    requires plan.arm && plan.reason != RequestedLock && plan.reason != NotNeeded && forms == (if plan.symmetricFallbackAllowed then 2 else 1)
    requires forall i :: hw.asked <= i < hw.asked + forms ==> hw.script(i) == Reply(false, true)
    ensures
      var (h, a) := Armed(hw, plan, Arming(false, ArmNotNeeded));
      a == Arming(false, Unsupported) && !Refuses(plan, a) && h.asked == hw.asked + forms && h.script == hw.script
  {
    assert hw.Next() == Reply(false, true);
    assert hw.Clamped(plan.ceilingMHz).Next() == hw.script(hw.asked + 1);
  }

  lemma FormsDeclined(hw: Hw, plan: CeilingPlan)
    requires plan.arm && plan.required
    requires forall i :: hw.asked <= i ==> hw.script(i) == Reply(false, false)
    ensures Refuses(plan, Armed(hw, plan, Arming(false, Unsupported)).1)
  {
    assert hw.Next() == Reply(false, false);
    assert hw.Clamped(plan.ceilingMHz).Next() == hw.script(hw.asked + 1);
  }

  lemma BaselineTaken(hw: Hw, writes: Writes, n: nat)
    requires n == (if writes.baselineOffset then 3 else 2)
    requires forall i :: hw.asked <= i < hw.asked + n ==> hw.script(i) == Reply(true, false)
    ensures var (h, ok) := BaselineWritten(hw, writes); ok && h.asked == hw.asked + n && h.script == hw.script
  {
    assert hw.Next().ok && hw.script(hw.asked + 1).ok;
    var h := OffsetWritten(hw, writes.baselineOffset).0;
    assert h.Next() == hw.script(h.asked) && h.Next().ok;
    assert h.Called(Write(true, true)).Next() == hw.script(h.asked + 1);
  }

  lemma WaveringRefusesAtStock(hw: Hw, t: Transition, writes: Writes, pascal: bool, hardPin: bool, forms: nat, n: nat)
    requires CanRefuseAtStock(t, hw.Plan(t)) && forms == (if hw.Plan(t).symmetricFallbackAllowed then 2 else 1)
    requires n == (if writes.baselineOffset then 3 else 2) && hw.script == Wavering(hw.asked, forms, n)
    ensures Applied(hw, t, writes, pascal, hardPin).1 == RefusedAtStock
  {
    var plan := hw.Plan(t);
    PlanArmsOnlyWhatItRequires(hw, t);
    var h0 := hw.Marked(Begin(plan)).Asked();
    FormsUnsupported(h0, plan, forms);
    var h := Armed(h0, plan, Arming(false, ArmNotNeeded)).0;
    BaselineTaken(h, writes, n);
    FormsDeclined(BaselineWritten(h, writes).0, plan);
  }

  /** Some answers of the driver make the apply refuse behind a write if and only if it resets to stock,
      can be armed and asks for no pin. */
  lemma RefusesAfterAWriteExactlyWhen(hw: Hw, t: Transition, writes: Writes, pascal: bool, hardPin: bool)
    ensures (exists script: Script :: RefusesAfterAWrite(hw, script, t, writes, pascal, hardPin))
       <==> CanRefuseAtStock(t, hw.Plan(t))
  {
    if script: Script :| RefusesAfterAWrite(hw, script, t, writes, pascal, hardPin) {
      RefusalsAndWrites(hw.(script := script), t, writes, pascal, hardPin);
      RefusedAtStockNeeds(hw.(script := script), t, writes, pascal, hardPin);
    }
    if CanRefuseAtStock(t, hw.Plan(t)) {
      var forms, n := if hw.Plan(t).symmetricFallbackAllowed then 2 else 1, if writes.baselineOffset then 3 else 2;
      var script := Wavering(hw.asked, forms, n);
      WaveringRefusesAtStock(hw.(script := script), t, writes, pascal, hardPin, forms, n);
      RefusalsAndWrites(hw.(script := script), t, writes, pascal, hardPin);
      assert RefusesAfterAWrite(hw, script, t, writes, pascal, hardPin);
    }
  }

  /** The record of such an apply without a core offset to reset. */
  lemma RefusedRecord(hw: Hw, t: Transition, writes: Writes, plan: CeilingPlan)
    requires plan == hw.Plan(t) && plan == CeilingPlan(true, 1500, false, true, false, false, ResetDropsCap)
    requires t.resetsToStock && !writes.baselineOffset && hw.script == Wavering(hw.asked, 1, 2)
    ensures
      var (h, e) := Applied(hw, t, writes, false, false);
      && e == RefusedAtStock
      && h.log == hw.log + [Begin(plan)] + [Lock(1500, false, true)] + [Write(true, true)] + [Lock(1500, false, false)]
  {
    var h0 := hw.Marked(Begin(plan)).Asked();
    var h1 := h0.Clamped(1500);
    assert Armed(h0, plan, Arming(false, ArmNotNeeded)) == (h1, Arming(false, Unsupported));
    var h2 := h1.Called(Write(true, true)).Asked();
    assert BaselineWritten(h1, writes) == (h2, true);
    assert Armed(h2, plan, Arming(false, Unsupported)) == (h2.Clamped(1500), Arming(false, Refused));
  }

  /** One such apply: the outgoing profile held the clocks below 1500 MHz, the driver does not support the
      clamp at first and declines it after the reset. `RefusedRecord` is its record. */
  lemma RefusedBehindTheBaseline(t: Transition, writes: Writes, hw: Hw)
    requires t == Transition(true, false, NoLock, 0, true, true, true, 1500) && writes == Writes(false, false, false, true, 0)
    requires hw == Fresh(true, true, true, Wavering(0, 1, 2))
    ensures
      var (h, e) := Applied(hw, t, writes, false, false);
      e == RefusedAtStock && Obeyed(h.log, true) && WroteSince(hw.log, h.log)
    ensures hw.Plan(t) == CeilingPlan(true, 1500, false, true, false, false, ResetDropsCap)
  {
    WaveringRefusesAtStock(hw, t, writes, false, false, 1, 2);
    RefusalsAndWrites(hw, t, writes, false, false);
    FreshApplyIsObeyed(hw, t, writes);
  }

  lemma FreshApplyIsObeyed(hw: Hw, t: Transition, writes: Writes)
    requires hw == Fresh(true, true, true, hw.script)
    ensures Obeyed(Applied(hw, t, writes, false, false).0.log, true)
  {
    ApplyKeepsTheRules(hw, t, writes, false, false);
    ApplyIsFaithful(hw, t, writes, false, false);
    ApplyKeepsTheBackend(hw, t, writes, false, false);
  }

  lemma ApplyKeepsTheBackend(hw: Hw, t: Transition, writes: Writes, pascal: bool, hardPin: bool)
    ensures Applied(hw, t, writes, pascal, hardPin).0.vfGlobal == hw.vfGlobal
  {
    StableApply((h: Hw) => h.vfGlobal == hw.vfGlobal, hw, t, writes, pascal, hardPin);
  }

  // ------------------------------------------------------------- retained caps

  /** Whatever the cap was kept for, an apply that owns the clock domain, asks for no lock, resets nothing
      and has no clock to write plans no protection and, if the driver agrees, releases it. */
  lemma UnlockedApplyReleases(hw: Hw, t: Transition, writes: Writes, hardPin: bool)
    requires t.ownsClockDomain && !t.hasLock && !t.resetsToStock && !writes.offset && !writes.clearOffset && !writes.curve
    requires hw.releaseControl && forall i :: hw.asked <= i < hw.asked + 4 ==> hw.script(i).ok
    ensures hw.Plan(t) == NO_PLAN
    ensures
      var (h, e) := Applied(hw, t, writes, false, hardPin);
      e == Ending.Finished && h.log == hw.log + [Begin(NO_PLAN)] + [Unlock(true)] && !h.capActive
  {
    var h0 := hw.Marked(Begin(NO_PLAN)).Asked();
    assert hw.script(hw.asked).ok && hw.script(hw.asked + 1).ok && hw.script(hw.asked + 2).ok && hw.script(hw.asked + 3).ok;
    assert ClocksWritten(h0, writes) == (h0, true);
    var h := h0.Asked().Asked();
    assert LockStepped(h, Arming(false, ArmNotNeeded), t, false, hardPin).0 == h.Released();
  }

  /** So a retained cap goes there whatever it was kept for, and what is vouched for then is what was
      vouched for before. */
  lemma UnlockedApplyLiftsTheCap(hw: Hw, t: Transition, writes: Writes, hardPin: bool)
    requires Sound(hw) && Faithful(hw) && hw.now.transition
    requires t.ownsClockDomain && !t.hasLock && !t.resetsToStock && !writes.offset && !writes.clearOffset && !writes.curve
    requires forall i :: hw.asked <= i < hw.asked + 4 ==> hw.script(i).ok
    ensures
      var (h, e) := Applied(hw, t, writes, false, hardPin);
      var n := |hw.log| + 1;
      && e == Ending.Finished && Obeyed(h.log, hw.vfGlobal) && n < |h.log| && CapGoesAt(h.log, hw.vfGlobal, n)
      && forall curve :: Vouched(h.log[..n], curve) == Vouched(hw.log, curve)
  {
    UnlockedApplyReleases(hw, t, writes, hardPin);
    ApplyKeepsTheRules(hw, t, writes, false, hardPin);
    ApplyIsFaithful(hw, t, writes, false, hardPin);
    ReleasedRecord(hw, Applied(hw, t, writes, false, hardPin).0.log);
  }

  lemma ReleasedRecord(hw: Hw, log: seq<Call>)
    requires Faithful(hw) && hw.now.transition && hw.now.cap.Some? && log == hw.log + [Begin(NO_PLAN)] + [Unlock(true)]
    ensures CapGoesAt(log, hw.vfGlobal, |hw.log| + 1)
    ensures forall curve :: Vouched(log[..|hw.log| + 1], curve) == Vouched(hw.log, curve)
  {
    var front := hw.log + [Begin(NO_PLAN)];
    assert log[..|hw.log| + 1] == front && front[..|hw.log|] == hw.log;
    Extend(hw.log, Begin(NO_PLAN), hw.vfGlobal);
  }

  /** Every answer is yes, but for the curve write and its reset to stock. */
  function Stubborn(): Script {
    (i: nat) => Reply(i != 2 && i != 7, false)
  }

  /** The curve write of a flatten to 1500 MHz does not verify. */
  function MissedWrite(hw: Hw, plan: CeilingPlan): Hw {
    hw.Marked(Begin(plan)).Asked().Clamped(1500).Called(Write(true, false)).Asked().Asked().Asked()
  }

  lemma WriteIsMissed(before: Transition, writes: Writes, hw: Hw)
    requires before == Transition(true, true, Flatten, 1500, true, false, false, 0) && writes == Writes(false, false, false, true, 0)
    requires hw == Fresh(true, true, true, Stubborn())
    ensures hw.Plan(before) == CeilingPlan(true, 1500, false, true, true, false, RequestedFlatten)
    ensures Applied(hw, before, writes, false, false)
         == Recovered(MissedWrite(hw, hw.Plan(before)), hw.Plan(before), Arming(true, Installed), false, false)
  {
    var plan := hw.Plan(before);
    var h0 := hw.Marked(Begin(plan)).Asked();
    var h1 := h0.Clamped(1500);
    assert Armed(h0, plan, Arming(false, ArmNotNeeded)) == (h1, Arming(true, Installed));
    assert ClocksWritten(h1, writes) == (h1.Called(Write(true, false)).Asked(), false);
  }

  lemma CapIsRetained(hw: Hw, plan: CeilingPlan)
    requires plan == CeilingPlan(true, 1500, false, true, true, false, RequestedFlatten)
    requires hw.vfGlobal && hw.script == Stubborn() && hw.asked == 6
    ensures
      var (h, e) := Recovered(hw, plan, Arming(true, Installed), false, false);
      && e == RecoveredTo(Recovery(Domain(true, false), Domain(false, true), false)) && h.asked == 8 && h.script == hw.script
      && h.vfGlobal && h.log == hw.log + [Recover(true)] + [Lock(1500, true, false)] + [CurveReset(false)] && h.now.transition
  {
    var h0 := hw.Marked(Recover(true));
    assert Armed(h0, plan, Arming(false, Installed)) == (h0.Clamped(1500), Arming(true, Installed));
    var h := h0.Clamped(1500);
    assert StockReset(h, true) == (h.Called(CurveReset(false)), Recovery(Domain(true, false), Domain(false, true), false));
  }

  /** A recovery keeps the cap because the curve would not return to stock, and the next apply, which
      finds no clock to write, releases it: the curve's last write is unverified when the cap goes. */
  lemma RetainedCapCanBeLifted(before: Transition, t: Transition, curve: Writes, none: Writes, hw: Hw)
    requires before == Transition(true, true, Flatten, 1500, true, false, false, 0) && curve == Writes(false, false, false, true, 0)
    requires t.ownsClockDomain && !t.hasLock && !t.resetsToStock && none == Writes(false, false, false, false, 0)
    requires hw == Fresh(true, true, true, Stubborn())
    ensures
      var (h, kept) := Applied(hw, before, curve, false, false);
      var (h', e) := Applied(h, t, none, false, false);
      var n := |h.log| + 1;
      && kept.RecoveredTo? && !kept.r.released && h.now.transition && e == Ending.Finished
      && Obeyed(h'.log, true) && n < |h'.log| && CapGoesAt(h'.log, true, n) && !Vouched(h'.log[..n], true)
  {
    FirstApplyKeepsTheCap(before, curve, hw);
    UnlockedApplyLiftsTheCap(Applied(hw, before, curve, false, false).0, t, none, false);
  }

  lemma FirstApplyKeepsTheCap(before: Transition, curve: Writes, hw: Hw)
    requires before == Transition(true, true, Flatten, 1500, true, false, false, 0) && curve == Writes(false, false, false, true, 0)
    requires hw == Fresh(true, true, true, Stubborn())
    ensures
      var (h, kept) := Applied(hw, before, curve, false, false);
      && kept.RecoveredTo? && !kept.r.released && h.now.transition && Sound(h) && Faithful(h)
      && h.asked == 8 && h.script == Stubborn() && h.vfGlobal && !Vouched(h.log, true)
  {
    WriteIsMissed(before, curve, hw);
    CapIsRetained(MissedWrite(hw, hw.Plan(before)), hw.Plan(before));
    LastCurveWriteFailed(MissedWrite(hw, hw.Plan(before)).log + [Recover(true)] + [Lock(1500, true, false)]);
    ApplyKeepsTheRules(hw, before, curve, false, false);
    ApplyIsFaithful(hw, before, curve, false, false);
  }

  lemma LastCurveWriteFailed(log: seq<Call>)
    ensures !Vouched(log + [CurveReset(false)], true)
  {
    assert LastIn(log + [CurveReset(false)], true) == |log|;
  }
}
