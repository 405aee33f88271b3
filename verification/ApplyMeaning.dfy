/** What an apply does, told from the request and the driver's answers alone. */
module ApplyMeaning {
  import opened Ceiling
  import opened Transitions
  import opened ApplyRun
  import opened ApplyScripts

  // ------------------------------------------------------------------ arming

  /** The request ends at a lock. */
  predicate Locks(t: Transition) {
    t.hasLock && (t.lockMode == Hard || t.lockMode == Flatten) && t.lockMHz > 0
  }

  /** The apply could raise a clock on its way: it ends at a lock, or its reset drops a cap or anything else
      that holds the clocks down. */
  predicate Raises(hw: Hw, t: Transition) {
    t.ownsClockDomain && (Locks(t) || (t.resetsToStock && (hw.capActive || t.outgoingHoldsDown)))
  }

  /** Some endpoint names the value to clamp at. */
  predicate NamesAValue(hw: Hw, t: Transition) {
    Locks(t) || (hw.capActive && hw.capMHz > 0) || t.outgoingCeilingMHz > 0
  }

  /** The first arming of an apply installs a clamp exactly when protection is needed, a value and the
      control for it exist, and the driver takes the open-ended form, or the symmetric one if the request
      has a lock. */
  lemma ArmedExactlyWhen(hw: Hw, t: Transition)
    ensures FirstArming(hw, t).1.armed <==>
        && Raises(hw, t) && NamesAValue(hw, t) && hw.setControl && hw.releaseControl
        && (hw.script(hw.asked + 1).ok || (Locks(t) && hw.script(hw.asked + 2).ok))
  {
    var o := Observed(t, hw.setControl && hw.releaseControl, hw.capActive, hw.capMHz);
    PlanIsHighestPermittedCeiling(o);
    PlanReasons(o);
    var h0 := hw.Marked(Begin(hw.Plan(t))).Asked();
    assert h0.Next() == hw.script(hw.asked + 1) && h0.Clamped(hw.Plan(t).ceilingMHz).Next() == hw.script(hw.asked + 2);
  }

  /** An apply that needs protection goes on without it exactly towards no pin, when the driver exports no
      clamp or answers "not supported" to every form the request permits. */
  lemma GoesOnUnprotectedExactlyWhen(hw: Hw, t: Transition)
    ensures
      var a := FirstArming(hw, t).1;
      Raises(hw, t) && !a.armed && !Refuses(hw.Plan(t), a) <==>
        && Raises(hw, t) && !(Locks(t) && t.lockMode == Hard)
        && (hw.setControl && hw.releaseControl ==>
              && NamesAValue(hw, t)
              && NotSupported(hw.script(hw.asked + 1)) && (Locks(t) ==> NotSupported(hw.script(hw.asked + 2))))
    ensures !Raises(hw, t) ==> !FirstArming(hw, t).1.armed && !Refuses(hw.Plan(t), FirstArming(hw, t).1)
  {
    var o := Observed(t, hw.setControl && hw.releaseControl, hw.capActive, hw.capMHz);
    PlanIsHighestPermittedCeiling(o);
    PlanReasons(o);
    var h0 := hw.Marked(Begin(hw.Plan(t))).Asked();
    assert h0.Next() == hw.script(hw.asked + 1) && h0.Clamped(hw.Plan(t).ceilingMHz).Next() == hw.script(hw.asked + 2);
  }

  predicate NotSupported(r: Reply) {
    !r.ok && r.notSupported
  }

  // -------------------------------------------------------- towards a hard lock

  /** The calls since index `n` belong to one apply with this plan. */
  ghost predicate InApply(log: seq<Call>, n: nat, plan: CeilingPlan) {
    n < |log| && log[n] == Begin(plan) && forall k :: n < k < |log| ==> !log[k].Begin? && !log[k].Reset?
  }

  lemma InApplyStays(n: nat, plan: CeilingPlan)
    ensures Stable((h: Hw) => InApply(h.log, n, plan))
  {
    forall h: Hw, c: Call | InApply(h.log, n, plan) && !c.Begin? && !c.Reset?
      ensures InApply(h.Marked(c).log, n, plan)
    {
      assert h.Marked(c).log == h.log + [c];
    }
  }

  lemma ApplyIsOneOperation(hw: Hw, t: Transition, writes: Writes, pascal: bool, hardPin: bool)
    ensures
      var h := Applied(hw, t, writes, pascal, hardPin).0;
      InApply(h.log, |hw.log|, hw.Plan(t)) && h.vfGlobal == hw.vfGlobal
  {
    InApplyStays(|hw.log|, hw.Plan(t));
    assert hw.Marked(Begin(hw.Plan(t))).log == hw.log + [Begin(hw.Plan(t))];
    StableApply((h: Hw) => InApply(h.log, |hw.log|, hw.Plan(t)), hw, t, writes, pascal, hardPin);
    ApplyKeepsTheBackend(hw, t, writes, pascal, hardPin);
  }

  lemma {:induction false} PlanIsSeen(log: seq<Call>, vfGlobal: bool, n: nat, plan: CeilingPlan)
    requires InApply(log, n, plan)
    ensures WatchAfter(log, vfGlobal).plan == plan
  {
    var front, c := log[..|log| - 1], log[|log| - 1];
    PlanAfter(WatchAfter(front, vfGlobal), c, vfGlobal);
    if n < |log| - 1 {
      assert InApply(front, n, plan);
      PlanIsSeen(front, vfGlobal, n, plan);
    }
  }

  lemma PlanAfter(w: Watch, c: Call, vfGlobal: bool)
    ensures !c.Reset? ==> w.After(c, vfGlobal).plan == if c.Begin? then c.plan else w.plan
  {
  }

  /** Whatever the driver answers, every clock an apply towards a hard lock writes is written under an
      installed cap at or below that lock. */
  lemma HardLockWritesAreCapped(hw: Hw, t: Transition, writes: Writes, pascal: bool, hardPin: bool, k: nat)
    requires Sound(hw) && Faithful(hw) && t.ownsClockDomain && t.hasLock && t.lockMode == Hard && t.lockMHz > 0
    requires
      var h := Applied(hw, t, writes, pascal, hardPin).0;
      |hw.log| < k < |h.log| && h.log[k].Write?
    ensures
      var w := WatchAfter(Applied(hw, t, writes, pascal, hardPin).0.log[..k], hw.vfGlobal);
      w.cap.Some? && w.cap.value <= t.lockMHz
  {
    var h := Applied(hw, t, writes, pascal, hardPin).0;
    ApplyKeepsTheRules(hw, t, writes, pascal, hardPin);
    ApplyIsFaithful(hw, t, writes, pascal, hardPin);
    ApplyIsOneOperation(hw, t, writes, pascal, hardPin);
    assert InApply(h.log[..k], |hw.log|, hw.Plan(t));
    PlanIsSeen(h.log[..k], hw.vfGlobal, |hw.log|, hw.Plan(t));
    WritesAreProtected(h.log, hw.vfGlobal, k);
    HardPlan(hw, t);
  }

  lemma HardPlan(hw: Hw, t: Transition)
    requires t.ownsClockDomain && t.hasLock && t.lockMode == Hard && t.lockMHz > 0
    ensures hw.Plan(t).required && hw.Plan(t).reason == RequestedLock && hw.Plan(t).ceilingMHz <= t.lockMHz
  {
    var o := Observed(t, hw.setControl && hw.releaseControl, hw.capActive, hw.capMHz);
    PlanReasons(o);
    PlanIsHighestPermittedCeiling(o);
  }

  /** Without the driver's clamp control such an apply is refused, or given up, before any write. */
  lemma HardLockNeedsClampControl(hw: Hw, t: Transition, writes: Writes, pascal: bool, hardPin: bool)
    requires t.ownsClockDomain && t.hasLock && t.lockMode == Hard && t.lockMHz > 0 && !(hw.setControl && hw.releaseControl)
    ensures
      var (h, e) := Applied(hw, t, writes, pascal, hardPin);
      e == (if hw.script(hw.asked).ok then Refusal else Abandoned) && !WroteSince(hw.log, h.log)
  {
    HardPlan(hw, t);
    PlanReasons(Observed(t, false, hw.capActive, hw.capMHz));
    PlanIsHighestPermittedCeiling(Observed(t, false, hw.capActive, hw.capMHz));
    assert !hw.Plan(t).arm && hw.Plan(t).clampControlAbsent;
    RefusalsAndWrites(hw, t, writes, pascal, hardPin);
  }

  // ------------------------------------------------------- what a finish wrote

  /** The clock writes of a record, in order: true for a curve batch, false for a core offset. */
  ghost function WritesIn(log: seq<Call>): seq<bool> {
    if log == [] then []
    else WritesIn(log[..|log| - 1]) + if log[|log| - 1].Write? then [log[|log| - 1].curve] else []
  }

  lemma {:induction false} OneMore(log: seq<Call>, c: Call)
    ensures WritesIn(log + [c]) == WritesIn(log) + if c.Write? then [c.curve] else []
  {
    assert (log + [c])[..|log|] == log;
  }

  function Batches(k: nat): seq<bool> {
    seq(k, _ => true)
  }

  /** `ws` was written, and then at most `most` further batches. */
  ghost predicate Adds(before: seq<Call>, after: seq<Call>, ws: seq<bool>, most: nat) {
    exists k: nat :: k <= most && WritesIn(after) == WritesIn(before) + ws + Batches(k)
  }

  lemma {:induction false} AddsExactly(before: seq<Call>, after: seq<Call>, ws: seq<bool>)
    ensures Adds(before, after, ws, 0) <==> WritesIn(after) == WritesIn(before) + ws
  {
    assert WritesIn(before) + ws + Batches(0) == WritesIn(before) + ws;
  }

  lemma AddsThenAdds(a: seq<Call>, b: seq<Call>, c: seq<Call>, ws: seq<bool>, more: seq<bool>, most: nat)
    requires Adds(a, b, ws, 0) && Adds(b, c, more, most)
    ensures Adds(a, c, ws + more, most)
  {
    AddsExactly(a, b, ws);
    var k: nat :| k <= most && WritesIn(c) == WritesIn(b) + more + Batches(k);
    assert WritesIn(c) == WritesIn(a) + (ws + more) + Batches(k);
  }

  lemma {:induction false} AddsThenNothing(a: seq<Call>, b: seq<Call>, c: seq<Call>, ws: seq<bool>, most: nat)
    requires Adds(a, b, ws, most) && WritesIn(c) == WritesIn(b)
    ensures Adds(a, c, ws, most)
  {
  }

  function OffsetIf(due: bool): seq<bool> {
    if due then [false] else []
  }

  function BatchIf(due: bool): seq<bool> {
    if due then [true] else []
  }

  lemma OffsetAdds(hw: Hw, due: bool)
    ensures Adds(hw.log, OffsetWritten(hw, due).0.log, OffsetIf(due), 0)
  {
    OneMore(hw.log, Write(false, hw.Next().ok));
    AddsExactly(hw.log, OffsetWritten(hw, due).0.log, OffsetIf(due));
  }

  lemma {:induction false} CorrectionAdds(hw: Hw, passes: nat, verified: bool)
    ensures Adds(hw.log, Corrected(hw, passes, verified).0.log, [], passes)
    decreases passes
  {
    if passes == 0 || verified || !hw.Next().ok {
      assert WritesIn(hw.log) == WritesIn(hw.log) + [] + Batches(0);
    } else {
      var h := hw.Asked();
      var w := h.Called(Write(true, h.Next().ok));
      OneMore(h.log, Write(true, h.Next().ok));
      CorrectionAdds(w, passes - 1, h.Next().ok);
      var end := Corrected(w, passes - 1, h.Next().ok).0;
      AddsOneMore(hw.log, w.log, end.log, passes - 1);
    }
  }

  lemma {:induction false} AddsOneMore(a: seq<Call>, b: seq<Call>, c: seq<Call>, most: nat)
    requires WritesIn(b) == WritesIn(a) + [true] && Adds(b, c, [], most)
    ensures Adds(a, c, [], most + 1)
  {
    var k: nat :| k <= most && WritesIn(c) == WritesIn(b) + [] + Batches(k);
    assert WritesIn(c) == WritesIn(a) + [] + Batches(k + 1);
  }

  lemma BatchAdds(hw: Hw, due: bool, passes: nat)
    ensures Adds(hw.log, CurveWritten(hw, due, passes).0.log, BatchIf(due), if due then passes else 0)
  {
    if due {
      var h := hw.Called(Write(true, hw.Next().ok));
      OneMore(hw.log, Write(true, hw.Next().ok));
      AddsExactly(hw.log, h.log, BatchIf(due));
      CorrectionAdds(h, passes, hw.Next().ok);
      AddsThenAdds(hw.log, h.log, Corrected(h, passes, hw.Next().ok).0.log, BatchIf(due), [], passes);
      assert BatchIf(due) + [] == BatchIf(due);
    } else {
      AddsExactly(hw.log, hw.log, BatchIf(due));
    }
  }

  lemma BaselineAdds(hw: Hw, writes: Writes)
    requires BaselineWritten(hw, writes).1
    ensures Adds(hw.log, BaselineWritten(hw, writes).0.log, OffsetIf(writes.baselineOffset) + BatchIf(true), 0)
  {
    var h := OffsetWritten(hw, writes.baselineOffset).0;
    OffsetAdds(hw, writes.baselineOffset);
    BatchAdds(h, true, 0);
    AddsThenAdds(hw.log, h.log, CurveWritten(h, true, 0).0.log, OffsetIf(writes.baselineOffset), BatchIf(true), 0);
  }

  /** The writes proper, as far as they are due: the new offset, the outgoing one cleared, the curve. */
  function DueWrites(writes: Writes): seq<bool> {
    OffsetIf(writes.offset) + (OffsetIf(writes.clearOffset) + BatchIf(writes.curve))
  }

  function DuePasses(writes: Writes): nat {
    if writes.curve then writes.passes else 0
  }

  lemma ClocksAdd(hw: Hw, writes: Writes)
    requires ClocksWritten(hw, writes).1
    ensures Adds(hw.log, ClocksWritten(hw, writes).0.log, DueWrites(writes), DuePasses(writes))
  {
    var h := OffsetWritten(hw, writes.offset).0;
    var h' := OffsetWritten(h, writes.clearOffset).0;
    var end := CurveWritten(h', writes.curve, writes.passes).0;
    OffsetAdds(hw, writes.offset);
    OffsetAdds(h, writes.clearOffset);
    BatchAdds(h', writes.curve, writes.passes);
    AddsThenAdds(h.log, h'.log, end.log, OffsetIf(writes.clearOffset), BatchIf(writes.curve), DuePasses(writes));
    AddsThenAdds(hw.log, h.log, end.log, OffsetIf(writes.offset), OffsetIf(writes.clearOffset) + BatchIf(writes.curve), DuePasses(writes));
  }

  lemma ArmingAdds(hw: Hw, plan: CeilingPlan, a: Arming)
    ensures WritesIn(Armed(hw, plan, a).0.log) == WritesIn(hw.log)
  {
    var h := hw.Clamped(plan.ceilingMHz);
    OneMore(hw.log, Lock(plan.ceilingMHz, hw.Next().ok, !hw.Next().ok && hw.Next().notSupported));
    OneMore(h.log, Lock(plan.ceilingMHz, h.Next().ok, !h.Next().ok && h.Next().notSupported));
  }

  lemma ClosingAdds(hw: Hw, plan: CeilingPlan, a: Arming, t: Transition, ok: bool, late: bool, pascal: bool, hardPin: bool)
    requires Closed(hw, plan, a, t, ok, late, pascal, hardPin).1 == Ending.Finished
    ensures ok && WritesIn(Closed(hw, plan, a, t, ok, late, pascal, hardPin).0.log) == WritesIn(hw.log)
  {
    LockStepAdds(hw, a, t, pascal, hardPin);
  }

  lemma LockStepAdds(hw: Hw, a: Arming, t: Transition, pascal: bool, hardPin: bool)
    ensures WritesIn(LockStepped(hw, a, t, pascal, hardPin).0.log) == WritesIn(hw.log)
  {
    OneMore(hw.log, Pin(t.lockMHz, hw.Next().ok));
    OneMore(hw.log, Unlock(hw.Next().ok));
  }

  lemma WrittenAdds(hw: Hw, plan: CeilingPlan, a: Arming, t: Transition, writes: Writes, begun: bool, pascal: bool, hardPin: bool)
    requires Written(hw, plan, a, t, writes, begun, pascal, hardPin).1 == Ending.Finished
    ensures begun && Adds(hw.log, Written(hw, plan, a, t, writes, begun, pascal, hardPin).0.log, DueWrites(writes), DuePasses(writes))
  {
    var (h, ok) := if begun then ClocksWritten(hw, writes) else (hw, false);
    ClosingAdds(h.Asked().Asked(), plan, a, t, ok && h.Next().ok, h.Asked().Next().ok, pascal, hardPin);
    ClocksAdd(hw, writes);
    AddsThenNothing(hw.log, h.log, Written(hw, plan, a, t, writes, begun, pascal, hardPin).0.log, DueWrites(writes), DuePasses(writes));
  }

  lemma FromBaselineAdds(hw: Hw, plan: CeilingPlan, a: Arming, t: Transition, writes: Writes, pascal: bool, hardPin: bool)
    requires FromBaseline(hw, plan, a, t, writes, pascal, hardPin).1 == Ending.Finished
    ensures Adds(hw.log, FromBaseline(hw, plan, a, t, writes, pascal, hardPin).0.log,
                 OffsetIf(writes.baselineOffset) + BatchIf(true) + DueWrites(writes), DuePasses(writes))
  {
    var (h, ok) := BaselineWritten(hw, writes);
    if !ok {
      WrittenAdds(h, plan, a, t, writes, false, pascal, hardPin);
    } else {
      var (h', a') := Armed(h, plan, a);
      BaselineAdds(hw, writes);
      ArmingAdds(h, plan, a);
      WrittenAdds(h', plan, a', t, writes, true, pascal, hardPin);
      var end := Written(h', plan, a', t, writes, true, pascal, hardPin).0;
      AddsThenNothing(hw.log, h.log, h'.log, OffsetIf(writes.baselineOffset) + BatchIf(true), 0);
      AddsThenAdds(hw.log, h'.log, end.log, OffsetIf(writes.baselineOffset) + BatchIf(true), DueWrites(writes), DuePasses(writes));
    }
  }

  /** An apply that finished wrote what was due and in this order: over a reset to stock the baseline's core
      offset and batch, then the new offset, the outgoing one cleared, and the curve, of which alone
      correction passes write more batches. */
  lemma FinishedWroteWhatWasDue(hw: Hw, t: Transition, writes: Writes, pascal: bool, hardPin: bool)
    requires Applied(hw, t, writes, pascal, hardPin).1 == Ending.Finished
    ensures
      var baseline := if t.resetsToStock then OffsetIf(writes.baselineOffset) + BatchIf(true) else [];
      Adds(hw.log, Applied(hw, t, writes, pascal, hardPin).0.log, baseline + DueWrites(writes), DuePasses(writes))
  {
    var plan := hw.Plan(t);
    var (h, a) := FirstArming(hw, t);
    OneMore(hw.log, Begin(plan));
    ArmingAdds(hw.Marked(Begin(plan)).Asked(), plan, Arming(false, ArmNotNeeded));
    AddsExactly(hw.log, h.log, []);
    var rest := if t.resetsToStock then OffsetIf(writes.baselineOffset) + BatchIf(true) + DueWrites(writes) else DueWrites(writes);
    if t.resetsToStock {
      FromBaselineAdds(h, plan, a, t, writes, pascal, hardPin);
    } else {
      WrittenAdds(h, plan, a, t, writes, true, pascal, hardPin);
      assert [] + DueWrites(writes) == DueWrites(writes);
    }
    AddsThenAdds(hw.log, h.log, Applied(hw, t, writes, pascal, hardPin).0.log, [], rest, DuePasses(writes));
    assert [] + rest == rest;
  }

  // ---------------------------------------------------- what a finish was told

  /** Every answer used between the two states was yes. */
  ghost predicate AllYes(before: Hw, after: Hw) {
    && after.script == before.script && before.asked <= after.asked
    && forall i: nat :: before.asked <= i < after.asked ==> before.script(i).ok
  }

  lemma YesOnceMore(before: Hw, mid: Hw, after: Hw)
    requires AllYes(before, mid) && AllYes(mid, after)
    ensures AllYes(before, after)
  {
  }

  lemma StepsWereYes(hw: Hw, offset: bool, curve: bool)
    ensures OffsetWritten(hw, offset).1 ==> AllYes(hw, OffsetWritten(hw, offset).0)
    ensures CurveWritten(hw, curve, 0).1 ==> AllYes(hw, CurveWritten(hw, curve, 0).0)
  {
  }

  lemma BaselineWasYes(hw: Hw, writes: Writes)
    requires BaselineWritten(hw, writes).1
    ensures AllYes(hw, BaselineWritten(hw, writes).0)
  {
    var h := OffsetWritten(hw, writes.baselineOffset).0;
    StepsWereYes(hw, writes.baselineOffset, true);
    StepsWereYes(h, false, true);
    YesOnceMore(hw, h, BaselineWritten(hw, writes).0);
  }

  lemma ClocksWereYes(hw: Hw, writes: Writes)
    requires ClocksWritten(hw, writes).1 && DuePasses(writes) == 0
    ensures AllYes(hw, ClocksWritten(hw, writes).0)
  {
    var h := OffsetWritten(hw, writes.offset).0;
    var h' := OffsetWritten(h, writes.clearOffset).0;
    StepsWereYes(hw, writes.offset, true);
    StepsWereYes(h, writes.clearOffset, true);
    StepsWereYes(h', false, writes.curve);
    YesOnceMore(h, h', ClocksWritten(hw, writes).0);
    YesOnceMore(hw, h, ClocksWritten(hw, writes).0);
  }

  lemma ClosingWasYes(hw: Hw, plan: CeilingPlan, a: Arming, t: Transition, ok: bool, late: bool, pascal: bool, hardPin: bool)
    requires Closed(hw, plan, a, t, ok, late, pascal, hardPin).1 == Ending.Finished
    ensures ok && late && AllYes(hw, Closed(hw, plan, a, t, ok, late, pascal, hardPin).0)
  {
    LockStepWasYes(hw, a, t, pascal, hardPin);
  }

  lemma LockStepWasYes(hw: Hw, a: Arming, t: Transition, pascal: bool, hardPin: bool)
    ensures LockStepped(hw, a, t, pascal, hardPin).2 ==> AllYes(hw, LockStepped(hw, a, t, pascal, hardPin).0)
  {
  }

  /** Behind its arming, an apply without correction passes finishes only if every answer it gets is yes, those
      about settings outside the clock domain included, of which there are at least two. */
  lemma FinishNeedsEveryYes(hw: Hw, plan: CeilingPlan, a: Arming, t: Transition, writes: Writes, begun: bool, pascal: bool, hardPin: bool)
    requires Written(hw, plan, a, t, writes, begun, pascal, hardPin).1 == Ending.Finished && DuePasses(writes) == 0
    ensures
      var end := Written(hw, plan, a, t, writes, begun, pascal, hardPin).0;
      AllYes(hw, end) && end.asked >= hw.asked + 2
  {
    var (h, ok) := if begun then ClocksWritten(hw, writes) else (hw, false);
    ClosingWasYes(h.Asked().Asked(), plan, a, t, ok && h.Next().ok, h.Asked().Next().ok, pascal, hardPin);
    ClocksWereYes(hw, writes);
    YesOnceMore(hw, h, h.Asked().Asked());
    YesOnceMore(hw, h.Asked().Asked(), Written(hw, plan, a, t, writes, begun, pascal, hardPin).0);
  }

  /** The same of a whole apply whose clamp stands, or that needs none: from its first arming on. */
  lemma ApplyNeedsEveryYes(hw: Hw, t: Transition, writes: Writes, pascal: bool, hardPin: bool)
    requires Applied(hw, t, writes, pascal, hardPin).1 == Ending.Finished && DuePasses(writes) == 0
    requires FirstArming(hw, t).1.armed || !Raises(hw, t)
    ensures hw.script(hw.asked).ok && AllYes(FirstArming(hw, t).0, Applied(hw, t, writes, pascal, hardPin).0)
  {
    var plan := hw.Plan(t);
    var (h, a) := FirstArming(hw, t);
    PlanIsHighestPermittedCeiling(Observed(t, hw.setControl && hw.releaseControl, hw.capActive, hw.capMHz));
    if t.resetsToStock {
      var (h', ok) := BaselineWritten(h, writes);
      if !ok {
        FinishNeedsEveryYes(h', plan, a, t, writes, false, pascal, hardPin);
        WrittenAdds(h', plan, a, t, writes, false, pascal, hardPin);
      } else {
        BaselineWasYes(h, writes);
        FinishNeedsEveryYes(h', plan, Armed(h', plan, a).1, t, writes, true, pascal, hardPin);
        YesOnceMore(h, h', Applied(hw, t, writes, pascal, hardPin).0);
      }
    } else {
      FinishNeedsEveryYes(h, plan, a, t, writes, true, pascal, hardPin);
    }
  }

  // ---------------------------------------------------------- correction passes

  /** The passes up to `k` were all allowed to start, and pass `k` verified. */
  predicate PassVerifies(hw: Hw, k: nat) {
    hw.script(hw.asked + 2 * k + 1).ok && forall j: nat :: j <= k ==> hw.script(hw.asked + 2 * j).ok
  }

  /** A batch that missed is saved by its correction exactly when one of the permitted passes verifies. */
  lemma {:induction false} CorrectionSucceedsExactlyWhen(hw: Hw, passes: nat)
    ensures Corrected(hw, passes, false).1 <==> exists k: nat :: k < passes && PassVerifies(hw, k)
    decreases passes
  {
    if passes > 0 {
      assert PassVerifies(hw, 0) <==> hw.script(hw.asked).ok && hw.script(hw.asked + 1).ok;
      if !hw.Next().ok {
        forall k: nat ensures !PassVerifies(hw, k) { assert !hw.script(hw.asked + 2 * 0).ok; }
      } else if !hw.Asked().Next().ok {
        var h := hw.Asked().Called(Write(true, false));
        CorrectionSucceedsExactlyWhen(h, passes - 1);
        forall k: nat ensures PassVerifies(h, k) <==> PassVerifies(hw, k + 1) { OnePassLater(hw, h, k); }
        if k: nat :| k < passes && PassVerifies(hw, k) {
          assert k > 0 && PassVerifies(h, k - 1);
        }
      }
    }
  }

  lemma OnePassLater(hw: Hw, h: Hw, k: nat)
    requires h.script == hw.script && h.asked == hw.asked + 2 && hw.script(hw.asked).ok
    ensures PassVerifies(h, k) <==> PassVerifies(hw, k + 1)
  {
    if PassVerifies(h, k) {
      forall j: nat | j <= k + 1 ensures hw.script(hw.asked + 2 * j).ok {
        if j > 0 { assert h.script(h.asked + 2 * (j - 1)).ok; }
      }
    }
    if PassVerifies(hw, k + 1) {
      forall j: nat | j <= k ensures h.script(h.asked + 2 * j).ok {
        assert hw.script(hw.asked + 2 * (j + 1)).ok;
      }
    }
  }

  // ----------------------------------------------------- a cooperative driver

  /** From here on every answer is yes. */
  ghost predicate Cooperates(hw: Hw) {
    forall i: nat :: i >= hw.asked ==> hw.script(i).ok
  }

  ghost predicate StillCooperates(before: Hw, after: Hw) {
    after.script == before.script && after.asked >= before.asked
  }

  lemma CooperativeWrites(hw: Hw, writes: Writes)
    requires Cooperates(hw)
    ensures BaselineWritten(hw, writes).1 && StillCooperates(hw, BaselineWritten(hw, writes).0)
    ensures ClocksWritten(hw, writes).1 && StillCooperates(hw, ClocksWritten(hw, writes).0)
  {
    CooperativeSteps(hw, writes.baselineOffset, true, 0);
    CooperativeSteps(OffsetWritten(hw, writes.baselineOffset).0, true, true, 0);
    CooperativeSteps(hw, writes.offset, true, 0);
    var h := OffsetWritten(hw, writes.offset).0;
    CooperativeSteps(h, writes.clearOffset, true, 0);
    CooperativeSteps(OffsetWritten(h, writes.clearOffset).0, true, writes.curve, writes.passes);
  }

  lemma CooperativeSteps(hw: Hw, offset: bool, curve: bool, passes: nat)
    requires Cooperates(hw)
    ensures OffsetWritten(hw, offset).1 && StillCooperates(hw, OffsetWritten(hw, offset).0)
    ensures CurveWritten(hw, curve, passes).1 && StillCooperates(hw, CurveWritten(hw, curve, passes).0)
  {
    assert hw.script(hw.asked).ok && hw.script(hw.asked + 1).ok;
  }

  /** With a driver that says yes to everything an apply finishes, unless no cap could be installed for it:
      it needs one and there is no value for it, or it asks for a pin and there is no control. */
  lemma CooperativeDriverFinishes(hw: Hw, t: Transition, writes: Writes, pascal: bool, hardPin: bool)
    requires Cooperates(hw)
    ensures
      var stopped := Raises(hw, t) && if hw.setControl && hw.releaseControl then !NamesAValue(hw, t) else Locks(t) && t.lockMode == Hard;
      Applied(hw, t, writes, pascal, hardPin).1 == if stopped then Refusal else Ending.Finished
  {
    var plan := hw.Plan(t);
    CooperativeArming(hw, t);
    var (h, a) := FirstArming(hw, t);
    if !Refuses(plan, a) {
      if t.resetsToStock {
        CooperativeWrites(h, writes);
        var h' := BaselineWritten(h, writes).0;
        CooperativeRearm(h', plan, a);
        var (h'', a') := Armed(h', plan, a);
        CooperativeClose(h'', plan, a', t, writes, pascal, hardPin);
      } else {
        CooperativeClose(h, plan, a, t, writes, pascal, hardPin);
      }
    }
  }

  lemma CooperativeArming(hw: Hw, t: Transition)
    requires Cooperates(hw)
    ensures
      var plan := hw.Plan(t);
      var (h, a) := FirstArming(hw, t);
      && hw.script(hw.asked).ok && StillCooperates(hw, h) && (!plan.arm ==> a.result == Unarmable(plan))
      && (Refuses(plan, a) <==>
            Raises(hw, t) && if hw.setControl && hw.releaseControl then !NamesAValue(hw, t) else Locks(t) && t.lockMode == Hard)
  {
    assert hw.script(hw.asked).ok && hw.script(hw.asked + 1).ok;
    ArmedExactlyWhen(hw, t);
    GoesOnUnprotectedExactlyWhen(hw, t);
    ArmedNeverRefuses(hw, t);
  }

  lemma ArmedNeverRefuses(hw: Hw, t: Transition)
    ensures FirstArming(hw, t).1.armed ==> !Refuses(hw.Plan(t), FirstArming(hw, t).1)
  {
  }

  lemma CooperativeRearm(hw: Hw, plan: CeilingPlan, a: Arming)
    requires Cooperates(hw) && !Refuses(plan, a) && (!plan.arm ==> a.armed || a.result == Unarmable(plan))
    ensures !Refuses(plan, Armed(hw, plan, a).1) && StillCooperates(hw, Armed(hw, plan, a).0)
  {
    assert hw.script(hw.asked).ok;
  }

  lemma CooperativeClose(hw: Hw, plan: CeilingPlan, a: Arming, t: Transition, writes: Writes, pascal: bool, hardPin: bool)
    requires Cooperates(hw)
    ensures Written(hw, plan, a, t, writes, true, pascal, hardPin).1 == Ending.Finished
  {
    CooperativeWrites(hw, writes);
    var h := ClocksWritten(hw, writes).0;
    assert h.script(h.asked).ok && h.script(h.asked + 1).ok && h.script(h.asked + 2).ok;
  }

  /** With such a driver a rollback proves stock and releases the cap; where there is nothing to release
      with, or provably nothing to release, it reports that without a call. */
  lemma CooperativeRollback(hw: Hw, pascal: bool, hardPin: bool)
    requires Cooperates(hw)
    ensures
      var (h, r) := RolledBack(hw, pascal, hardPin);
      && r.released && r.curve.verified && r.gpuOffset.verified
      && (hw.releaseControl && !(pascal && !hw.capActive && !hardPin) ==> h.log != [] && h.log[|h.log| - 1] == Unlock(true) && !h.capActive)
  {
    assert hw.script(hw.asked).ok && hw.script(hw.asked + 1).ok && hw.script(hw.asked + 2).ok && hw.script(hw.asked + 3).ok;
  }

  lemma CooperativeReset(hw: Hw, pascal: bool, hardPin: bool, lockBelieved: bool)
    requires Cooperates(hw)
    ensures
      var (h, r) := ResetDone(hw, pascal, hardPin, lockBelieved);
      && r.released && r.curve.verified && r.gpuOffset.verified
      && (hw.releaseControl && !(pascal && !hw.capActive && !hardPin) ==> h.log != [] && h.log[|h.log| - 1] == Unlock(true) && !h.capActive)
  {
    assert hw.script(hw.asked).ok && hw.script(hw.asked + 1).ok && hw.script(hw.asked + 2).ok && hw.script(hw.asked + 3).ok;
  }

  /** A recovery from any failure does the same, once its protection stands or none can be had. */
  lemma CooperativeRecovery(hw: Hw, plan: CeilingPlan, a: Arming, pascal: bool, hardPin: bool)
    requires Cooperates(hw) && (plan.required ==> plan.arm || (plan.clampControlAbsent && plan.reason != RequestedLock && plan.reason != NotNeeded))
    ensures
      var (h, e) := Recovered(hw, plan, a, pascal, hardPin);
      e.RecoveredTo? && e.r.released && e.r.curve.verified && e.r.gpuOffset.verified
  {
    assert hw.script(hw.asked).ok;
    var h0 := hw.Marked(Recover(true));
    var h := if plan.required then Armed(h0, plan, a.(armed := false)).0 else h0;
    CooperativeRollback(h, pascal, hardPin);
  }
}
