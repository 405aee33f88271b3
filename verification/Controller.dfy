/**
 The auto-profile controller: debounce, cooldown, exponential failure backoff and manual pins.
 `Ctrl` is the controller's state as a value, with its transitions as functions; the class
 `AutoProfileController` is the mutable object whose methods are proved against them.
 */
module Controller {
  import opened Ints
  import opened Slots

  const DEFAULT_DEBOUNCE_MS: I32 := 800
  const DEFAULT_MIN_INTERVAL_MS: I32 := 4000
  const BACKOFF_MAX_MS := 300000
  const MAX_COUNTED_FAILURES := 30

  datatype Config = Config(enabled: bool, defaultSlot: int, debounceMs: I32, minIntervalMs: I32)

  datatype Action = NoAction | Arm(delayMs: I32) | Apply(slot: int) | ResumeAuto

  function ArmFor(delayMs: I32): Action {
    Arm(if delayMs > 0 then delayMs else 1)
  }

  /** A C cast of a 64-bit value to `int`. */
  function WrapI32(v: int): (w: I32)
    ensures INT_MIN <= v <= INT_MAX ==> w == v
  {
    (v + 0x8000_0000) % 0x1_0000_0000 - 0x8000_0000
  }

  function Pow2(n: nat): (p: nat)
    ensures p >= 1
  {
    if n == 0 then 1 else 2 * Pow2(n - 1)
  }

  datatype Ctrl = Ctrl(
    autoEnabled: bool, manual: bool, pinnedSlot: int, appliedSlot: int, pendingTarget: int, lastApplyMs: int,
    failedSlot: int, failures: nat, retryNotBeforeMs: int, debounceMs: I32, minIntervalMs: I32, defaultSlot: int)
  {
    predicate Driving(suppressed: bool) {
      autoEnabled && !manual && !suppressed
    }

    function BackoffRemaining(slot: int, now: int): (ms: nat) {
      if failedSlot == 0 || slot != failedSlot then 0
      else Max(0, retryNotBeforeMs - now)
    }

    function ClearFailure(): Ctrl {
      this.(failedSlot := 0, failures := 0, retryNotBeforeMs := 0)
    }

    function EffectiveInterval(): (ms: nat)
      ensures ms > 0
    {
      if minIntervalMs > 0 then minIntervalMs else DEFAULT_MIN_INTERVAL_MS
    }

    function Failed(slot: int, now: int): Ctrl {
      if !ValidSlot(slot) then this
      else
        var n := if failedSlot != slot then 1 else if failures < MAX_COUNTED_FAILURES then failures + 1 else failures;
        this.(failedSlot := slot, failures := n, retryNotBeforeMs := now + Wait(EffectiveInterval(), Max(n, 1)),
              lastApplyMs := now, pendingTarget := 0)
    }

    function Applied(slot: int, now: int): Ctrl {
      this.(appliedSlot := slot, lastApplyMs := now, pendingTarget := 0).ClearFailure()
    }

    function Resolved(target: int, now: int, suppressed: bool): (Ctrl, Action) {
      if !Driving(suppressed) || !ValidSlot(target) then (this, NoAction)
      else if target == appliedSlot then (this.(pendingTarget := 0), NoAction)
      else
        var backoff := BackoffRemaining(target, now);
        (this.(pendingTarget := target), if backoff > debounceMs then ArmFor(Min(backoff, INT_MAX)) else ArmFor(debounceMs))
    }

    function Fired(target: int, now: int, suppressed: bool): (Ctrl, Action) {
      var idle := this.(pendingTarget := 0);
      if !Driving(suppressed) || !ValidSlot(target) || target == appliedSlot then (idle, NoAction)
      else if now - lastApplyMs < minIntervalMs then
        (this.(pendingTarget := target), ArmFor(WrapI32(minIntervalMs - (now - lastApplyMs))))
      else if BackoffRemaining(target, now) > 0 then
        (this.(pendingTarget := target), ArmFor(Min(BackoffRemaining(target, now), INT_MAX)))
      else (idle, Apply(target))
    }

    function Hotkey(slot: int): (Ctrl, Action) {
      if !ValidSlot(slot) then (this, NoAction)
      else
        var c := ClearFailure().(pendingTarget := 0);
        if !autoEnabled then (c.(manual := false, pinnedSlot := 0), Apply(slot))
        else if manual && pinnedSlot == slot then (c.(manual := false, pinnedSlot := 0), ResumeAuto)
        else (c.(manual := true, pinnedSlot := slot), Apply(slot))
    }

    function ManualCustom(): Ctrl {
      this.(manual := true, pinnedSlot := 0, pendingTarget := 0)
    }

    function SetEnabled(enabled: bool): (Ctrl, Action) {
      var c := ClearFailure().(autoEnabled := enabled, manual := false, pinnedSlot := 0, pendingTarget := 0);
      if enabled then (c, ResumeAuto)
      else if ValidSlot(defaultSlot) && defaultSlot != appliedSlot then (c, Apply(defaultSlot))
      else (c, NoAction)
    }

    function SyncConfig(cfg: Config): Ctrl {
      this.(autoEnabled := cfg.enabled,
            debounceMs := if cfg.debounceMs > 0 then cfg.debounceMs else DEFAULT_DEBOUNCE_MS,
            minIntervalMs := if cfg.minIntervalMs > 0 then cfg.minIntervalMs else DEFAULT_MIN_INTERVAL_MS,
            defaultSlot := if ValidSlot(cfg.defaultSlot) then cfg.defaultSlot else DEFAULT_SLOT)
    }

    function ConfigChange(cfg: Config): (Ctrl, Action) {
      var c := SyncConfig(cfg).ClearFailure();
      if cfg.enabled == autoEnabled then (c, NoAction) else c.SetEnabled(cfg.enabled)
    }
  }

  function InitialCtrl(cfg: Config): Ctrl {
    Ctrl(false, false, 0, 0, 0, -1000000, 0, 0, 0, DEFAULT_DEBOUNCE_MS, DEFAULT_MIN_INTERVAL_MS, DEFAULT_SLOT).SyncConfig(cfg)
  }

  /** The wait after the k-th consecutive failure: it doubles up to the cap. */
  function Wait(intervalMs: nat, k: nat): (ms: nat)
    requires k > 0
    ensures ms <= BACKOFF_MAX_MS && (intervalMs > 0 ==> ms > 0)
  {
    Min(BACKOFF_MAX_MS, if k == 1 then intervalMs else 2 * Wait(intervalMs, k - 1))
  }

  /** The mutable controller. */
  class AutoProfileController {
    var autoEnabled: bool
    var manual: bool
    var pinnedSlot: int
    var appliedSlot: int
    var pendingTarget: int
    var lastApplyMs: int
    var failedSlot: int
    var consecutiveFailures: nat
    var retryNotBeforeMs: int
    var debounceMs: I32
    var minIntervalMs: I32
    var defaultSlot: int

    ghost function Value(): Ctrl
      reads this
    {
      Ctrl(autoEnabled, manual, pinnedSlot, appliedSlot, pendingTarget, lastApplyMs,
           failedSlot, consecutiveFailures, retryNotBeforeMs, debounceMs, minIntervalMs, defaultSlot)
    }

    constructor (cfg: Config)
      ensures Value() == InitialCtrl(cfg)
    {
      manual, pinnedSlot, appliedSlot, pendingTarget := false, 0, 0, 0;
      lastApplyMs := -1000000;
      failedSlot, consecutiveFailures, retryNotBeforeMs := 0, 0, 0;
      autoEnabled := false;
      debounceMs, minIntervalMs, defaultSlot := DEFAULT_DEBOUNCE_MS, DEFAULT_MIN_INTERVAL_MS, DEFAULT_SLOT;
      new;
      SyncConfig(cfg);
    }

    method SyncConfig(cfg: Config)
      modifies this
      ensures Value() == old(Value()).SyncConfig(cfg)
    {
      autoEnabled := cfg.enabled;
      debounceMs := if cfg.debounceMs > 0 then cfg.debounceMs else DEFAULT_DEBOUNCE_MS;
      minIntervalMs := if cfg.minIntervalMs > 0 then cfg.minIntervalMs else DEFAULT_MIN_INTERVAL_MS;
      defaultSlot := if ValidSlot(cfg.defaultSlot) then cfg.defaultSlot else DEFAULT_SLOT;
    }

    method ClearFailure()
      modifies this
      ensures Value() == old(Value()).ClearFailure()
    {
      failedSlot, consecutiveFailures, retryNotBeforeMs := 0, 0, 0;
    }

    method OnApplyFailed(slot: int, now: int)
      modifies this
      ensures Value() == old(Value()).Failed(slot, now)
    {
      if !ValidSlot(slot) { return; }
      if failedSlot == slot {
        if consecutiveFailures < MAX_COUNTED_FAILURES { consecutiveFailures := consecutiveFailures + 1; }
      } else {
        failedSlot := slot;
        consecutiveFailures := 1;
      }
      var interval: nat := if minIntervalMs > 0 then minIntervalMs else DEFAULT_MIN_INTERVAL_MS;
      var delay := BackoffDelay(interval, consecutiveFailures);
      retryNotBeforeMs := now + delay;
      lastApplyMs := now;
      pendingTarget := 0;
    }

    /** The doubling loop: it stops early once the cap is reached. */
    static method BackoffDelay(intervalMs: nat, failures: nat) returns (delay: nat)
      requires intervalMs > 0
      ensures delay == Wait(intervalMs, Max(failures, 1))
    {
      delay := intervalMs;
      var i := 1;
      while i < failures && delay < BACKOFF_MAX_MS
        invariant 1 <= i <= Max(failures, 1)
        invariant Min(delay, BACKOFF_MAX_MS) == Wait(intervalMs, i)
      {
        delay := delay * 2;
        i := i + 1;
      }
      if i < Max(failures, 1) { WaitStaysAtCap(intervalMs, i, Max(failures, 1)); }
      if delay > BACKOFF_MAX_MS { delay := BACKOFF_MAX_MS; }
    }

    method OnApplied(slot: int, now: int)
      modifies this
      ensures Value() == old(Value()).Applied(slot, now)
    {
      appliedSlot, lastApplyMs, pendingTarget := slot, now, 0;
      ClearFailure();
    }

    method OnTargetResolved(target: int, now: int, suppressed: bool) returns (a: Action)
      modifies this
      ensures (Value(), a) == old(Value()).Resolved(target, now, suppressed)
    {
      if !(autoEnabled && !manual && !suppressed) { return NoAction; }
      if !ValidSlot(target) { return NoAction; }
      if target == appliedSlot {
        pendingTarget := 0;
        return NoAction;
      }
      pendingTarget := target;
      var backoff := BackoffRemaining(target, now);
      if backoff > debounceMs {
        return ArmFor(Min(backoff, INT_MAX));
      }
      return ArmFor(debounceMs);
    }

    method BackoffRemaining(slot: int, now: int) returns (ms: nat)
      ensures ms == Value().BackoffRemaining(slot, now)
    {
      if failedSlot == 0 || slot != failedSlot { return 0; }
      var remaining := retryNotBeforeMs - now;
      return if remaining > 0 then remaining else 0;
    }

    method OnDebounceFire(target: int, now: int, suppressed: bool) returns (a: Action)
      modifies this
      ensures (Value(), a) == old(Value()).Fired(target, now, suppressed)
    {
      if !(autoEnabled && !manual && !suppressed) || !ValidSlot(target) || target == appliedSlot {
        pendingTarget := 0;
        return NoAction;
      }
      var sinceApply := now - lastApplyMs;
      if sinceApply < minIntervalMs {
        pendingTarget := target;
        return ArmFor(WrapI32(minIntervalMs - sinceApply));
      }
      var backoff := BackoffRemaining(target, now);
      if backoff > 0 {
        pendingTarget := target;
        return ArmFor(Min(backoff, INT_MAX));
      }
      pendingTarget := 0;
      return Apply(target);
    }

    method OnHotkey(slot: int) returns (a: Action)
      modifies this
      ensures (Value(), a) == old(Value()).Hotkey(slot)
    {
      if !ValidSlot(slot) { return NoAction; }
      ClearFailure();
      if !autoEnabled {
        manual, pinnedSlot, pendingTarget := false, 0, 0;
        return Apply(slot);
      }
      if manual && pinnedSlot == slot {
        manual, pinnedSlot, pendingTarget := false, 0, 0;
        return ResumeAuto;
      }
      manual, pinnedSlot, pendingTarget := true, slot, 0;
      return Apply(slot);
    }

    method EnterManualCustom()
      modifies this
      ensures Value() == old(Value()).ManualCustom()
    {
      manual, pinnedSlot, pendingTarget := true, 0, 0;
    }

    method SetEnabled(enabled: bool) returns (a: Action)
      modifies this
      ensures (Value(), a) == old(Value()).SetEnabled(enabled)
    {
      autoEnabled := enabled;
      ClearFailure();
      manual, pinnedSlot, pendingTarget := false, 0, 0;
      if enabled { return ResumeAuto; }
      if ValidSlot(defaultSlot) && defaultSlot != appliedSlot { return Apply(defaultSlot); }
      return NoAction;
    }

    method ApplyConfigChange(cfg: Config) returns (a: Action)
      modifies this
      ensures (Value(), a) == old(Value()).ConfigChange(cfg)
    {
      var wasEnabled := autoEnabled;
      SyncConfig(cfg);
      ClearFailure();
      if cfg.enabled == wasEnabled { return NoAction; }
      a := SetEnabled(cfg.enabled);
    }
  }

  lemma {:induction false} WaitMonotone(interval: nat, a: nat, b: nat)
    requires 0 < a <= b
    ensures Wait(interval, a) <= Wait(interval, b)
  {
    if a < b { WaitMonotone(interval, a, b - 1); }
  }

  lemma {:induction false} WaitStaysAtCap(interval: nat, a: nat, b: nat)
    requires 0 < a <= b && Wait(interval, a) == BACKOFF_MAX_MS
    ensures Wait(interval, b) == BACKOFF_MAX_MS
  {
    WaitMonotone(interval, a, b);
  }

  /** The closed form: minInterval * 2^(k-1), capped at five minutes. */
  lemma {:induction false} WaitIsCappedDoubling(interval: nat, k: nat)
    requires k > 0
    ensures Wait(interval, k) == Min(BACKOFF_MAX_MS, interval * Pow2(k - 1))
  {
    if k > 1 {
      WaitIsCappedDoubling(interval, k - 1);
      assert interval * Pow2(k - 1) == 2 * (interval * Pow2(k - 2));
    }
  }

  /** Nineteen doublings of any positive interval reach the cap. */
  lemma {:induction false} WaitGrows(interval: nat, k: nat)
    requires interval > 0 && 1 <= k <= 20
    ensures Wait(interval, k) >= Min(BACKOFF_MAX_MS, Pow2(k - 1))
  {
    if k > 1 { WaitGrows(interval, k - 1); }
  }

  /** Counting past 30 failures would not change the wait. */
  lemma {:induction false} WaitSaturates(interval: nat, k: nat)
    requires interval > 0 && k > 0
    ensures Wait(interval, Min(k, MAX_COUNTED_FAILURES)) == Wait(interval, k)
  {
    if k > MAX_COUNTED_FAILURES {
      WaitGrows(interval, 20);
      assert Pow2(4) == 16;
      assert Pow2(8) == 256;
      assert Pow2(12) == 4096;
      assert Pow2(16) == 65536;
      assert Pow2(19) == 524288;
      WaitStaysAtCap(interval, 20, MAX_COUNTED_FAILURES);
      WaitStaysAtCap(interval, 20, k);
    }
  }

  // ---------------------------------------------------------- exact timing

  /** What every reachable controller satisfies at time `now`. */
  predicate Inv(c: Ctrl, now: int) {
    && c.debounceMs > 0 && c.minIntervalMs > 0
    && c.lastApplyMs <= now
    && (c.failedSlot != 0 ==> ValidSlot(c.failedSlot) && c.failures >= 1
                              && c.lastApplyMs < c.retryNotBeforeMs <= c.lastApplyMs + BACKOFF_MAX_MS)
    && (c.pinnedSlot != 0 ==> ValidSlot(c.pinnedSlot) && c.autoEnabled && c.manual)
    && ValidSlot(c.defaultSlot)
  }

  /** The earliest moment the cooldown, the debounce and the backoff all allow. */
  function Due(c: Ctrl, target: int, now: int): int {
    Max(Max(now + c.debounceMs, c.lastApplyMs + c.minIntervalMs),
        if c.failedSlot == target then c.retryNotBeforeMs else now)
  }

  /** A stable target resolved at `now` is applied exactly when due, after one or two firings on time. */
  lemma AppliedExactlyWhenDue(c: Ctrl, target: int, now: int)
    requires Inv(c, now) && c.Driving(false) && ValidSlot(target) && target != c.appliedSlot
    ensures
      var (c1, armed) := c.Resolved(target, now, false);
      && armed.Arm?
      && var first := now + armed.delayMs;
         var (c2, again) := c1.Fired(target, first, false);
         if first == Due(c, target, now) then again == Apply(target)
         else && first < Due(c, target, now)
              && again.Arm? && first + again.delayMs == Due(c, target, now)
              && c2.Fired(target, Due(c, target, now), false).1 == Apply(target)
  {
  }
}
