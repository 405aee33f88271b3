/** What each event does to the driver, told from the event, the configuration and the state before it. */
module DriverMeaning {
  import opened Ints
  import opened Controller
  import opened Driver
  import opened DriverPicks
  import opened Options
  import opened Slots

  /** What a configuration means: its values, with the built-in ones for those that are not valid. */
  function DebounceOf(cfg: Config): int {
    if cfg.debounceMs > 0 then cfg.debounceMs else 800
  }

  function IntervalOf(cfg: Config): int {
    if cfg.minIntervalMs > 0 then cfg.minIntervalMs else 4000
  }

  // ----------------------------------------------- the configuration of a run

  predicate SameConfig(a: Ctrl, b: Ctrl) {
    a.autoEnabled == b.autoEnabled && a.debounceMs == b.debounceMs && a.minIntervalMs == b.minIntervalMs && a.defaultSlot == b.defaultSlot
  }

  lemma {:induction false} ExecuteKeepsConfig(d: Drv, a: Action, cause: Cause, origin: Origin, w: World)
    ensures SameConfig(d.Execute(a, cause, origin, w).ctrl, d.ctrl)
    decreases d.pendingPick != 0, Rank(a)
  {
    match a
    case NoAction =>
    case Arm(_) =>
    case Apply(slot) =>
      var (d1, queued) := d.(timer := None).Attempt(slot, cause, origin, w);
      assert SameConfig(d1.ctrl, d.ctrl);
      if !queued && d.pendingPick != 0 && d.pendingPick != slot {
        PickKeepsConfig(d1, d.pendingPick, ExplicitOr(d.pendingOrigin), w.(answer := w.nextAnswer));
      }
    case ResumeAuto =>
      ConvergeKeepsConfig(d, w);
  }

  lemma {:induction false} ConvergeKeepsConfig(d: Drv, w: World)
    ensures SameConfig(d.Converge(w).ctrl, d.ctrl)
    decreases d.pendingPick != 0, 1
  {
    var (c, re) := d.ctrl.Resolved(w.target, w.now, d.Suppressed(w));
    ExecuteKeepsConfig(d.(ctrl := c), re, Timer, Foreground, w);
  }

  lemma {:induction false} PickKeepsConfig(d: Drv, slot: int, origin: Origin, w: World)
    ensures SameConfig(d.PickNow(slot, origin, w).ctrl, d.ctrl)
    decreases d.pendingPick != 0, 4
  {
    var (c, a) := d.ctrl.Hotkey(slot);
    ExecuteKeepsConfig(d.(ctrl := c), a, Pick, origin, w);
  }

  /** The configuration in force: the last one loaded, with the switch as last set or toggled. */
  function Latest(cfg: Config, es: seq<Event>): Config {
    if es == [] then cfg
    else
      var before, e := Latest(cfg, es[..|es| - 1]), es[|es| - 1];
      if e.Reload? then e.cfg else if e.Toggle? then e.cfg.(enabled := !before.enabled) else before
  }

  predicate Adopts(c: Ctrl, cfg: Config) {
    c.autoEnabled == cfg.enabled && c.debounceMs == DebounceOf(cfg) && c.minIntervalMs == IntervalOf(cfg) && c.defaultSlot == DefaultSlotOf(cfg)
  }

  lemma ConfigEventAdopts(d: Drv, e: Event)
    requires e.Reload? || e.Toggle?
    ensures Adopts(Step(d, e).ctrl, if e.Reload? then e.cfg else e.cfg.(enabled := !d.ctrl.autoEnabled))
  {
    var enabled := if e.Reload? then e.cfg.enabled else !d.ctrl.autoEnabled;
    var (c, a) := d.ctrl.ConfigChange(e.cfg.(enabled := enabled));
    var d1 := d.(ctrl := c, timer := if enabled then d.timer else None);
    assert e.cfg.(enabled := e.cfg.enabled) == e.cfg;
    ExecuteKeepsConfig(d1, a, Revert, Foreground, e.w);
    ConvergeKeepsConfig(d1, e.w);
  }

  lemma OtherEventKeepsConfig(d: Drv, e: Event)
    requires !e.Reload? && !e.Toggle?
    ensures SameConfig(Step(d, e).ctrl, d.ctrl)
  {
    var w := e.w;
    match e
    case Detect(_) => ConvergeKeepsConfig(d, w);
    case TimerFires(_) =>
      var (c, a) := d.ctrl.Fired(w.target, w.now, d.Suppressed(w));
      ExecuteKeepsConfig(d.(ctrl := c, timer := None), a, Timer, Foreground, w);
    case PickSlot(slot, origin, _) => PickKeepsConfig(d, slot, origin, w);
    case Complete(success, _) =>
      if d.outstanding != [] {
        var slot := d.outstanding[0];
        var c := if success then d.ctrl.Applied(slot, w.now) else d.ctrl.Failed(slot, w.now);
        var done := d.(ctrl := c, inFlight := false, outstanding := d.outstanding[1..], pendingPick := 0, pendingOrigin := Unspecified);
        PickKeepsConfig(done, d.pendingPick, ExplicitOr(d.pendingOrigin), w);
      }
    case Supersede(_) =>
    case CustomApply(_) =>
  }

  /** In every run the controller works with the configuration in force. */
  lemma {:induction false} RunsAdoptTheLatestConfig(cfg: Config, es: seq<Event>)
    ensures Adopts(Run(InitialDrv(cfg), es).ctrl, Latest(cfg, es))
  {
    if es != [] {
      var front, e := es[..|es| - 1], es[|es| - 1];
      RunsAdoptTheLatestConfig(cfg, front);
      if e.Reload? || e.Toggle? { ConfigEventAdopts(Run(InitialDrv(cfg), front), e); } else { OtherEventKeepsConfig(Run(InitialDrv(cfg), front), e); }
    }
  }

  // -------------------------------------------------------- turning it off

  predicate TurnsOff(d: Drv, e: Event) {
    d.ctrl.autoEnabled && (e.Toggle? || (e.Reload? && !e.cfg.enabled))
  }

  /** Turning automatic switching off while idle attempts exactly the configured default slot, unless that
      is applied; a pick left behind is drained behind it if the attempt is not queued. */
  lemma TurningOffReverts(d: Drv, e: Event)
    requires TurnsOff(d, e) && !d.inFlight && (d.pendingPick == 0 || ValidSlot(d.pendingPick))
    ensures
      var slot, after, w := DefaultSlotOf(e.cfg), Step(d, e), e.w;
      var stale := if w.answer != Queue && d.pendingPick != 0 && d.pendingPick != slot
                   then [Issue(w.now, d.pendingPick, Pick, ExplicitOr(d.pendingOrigin), false)] else [];
      && !after.ctrl.autoEnabled && !after.ctrl.manual && after.ctrl.pinnedSlot == 0
      && (slot == d.ctrl.appliedSlot ==> after.issued == d.issued && !after.inFlight && after.timer == None)
      && (slot != d.ctrl.appliedSlot ==> after.issued == d.issued + [Issue(w.now, slot, Revert, Foreground, false)] + stale)
      && (slot != d.ctrl.appliedSlot && w.answer == Queue ==> after.inFlight && after.outstanding == d.outstanding + [slot])
  {
    var w, slot := e.w, DefaultSlotOf(e.cfg);
    var (c, a) := d.ctrl.ConfigChange(e.cfg.(enabled := false));
    assert e.Reload? ==> e.cfg.(enabled := false) == e.cfg;
    var d1 := d.(ctrl := c, timer := None);
    if slot != d.ctrl.appliedSlot {
      assert a == Apply(slot);
      var (d2, queued) := d1.Attempt(slot, Revert, Foreground, w);
      if !queued && d.pendingPick != 0 && d.pendingPick != slot {
        var w' := w.(answer := w.nextAnswer);
        assert d1.Execute(a, Revert, Foreground, w) == d2.PickNow(d.pendingPick, ExplicitOr(d.pendingOrigin), w');
        PickWhileOff(d2, d.pendingPick, ExplicitOr(d.pendingOrigin), w');
      } else {
        assert d1.Execute(a, Revert, Foreground, w) == if queued then d2 else d2.Recheck(w);
      }
    }
  }

  lemma {:induction false} PickWhileOff(d: Drv, slot: int, origin: Origin, w: World)
    requires !d.ctrl.autoEnabled && !d.inFlight && d.pendingPick == 0 && ValidSlot(slot)
    ensures
      var after := d.PickNow(slot, origin, w);
      && after.issued == d.issued + [Issue(w.now, slot, Pick, origin, false)]
      && !after.ctrl.autoEnabled && !after.ctrl.manual && after.ctrl.pinnedSlot == 0
  {
    PickIssues(d, slot, origin, w);
    PickKeepsConfig(d, slot, origin, w);
    var (c, a) := d.ctrl.Hotkey(slot);
    var (d2, queued) := d.(ctrl := c, timer := None).Attempt(slot, Pick, origin, w);
    assert d.(ctrl := c).Execute(a, Pick, origin, w) == if queued then d2 else d2.Recheck(w);
  }

  /** The same at any moment of any run. */
  lemma {:induction false} TurningOffRevertsInRuns(cfg: Config, es: seq<Event>, start: int, e: Event)
    requires -1000000 <= start && InOrder(es, start) && TurnsOff(Run(InitialDrv(cfg), es), e) && !Run(InitialDrv(cfg), es).inFlight
    ensures
      var d := Run(InitialDrv(cfg), es);
      var slot := DefaultSlotOf(e.cfg);
      && (slot == d.ctrl.appliedSlot ==> Step(d, e).issued == d.issued)
      && (slot != d.ctrl.appliedSlot ==>
            && |d.issued| < |Step(d, e).issued| && d.issued <= Step(d, e).issued
            && Step(d, e).issued[|d.issued|] == Issue(e.w.now, slot, Revert, Foreground, false))
  {
    EveryRunIsGood(cfg, es, start);
    TurningOffReverts(Run(InitialDrv(cfg), es), e);
  }

  // -------------------------------------------------- arming a wanted target

  /** The foreground asks for a slot that is not applied, and nothing suppresses switching. */
  predicate Wants(d: Drv, w: World) {
    !d.inFlight && !w.windowSuppresses && ValidSlot(w.target) && w.target != d.ctrl.appliedSlot
  }

  lemma {:induction false} ConvergeArms(d: Drv, w: World)
    requires Inv(d.ctrl, w.now)
    ensures
      var after := d.Converge(w);
      && after.issued == d.issued && after.inFlight == d.inFlight && after.outstanding == d.outstanding
      && SameConfig(after.ctrl, d.ctrl) && after.ctrl.manual == d.ctrl.manual && after.ctrl.pinnedSlot == d.ctrl.pinnedSlot
      && after.ctrl.appliedSlot == d.ctrl.appliedSlot
      && (d.ctrl.autoEnabled && !d.ctrl.manual && Wants(d, w) ==>
            after.timer.Some? && w.now < after.timer.value <= Due(d.ctrl, w.target, w.now) && after.ctrl.pendingTarget == w.target
            && (d.ctrl.failedSlot != w.target ==> after.timer.value == w.now + d.ctrl.debounceMs))
      && (!(d.ctrl.autoEnabled && !d.ctrl.manual && Wants(d, w)) ==> after.timer == d.timer)
  {
    var (c, re) := d.ctrl.Resolved(w.target, w.now, d.Suppressed(w));
    assert re.Arm? || re.NoAction?;
    assert d.Converge(w) == d.(ctrl := c).Execute(re, Timer, Foreground, w);
    if d.ctrl.autoEnabled && !d.ctrl.manual && Wants(d, w) { AppliedExactlyWhenDue(d.ctrl, w.target, w.now); }
  }

  // ------------------------------------------------------ the pending target

  predicate PendingIsAutomatic(c: Ctrl) {
    c.pendingTarget != 0 ==> c.autoEnabled && !c.manual && ValidSlot(c.pendingTarget)
  }

  /** A pending target is a slot that automatic switching waits to apply, and the timer runs for it. */
  predicate PendingIsTimed(d: Drv) {
    PendingIsAutomatic(d.ctrl) && (d.ctrl.pendingTarget != 0 ==> d.timer.Some?)
  }

  lemma {:induction false} ExecuteKeepsPending(d: Drv, a: Action, cause: Cause, origin: Origin, w: World)
    requires PendingIsAutomatic(d.ctrl) && (a.NoAction? ==> PendingIsTimed(d)) && (a.Apply? || a.ResumeAuto? ==> d.ctrl.pendingTarget == 0)
    ensures PendingIsTimed(d.Execute(a, cause, origin, w))
    decreases d.pendingPick != 0, Rank(a)
  {
    match a
    case NoAction =>
    case Arm(_) =>
    case Apply(slot) =>
      var (d1, queued) := d.(timer := None).Attempt(slot, cause, origin, w);
      assert d1.ctrl.pendingTarget == 0;
      if !queued && d.pendingPick != 0 && d.pendingPick != slot {
        PickKeepsPending(d1, d.pendingPick, ExplicitOr(d.pendingOrigin), w.(answer := w.nextAnswer));
      }
    case ResumeAuto =>
      ConvergeKeepsPending(d, w);
  }

  lemma {:induction false} ConvergeKeepsPending(d: Drv, w: World)
    requires PendingIsTimed(d)
    ensures PendingIsTimed(d.Converge(w)) && PendingIsTimed(d.Recheck(w))
    decreases d.pendingPick != 0, 1
  {
    var (c, re) := d.ctrl.Resolved(w.target, w.now, d.Suppressed(w));
    ExecuteKeepsPending(d.(ctrl := c), re, Timer, Foreground, w);
  }

  lemma {:induction false} PickKeepsPending(d: Drv, slot: int, origin: Origin, w: World)
    requires PendingIsTimed(d)
    ensures PendingIsTimed(d.PickNow(slot, origin, w))
    decreases d.pendingPick != 0, 4
  {
    var (c, a) := d.ctrl.Hotkey(slot);
    ExecuteKeepsPending(d.(ctrl := c), a, Pick, origin, w);
  }

  lemma ConfigEventKeepsPending(d: Drv, e: Event)
    requires PendingIsTimed(d) && (e.Reload? || e.Toggle?)
    ensures PendingIsTimed(Step(d, e))
  {
    var enabled := if e.Reload? then e.cfg.enabled else !d.ctrl.autoEnabled;
    var (c, a) := d.ctrl.ConfigChange(e.cfg.(enabled := enabled));
    assert e.cfg.(enabled := e.cfg.enabled) == e.cfg;
    var d1 := d.(ctrl := c, timer := if enabled then d.timer else None);
    ExecuteKeepsPending(d1, a, Revert, Foreground, e.w);
    if a == NoAction { ConvergeKeepsPending(d1, e.w); }
  }

  lemma CompletionKeepsPending(d: Drv, success: bool, w: World)
    requires PendingIsTimed(d)
    ensures PendingIsTimed(Step(d, Complete(success, w)))
  {
    if d.outstanding != [] {
      var slot := d.outstanding[0];
      var c := if success then d.ctrl.Applied(slot, w.now) else d.ctrl.Failed(slot, w.now);
      var done := d.(ctrl := c, inFlight := false, outstanding := d.outstanding[1..], pendingPick := 0, pendingOrigin := Unspecified);
      PickKeepsPending(done, d.pendingPick, ExplicitOr(d.pendingOrigin), w);
      ConvergeKeepsPending(done, w);
    }
  }

  lemma StepKeepsPending(d: Drv, e: Event)
    requires PendingIsTimed(d)
    ensures PendingIsTimed(Step(d, e))
  {
    var w := e.w;
    match e
    case Detect(_) => ConvergeKeepsPending(d, w);
    case TimerFires(_) =>
      var (c, a) := d.ctrl.Fired(w.target, w.now, d.Suppressed(w));
      ExecuteKeepsPending(d.(ctrl := c, timer := None), a, Timer, Foreground, w);
    case PickSlot(slot, origin, _) => PickKeepsPending(d, slot, origin, w);
    case Complete(success, _) => CompletionKeepsPending(d, success, w);
    case Supersede(_) =>
    case CustomApply(_) =>
    case Reload(_, _) => ConfigEventKeepsPending(d, e);
    case Toggle(_, _) => ConfigEventKeepsPending(d, e);
  }

  /** In every run. */
  lemma {:induction false} PendingTargetsAreTimed(cfg: Config, es: seq<Event>)
    ensures PendingIsTimed(Run(InitialDrv(cfg), es))
  {
    if es != [] {
      PendingTargetsAreTimed(cfg, es[..|es| - 1]);
      StepKeepsPending(Run(InitialDrv(cfg), es[..|es| - 1]), es[|es| - 1]);
    }
  }

  // ------------------------------------------------------------ turning it on

  predicate TurnsOn(d: Drv, e: Event) {
    !d.ctrl.autoEnabled && (e.Toggle? || (e.Reload? && e.cfg.enabled))
  }

  /** Turning it on attempts nothing, and arms the timer for a wanted target after the configured debounce. */
  lemma TurningOnArms(d: Drv, e: Event)
    requires TurnsOn(d, e) && Inv(d.ctrl, e.w.now)
    ensures
      var after := Step(d, e);
      && after.issued == d.issued && after.ctrl.autoEnabled && !after.ctrl.manual && after.ctrl.pinnedSlot == 0
      && (Wants(d, e.w) ==> after.timer == Some(e.w.now + DebounceOf(e.cfg)) && after.timer.value <= Due(after.ctrl, e.w.target, e.w.now))
  {
    var (c, a) := d.ctrl.ConfigChange(e.cfg.(enabled := true));
    assert e.Reload? ==> e.cfg.(enabled := true) == e.cfg;
    var d1 := d.(ctrl := c);
    assert a == ResumeAuto;
    ConvergeArms(d1, e.w);
    assert d1.Execute(a, Revert, Foreground, e.w) == d1.Converge(e.w);
  }

  /** A reload that leaves the switch alone attempts nothing; while on it re-arms for a wanted target, while
      off it stops the timer. */
  lemma ReloadRearms(d: Drv, cfg: Config, w: World)
    requires cfg.enabled == d.ctrl.autoEnabled && Inv(d.ctrl, w.now)
    ensures
      var after := Step(d, Reload(cfg, w));
      && after.issued == d.issued
      && (cfg.enabled && !d.ctrl.manual && Wants(d, w) ==> after.timer == Some(w.now + DebounceOf(cfg)))
      && (!cfg.enabled ==> after.timer == None)
      && after.ctrl.manual == d.ctrl.manual && after.ctrl.pinnedSlot == d.ctrl.pinnedSlot
  {
    var (c, a) := d.ctrl.ConfigChange(cfg);
    ConvergeArms(d.(ctrl := c, timer := if cfg.enabled then d.timer else None), w);
  }

  // -------------------------------------------------------- picks and pins

  /** A pick pins its slot, or with switching off nothing, and attempts it at once; found in force it is the
      applied one, refused it is charged as a failure. */
  lemma PickPins(d: Drv, slot: int, origin: Origin, w: World)
    requires !d.inFlight && d.pendingPick == 0 && ValidSlot(slot)
    requires !(d.ctrl.autoEnabled && d.ctrl.manual && d.ctrl.pinnedSlot == slot)
    ensures
      var after := Step(d, PickSlot(slot, origin, w));
      && after.ctrl.pinnedSlot == (if d.ctrl.autoEnabled then slot else 0) && after.ctrl.manual == d.ctrl.autoEnabled
      && after.issued == d.issued + [Issue(w.now, slot, Pick, origin, d.ctrl.autoEnabled)]
      && after.ctrl.appliedSlot == (if w.answer == Already then slot else d.ctrl.appliedSlot)
      && after.ctrl.failedSlot == (if w.answer == Refuse then slot else 0)
      && (w.answer == Refuse ==> after.ctrl.failures == 1)
      && after.outstanding == (if w.answer == Queue then d.outstanding + [slot] else d.outstanding)
  {
    var (c, a) := d.ctrl.Hotkey(slot);
    var (d2, queued) := d.(ctrl := c, timer := None).Attempt(slot, Pick, origin, w);
    assert d.(ctrl := c).Execute(a, Pick, origin, w) == if queued then d2 else d2.Recheck(w);
  }

  /** Picking the pinned slot again releases it, attempts nothing and resumes switching. */
  lemma PickAgainReleases(d: Drv, slot: int, origin: Origin, w: World)
    requires Inv(d.ctrl, w.now) && !d.inFlight && ValidSlot(slot)
    requires d.ctrl.autoEnabled && d.ctrl.manual && d.ctrl.pinnedSlot == slot
    ensures
      var after := Step(d, PickSlot(slot, origin, w));
      && after.ctrl.pinnedSlot == 0 && !after.ctrl.manual && after.issued == d.issued
      && (Wants(d, w) ==> after.timer == Some(w.now + d.ctrl.debounceMs))
  {
    var (c, a) := d.ctrl.Hotkey(slot);
    SwitchingKeepsInv(d.ctrl, w.now, slot, Config(false, 0, 0, 0));
    ConvergeArms(d.(ctrl := c), w);
    assert d.(ctrl := c).Execute(a, Pick, origin, w) == d.(ctrl := c).Converge(w);
  }

  /** A custom apply holds switching without pinning anything. */
  lemma CustomApplyHolds(d: Drv, w: World)
    ensures
      var after := Step(d, CustomApply(w));
      && after.ctrl.manual && after.ctrl.pinnedSlot == 0 && after.ctrl.appliedSlot == d.ctrl.appliedSlot
      && after == d.(ctrl := after.ctrl) && SameConfig(after.ctrl, d.ctrl)
  {
  }

  /** Switched off, held, suppressed or busy: detection changes nothing, and a firing timer attempts nothing. */
  lemma NothingWhileHeld(d: Drv, w: World)
    requires !d.ctrl.autoEnabled || d.ctrl.manual || d.inFlight || w.windowSuppresses
    ensures Step(d, Detect(w)) == d
    ensures
      var after := Step(d, TimerFires(w));
      after.issued == d.issued && after.timer == None && after.outstanding == d.outstanding && after.inFlight == d.inFlight
  {
  }

  // ------------------------------------------------------------ completions

  /** A completion with nothing deferred: success makes the slot the applied one and forgets failures, failure
      leaves the applied one; either way the cooldown starts, and a target still wanted is armed for. */
  lemma CompletionSettles(d: Drv, success: bool, w: World)
    requires Good(d, w.now) && d.inFlight && d.pendingPick == 0
    ensures
      var after, slot := Step(d, Complete(success, w)), d.outstanding[0];
      && !after.inFlight && after.outstanding == [] && after.issued == d.issued
      && after.ctrl.appliedSlot == (if success then slot else d.ctrl.appliedSlot)
      && after.ctrl.lastApplyMs == w.now && (success ==> after.ctrl.failedSlot == 0) && (!success ==> after.ctrl.failedSlot == slot)
      && SameConfig(after.ctrl, d.ctrl) && after.ctrl.manual == d.ctrl.manual && after.ctrl.pinnedSlot == d.ctrl.pinnedSlot
      && (d.ctrl.autoEnabled && !d.ctrl.manual && !w.windowSuppresses && ValidSlot(w.target) && w.target != after.ctrl.appliedSlot ==>
            after.timer.Some? && w.now < after.timer.value <= Due(after.ctrl, w.target, w.now))
  {
    var slot := d.outstanding[0];
    ControllerKeepsInv(d.ctrl, w, false, slot, Config(false, 0, 0, 0));
    var c := if success then d.ctrl.Applied(slot, w.now) else d.ctrl.Failed(slot, w.now);
    if c.Driving(w.windowSuppresses) && ValidSlot(w.target) && w.target != c.appliedSlot { AppliedExactlyWhenDue(c, w.target, w.now); }
  }

  /** A pick that waited behind the request is attempted when that completes, with its own origin if that is
      explicit and as from the tray otherwise. */
  lemma DrainedPickKeepsItsOrigin(d: Drv, success: bool, w: World)
    requires Good(d, w.now) && d.inFlight && d.pendingPick != 0 && d.pendingPick != d.outstanding[0]
    requires !(d.ctrl.autoEnabled && d.ctrl.manual && d.ctrl.pinnedSlot == d.pendingPick)
    ensures
      var origin := if d.pendingOrigin == Hotkey then Hotkey else Tray;
      Step(d, Complete(success, w)).issued == d.issued + [Issue(w.now, d.pendingPick, Pick, origin, d.ctrl.autoEnabled)]
  {
    var slot := d.outstanding[0];
    var c := if success then d.ctrl.Applied(slot, w.now) else d.ctrl.Failed(slot, w.now);
    var done := d.(ctrl := c, inFlight := false, outstanding := d.outstanding[1..], pendingPick := 0, pendingOrigin := Unspecified);
    PickIssues(done, d.pendingPick, ExplicitOr(d.pendingOrigin), w);
  }

  /** Cooldown and backoff are over for this target. */
  predicate MayAttempt(c: Ctrl, target: int, now: int) {
    c.lastApplyMs + c.minIntervalMs <= now && (c.failedSlot == target ==> c.retryNotBeforeMs <= now)
  }

  /** A firing timer attempts a wanted target exactly when cooldown and backoff are over, and is re-armed
      otherwise. The attempt is queued, found in force and so applied at once, or charged as a failure. */
  lemma FiringAttemptsExactlyWhenDue(d: Drv, w: World)
    requires Good(d, w.now) && d.pendingPick == 0 && d.ctrl.autoEnabled && !d.ctrl.manual && Wants(d, w)
    ensures
      var after := Step(d, TimerFires(w));
      if MayAttempt(d.ctrl, w.target, w.now) then
        && after.issued == d.issued + [Issue(w.now, w.target, Timer, Foreground, false)]
        && after.inFlight == (w.answer == Queue) && after.outstanding == (if w.answer == Queue then [w.target] else [])
        && after.ctrl.appliedSlot == (if w.answer == Already then w.target else d.ctrl.appliedSlot)
        && (w.answer == Already ==> after.ctrl.failedSlot == 0 && after.ctrl.lastApplyMs == w.now)
        && (w.answer == Refuse ==> after.ctrl.failedSlot == w.target && after.ctrl.lastApplyMs == w.now
                                   && after.timer == Some(Max(w.now + d.ctrl.debounceMs, after.ctrl.retryNotBeforeMs)))
      else
        after.issued == d.issued && after.timer.Some? && w.now < after.timer.value && !after.inFlight
  {
    var (c, a) := d.ctrl.Fired(w.target, w.now, d.Suppressed(w));
    var d1 := d.(ctrl := c, timer := None);
    if MayAttempt(d.ctrl, w.target, w.now) {
      var (d2, queued) := d1.Attempt(w.target, Timer, Foreground, w);
      assert d1.Execute(a, Timer, Foreground, w) == if queued then d2 else d2.Recheck(w);
    }
  }
}
