/** When a detected target is applied: the exact moment, from any reachable driver state. */
module DriverTiming {
  import opened Ints
  import opened Controller
  import opened Driver
  import opened Options
  import opened Slots

  // ------------------------------------------------ the history only grows

  lemma AttemptExtends(d: Drv, slot: int, cause: Cause, origin: Origin, w: World)
    ensures d.issued <= d.Attempt(slot, cause, origin, w).0.issued
    ensures ValidSlot(slot) && !d.inFlight ==>
      d.Attempt(slot, cause, origin, w).0.issued == d.issued + [Issue(w.now, slot, cause, origin, d.ctrl.pinnedSlot != 0)]
  {
  }

  lemma {:induction false} ExecuteExtends(d: Drv, a: Action, cause: Cause, origin: Origin, w: World)
    ensures d.issued <= d.Execute(a, cause, origin, w).issued
    ensures a.Apply? ==> d.Attempt(a.slot, cause, origin, w).0.issued <= d.Execute(a, cause, origin, w).issued
    decreases d.pendingPick != 0, Rank(a)
  {
    match a
    case NoAction =>
    case Arm(_) =>
    case Apply(slot) =>
      AttemptExtends(d.(timer := None), slot, cause, origin, w);
      var (d1, queued) := d.(timer := None).Attempt(slot, cause, origin, w);
      assert d1.issued == d.Attempt(slot, cause, origin, w).0.issued;
      if !queued && d.pendingPick != 0 && d.pendingPick != slot {
        PickExtends(d1, d.pendingPick, ExplicitOr(d.pendingOrigin), w.(answer := w.nextAnswer));
      }
    case ResumeAuto =>
      ConvergeExtends(d, w);
  }

  lemma {:induction false} ConvergeExtends(d: Drv, w: World)
    ensures d.issued <= d.Converge(w).issued
    decreases d.pendingPick != 0, 1
  {
    var (c, re) := d.ctrl.Resolved(w.target, w.now, d.Suppressed(w));
    ExecuteExtends(d.(ctrl := c), re, Timer, Foreground, w);
  }

  lemma {:induction false} PickExtends(d: Drv, slot: int, origin: Origin, w: World)
    ensures d.issued <= d.PickNow(slot, origin, w).issued
    decreases d.pendingPick != 0, 4
  {
    var (c, a) := d.ctrl.Hotkey(slot);
    ExecuteExtends(d.(ctrl := c), a, Pick, origin, w);
  }

  // ------------------------------------------------------------ exact timing

  /** The next attempt after `before` is the timer's, for this slot at this moment. */
  ghost predicate TimerIssues(before: Drv, after: Drv, slot: int, now: int) {
    && |before.issued| < |after.issued| && before.issued <= after.issued
    && after.issued[|before.issued|].now == now && after.issued[|before.issued|].slot == slot
    && after.issued[|before.issued|].cause == Timer
  }

  lemma FiringIssues(d: Drv, w: World, slot: int)
    requires !d.inFlight && ValidSlot(slot) && d.ctrl.Fired(w.target, w.now, d.Suppressed(w)).1 == Apply(slot)
    ensures TimerIssues(d, Step(d, TimerFires(w)), slot, w.now)
  {
    var (c, a) := d.ctrl.Fired(w.target, w.now, d.Suppressed(w));
    var ready := d.(ctrl := c, timer := None);
    AttemptExtends(ready, slot, Timer, Foreground, w);
    ExecuteExtends(ready, a, Timer, Foreground, w);
  }

  /** The foreground still resolves to the target, and nothing suppresses the driver. */
  predicate Steady(w: World, target: int, now: int) {
    w.now == now && w.target == target && !w.windowSuppresses
  }

  /** Detection arms the timer and issues nothing. */
  lemma DetectionArms(d: Drv, w: World)
    requires Good(d, w.now) && d.ctrl.Driving(d.Suppressed(w)) && ValidSlot(w.target) && w.target != d.ctrl.appliedSlot
    ensures
      var armed := Step(d, Detect(w));
      && armed == d.(ctrl := d.ctrl.Resolved(w.target, w.now, false).0, timer := armed.timer)
      && armed.timer == Some(w.now + d.ctrl.Resolved(w.target, w.now, false).1.delayMs)
      && w.now < armed.timer.value <= Due(d.ctrl, w.target, w.now)
  {
    AppliedExactlyWhenDue(d.ctrl, w.target, w.now);
    var (c, re) := d.ctrl.Resolved(w.target, w.now, d.Suppressed(w));
    assert d.Converge(w) == d.(ctrl := c).Execute(re, Timer, Foreground, w);
    assert d.(ctrl := c).Execute(re, Timer, Foreground, w) == d.(ctrl := c, timer := Some(w.now + Max(re.delayMs, 1)));
  }

  /** From any state of any run: a target detected at time t, still wanted when the timer fires and
      with no other event in between, is attempted exactly at
      max(t + debounce, last apply + minimum interval, end of its backoff), after at most two firings. */
  lemma {:induction false} DetectedTargetIsAppliedWhenDue(cfg: Config, es: seq<Event>, start: int, w: World, first: World, second: World)
    requires -1000000 <= start && InOrder(es + [Detect(w)], start)
    requires
      var d := Run(InitialDrv(cfg), es);
      var due := Due(d.ctrl, w.target, w.now);
      && d.ctrl.Driving(d.Suppressed(w)) && ValidSlot(w.target) && w.target != d.ctrl.appliedSlot
      && Step(d, Detect(w)).timer.Some?
      && Steady(first, w.target, Step(d, Detect(w)).timer.value) && Steady(second, w.target, due)
    ensures
      var d := Run(InitialDrv(cfg), es);
      var due := Due(d.ctrl, w.target, w.now);
      var armed := Step(d, Detect(w));
      var fired := Step(armed, TimerFires(first));
      && armed.issued == d.issued && w.now < first.now <= due
      && (if first.now == due then TimerIssues(armed, fired, w.target, due)
          else fired.issued == d.issued && fired.timer == Some(due)
               && TimerIssues(fired, Step(fired, TimerFires(second)), w.target, due))
  {
    var d := Run(InitialDrv(cfg), es);
    ReachableIsGood(cfg, es, start, w);
    DetectionArms(d, w);
    AppliedExactlyWhenDue(d.ctrl, w.target, w.now);
    var armed := Step(d, Detect(w));
    if first.now == Due(d.ctrl, w.target, w.now) {
      FiringIssues(armed, first, w.target);
    } else {
      FiringIssues(Step(armed, TimerFires(first)), second, w.target);
    }
  }

  lemma {:induction false} ReachableIsGood(cfg: Config, es: seq<Event>, start: int, w: World)
    requires -1000000 <= start && InOrder(es + [Detect(w)], start)
    ensures Good(Run(InitialDrv(cfg), es), w.now)
  {
    var all := es + [Detect(w)];
    assert forall i :: 0 <= i < |es| ==> es[i] == all[i];
    assert all[|es|].w == w;
    EveryRunIsGood(cfg, es, start);
    GoodLater(Run(InitialDrv(cfg), es), if es == [] then start else es[|es| - 1].w.now, w.now);
  }
}
