/**
 How often the debounce timer may apply. An attempt is charged to the cooldown when its request
 completes, is answered at once or is refused; a superseded request is never charged.
 */
module DriverRate {
  import opened Controller
  import opened Driver
  import opened Options
  import opened Slots

  /** A window [from, from + length] of time, and an interval no configured one falls below. */
  datatype Window = Window(from: int, length: nat, interval: nat)
  {
    predicate Holds(t: int) {
      from <= t <= from + length
    }
  }

  /** Number of timer attempts in the window. */
  ghost function TimerAttempts(issued: seq<Issue>, win: Window): nat {
    if issued == [] then 0
    else
      var last := issued[|issued| - 1];
      TimerAttempts(issued[..|issued| - 1], win) + (if last.cause == Timer && win.Holds(last.now) then 1 else 0)
  }

  /** The moment of the last of them. */
  ghost function LastAttempt(issued: seq<Issue>, win: Window): int {
    if issued == [] then win.from
    else
      var last := issued[|issued| - 1];
      if last.cause == Timer && win.Holds(last.now) then last.now else LastAttempt(issued[..|issued| - 1], win)
  }

  lemma {:induction false} LastAttemptBounds(issued: seq<Issue>, win: Window, now: int)
    requires forall i :: 0 <= i < |issued| ==> issued[i].now <= now
    ensures win.Holds(LastAttempt(issued, win))
    ensures TimerAttempts(issued, win) > 0 ==> LastAttempt(issued, win) <= now
  {
    if issued != [] { LastAttemptBounds(issued[..|issued| - 1], win, now); }
  }

  lemma {:induction false} AttemptsAfter(issued: seq<Issue>, i: Issue, win: Window)
    ensures TimerAttempts(issued + [i], win) == TimerAttempts(issued, win) + (if i.cause == Timer && win.Holds(i.now) then 1 else 0)
    ensures LastAttempt(issued + [i], win) == if i.cause == Timer && win.Holds(i.now) then i.now else LastAttempt(issued, win)
  {
    assert (issued + [i])[..|issued|] == issued;
  }

  /** Number of superseded requests reported in the window. */
  ghost function Supersedes(es: seq<Event>, win: Window): nat {
    if es == [] then 0
    else
      var last := es[|es| - 1];
      Supersedes(es[..|es| - 1], win) + (if last.Supersede? && win.Holds(last.w.now) then 1 else 0)
  }

  // ------------------------------------------------------------ the account

  /** The time `n` attempts need, of which `free` came without a cooldown. */
  ghost function Needs(n: int, free: int, interval: nat): int {
    (n - 1 - free) * interval
  }

  lemma NeedsMore(n: int, free: int, interval: nat)
    ensures Needs(n + 1, free, interval) == Needs(n, free, interval) + interval
    ensures Needs(n + 1, free + 1, interval) == Needs(n, free, interval)
    ensures Needs(n, free + 1, interval) <= Needs(n, free, interval)
  {
  }

  /** The attempts of the window fit the time up to the last of them, and the next one will fit too:
      the last is in flight, has been charged, was superseded, or the window is over. */
  ghost predicate InBudget(d: Drv, win: Window, free: nat, now: int) {
    var n, last := TimerAttempts(d.issued, win), LastAttempt(d.issued, win);
    && win.interval <= d.ctrl.minIntervalMs
    && (n > 0 ==> Needs(n, free, win.interval) <= last - win.from)
    && (n > 0 ==> || d.inFlight || last <= d.ctrl.lastApplyMs
                  || Needs(n + 1, free, win.interval) <= last - win.from || win.from + win.length < now)
  }

  /** The cooldown has passed, as the controller checks before it lets the timer apply. */
  ghost predicate Cooled(d: Drv, a: Action, cause: Cause, now: int) {
    cause == Timer && a.Apply? ==> !d.inFlight && now - d.ctrl.lastApplyMs >= d.ctrl.minIntervalMs
  }

  lemma {:induction false} IssueStaysInBudget(d: Drv, i: Issue, win: Window, free: nat)
    requires Good(d, i.now) && InBudget(d, win, free, i.now) && !d.inFlight
    requires i.cause == Timer ==> i.now - d.ctrl.lastApplyMs >= d.ctrl.minIntervalMs
    ensures
      var n, last := TimerAttempts(d.issued + [i], win), LastAttempt(d.issued + [i], win);
      && (n > 0 ==> Needs(n, free, win.interval) <= last - win.from && last <= i.now)
  {
    var n := TimerAttempts(d.issued, win);
    AttemptsAfter(d.issued, i, win);
    LastAttemptBounds(d.issued, win, i.now);
    if i.cause == Timer && win.Holds(i.now) {
      if n == 0 { assert Needs(1, free, win.interval) == (0 - free) * win.interval <= 0; } else { NeedsMore(n, free, win.interval); }
    }
  }

  /** An attempt that is made is recorded, and in flight or charged at once. */
  lemma AttemptIssues(d: Drv, slot: int, cause: Cause, origin: Origin, w: World)
    requires ValidSlot(slot) && !d.inFlight
    ensures
      var d1 := d.Attempt(slot, cause, origin, w).0;
      && d1.issued == d.issued + [Issue(w.now, slot, cause, origin, d.ctrl.pinnedSlot != 0)]
      && d1.ctrl.minIntervalMs == d.ctrl.minIntervalMs && (d1.inFlight || d1.ctrl.lastApplyMs == w.now)
  {
  }

  lemma AttemptStaysInBudget(d: Drv, slot: int, cause: Cause, origin: Origin, w: World, win: Window, free: nat)
    requires Good(d, w.now) && InBudget(d, win, free, w.now) && Cooled(d, Apply(slot), cause, w.now)
    ensures InBudget(d.Attempt(slot, cause, origin, w).0, win, free, w.now)
  {
    if ValidSlot(slot) && !d.inFlight {
      AttemptIssues(d, slot, cause, origin, w);
      IssueStaysInBudget(d, Issue(w.now, slot, cause, origin, d.ctrl.pinnedSlot != 0), win, free);
    }
  }

  lemma WithCtrlStaysInBudget(d: Drv, c: Ctrl, timer: Option<int>, win: Window, free: nat, now: int)
    requires InBudget(d, win, free, now) && c.lastApplyMs >= d.ctrl.lastApplyMs && c.minIntervalMs >= win.interval
    ensures InBudget(d.(ctrl := c), win, free, now)
    ensures InBudget(d.(ctrl := c, timer := timer), win, free, now)
  {
  }

  lemma {:induction false} ExecuteStaysInBudget(
    d: Drv, a: Action, cause: Cause, origin: Origin, w: World, win: Window, free: nat)
    requires Good(d, w.now) && Dispatchable(d, a, cause) && InBudget(d, win, free, w.now) && Cooled(d, a, cause, w.now)
    ensures InBudget(d.Execute(a, cause, origin, w), win, free, w.now)
    decreases d.pendingPick != 0, Rank(a)
  {
    match a
    case NoAction =>
    case Arm(_) =>
      WithCtrlStaysInBudget(d, d.ctrl, d.Execute(a, cause, origin, w).timer, win, free, w.now);
    case Apply(slot) =>
      WithCtrlKeepsGood(d, d.ctrl, None, w.now);
      WithCtrlStaysInBudget(d, d.ctrl, None, win, free, w.now);
      var (d1, queued) := d.(timer := None).Attempt(slot, cause, origin, w);
      AttemptKeepsGood(d.(timer := None), slot, cause, origin, w);
      AttemptStaysInBudget(d.(timer := None), slot, cause, origin, w, win, free);
      if queued {
      } else if d.pendingPick != 0 && d.pendingPick != slot {
        PickStaysInBudget(d1, d.pendingPick, ExplicitOr(d.pendingOrigin), w.(answer := w.nextAnswer), win, free);
      } else {
        RecheckStaysInBudget(d1, w, win, free);
      }
    case ResumeAuto =>
      ConvergeStaysInBudget(d, w, win, free);
  }

  lemma {:induction false} ConvergeStaysInBudget(d: Drv, w: World, win: Window, free: nat)
    requires Good(d, w.now) && InBudget(d, win, free, w.now)
    ensures InBudget(d.Converge(w), win, free, w.now)
    decreases d.pendingPick != 0, 1
  {
    ResolvingKeepsInv(d.ctrl, w, d.Suppressed(w));
    var (c, re) := d.ctrl.Resolved(w.target, w.now, d.Suppressed(w));
    WithCtrlKeepsGood(d, c, None, w.now);
    WithCtrlStaysInBudget(d, c, None, win, free, w.now);
    ExecuteStaysInBudget(d.(ctrl := c), re, Timer, Foreground, w, win, free);
  }

  lemma RecheckStaysInBudget(d: Drv, w: World, win: Window, free: nat)
    requires InBudget(d, win, free, w.now)
    ensures InBudget(d.Recheck(w), win, free, w.now)
  {
    WithCtrlStaysInBudget(d, d.Recheck(w).ctrl, d.Recheck(w).timer, win, free, w.now);
  }

  lemma {:induction false} PickStaysInBudget(d: Drv, slot: int, origin: Origin, w: World, win: Window, free: nat)
    requires Good(d, w.now) && InBudget(d, win, free, w.now)
    ensures InBudget(d.PickNow(slot, origin, w), win, free, w.now)
    decreases d.pendingPick != 0, 4
  {
    SwitchingKeepsInv(d.ctrl, w.now, slot, Config(false, 0, 0, 0));
    var (c, a) := d.ctrl.Hotkey(slot);
    WithCtrlKeepsGood(d, c, None, w.now);
    WithCtrlStaysInBudget(d, c, None, win, free, w.now);
    ExecuteStaysInBudget(d.(ctrl := c), a, Pick, origin, w, win, free);
  }

  lemma {:induction false} DispatchStaysInBudget(
    d: Drv, c: Ctrl, timer: Option<int>, a: Action, cause: Cause, w: World, win: Window, free: nat)
    requires Good(d, w.now) && Inv(c, w.now) && (cause == Timer && a.Apply? ==> c.pinnedSlot == 0)
    requires InBudget(d, win, free, w.now) && c.lastApplyMs >= d.ctrl.lastApplyMs && c.minIntervalMs >= win.interval
    requires cause == Timer && a.Apply? ==> !d.inFlight && w.now - c.lastApplyMs >= c.minIntervalMs
    ensures InBudget(d.(ctrl := c, timer := timer).Execute(a, cause, Foreground, w), win, free, w.now)
    ensures InBudget(d.(ctrl := c, timer := timer), win, free, w.now)
  {
    WithCtrlKeepsGood(d, c, timer, w.now);
    WithCtrlStaysInBudget(d, c, timer, win, free, w.now);
    ExecuteStaysInBudget(d.(ctrl := c, timer := timer), a, cause, Foreground, w, win, free);
  }

  lemma CompletionStaysInBudget(d: Drv, success: bool, w: World, win: Window, free: nat)
    requires Good(d, w.now) && InBudget(d, win, free, w.now)
    ensures InBudget(Step(d, Complete(success, w)), win, free, w.now)
  {
    if d.outstanding != [] {
      var slot := d.outstanding[0];
      ControllerKeepsInv(d.ctrl, w, false, slot, Config(false, 0, 0, 0));
      var c := if success then d.ctrl.Applied(slot, w.now) else d.ctrl.Failed(slot, w.now);
      var done := d.(ctrl := c, inFlight := false, outstanding := d.outstanding[1..],
                     pendingPick := 0, pendingOrigin := Unspecified);
      LastAttemptBounds(d.issued, win, w.now);
      assert Good(done, w.now) && InBudget(done, win, free, w.now);
      if d.pendingPick != 0 && d.pendingPick != slot {
        PickStaysInBudget(done, d.pendingPick, ExplicitOr(d.pendingOrigin), w, win, free);
      } else {
        RecheckStaysInBudget(done, w, win, free);
      }
    }
  }

  /** A superseded request frees one attempt of its cooldown. */
  lemma SupersedeStaysInBudget(d: Drv, w: World, win: Window, free: nat)
    requires Good(d, w.now) && InBudget(d, win, free, w.now)
    ensures InBudget(Step(d, Supersede(w)), win, if win.Holds(w.now) then free + 1 else free, w.now)
  {
    LastAttemptBounds(d.issued, win, w.now);
    NeedsMore(TimerAttempts(d.issued, win), free, win.interval);
    NeedsMore(TimerAttempts(d.issued, win) + 1, free, win.interval);
  }

  /** The interval a configuration asks for is at least this one. */
  predicate AtLeast(cfg: Config, interval: nat) {
    interval <= if cfg.minIntervalMs > 0 then cfg.minIntervalMs else DEFAULT_MIN_INTERVAL_MS
  }

  predicate KeepsInterval(e: Event, interval: nat) {
    e.Reload? || e.Toggle? ==> AtLeast(e.cfg, interval)
  }

  lemma ConfigEventStaysInBudget(d: Drv, e: Event, win: Window, free: nat)
    requires Good(d, e.w.now) && InBudget(d, win, free, e.w.now) && KeepsInterval(e, win.interval) && (e.Reload? || e.Toggle?)
    ensures InBudget(Step(d, e), win, free, e.w.now)
  {
    var w := e.w;
    var enabled := if e.Reload? then e.cfg.enabled else !d.ctrl.autoEnabled;
    var cfg := e.cfg.(enabled := enabled);
    SwitchingKeepsInv(d.ctrl, w.now, 0, cfg);
    var (c, a) := d.ctrl.ConfigChange(cfg);
    var timer := if enabled then d.timer else None;
    DispatchStaysInBudget(d, c, timer, a, Revert, w, win, free);
    WithCtrlKeepsGood(d, c, timer, w.now);
    ConvergeStaysInBudget(d.(ctrl := c, timer := timer), w, win, free);
  }

  lemma StepStaysInBudget(d: Drv, e: Event, win: Window, free: nat)
    requires Good(d, e.w.now) && InBudget(d, win, free, e.w.now) && KeepsInterval(e, win.interval)
    ensures InBudget(Step(d, e), win, if e.Supersede? && win.Holds(e.w.now) then free + 1 else free, e.w.now)
  {
    var w := e.w;
    match e
    case Detect(_) =>
      ConvergeStaysInBudget(d, w, win, free);
    case TimerFires(_) =>
      ResolvingKeepsInv(d.ctrl, w, d.Suppressed(w));
      var (c, a) := d.ctrl.Fired(w.target, w.now, d.Suppressed(w));
      DispatchStaysInBudget(d, c, None, a, Timer, w, win, free);
    case PickSlot(slot, origin, _) =>
      PickStaysInBudget(d, slot, origin, w, win, free);
    case Complete(success, _) =>
      CompletionStaysInBudget(d, success, w, win, free);
    case Supersede(_) =>
      SupersedeStaysInBudget(d, w, win, free);
    case CustomApply(_) =>
      WithCtrlStaysInBudget(d, d.ctrl.ManualCustom(), None, win, free, w.now);
    case Reload(_, _) =>
      ConfigEventStaysInBudget(d, e, win, free);
    case Toggle(_, _) =>
      ConfigEventStaysInBudget(d, e, win, free);
  }

  lemma {:induction false} RunsStayInBudget(cfg: Config, es: seq<Event>, start: int, win: Window)
    requires -1000000 <= start && InOrder(es, start) && AtLeast(cfg, win.interval)
    requires forall i :: 0 <= i < |es| ==> KeepsInterval(es[i], win.interval)
    ensures InBudget(Run(InitialDrv(cfg), es), win, Supersedes(es, win), if es == [] then start else es[|es| - 1].w.now)
  {
    if es != [] {
      var front, last := es[..|es| - 1], es[|es| - 1];
      RunsStayInBudget(cfg, front, start, win);
      EveryRunIsGood(cfg, front, start);
      GoodLater(Run(InitialDrv(cfg), front), if front == [] then start else front[|front| - 1].w.now, last.w.now);
      StepStaysInBudget(Run(InitialDrv(cfg), front), last, win, Supersedes(front, win));
    }
  }

  /** In every run and every window the timer issues at most one attempt more than the intervals that
      fit, plus one for each request superseded in the window. */
  lemma {:induction false} AtMostOneAttemptPerInterval(cfg: Config, es: seq<Event>, start: int, win: Window)
    requires -1000000 <= start && InOrder(es, start) && win.interval > 0 && AtLeast(cfg, win.interval)
    requires forall i :: 0 <= i < |es| ==> KeepsInterval(es[i], win.interval)
    ensures TimerAttempts(Run(InitialDrv(cfg), es).issued, win) <= 1 + win.length / win.interval + Supersedes(es, win)
  {
    RunsStayInBudget(cfg, es, start, win);
    var end := Run(InitialDrv(cfg), es);
    var now := if es == [] then start else es[|es| - 1].w.now;
    EveryRunIsGood(cfg, es, start);
    LastAttemptBounds(end.issued, win, now);
    NeedsBound(TimerAttempts(end.issued, win), Supersedes(es, win), win.interval, win.length);
  }

  /** Two of the attempts lie in the window. */
  lemma {:induction false} TwoAttempts(issued: seq<Issue>, win: Window, i: nat, j: nat)
    requires i < j < |issued| && issued[i].cause == Timer && issued[j].cause == Timer
    requires win.Holds(issued[i].now) && win.Holds(issued[j].now)
    ensures TimerAttempts(issued, win) >= 2
  {
    var front := issued[..|issued| - 1];
    if j < |front| { TwoAttempts(front, win, i, j); } else { OneAttempt(front, win, i); }
  }

  lemma {:induction false} OneAttempt(issued: seq<Issue>, win: Window, i: nat)
    requires i < |issued| && issued[i].cause == Timer && win.Holds(issued[i].now)
    ensures TimerAttempts(issued, win) >= 1
  {
    if i < |issued| - 1 { OneAttempt(issued[..|issued| - 1], win, i); }
  }

  /** Two timer attempts less than an interval apart have a superseded request between them. */
  lemma {:induction false} CloseAttemptsWereSuperseded(cfg: Config, es: seq<Event>, start: int, interval: nat, i: nat, j: nat)
    requires -1000000 <= start && InOrder(es, start) && interval > 0 && AtLeast(cfg, interval)
    requires forall k :: 0 <= k < |es| ==> KeepsInterval(es[k], interval)
    requires i < j < |Run(InitialDrv(cfg), es).issued|
    requires var issued := Run(InitialDrv(cfg), es).issued;
      issued[i].cause == Timer && issued[j].cause == Timer && issued[i].now <= issued[j].now < issued[i].now + interval
    ensures
      var issued := Run(InitialDrv(cfg), es).issued;
      Supersedes(es, Window(issued[i].now, issued[j].now - issued[i].now, interval)) > 0
  {
    var issued := Run(InitialDrv(cfg), es).issued;
    var win := Window(issued[i].now, issued[j].now - issued[i].now, interval);
    AtMostOneAttemptPerInterval(cfg, es, start, win);
    TwoAttempts(issued, win, i, j);
    DivSmall(win.length, interval);
  }

  lemma NeedsBound(n: nat, free: nat, interval: nat, length: nat)
    requires interval > 0 && (n > 0 ==> Needs(n, free, interval) <= length)
    ensures n <= 1 + length / interval + free
  {
    if n > 1 + free { QuotientBounds(n - 1 - free, interval, length); }
  }

  lemma QuotientBounds(n: nat, interval: nat, length: nat)
    requires interval > 0 && n * interval <= length
    ensures n <= length / interval
  {
    assert length < (length / interval + 1) * interval;
    MulCancels(n, length / interval + 1, interval);
  }

  lemma DivSmall(a: nat, b: nat)
    requires a < b
    ensures a / b == 0
  {
  }

  lemma MulCancels(a: nat, b: nat, m: nat)
    requires a * m < b * m
    ensures a < b
  {
  }

  /** The extra attempt is real. A superseded request spends no cooldown: two timer attempts 2 ms apart under a 4000 ms interval. */
  lemma SupersedeEscapesTheCooldown(cfg: Config)
    requires cfg == Config(true, 1, 800, 4000)
    ensures var es := [TimerFires(SampleWorld(10, 2)), Supersede(SampleWorld(11, 2)), TimerFires(SampleWorld(12, 2))];
            InOrder(es, 10) && TimerAttempts(Run(InitialDrv(cfg), es).issued, Window(10, 2, 4000)) == 2
  {
    var e0, e1, e2 := TimerFires(SampleWorld(10, 2)), Supersede(SampleWorld(11, 2)), TimerFires(SampleWorld(12, 2));
    var d0 := InitialDrv(cfg);
    var d1 := Step(d0, e0);
    assert d1.issued == [Issue(10, 2, Timer, Foreground, false)] && d1.outstanding == [2];
    var d2 := Step(d1, e1);
    assert d2.issued == d1.issued && !d2.inFlight && d2.ctrl.lastApplyMs == -1000000;
    var d3 := Step(d2, e2);
    assert d3.issued == d1.issued + [Issue(12, 2, Timer, Foreground, false)];
    assert [e0, e1, e2][..2] == [e0, e1] && [e0, e1][..1] == [e0] && [e0][..0] == [];
    assert Run(d0, [e0]) == d1;
    assert Run(d0, [e0, e1]) == d2;
    assert Run(d0, [e0, e1, e2]) == d3;
    assert d3.issued[..1] == d1.issued && d1.issued[..0] == [];
    assert TimerAttempts(d1.issued, Window(10, 2, 4000)) == 1;
  }
}
