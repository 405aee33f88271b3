/**
 The auto-profile driver: event handlers around the controller, the in-flight request, the
 deferred pick and the recursive action dispatch. `Drv` is the driver's state as a value;
 `outstanding` are the requests the mutation worker holds and `issued` is the history of
 attempts, both kept so that whole runs can be stated. The class `AutoProfileDriver` holds the
 handlers themselves.
 */
module Driver {
  import opened Ints
  import opened Controller
  import opened Options
  import opened Slots

  datatype Origin = Unspecified | Foreground | Hotkey | Tray

  /** Why an attempt was made: the debounce timer, an explicit pick, or reverting on disable. */
  datatype Cause = Timer | Pick | Revert

  datatype Issue = Issue(now: int, slot: int, cause: Cause, origin: Origin, pinned: bool)

  /** How the world answers a start that is not skipped. */
  datatype Answer = Queue | Already | Refuse

  /** One handler's view of the world: clock, resolved target, window suppression, start answers. */
  datatype World = World(now: int, target: int, windowSuppresses: bool, answer: Answer, nextAnswer: Answer)

  datatype Drv = Drv(
    ctrl: Ctrl, inFlight: bool, pendingPick: int, pendingOrigin: Origin, timer: Option<int>,
    outstanding: seq<int>, issued: seq<Issue>)
  {
    predicate Suppressed(w: World) {
      inFlight || w.windowSuppresses
    }

    /** Start applying a slot: skipped while a request is in flight, else as the world answers. */
    function Start(slot: int, cause: Cause, origin: Origin, w: World): (Drv, bool, bool) {
      if !ValidSlot(slot) then (this, false, true)
      else if inFlight then (this, false, false)
      else
        var d := this.(issued := issued + [Issue(w.now, slot, cause, origin, ctrl.pinnedSlot != 0)]);
        match w.answer
        case Queue => (d.(inFlight := true, outstanding := outstanding + [slot]), true, false)
        case Already => (d.(ctrl := ctrl.Applied(slot, w.now)), false, false)
        case Refuse => (d, false, true)
    }

    /** Attempt a slot; unless it was queued, charge a failure and consume the deferred pick. */
    function Attempt(slot: int, cause: Cause, origin: Origin, w: World): (Drv, bool) {
      var (d, queued, failed) := Start(slot, cause, origin, w);
      if queued then (d, true)
      else
        (d.(ctrl := if failed then d.ctrl.Failed(slot, w.now) else d.ctrl,
            pendingPick := 0, pendingOrigin := Unspecified), false)
    }

    /** Re-resolve the foreground and arm a follow-up switch if it moved on. */
    function Recheck(w: World): Drv {
      var (c, a) := ctrl.Resolved(w.target, w.now, Suppressed(w));
      this.(ctrl := c, timer := if a.Arm? then Some(w.now + a.delayMs) else timer)
    }

    /** Dispatch a controller action. The recursion ends because a deferred pick is consumed
        before it is dispatched, and resuming only ever leads to arming or nothing. */
    function Execute(a: Action, cause: Cause, origin: Origin, w: World): Drv
      decreases pendingPick != 0, Rank(a)
    {
      match a
      case NoAction => this
      case Arm(delayMs) => this.(timer := Some(w.now + Max(delayMs, 1)))
      case Apply(slot) =>
        var (d, queued) := this.(timer := None).Attempt(slot, cause, origin, w);
        if queued then d
        else if pendingPick != 0 && pendingPick != slot then
          d.PickNow(pendingPick, ExplicitOr(pendingOrigin), w.(answer := w.nextAnswer))
        else d.Recheck(w)
      case ResumeAuto => Converge(w)
    }

    /** Re-resolve and dispatch what follows, which only ever arms the timer or does nothing. */
    function Converge(w: World): Drv
      decreases pendingPick != 0, 1
    {
      var (c, re) := ctrl.Resolved(w.target, w.now, Suppressed(w));
      this.(ctrl := c).Execute(re, Timer, Foreground, w)
    }

    function PickNow(slot: int, origin: Origin, w: World): Drv
      decreases pendingPick != 0, 4
    {
      var (c, a) := ctrl.Hotkey(slot);
      this.(ctrl := c).Execute(a, Pick, origin, w)
    }
  }

  function Rank(a: Action): nat {
    match a
    case NoAction => 0
    case Arm(_) => 0
    case ResumeAuto => 2
    case Apply(_) => 3
  }

  predicate Explicit(o: Origin) {
    o == Hotkey || o == Tray
  }

  function ExplicitOr(o: Origin): Origin {
    if Explicit(o) then o else Tray
  }

  /** Everything that can happen to the driver. */
  datatype Event =
    | Detect(w: World)                          // foreground change or backstop tick
    | TimerFires(w: World)
    | PickSlot(slot: int, origin: Origin, w: World)
    | Complete(success: bool, w: World)
    | Supersede(w: World)
    | CustomApply(w: World)
    | Reload(cfg: Config, w: World)
    | Toggle(cfg: Config, w: World)

  /** One event. The worker reports only about requests it holds, so a report without one changes nothing. */
  function Step(d: Drv, e: Event): Drv {
    match e
    case Detect(w) =>
      if d.ctrl.Driving(d.Suppressed(w)) then d.Converge(w) else d
    case TimerFires(w) =>
      var (c, a) := d.ctrl.Fired(w.target, w.now, d.Suppressed(w));
      d.(ctrl := c, timer := None).Execute(a, Timer, Foreground, w)
    case PickSlot(slot, origin, w) =>
      if !ValidSlot(slot) then d
      else if d.inFlight then d.(pendingPick := slot, pendingOrigin := origin)
      else d.PickNow(slot, origin, w)
    case Complete(success, w) =>
      if d.outstanding == [] then d
      else
        var slot := d.outstanding[0];
        var c := if success then d.ctrl.Applied(slot, w.now) else d.ctrl.Failed(slot, w.now);
        var done := d.(ctrl := c, inFlight := false, outstanding := d.outstanding[1..],
                       pendingPick := 0, pendingOrigin := Unspecified);
        if d.pendingPick != 0 && d.pendingPick != slot then
          done.PickNow(d.pendingPick, ExplicitOr(d.pendingOrigin), w)
        else done.Recheck(w)
    case Supersede(w) =>
      if d.outstanding == [] then d else d.(inFlight := false, outstanding := d.outstanding[1..])
    case CustomApply(w) => d.(ctrl := d.ctrl.ManualCustom())
    case Reload(cfg, w) =>
      var (c, a) := d.ctrl.ConfigChange(cfg);
      var d1 := d.(ctrl := c, timer := if cfg.enabled then d.timer else None);
      if a != NoAction then d1.Execute(a, Revert, Foreground, w)
      else if cfg.enabled then d1.Converge(w)
      else d1
    case Toggle(cfg, w) =>
      var enabled := !d.ctrl.autoEnabled;
      var (c, a) := d.ctrl.ConfigChange(cfg.(enabled := enabled));
      d.(ctrl := c, timer := if enabled then d.timer else None).Execute(a, Revert, Foreground, w)
  }

  ghost function Run(d: Drv, es: seq<Event>): Drv {
    if es == [] then d else Step(Run(d, es[..|es| - 1]), es[|es| - 1])
  }

  function InitialDrv(cfg: Config): Drv {
    Drv(InitialCtrl(cfg), false, 0, Unspecified, None, [], [])
  }

  /** A plain world: the foreground resolves to `target`, and every start is queued. */
  ghost function SampleWorld(now: int, target: int): World {
    World(now, target, false, Queue, Queue)
  }

  ghost predicate InOrder(es: seq<Event>, from: int) {
    && (forall i :: 0 <= i < |es| ==> from <= es[i].w.now)
    && forall i, j :: 0 <= i < j < |es| ==> es[i].w.now <= es[j].w.now
  }

  // ----------------------------------------------------------- the handlers

  class AutoProfileDriver {
    const ctrl: AutoProfileController
    var inFlight: bool
    var pendingPick: int
    var pendingOrigin: Origin
    var timer: Option<int>
    var outstanding: seq<int>
    ghost var issued: seq<Issue>

    ghost function Value(): Drv
      reads this, ctrl
    {
      Drv(ctrl.Value(), inFlight, pendingPick, pendingOrigin, timer, outstanding, issued)
    }

    constructor (cfg: Config)
      ensures fresh(ctrl) && Value() == InitialDrv(cfg)
    {
      ctrl := new AutoProfileController(cfg);
      inFlight, pendingPick, pendingOrigin, timer, outstanding, issued := false, 0, Unspecified, None, [], [];
    }

    method StartApply(slot: int, ghost cause: Cause, origin: Origin, w: World) returns (queued: bool, failed: bool)
      modifies this, ctrl
      ensures (Value(), queued, failed) == old(Value()).Start(slot, cause, origin, w)
    {
      if !ValidSlot(slot) { return false, true; }
      if inFlight { return false, false; }
      issued := issued + [Issue(w.now, slot, cause, origin, ctrl.pinnedSlot != 0)];
      match w.answer
      case Queue =>
        inFlight := true;
        outstanding := outstanding + [slot];
        return true, false;
      case Already =>
        ctrl.OnApplied(slot, w.now);
        return false, false;
      case Refuse =>
        return false, true;
    }

    method Attempt(slot: int, ghost cause: Cause, origin: Origin, w: World)
      returns (queued: bool, pending: int, from: Origin)
      modifies this, ctrl
      ensures (Value(), queued) == old(Value()).Attempt(slot, cause, origin, w)
      ensures pending == old(pendingPick) && from == old(pendingOrigin)
    {
      var failed;
      pending, from := pendingPick, pendingOrigin;
      queued, failed := StartApply(slot, cause, origin, w);
      if queued { return; }
      if failed { ctrl.OnApplyFailed(slot, w.now); }
      pendingPick, pendingOrigin := 0, Unspecified;
    }

    method Recheck(w: World)
      modifies this, ctrl
      ensures Value() == old(Value()).Recheck(w)
    {
      var a := ctrl.OnTargetResolved(w.target, w.now, inFlight || w.windowSuppresses);
      if a.Arm? { timer := Some(w.now + a.delayMs); }
    }

    method Execute(a: Action, ghost cause: Cause, origin: Origin, w: World)
      modifies this, ctrl
      ensures Value() == old(Value()).Execute(a, cause, origin, w)
      decreases pendingPick != 0, Rank(a)
    {
      match a
      case NoAction =>
      case Arm(delayMs) =>
        timer := Some(w.now + (if delayMs > 0 then delayMs else 1));
      case Apply(slot) =>
        timer := None;
        var queued, pending, from := Attempt(slot, cause, origin, w);
        if queued { return; }
        if pending != 0 && pending != slot {
          var next := ctrl.OnHotkey(pending);
          Execute(next, Pick, ExplicitOr(from), w.(answer := w.nextAnswer));
          return;
        }
        Recheck(w);
      case ResumeAuto =>
        Converge(w);
    }

    method Converge(w: World)
      modifies this, ctrl
      ensures Value() == old(Value()).Converge(w)
      decreases pendingPick != 0, 1
    {
      var re := ctrl.OnTargetResolved(w.target, w.now, inFlight || w.windowSuppresses);
      Execute(re, Timer, Foreground, w);
    }

    method OnDetect(w: World)
      modifies this, ctrl
      ensures Value() == Step(old(Value()), Detect(w))
    {
      var suppressed := inFlight || w.windowSuppresses;
      if !(ctrl.autoEnabled && !ctrl.manual && !suppressed) { return; }
      Converge(w);
    }

    method OnTimer(w: World)
      modifies this, ctrl
      ensures Value() == Step(old(Value()), TimerFires(w))
    {
      timer := None;
      var a := ctrl.OnDebounceFire(w.target, w.now, inFlight || w.windowSuppresses);
      Execute(a, Timer, Foreground, w);
    }

    method OnPick(slot: int, origin: Origin, w: World)
      modifies this, ctrl
      ensures Value() == Step(old(Value()), PickSlot(slot, origin, w))
    {
      if !ValidSlot(slot) { return; }
      if inFlight {
        pendingPick, pendingOrigin := slot, origin;
        return;
      }
      var a := ctrl.OnHotkey(slot);
      Execute(a, Pick, origin, w);
    }

    method OnCompleted(success: bool, w: World)
      modifies this, ctrl
      ensures Value() == Step(old(Value()), Complete(success, w))
    {
      if outstanding == [] { return; }
      var slot := outstanding[0];
      outstanding := outstanding[1..];
      inFlight := false;
      if success { ctrl.OnApplied(slot, w.now); } else { ctrl.OnApplyFailed(slot, w.now); }
      var pending, from := pendingPick, pendingOrigin;
      pendingPick, pendingOrigin := 0, Unspecified;
      if pending != 0 && pending != slot {
        var a := ctrl.OnHotkey(pending);
        Execute(a, Pick, ExplicitOr(from), w);
        return;
      }
      Recheck(w);
    }

    method OnSuperseded(w: World)
      modifies this
      ensures Value() == Step(old(Value()), Supersede(w))
    {
      if outstanding == [] { return; }
      outstanding := outstanding[1..];
      inFlight := false;
    }

    method OnReload(cfg: Config, w: World)
      modifies this, ctrl
      ensures Value() == Step(old(Value()), Reload(cfg, w))
    {
      var a := ctrl.ApplyConfigChange(cfg);
      if !cfg.enabled { timer := None; }
      if a != NoAction {
        Execute(a, Revert, Foreground, w);
        return;
      }
      if cfg.enabled { Converge(w); }
    }

    method OnToggle(cfg: Config, w: World)
      modifies this, ctrl
      ensures Value() == Step(old(Value()), Toggle(cfg, w))
    {
      var enabled := !ctrl.autoEnabled;
      var a := ctrl.ApplyConfigChange(cfg.(enabled := enabled));
      if !enabled { timer := None; }
      Execute(a, Revert, Foreground, w);
    }
  }

  // ------------------------------------------------- invariants of every run

  /** What holds of the driver at time `now` in every run. */
  ghost predicate Good(d: Drv, now: int) {
    && Inv(d.ctrl, now)
    && |d.outstanding| == (if d.inFlight then 1 else 0)
    && (forall i :: 0 <= i < |d.outstanding| ==> ValidSlot(d.outstanding[i]))
    && (d.pendingPick == 0 || ValidSlot(d.pendingPick))
    && forall i :: 0 <= i < |d.issued| ==> d.issued[i].now <= now && (d.issued[i].cause == Timer ==> !d.issued[i].pinned)
  }

  lemma ControllerKeepsInv(c: Ctrl, w: World, suppressed: bool, slot: int, cfg: Config)
    requires Inv(c, w.now)
    ensures Inv(c.Resolved(w.target, w.now, suppressed).0, w.now)
    ensures Inv(c.Fired(w.target, w.now, suppressed).0, w.now)
    ensures Inv(c.Failed(slot, w.now), w.now)
    ensures Inv(c.Applied(slot, w.now), w.now)
    ensures Inv(c.Hotkey(slot).0, w.now)
    ensures Inv(c.ManualCustom(), w.now)
    ensures Inv(c.ConfigChange(cfg).0, w.now)
  {
    ResolvingKeepsInv(c, w, suppressed);
    SwitchingKeepsInv(c, w.now, slot, cfg);
  }

  lemma ResolvingKeepsInv(c: Ctrl, w: World, suppressed: bool)
    requires Inv(c, w.now)
    ensures Inv(c.Resolved(w.target, w.now, suppressed).0, w.now)
    ensures Inv(c.Fired(w.target, w.now, suppressed).0, w.now)
  {
  }

  lemma SwitchingKeepsInv(c: Ctrl, now: int, slot: int, cfg: Config)
    requires Inv(c, now)
    ensures Inv(c.Hotkey(slot).0, now)
    ensures Inv(c.ConfigChange(cfg).0, now)
  {
  }

  /** Timer attempts are only dispatched while no slot is pinned. */
  ghost predicate Dispatchable(d: Drv, a: Action, cause: Cause) {
    cause == Timer && a.Apply? ==> d.ctrl.pinnedSlot == 0
  }

  lemma AttemptKeepsGood(d: Drv, slot: int, cause: Cause, origin: Origin, w: World)
    requires Good(d, w.now) && Dispatchable(d, Apply(slot), cause)
    ensures Good(d.Attempt(slot, cause, origin, w).0, w.now)
    ensures !d.Attempt(slot, cause, origin, w).1 ==> d.Attempt(slot, cause, origin, w).0.pendingPick == 0
  {
    var (d1, queued, failed) := d.Start(slot, cause, origin, w);
    assert Inv(d1.ctrl, w.now);
    ControllerKeepsInv(d1.ctrl, w, false, slot, Config(false, 0, 0, 0));
  }

  lemma WithCtrlKeepsGood(d: Drv, c: Ctrl, timer: Option<int>, now: int)
    requires Good(d, now) && Inv(c, now)
    ensures Good(d.(ctrl := c), now)
    ensures Good(d.(ctrl := c, timer := timer), now)
  {
  }

  lemma {:induction false} ExecuteKeepsGood(d: Drv, a: Action, cause: Cause, origin: Origin, w: World)
    requires Good(d, w.now) && Dispatchable(d, a, cause)
    ensures Good(d.Execute(a, cause, origin, w), w.now)
    decreases d.pendingPick != 0, Rank(a)
  {
    match a
    case NoAction =>
    case Arm(_) =>
      WithCtrlKeepsGood(d, d.ctrl, d.Execute(a, cause, origin, w).timer, w.now);
    case Apply(slot) =>
      WithCtrlKeepsGood(d, d.ctrl, None, w.now);
      var (d1, queued) := d.(timer := None).Attempt(slot, cause, origin, w);
      AttemptKeepsGood(d.(timer := None), slot, cause, origin, w);
      if queued {
      } else if d.pendingPick != 0 && d.pendingPick != slot {
        PickKeepsGood(d1, d.pendingPick, ExplicitOr(d.pendingOrigin), w.(answer := w.nextAnswer));
      } else {
        RecheckKeepsGood(d1, w);
      }
    case ResumeAuto =>
      ConvergeKeepsGood(d, w);
  }

  lemma {:induction false} ConvergeKeepsGood(d: Drv, w: World)
    requires Good(d, w.now)
    ensures Good(d.Converge(w), w.now)
    decreases d.pendingPick != 0, 1
  {
    ControllerKeepsInv(d.ctrl, w, d.Suppressed(w), 0, Config(false, 0, 0, 0));
    var (c, re) := d.ctrl.Resolved(w.target, w.now, d.Suppressed(w));
    WithCtrlKeepsGood(d, c, None, w.now);
    ExecuteKeepsGood(d.(ctrl := c), re, Timer, Foreground, w);
  }

  lemma RecheckKeepsGood(d: Drv, w: World)
    requires Good(d, w.now)
    ensures Good(d.Recheck(w), w.now)
  {
    ControllerKeepsInv(d.ctrl, w, d.Suppressed(w), 0, Config(false, 0, 0, 0));
    WithCtrlKeepsGood(d, d.Recheck(w).ctrl, d.Recheck(w).timer, w.now);
  }

  lemma {:induction false} PickKeepsGood(d: Drv, slot: int, origin: Origin, w: World)
    requires Good(d, w.now)
    ensures Good(d.PickNow(slot, origin, w), w.now)
    decreases d.pendingPick != 0, 4
  {
    ControllerKeepsInv(d.ctrl, w, false, slot, Config(false, 0, 0, 0));
    var (c, a) := d.ctrl.Hotkey(slot);
    WithCtrlKeepsGood(d, c, None, w.now);
    ExecuteKeepsGood(d.(ctrl := c), a, Pick, origin, w);
  }

  lemma {:induction false} DispatchKeepsGood(d: Drv, c: Ctrl, timer: Option<int>, a: Action, cause: Cause, w: World)
    requires Good(d, w.now) && Inv(c, w.now) && (cause == Timer && a.Apply? ==> c.pinnedSlot == 0)
    ensures Good(d.(ctrl := c, timer := timer).Execute(a, cause, Foreground, w), w.now)
    ensures Good(d.(ctrl := c, timer := timer), w.now)
  {
    WithCtrlKeepsGood(d, c, timer, w.now);
    ExecuteKeepsGood(d.(ctrl := c, timer := timer), a, cause, Foreground, w);
  }

  lemma CompletionKeepsGood(d: Drv, success: bool, w: World)
    requires Good(d, w.now)
    ensures Good(Step(d, Complete(success, w)), w.now)
  {
    if d.outstanding != [] {
      var slot := d.outstanding[0];
      ControllerKeepsInv(d.ctrl, w, false, slot, Config(false, 0, 0, 0));
      var c := if success then d.ctrl.Applied(slot, w.now) else d.ctrl.Failed(slot, w.now);
      var done := d.(ctrl := c, inFlight := false, outstanding := d.outstanding[1..],
                     pendingPick := 0, pendingOrigin := Unspecified);
      assert Good(done, w.now);
      if d.pendingPick != 0 && d.pendingPick != slot {
        PickKeepsGood(done, d.pendingPick, ExplicitOr(d.pendingOrigin), w);
      } else {
        RecheckKeepsGood(done, w);
      }
    }
  }

  lemma StepKeepsGood(d: Drv, e: Event)
    requires Good(d, e.w.now)
    ensures Good(Step(d, e), e.w.now)
  {
    var w := e.w;
    match e
    case Detect(_) =>
      ConvergeKeepsGood(d, w);
    case TimerFires(_) =>
      ControllerKeepsInv(d.ctrl, w, d.Suppressed(w), 0, Config(false, 0, 0, 0));
      var (c, a) := d.ctrl.Fired(w.target, w.now, d.Suppressed(w));
      DispatchKeepsGood(d, c, None, a, Timer, w);
    case PickSlot(slot, origin, _) =>
      PickKeepsGood(d, slot, origin, w);
    case Complete(success, _) =>
      CompletionKeepsGood(d, success, w);
    case Supersede(_) =>
    case CustomApply(_) =>
      ControllerKeepsInv(d.ctrl, w, false, 0, Config(false, 0, 0, 0));
    case Reload(_, _) =>
      ConfigEventKeepsGood(d, e);
    case Toggle(_, _) =>
      ConfigEventKeepsGood(d, e);
  }

  lemma ConfigEventKeepsGood(d: Drv, e: Event)
    requires Good(d, e.w.now) && (e.Reload? || e.Toggle?)
    ensures Good(Step(d, e), e.w.now)
  {
    var w := e.w;
    var enabled := if e.Reload? then e.cfg.enabled else !d.ctrl.autoEnabled;
    var cfg := e.cfg.(enabled := enabled);
    ControllerKeepsInv(d.ctrl, w, false, 0, cfg);
    var (c, a) := d.ctrl.ConfigChange(cfg);
    var timer := if enabled then d.timer else None;
    DispatchKeepsGood(d, c, timer, a, Revert, w);
    ConvergeKeepsGood(d.(ctrl := c, timer := timer), w);
  }

  lemma GoodLater(d: Drv, now: int, later: int)
    requires Good(d, now) && now <= later
    ensures Good(d, later)
  {
  }

  /** In every run: at most one request in flight, a pin only in enabled manual mode, no timer
      attempt while pinned, and the controller invariant behind the timing theorem. */
  lemma {:induction false} EveryRunIsGood(cfg: Config, es: seq<Event>, start: int)
    requires -1000000 <= start && InOrder(es, start)
    ensures Good(Run(InitialDrv(cfg), es), if es == [] then start else es[|es| - 1].w.now)
  {
    if es != [] {
      var front := es[..|es| - 1];
      EveryRunIsGood(cfg, front, start);
      GoodLater(Run(InitialDrv(cfg), front), if front == [] then start else front[|front| - 1].w.now, es[|es| - 1].w.now);
      StepKeepsGood(Run(InitialDrv(cfg), front), es[|es| - 1]);
    }
  }
}
