/** Which pick a completion executes, when a deferred pick is lost, and when a stale one survives. */
module DriverPicks {
  import opened Controller
  import opened Driver
  import opened Options
  import opened Slots

  // ------------------------------------------------- dispatching while in flight

  /** While a request is in flight nothing is issued: an apply is skipped, and consumes the deferred pick. */
  lemma {:induction false} SkippedExecute(d: Drv, a: Action, cause: Cause, origin: Origin, w: World)
    requires d.inFlight
    ensures
      var after := d.Execute(a, cause, origin, w);
      && after.inFlight && after.outstanding == d.outstanding && after.issued == d.issued
      && after.pendingPick == if a.Apply? then 0 else d.pendingPick
    decreases d.pendingPick != 0, Rank(a)
  {
    match a
    case NoAction =>
    case Arm(_) =>
    case Apply(slot) =>
      var (d1, queued) := d.(timer := None).Attempt(slot, cause, origin, w);
      assert !queued && d1.inFlight && d1.pendingPick == 0 && d1.issued == d.issued && d1.outstanding == d.outstanding;
      if d.pendingPick != 0 && d.pendingPick != slot {
        SkippedPick(d1, d.pendingPick, ExplicitOr(d.pendingOrigin), w.(answer := w.nextAnswer));
      }
    case ResumeAuto =>
      SkippedConverge(d, w);
  }

  lemma {:induction false} SkippedConverge(d: Drv, w: World)
    requires d.inFlight
    ensures
      var after := d.Converge(w);
      after.inFlight && after.outstanding == d.outstanding && after.issued == d.issued && after.pendingPick == d.pendingPick
    decreases d.pendingPick != 0, 1
  {
    var (c, re) := d.ctrl.Resolved(w.target, w.now, d.Suppressed(w));
    assert re == NoAction;
    SkippedExecute(d.(ctrl := c), re, Timer, Foreground, w);
  }

  lemma {:induction false} SkippedPick(d: Drv, slot: int, origin: Origin, w: World)
    requires d.inFlight && d.pendingPick == 0
    ensures
      var after := d.PickNow(slot, origin, w);
      after.inFlight && after.outstanding == d.outstanding && after.issued == d.issued && after.pendingPick == 0
    decreases d.pendingPick != 0, 4
  {
    var (c, a) := d.ctrl.Hotkey(slot);
    SkippedExecute(d.(ctrl := c), a, Pick, origin, w);
  }

  // --------------------------------------------------- what keeps a deferred pick

  /** The slot a configuration falls back to: its default slot, or slot 1 when that is none. */
  function DefaultSlotOf(cfg: Config): int {
    if 1 <= cfg.defaultSlot <= 5 then cfg.defaultSlot else 1
  }

  /** The event turns automatic switching off while another slot than the default is applied. */
  predicate DropsPick(d: Drv, e: Event) {
    && d.ctrl.autoEnabled && (e.Toggle? || (e.Reload? && !e.cfg.enabled))
    && DefaultSlotOf(e.cfg) != d.ctrl.appliedSlot
  }

  /** Events that leave the request in flight to the worker. */
  predicate KeepsRequest(e: Event) {
    !e.Complete? && !e.Supersede?
  }

  /** Every such event issues nothing; the deferred pick is replaced by a newer one, dropped by a
      revert, and otherwise kept. */
  lemma EventWhileInFlight(d: Drv, e: Event)
    requires d.inFlight && KeepsRequest(e)
    ensures
      var after := Step(d, e);
      && after.inFlight && after.outstanding == d.outstanding && after.issued == d.issued
      && after.pendingPick == (if DropsPick(d, e) then 0
                               else if e.PickSlot? && ValidSlot(e.slot) then e.slot
                               else d.pendingPick)
  {
    var w := e.w;
    match e
    case Detect(_) =>
    case TimerFires(_) =>
      var (c, a) := d.ctrl.Fired(w.target, w.now, d.Suppressed(w));
      SkippedExecute(d.(ctrl := c, timer := None), a, Timer, Foreground, w);
    case PickSlot(_, _, _) =>
    case CustomApply(_) =>
    case Reload(cfg, _) =>
      var (c, a) := d.ctrl.ConfigChange(cfg);
      var d1 := d.(ctrl := c, timer := if cfg.enabled then d.timer else None);
      SkippedExecute(d1, a, Revert, Foreground, w);
      SkippedConverge(d1, w);
    case Toggle(cfg, _) =>
      var enabled := !d.ctrl.autoEnabled;
      var (c, a) := d.ctrl.ConfigChange(cfg.(enabled := enabled));
      SkippedExecute(d.(ctrl := c, timer := if enabled then d.timer else None), a, Revert, Foreground, w);
  }

  /** A deferred pick survives an event exactly when the event does not turn automatic switching off
      with a slot other than the default applied. */
  lemma PickSurvivesExactlyWhen(d: Drv, e: Event)
    requires d.inFlight && d.pendingPick != 0 && KeepsRequest(e)
    ensures Step(d, e).pendingPick != 0 <==> !DropsPick(d, e)
  {
    EventWhileInFlight(d, e);
  }

  /** The pick that waits after `es`: the latest valid one since the last revert that dropped it. */
  ghost function LatestPick(d: Drv, es: seq<Event>): int {
    if es == [] then d.pendingPick
    else
      var n := |es| - 1;
      if DropsPick(Run(d, es[..n]), es[n]) then 0
      else if es[n].PickSlot? && ValidSlot(es[n].slot) then es[n].slot
      else LatestPick(d, es[..n])
  }

  /** While a request is in flight, picks are deferred, the latest one wins and nothing else is issued. */
  lemma {:induction false} LatestPickIsDeferred(d: Drv, es: seq<Event>)
    requires d.inFlight && forall i :: 0 <= i < |es| ==> KeepsRequest(es[i])
    ensures Run(d, es).inFlight && Run(d, es).outstanding == d.outstanding && Run(d, es).issued == d.issued
    ensures Run(d, es).pendingPick == LatestPick(d, es)
  {
    if es != [] {
      LatestPickIsDeferred(d, es[..|es| - 1]);
      EventWhileInFlight(Run(d, es[..|es| - 1]), es[|es| - 1]);
    }
  }

  // ------------------------------------------------------- dispatching a pick

  /** Dispatching a pick issues exactly that slot, or nothing when it releases its own pin. Only when
      it is not queued does it also drain a pick left behind by a superseded request. */
  lemma {:induction false} PickIssues(d: Drv, slot: int, origin: Origin, w: World)
    requires !d.inFlight && ValidSlot(slot) && (d.pendingPick == 0 || ValidSlot(d.pendingPick))
    ensures
      var after := d.PickNow(slot, origin, w);
      var resumes := d.ctrl.autoEnabled && d.ctrl.manual && d.ctrl.pinnedSlot == slot;
      var drains := !resumes && w.answer != Queue && d.pendingPick != 0 && d.pendingPick != slot;
      var own := if resumes then [] else [Issue(w.now, slot, Pick, origin, d.ctrl.autoEnabled)];
      var stale := if drains then [Issue(w.now, d.pendingPick, Pick, ExplicitOr(d.pendingOrigin), d.ctrl.autoEnabled)] else [];
      && after.issued == d.issued + own + stale
      && after.pendingPick == (if resumes || w.answer == Queue then d.pendingPick else 0)
      && (resumes ==> !after.inFlight)
      && (w.answer == Queue && !resumes ==>
            && after.inFlight && after.outstanding == d.outstanding + [slot]
            && (d.ctrl.autoEnabled ==> after.ctrl.pinnedSlot == slot && after.ctrl.manual)
            && after.ctrl.autoEnabled == d.ctrl.autoEnabled)
    decreases d.pendingPick != 0
  {
    var (c, a) := d.ctrl.Hotkey(slot);
    var d1 := d.(ctrl := c);
    if a == ResumeAuto {
      var (c2, re) := c.Resolved(w.target, w.now, d1.Suppressed(w));
      assert re.Arm? || re.NoAction?;
      assert d1.Converge(w) == d1.(ctrl := c2).Execute(re, Timer, Foreground, w);
    } else {
      var (d2, queued) := d1.(timer := None).Attempt(slot, Pick, origin, w);
      if !queued && d.pendingPick != 0 && d.pendingPick != slot {
        var w' := w.(answer := w.nextAnswer);
        assert d1.Execute(a, Pick, origin, w) == d2.PickNow(d.pendingPick, ExplicitOr(d.pendingOrigin), w');
        PickIssues(d2, d.pendingPick, ExplicitOr(d.pendingOrigin), w');
      } else {
        assert d1.Execute(a, Pick, origin, w) == if queued then d2 else d2.Recheck(w);
      }
    }
  }

  /** The completion of the request in flight: the deferred pick is issued, and only it, when it
      differs from the completed slot and does not release its own pin. */
  ghost predicate Executes(before: Drv, after: Drv, pick: int) {
    var resumes := before.ctrl.autoEnabled && before.ctrl.manual && before.ctrl.pinnedSlot == pick;
    && |before.outstanding| == 1
    && (pick != 0 && pick != before.outstanding[0] && !resumes ==>
          && |after.issued| == |before.issued| + 1 && before.issued <= after.issued
          && after.issued[|before.issued|].slot == pick && after.issued[|before.issued|].cause == Pick
          && Explicit(after.issued[|before.issued|].origin))
    && (pick == 0 || pick == before.outstanding[0] || resumes ==> after.issued == before.issued)
    && after.pendingPick == 0
  }

  lemma CompletionExecutesThePick(d: Drv, success: bool, w: World)
    requires d.inFlight && |d.outstanding| == 1 && ValidSlot(d.outstanding[0])
    requires d.pendingPick == 0 || ValidSlot(d.pendingPick)
    ensures Executes(d, Step(d, Complete(success, w)), d.pendingPick)
  {
    var slot := d.outstanding[0];
    var c := if success then d.ctrl.Applied(slot, w.now) else d.ctrl.Failed(slot, w.now);
    var done := d.(ctrl := c, inFlight := false, outstanding := d.outstanding[1..],
                   pendingPick := 0, pendingOrigin := Unspecified);
    if d.pendingPick != 0 && d.pendingPick != slot {
      PickIssues(done, d.pendingPick, ExplicitOr(d.pendingOrigin), w);
    }
  }

  /** Whatever happens while the request is in flight, its completion executes exactly the latest
      pick that was not dropped. */
  lemma {:induction false} CompletionExecutesLatestPick(d: Drv, es: seq<Event>, success: bool, w: World)
    requires d.inFlight && |d.outstanding| == 1 && ValidSlot(d.outstanding[0])
    requires d.pendingPick == 0 || ValidSlot(d.pendingPick)
    requires forall i :: 0 <= i < |es| ==> KeepsRequest(es[i])
    ensures Executes(Run(d, es), Step(Run(d, es), Complete(success, w)), LatestPick(d, es))
  {
    LatestPickIsDeferred(d, es);
    LatestPickIsASlot(d, es);
    CompletionExecutesThePick(Run(d, es), success, w);
  }

  lemma {:induction false} LatestPickIsASlot(d: Drv, es: seq<Event>)
    requires d.pendingPick == 0 || ValidSlot(d.pendingPick)
    ensures LatestPick(d, es) == 0 || ValidSlot(LatestPick(d, es))
  {
    if es != [] { LatestPickIsASlot(d, es[..|es| - 1]); }
  }

  // ------------------------------------------------------------- whole runs

  /** From an idle driver a handler made an attempt that was not queued, or a second one. */
  ghost predicate Consumed(before: Drv, after: Drv) {
    after.issued != before.issued && !(after.inFlight && |after.issued| == |before.issued| + 1)
  }

  /** A pick left behind in an idle driver stays exactly until an attempt that is not queued. */
  ghost predicate KeepsUnlessConsumed(before: Drv, after: Drv) {
    after.pendingPick == if Consumed(before, after) then 0 else before.pendingPick
  }

  lemma {:induction false} ExecuteKeepsUnlessConsumed(d: Drv, a: Action, cause: Cause, origin: Origin, w: World)
    requires !d.inFlight && (d.pendingPick == 0 || ValidSlot(d.pendingPick)) && (a.Apply? ==> ValidSlot(a.slot))
    ensures KeepsUnlessConsumed(d, d.Execute(a, cause, origin, w))
    decreases Rank(a)
  {
    match a
    case NoAction =>
    case Arm(_) =>
    case Apply(slot) =>
      var (d1, queued) := d.(timer := None).Attempt(slot, cause, origin, w);
      assert |d1.issued| == |d.issued| + 1;
      if !queued && d.pendingPick != 0 && d.pendingPick != slot {
        PickIssues(d1, d.pendingPick, ExplicitOr(d.pendingOrigin), w.(answer := w.nextAnswer));
      }
    case ResumeAuto =>
      ConvergeKeepsUnlessConsumed(d, w);
  }

  lemma {:induction false} ConvergeKeepsUnlessConsumed(d: Drv, w: World)
    requires !d.inFlight
    ensures KeepsUnlessConsumed(d, d.Converge(w)) && d.Converge(w).pendingPick == d.pendingPick
  {
    var (c, re) := d.ctrl.Resolved(w.target, w.now, d.Suppressed(w));
    assert re.Arm? || re.NoAction?;
    assert d.Converge(w) == d.(ctrl := c).Execute(re, Timer, Foreground, w);
  }

  lemma ConfigEventKeepsUnlessConsumed(d: Drv, e: Event)
    requires !d.inFlight && (d.pendingPick == 0 || ValidSlot(d.pendingPick)) && (e.Reload? || e.Toggle?)
    ensures KeepsUnlessConsumed(d, Step(d, e))
  {
    var enabled := if e.Reload? then e.cfg.enabled else !d.ctrl.autoEnabled;
    var (c, a) := d.ctrl.ConfigChange(e.cfg.(enabled := enabled));
    var d1 := d.(ctrl := c, timer := if enabled then d.timer else None);
    ExecuteKeepsUnlessConsumed(d1, a, Revert, Foreground, e.w);
    ConvergeKeepsUnlessConsumed(d1, e.w);
  }

  lemma IdleStepKeepsUnlessConsumed(d: Drv, e: Event)
    requires !d.inFlight && d.outstanding == [] && (d.pendingPick == 0 || ValidSlot(d.pendingPick))
    ensures KeepsUnlessConsumed(d, Step(d, e))
  {
    var w := e.w;
    match e
    case Detect(_) =>
      ConvergeKeepsUnlessConsumed(d, w);
    case TimerFires(_) =>
      var (c, a) := d.ctrl.Fired(w.target, w.now, d.Suppressed(w));
      ExecuteKeepsUnlessConsumed(d.(ctrl := c, timer := None), a, Timer, Foreground, w);
    case PickSlot(slot, origin, _) =>
      if ValidSlot(slot) {
        var (c, a) := d.ctrl.Hotkey(slot);
        ExecuteKeepsUnlessConsumed(d.(ctrl := c), a, Pick, origin, w);
      }
    case Complete(_, _) =>
    case Supersede(_) =>
    case CustomApply(_) =>
    case Reload(_, _) =>
      ConfigEventKeepsUnlessConsumed(d, e);
    case Toggle(_, _) =>
      ConfigEventKeepsUnlessConsumed(d, e);
  }

  lemma CompletionDefersNothing(d: Drv, success: bool, w: World)
    requires |d.outstanding| == 1 && ValidSlot(d.outstanding[0]) && d.inFlight && (d.pendingPick == 0 || ValidSlot(d.pendingPick))
    ensures Step(d, Complete(success, w)).pendingPick == 0
  {
    CompletionExecutesThePick(d, success, w);
  }

  /** An event that settles the deferred pick itself: a newer pick, or a revert. */
  predicate Touches(d: Drv, e: Event) {
    DropsPick(d, e) || (e.PickSlot? && ValidSlot(e.slot))
  }

  /** The pick that waits behind the request in flight, read off the events: the latest valid pick
      since that request was issued, unless a revert dropped it. */
  ghost function WaitingPick(cfg: Config, es: seq<Event>): int {
    if es == [] then 0
    else
      var n := |es| - 1;
      var before := Run(InitialDrv(cfg), es[..n]);
      if !before.inFlight || !KeepsRequest(es[n]) then 0
      else if DropsPick(before, es[n]) then 0
      else if es[n].PickSlot? && ValidSlot(es[n].slot) then es[n].slot
      else WaitingPick(cfg, es[..n])
  }

  /** The pick a superseded request left behind, until a completion, an attempt that is not queued,
      a newer pick behind another request or a revert settles it. */
  ghost function LeftBehind(cfg: Config, es: seq<Event>): int {
    if es == [] then 0
    else
      var n := |es| - 1;
      var before, after := Run(InitialDrv(cfg), es[..n]), Run(InitialDrv(cfg), es);
      var was := LeftBehind(cfg, es[..n]);
      if !before.inFlight then (if Consumed(before, after) then 0 else was)
      else if es[n].Complete? then 0
      else if es[n].Supersede? then (if WaitingPick(cfg, es[..n]) != 0 then WaitingPick(cfg, es[..n]) else was)
      else if Touches(before, es[n]) then 0
      else was
  }

  /** The pick the next completion will execute. */
  ghost function DuePick(cfg: Config, es: seq<Event>): int {
    if WaitingPick(cfg, es) != 0 then WaitingPick(cfg, es) else LeftBehind(cfg, es)
  }

  /** In every run the deferred pick is the one that waits, or failing that the one left behind; an idle
      driver only ever has one left behind. */
  lemma {:induction false} RunsDeferTheDuePick(cfg: Config, es: seq<Event>, start: int)
    requires -1000000 <= start && InOrder(es, start)
    ensures Run(InitialDrv(cfg), es).pendingPick == DuePick(cfg, es)
    ensures !Run(InitialDrv(cfg), es).inFlight ==> WaitingPick(cfg, es) == 0
  {
    if es != [] {
      var n := |es| - 1;
      var before := Run(InitialDrv(cfg), es[..n]);
      RunsDeferTheDuePick(cfg, es[..n], start);
      EveryRunIsGood(cfg, es[..n], start);
      if !before.inFlight {
        IdleStepKeepsUnlessConsumed(before, es[n]);
      } else if es[n].Complete? {
        CompletionDefersNothing(before, es[n].success, es[n].w);
      } else if !es[n].Supersede? {
        EventWhileInFlight(before, es[n]);
      }
    }
  }

  /** Without a superseded request nothing is left behind: only behind a request in flight can a pick wait. */
  lemma {:induction false} OnlySupersedeLeavesAPick(cfg: Config, es: seq<Event>)
    requires forall i :: 0 <= i < |es| ==> !es[i].Supersede?
    ensures LeftBehind(cfg, es) == 0 && DuePick(cfg, es) == WaitingPick(cfg, es)
  {
    if es != [] { OnlySupersedeLeavesAPick(cfg, es[..|es| - 1]); }
  }

  lemma {:induction false} WithoutSupersedeAnIdleDriverDefersNothing(cfg: Config, es: seq<Event>, start: int)
    requires -1000000 <= start && InOrder(es, start)
    requires forall i :: 0 <= i < |es| ==> !es[i].Supersede?
    ensures !Run(InitialDrv(cfg), es).inFlight ==> Run(InitialDrv(cfg), es).pendingPick == 0
  {
    RunsDeferTheDuePick(cfg, es, start);
    OnlySupersedeLeavesAPick(cfg, es);
  }

  /** Event `m` leaves a pick that was left behind as it is: no attempt that is not queued, and, while a
      request is in flight, no completion, no newer pick, no revert and no other pick left behind. */
  ghost predicate LeavesIt(cfg: Config, es: seq<Event>, m: nat)
    requires m < |es|
  {
    var before, after := Run(InitialDrv(cfg), es[..m]), Run(InitialDrv(cfg), es[..m + 1]);
    if !before.inFlight then !Consumed(before, after)
    else if es[m].Supersede? then WaitingPick(cfg, es[..m]) == 0
    else !es[m].Complete? && !Touches(before, es[m])
  }

  /** Event `k` supersedes a request with this pick waiting behind it, and nothing settles it since. */
  ghost predicate LeftAt(cfg: Config, es: seq<Event>, k: nat, pick: int) {
    && k < |es| && es[k].Supersede? && Run(InitialDrv(cfg), es[..k]).inFlight && WaitingPick(cfg, es[..k]) == pick
    && forall m: nat :: k < m < |es| ==> LeavesIt(cfg, es, m)
  }

  lemma LeavesItInPrefix(cfg: Config, es: seq<Event>, m: nat)
    requires m < |es| - 1
    ensures LeavesIt(cfg, es[..|es| - 1], m) == LeavesIt(cfg, es, m)
  {
    var front := es[..|es| - 1];
    assert front[..m] == es[..m] && front[..m + 1] == es[..m + 1];
  }

  lemma LeftAtInPrefix(cfg: Config, es: seq<Event>, k: nat, pick: int)
    requires k < |es| - 1
    ensures LeftAt(cfg, es, k, pick) <==> LeftAt(cfg, es[..|es| - 1], k, pick) && LeavesIt(cfg, es, |es| - 1)
  {
    var front := es[..|es| - 1];
    assert front[..k] == es[..k];
    forall m: nat | k < m < |es| - 1
      ensures LeavesIt(cfg, front, m) == LeavesIt(cfg, es, m)
    {
      LeavesItInPrefix(cfg, es, m);
    }
  }

  /** What is left behind is the pick that waited behind some superseded request, as long as nothing
      has settled it since. */
  lemma {:induction false} LeftBehindMeans(cfg: Config, es: seq<Event>, pick: int)
    requires pick != 0
    ensures LeftBehind(cfg, es) == pick <==> exists k: nat :: LeftAt(cfg, es, k, pick)
  {
    if es != [] {
      var n := |es| - 1;
      LeftBehindMeans(cfg, es[..n], pick);
      assert es[..n + 1] == es;
      if LeftBehind(cfg, es) == pick {
        if LeavesIt(cfg, es, n) {
          var k: nat :| LeftAt(cfg, es[..n], k, pick);
          LeftAtInPrefix(cfg, es, k, pick);
        } else {
          assert LeftAt(cfg, es, n, pick);
        }
      }
      if k: nat :| LeftAt(cfg, es, k, pick) {
        if k < n { LeftAtInPrefix(cfg, es, k, pick); }
      }
    }
  }

  /** In every run every completion executes exactly the due pick. */
  lemma {:induction false} EveryCompletionExecutesTheDuePick(cfg: Config, es: seq<Event>, start: int, success: bool, w: World)
    requires -1000000 <= start && InOrder(es, start) && Run(InitialDrv(cfg), es).inFlight
    ensures
      var before := Run(InitialDrv(cfg), es);
      Executes(before, Step(before, Complete(success, w)), DuePick(cfg, es))
  {
    RunsDeferTheDuePick(cfg, es, start);
    EveryRunIsGood(cfg, es, start);
    CompletionExecutesThePick(Run(InitialDrv(cfg), es), success, w);
  }

  /** Turning automatic switching off while a request is in flight drops the deferred pick: nothing
      is issued for it, neither then nor by the completion. */
  lemma RevertDropsThePick(cfg: Config)
    requires cfg == Config(true, 1, 800, 4000)
    ensures var es := [PickSlot(3, Hotkey, SampleWorld(10, 1)), Complete(true, SampleWorld(11, 1)),
                       PickSlot(1, Hotkey, SampleWorld(12, 1)), PickSlot(2, Hotkey, SampleWorld(13, 1)),
                       Toggle(cfg, SampleWorld(14, 1)), Complete(true, SampleWorld(15, 1))];
            var end := Run(InitialDrv(cfg), es);
            && Run(InitialDrv(cfg), es[..4]).pendingPick == 2
            && Run(InitialDrv(cfg), es[..5]).pendingPick == 0
            && |end.issued| == 2 && end.issued[0].slot == 3 && end.issued[1].slot == 1
  {
    var e0, e1 := PickSlot(3, Hotkey, SampleWorld(10, 1)), Complete(true, SampleWorld(11, 1));
    var e2, e3 := PickSlot(1, Hotkey, SampleWorld(12, 1)), PickSlot(2, Hotkey, SampleWorld(13, 1));
    var e4, e5 := Toggle(cfg, SampleWorld(14, 1)), Complete(true, SampleWorld(15, 1));
    var d0 := InitialDrv(cfg);
    var d1 := Step(d0, e0);
    PickIssues(d0, 3, Hotkey, e0.w);
    assert d1.inFlight && d1.outstanding == [3] && d1.pendingPick == 0 && |d1.issued| == 1;
    var d2 := Step(d1, e1);
    assert d2.ctrl.appliedSlot == 3 && d2.ctrl.pinnedSlot == 3 && d2.ctrl.autoEnabled;
    assert !d2.inFlight && d2.outstanding == [] && d2.pendingPick == 0 && d2.issued == d1.issued;
    var d3 := Step(d2, e2);
    PickIssues(d2, 1, Hotkey, e2.w);
    assert d3.ctrl.appliedSlot == 3;
    var d4 := Step(d3, e3);
    EventWhileInFlight(d3, e3);
    var d5 := Step(d4, e4);
    EventWhileInFlight(d4, e4);
    CompletionExecutesThePick(d5, true, e5.w);
    var es := [e0, e1, e2, e3, e4, e5];
    assert es[..5] == [e0, e1, e2, e3, e4] && es[..4] == [e0, e1, e2, e3] && es[..5][..4] == es[..4];
    assert [e0, e1, e2, e3][..3] == [e0, e1, e2] && [e0, e1, e2][..2] == [e0, e1];
    assert [e0, e1][..1] == [e0] && [e0][..0] == [];
    assert Run(d0, [e0]) == d1;
    assert Run(d0, [e0, e1]) == d2;
    assert Run(d0, [e0, e1, e2]) == d3;
    assert Run(d0, es[..4]) == d4;
    assert Run(d0, es[..5]) == d5;
  }

  /** After a supersede the deferred pick stays behind, so a later completion executes it over a newer pick. */
  lemma StalePickOverridesNewerPick(cfg: Config)
    requires cfg == Config(true, 1, 800, 4000)
    ensures var es := [PickSlot(1, Hotkey, SampleWorld(10, 1)), PickSlot(2, Hotkey, SampleWorld(11, 1)),
                       Supersede(SampleWorld(12, 1)), PickSlot(3, Hotkey, SampleWorld(13, 1)),
                       Complete(true, SampleWorld(14, 1))];
            var end := Run(InitialDrv(cfg), es);
            end.outstanding == [2] && end.ctrl.pinnedSlot == 2 && |end.issued| == 3 && end.issued[2].slot == 2
  {
    var e0, e1, e2 := PickSlot(1, Hotkey, SampleWorld(10, 1)), PickSlot(2, Hotkey, SampleWorld(11, 1)), Supersede(SampleWorld(12, 1));
    var e3, e4 := PickSlot(3, Hotkey, SampleWorld(13, 1)), Complete(true, SampleWorld(14, 1));
    var d0 := InitialDrv(cfg);
    var d1 := Step(d0, e0);
    PickIssues(d0, 1, Hotkey, e0.w);
    assert d1.inFlight && d1.outstanding == [1] && d1.pendingPick == 0 && |d1.issued| == 1;
    var d2 := Step(d1, e1);
    assert d2.inFlight && d2.outstanding == [1] && d2.pendingPick == 2 && |d2.issued| == 1;
    var d3 := Step(d2, e2);
    assert !d3.inFlight && d3.outstanding == [] && d3.pendingPick == 2 && |d3.issued| == 1;
    var d4 := Step(d3, e3);
    PickIssues(d3, 3, Hotkey, e3.w);
    assert d4.inFlight && d4.outstanding == [3] && d4.pendingPick == 2 && |d4.issued| == 2 && d4.ctrl.pinnedSlot == 3;
    var d5 := Step(d4, e4);
    PickIssues(d4.(ctrl := d4.ctrl.Applied(3, 14), inFlight := false, outstanding := d4.outstanding[1..],
                   pendingPick := 0, pendingOrigin := Unspecified), 2, Hotkey, e4.w);
    assert d5.outstanding == [2] && |d5.issued| == 3 && d5.issued[2].slot == 2 && d5.ctrl.pinnedSlot == 2;
    var es := [e0, e1, e2, e3, e4];
    assert es[..4] == [e0, e1, e2, e3] && [e0, e1, e2, e3][..3] == [e0, e1, e2];
    assert [e0, e1, e2][..2] == [e0, e1] && [e0, e1][..1] == [e0] && [e0][..0] == [];
    assert Run(d0, [e0]) == d1;
    assert Run(d0, [e0, e1]) == d2;
    assert Run(d0, [e0, e1, e2]) == d3;
    assert Run(d0, [e0, e1, e2, e3]) == d4;
    assert Run(d0, es) == d5;
  }
}
