/** The failure backoff over whole driver runs: between two successes, picks or configuration changes. */
module DriverBackoff {
  import opened Ints
  import opened Controller
  import Backoff
  import opened Driver
  import opened Options
  import opened Slots

  /** The slot an event reports or makes fail, 0 if none: a failed completion, or a timer attempt that is
      refused at once. */
  function FailingSlot(d: Drv, e: Event): int {
    match e
    case Complete(success, _) => if !success && d.outstanding != [] then d.outstanding[0] else 0
    case TimerFires(w) => if TimerApplies(d, w).Some? && w.answer == Refuse then TimerApplies(d, w).value else 0
    case _ => 0
  }

  /** The slot a firing of the timer attempts, if it attempts one. */
  function TimerApplies(d: Drv, w: World): Option<int> {
    var a := d.ctrl.Fired(w.target, w.now, d.Suppressed(w)).1;
    if a.Apply? then Some(a.slot) else None
  }

  /** No pick, no configuration change and no success, and nothing but `slot` fails. */
  predicate Quiet(d: Drv, e: Event, slot: int) {
    && !e.PickSlot? && !e.Reload? && !e.Toggle?
    && (e.Complete? && d.outstanding != [] ==> !e.success)
    && (e.TimerFires? && TimerApplies(d, e.w).Some? ==> e.w.answer != Already)
    && (FailingSlot(d, e) == 0 || FailingSlot(d, e) == slot)
  }

  ghost predicate QuietRun(d: Drv, es: seq<Event>, slot: int) {
    forall i: nat :: i < |es| ==> Quiet(Run(d, es[..i]), es[i], slot)
  }

  ghost predicate FailsAt(d: Drv, es: seq<Event>, i: nat) {
    i < |es| && FailingSlot(Run(d, es[..i]), es[i]) != 0
  }

  /** Failures reported in the run, and the moment of the last one. */
  ghost function Failures(d: Drv, es: seq<Event>): nat {
    if es == [] then 0 else Failures(d, es[..|es| - 1]) + (if FailsAt(d, es, |es| - 1) then 1 else 0)
  }

  ghost function LastFailure(d: Drv, es: seq<Event>): int {
    if es == [] then 0 else if FailsAt(d, es, |es| - 1) then es[|es| - 1].w.now else LastFailure(d, es[..|es| - 1])
  }

  predicate SameFailure(a: Ctrl, b: Ctrl) {
    a.failedSlot == b.failedSlot && a.failures == b.failures && a.retryNotBeforeMs == b.retryNotBeforeMs && a.minIntervalMs == b.minIntervalMs
  }

  lemma RecheckKeepsFailure(d: Drv, w: World)
    ensures SameFailure(d.Recheck(w).ctrl, d.ctrl) && d.Recheck(w).pendingPick == d.pendingPick
  {
  }

  lemma {:induction false} ConvergeKeepsFailure(d: Drv, w: World)
    ensures SameFailure(d.Converge(w).ctrl, d.ctrl) && d.Converge(w).pendingPick == d.pendingPick
  {
    var (c, re) := d.ctrl.Resolved(w.target, w.now, d.Suppressed(w));
    assert re.Arm? || re.NoAction?;
    assert d.Converge(w) == d.(ctrl := c).Execute(re, Timer, Foreground, w);
  }

  lemma FiringFails(d: Drv, w: World, slot: int)
    requires ValidSlot(slot) && d.pendingPick == 0 && Quiet(d, TimerFires(w), slot)
    ensures var after := Step(d, TimerFires(w));
      && after.pendingPick == 0
      && SameFailure(after.ctrl, if FailingSlot(d, TimerFires(w)) != 0 then d.ctrl.Failed(slot, w.now) else d.ctrl)
  {
    var (c, a) := d.ctrl.Fired(w.target, w.now, d.Suppressed(w));
    var d1 := d.(ctrl := c, timer := None);
    if a.Apply? {
      var (d2, queued) := d1.Attempt(a.slot, Timer, Foreground, w);
      assert !d.inFlight && ValidSlot(a.slot);
      RecheckKeepsFailure(d2, w);
      assert d1.Execute(a, Timer, Foreground, w) == if queued then d2 else d2.Recheck(w);
    }
  }

  lemma CompletionFails(d: Drv, success: bool, w: World, slot: int)
    requires ValidSlot(slot) && d.pendingPick == 0 && Quiet(d, Complete(success, w), slot)
    requires d.outstanding != [] ==> ValidSlot(d.outstanding[0])
    ensures var after := Step(d, Complete(success, w));
      && after.pendingPick == 0
      && SameFailure(after.ctrl, if FailingSlot(d, Complete(success, w)) != 0 then d.ctrl.Failed(slot, w.now) else d.ctrl)
  {
    if d.outstanding != [] {
      RecheckKeepsFailure(d.(ctrl := d.ctrl.Failed(slot, w.now), inFlight := false, outstanding := d.outstanding[1..],
                             pendingPick := 0, pendingOrigin := Unspecified), w);
    }
  }

  /** Only a failure touches the failure record. */
  lemma QuietStep(d: Drv, e: Event, slot: int)
    requires ValidSlot(slot) && d.pendingPick == 0 && Quiet(d, e, slot)
    requires d.outstanding != [] ==> ValidSlot(d.outstanding[0])
    ensures
      && Step(d, e).pendingPick == 0
      && SameFailure(Step(d, e).ctrl, if FailingSlot(d, e) != 0 then d.ctrl.Failed(slot, e.w.now) else d.ctrl)
  {
    match e
    case Detect(w) => ConvergeKeepsFailure(d, w);
    case TimerFires(w) => FiringFails(d, w, slot);
    case Complete(success, w) => CompletionFails(d, success, w, slot);
    case Supersede(_) =>
    case CustomApply(_) =>
  }

  /** The failure record, k failures into a quiet stretch. */
  ghost predicate Records(d: Drv, c: Ctrl, es: seq<Event>, slot: int) {
    var k := Failures(d, es);
    && c.minIntervalMs == d.ctrl.minIntervalMs
    && (k == 0 ==> c.failedSlot == d.ctrl.failedSlot)
    && (k > 0 ==>
          && c.failedSlot == slot && c.failures == Min(k, MAX_COUNTED_FAILURES)
          && c.retryNotBeforeMs == LastFailure(d, es) + Wait(d.ctrl.EffectiveInterval(), k))
  }

  /** One more failure doubles the recorded wait up to its cap. */
  lemma FailureRecords(d: Drv, c: Ctrl, es: seq<Event>, slot: int, now: int)
    requires ValidSlot(slot) && d.ctrl.failedSlot != slot && es != [] && FailsAt(d, es, |es| - 1) && es[|es| - 1].w.now == now
    requires Records(d, c, es[..|es| - 1], slot)
    ensures Records(d, c.Failed(slot, now), es, slot)
  {
    WaitSaturates(d.ctrl.EffectiveInterval(), Failures(d, es));
    Backoff.FailedOnce(c, slot, now);
  }

  lemma {:induction false} QuietRunRecords(d: Drv, es: seq<Event>, slot: int, start: int)
    requires ValidSlot(slot) && d.ctrl.failedSlot != slot && d.pendingPick == 0 && QuietRun(d, es, slot)
    requires Good(d, start) && InOrder(es, start)
    ensures Records(d, Run(d, es).ctrl, es, slot) && Run(d, es).pendingPick == 0
    ensures Good(Run(d, es), if es == [] then start else es[|es| - 1].w.now)
  {
    if es != [] {
      var n := |es| - 1;
      var front, e := es[..n], es[n];
      assert QuietRun(d, front, slot) by {
        forall i: nat | i < n ensures Quiet(Run(d, front[..i]), front[i], slot) { assert front[..i] == es[..i]; }
      }
      QuietRunRecords(d, front, slot, start);
      var before := Run(d, front);
      GoodLater(before, if front == [] then start else front[|front| - 1].w.now, e.w.now);
      StepKeepsGood(before, e);
      QuietStep(before, e, slot);
      if FailsAt(d, es, n) { FailureRecords(d, before.ctrl, es, slot, e.w.now); }
    }
  }

  /** Event `m` makes the timer attempt the slot. */
  ghost predicate AttemptsAt(d: Drv, es: seq<Event>, m: nat, slot: int) {
    m < |es| && es[m].TimerFires? && TimerApplies(Run(d, es[..m]), es[m].w) == Some(slot)
  }

  lemma QuietPrefix(d: Drv, es: seq<Event>, slot: int, start: int, m: nat)
    requires QuietRun(d, es, slot) && InOrder(es, start) && m <= |es|
    ensures QuietRun(d, es[..m], slot) && InOrder(es[..m], start)
  {
    forall i: nat | i < m ensures Quiet(Run(d, es[..m][..i]), es[..m][i], slot) { assert es[..m][..i] == es[..i]; }
  }

  /** A timer attempt is what the history of attempts records of that event. */
  lemma {:induction false} AttemptIsIssued(d: Drv, es: seq<Event>, m: nat, slot: int)
    requires AttemptsAt(d, es, m, slot) && ValidSlot(slot) && Run(d, es[..m]).pendingPick == 0
    ensures
      var before := Run(d, es[..m]);
      Step(before, es[m]).issued == before.issued + [Issue(es[m].w.now, slot, Timer, Foreground, before.ctrl.pinnedSlot != 0)]
  {
    var before, w := Run(d, es[..m]), es[m].w;
    var (c, a) := before.ctrl.Fired(w.target, w.now, before.Suppressed(w));
    var d1 := before.(ctrl := c, timer := None);
    var (d2, queued) := d1.Attempt(a.slot, Timer, Foreground, w);
    assert d1.Execute(a, Timer, Foreground, w) == if queued then d2 else d2.Recheck(w);
  }

  // ------------------------------------------------------------- whole runs

  /** A stretch of a run, from event `b` on, that is quiet for a slot which had not failed before. */
  ghost predicate QuietStretch(cfg: Config, es: seq<Event>, start: int, b: nat, slot: int) {
    && -1000000 <= start && InOrder(es, start) && b <= |es| && ValidSlot(slot)
    && var d := Run(InitialDrv(cfg), es[..b]);
       d.ctrl.failedSlot != slot && d.pendingPick == 0 && QuietRun(d, es[b..], slot)
  }

  lemma {:induction false} RunSplits(d: Drv, es: seq<Event>, b: nat)
    requires b <= |es|
    ensures Run(d, es) == Run(Run(d, es[..b]), es[b..])
  {
    if b < |es| {
      RunSplits(d, es[..|es| - 1], b);
      assert es[..|es| - 1][..b] == es[..b] && es[..|es| - 1][b..] == es[b..][..|es| - 1 - b];
    } else {
      assert es[..b] == es && es[b..] == [];
    }
  }

  lemma StretchIsGood(cfg: Config, es: seq<Event>, start: int, b: nat, slot: int)
    requires QuietStretch(cfg, es, start, b, slot)
    ensures
      var from := if b == 0 then start else es[b - 1].w.now;
      Good(Run(InitialDrv(cfg), es[..b]), from) && InOrder(es[b..], from)
  {
    EveryRunIsGood(cfg, es[..b], start);
  }

  lemma {:induction false} StretchRecords(cfg: Config, es: seq<Event>, start: int, b: nat, slot: int)
    requires QuietStretch(cfg, es, start, b, slot)
    ensures Records(Run(InitialDrv(cfg), es[..b]), Run(InitialDrv(cfg), es).ctrl, es[b..], slot)
  {
    StretchIsGood(cfg, es, start, b, slot);
    QuietRunRecords(Run(InitialDrv(cfg), es[..b]), es[b..], slot, if b == 0 then start else es[b - 1].w.now);
    RunSplits(InitialDrv(cfg), es, b);
  }

  lemma {:induction false} RecordedWait(d: Drv, c: Ctrl, es: seq<Event>, slot: int)
    requires Records(d, c, es, slot) && es != [] && FailsAt(d, es, |es| - 1)
    ensures
      var k := Failures(d, es);
      k > 0 && c.retryNotBeforeMs - es[|es| - 1].w.now == Wait(d.ctrl.EffectiveInterval(), k)
  {
  }

  /** In every run: the k-th consecutive failure of a slot waits exactly the capped doubling of
      `WaitIsCappedDoubling`, for every k. */
  lemma {:induction false} KthFailureWaits(cfg: Config, es: seq<Event>, start: int, b: nat, slot: int)
    requires QuietStretch(cfg, es, start, b, slot) && b < |es|
    requires var d := Run(InitialDrv(cfg), es[..b]); FailsAt(d, es[b..], |es| - b - 1)
    ensures
      var d := Run(InitialDrv(cfg), es[..b]);
      var k := Failures(d, es[b..]);
      && k > 0
      && Run(InitialDrv(cfg), es).ctrl.retryNotBeforeMs - es[|es| - 1].w.now == Wait(d.ctrl.EffectiveInterval(), k)
  {
    StretchRecords(cfg, es, start, b, slot);
    RecordedWait(Run(InitialDrv(cfg), es[..b]), Run(InitialDrv(cfg), es).ctrl, es[b..], slot);
  }

  /** In every run: a timer attempt after failures comes no earlier than the last one plus its wait. */
  lemma AttemptWaitsOutBackoff(cfg: Config, es: seq<Event>, start: int, b: nat, slot: int, m: nat)
    requires QuietStretch(cfg, es, start, b, slot)
    requires var d := Run(InitialDrv(cfg), es[..b]); AttemptsAt(d, es[b..], m, slot) && Failures(d, es[b..][..m]) > 0
    ensures
      var d, rest := Run(InitialDrv(cfg), es[..b]), es[b..];
      rest[m].w.now >= LastFailure(d, rest[..m]) + Wait(d.ctrl.EffectiveInterval(), Failures(d, rest[..m]))
  {
    var d, rest := Run(InitialDrv(cfg), es[..b]), es[b..];
    var from := if b == 0 then start else es[b - 1].w.now;
    StretchIsGood(cfg, es, start, b, slot);
    QuietPrefix(d, rest, slot, from, m);
    QuietRunRecords(d, rest[..m], slot, from);
  }

  /** `at` lists timer attempts in order, with a failure between neighbours. */
  ghost predicate FailedAttempts(d: Drv, es: seq<Event>, at: seq<nat>, slot: int) {
    && (forall i :: 0 <= i < |at| ==> AttemptsAt(d, es, at[i], slot))
    && forall i, j :: 0 <= i && j == i + 1 < |at| ==> FailBetween(d, es, at[i], at[j])
  }

  /** The attempt itself may be refused at once, or its completion fail later. */
  ghost predicate FailBetween(d: Drv, es: seq<Event>, a: nat, b: nat) {
    exists f: nat :: a <= f < b && FailsAt(d, es, f)
  }

  lemma {:induction false} FailuresGrow(d: Drv, es: seq<Event>, a: nat, f: nat, b: nat, start: int)
    requires a <= f < b <= |es| && FailsAt(d, es, f) && InOrder(es, start)
    ensures Failures(d, es[..a]) < Failures(d, es[..b]) && LastFailure(d, es[..b]) >= es[a].w.now
    decreases b
  {
    assert es[..b][..b - 1] == es[..b - 1];
    assert FailsAt(d, es[..b], b - 1) == FailsAt(d, es, b - 1);
    if f == b - 1 {
      FailuresMonotone(d, es, a, f);
    } else {
      FailuresGrow(d, es, a, f, b - 1, start);
    }
  }

  lemma {:induction false} FailuresMonotone(d: Drv, es: seq<Event>, a: nat, b: nat)
    requires a <= b <= |es|
    ensures Failures(d, es[..a]) <= Failures(d, es[..b])
  {
    if a < b {
      assert es[..b][..b - 1] == es[..b - 1];
      FailuresMonotone(d, es, a, b - 1);
    }
  }

  lemma {:induction false} NextAttemptWaits(cfg: Config, es: seq<Event>, start: int, b: nat, slot: int, from: nat, to: nat, n: nat)
    requires QuietStretch(cfg, es, start, b, slot)
    requires
      var d, rest := Run(InitialDrv(cfg), es[..b]), es[b..];
      && AttemptsAt(d, rest, from, slot) && AttemptsAt(d, rest, to, slot) && FailBetween(d, rest, from, to)
      && n > 0 && Failures(d, rest[..from]) >= n - 1
    ensures
      var d, rest := Run(InitialDrv(cfg), es[..b]), es[b..];
      rest[to].w.now - rest[from].w.now >= Wait(d.ctrl.EffectiveInterval(), n) && Failures(d, rest[..to]) >= n
  {
    var d, rest := Run(InitialDrv(cfg), es[..b]), es[b..];
    var f: nat :| from <= f < to && FailsAt(d, rest, f);
    FailuresGrow(d, rest, from, f, to, start);
    AttemptWaitsOutBackoff(cfg, es, start, b, slot, to);
    WaitMonotone(d.ctrl.EffectiveInterval(), n, Failures(d, rest[..to]));
  }

  lemma EarlierAttempts(d: Drv, es: seq<Event>, at: seq<nat>, slot: int)
    requires |at| > 1 && FailedAttempts(d, es, at, slot)
    ensures FailedAttempts(d, es, at[..|at| - 1], slot)
    ensures AttemptsAt(d, es, at[|at| - 2], slot) && AttemptsAt(d, es, at[|at| - 1], slot) && FailBetween(d, es, at[|at| - 2], at[|at| - 1])
  {
  }

  /** In every run: k timer attempts of a slot that keeps failing span at least the first k-1 waits. */
  lemma {:induction false} AttemptsSpanTheWaits(cfg: Config, es: seq<Event>, start: int, b: nat, slot: int, at: seq<nat>)
    requires QuietStretch(cfg, es, start, b, slot) && |at| > 0
    requires FailedAttempts(Run(InitialDrv(cfg), es[..b]), es[b..], at, slot)
    ensures
      var d, rest := Run(InitialDrv(cfg), es[..b]), es[b..];
      && rest[at[|at| - 1]].w.now - rest[at[0]].w.now >= Backoff.SumOfWaits(d.ctrl.EffectiveInterval(), |at| - 1)
      && Failures(d, rest[..at[|at| - 1]]) >= |at| - 1
    decreases |at|
  {
    var d, n := Run(InitialDrv(cfg), es[..b]), |at| - 1;
    if n > 0 {
      EarlierAttempts(d, es[b..], at, slot);
      AttemptsSpanTheWaits(cfg, es, start, b, slot, at[..n]);
      NextAttemptWaits(cfg, es, start, b, slot, at[n - 1], at[n], n);
    }
  }
}
