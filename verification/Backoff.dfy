/** The failure backoff over whole controller runs. */
module Backoff {
  import opened Ints
  import opened Controller
  import opened Slots

  datatype Event =
    | Resolve(now: int, target: int, suppressed: bool)
    | Fire(now: int, target: int, suppressed: bool)
    | Fail(now: int, slot: int)

  function Step(c: Ctrl, e: Event): (Ctrl, Action) {
    match e
    case Resolve(now, target, suppressed) => c.Resolved(target, now, suppressed)
    case Fire(now, target, suppressed) => c.Fired(target, now, suppressed)
    case Fail(now, slot) => (c.Failed(slot, now), NoAction)
  }

  ghost function Run(c: Ctrl, es: seq<Event>): Ctrl {
    if es == [] then c else Step(Run(c, es[..|es| - 1]), es[|es| - 1]).0
  }

  ghost predicate InOrder(es: seq<Event>) {
    forall i, j :: 0 <= i < j < |es| ==> es[i].now <= es[j].now
  }

  ghost predicate OnlyFails(es: seq<Event>, slot: int) {
    forall i :: 0 <= i < |es| && es[i].Fail? ==> es[i].slot == slot
  }

  /** Number of failures reported so far. */
  ghost function FailCount(es: seq<Event>): nat {
    if es == [] then 0 else FailCount(es[..|es| - 1]) + (if es[|es| - 1].Fail? then 1 else 0)
  }

  /** Time of the latest failure, `none` before the first one. */
  ghost function LastFail(es: seq<Event>, none: int): int {
    if es == [] then none
    else if es[|es| - 1].Fail? then es[|es| - 1].now
    else LastFail(es[..|es| - 1], none)
  }

  lemma FailedOnce(c: Ctrl, slot: int, now: int)
    requires ValidSlot(slot)
    ensures var n := if c.failedSlot == slot then (if c.failures < 30 then c.failures + 1 else c.failures) else 1;
      c.Failed(slot, now) == c.(failedSlot := slot, failures := n, lastApplyMs := now, pendingTarget := 0,
                                retryNotBeforeMs := now + Wait(c.EffectiveInterval(), Max(n, 1)))
  {
  }

  /** Failure state after any run in which only `slot` fails. */
  lemma {:induction false} FailureStateAfter(c: Ctrl, es: seq<Event>, slot: int)
    requires ValidSlot(slot) && c.failedSlot != slot && OnlyFails(es, slot) && InOrder(es)
    ensures var r := Run(c, es);
      && r.minIntervalMs == c.minIntervalMs
      && r.appliedSlot == c.appliedSlot && r.autoEnabled == c.autoEnabled && r.manual == c.manual
      && (FailCount(es) == 0 ==> r.failedSlot == c.failedSlot)
      && (FailCount(es) > 0 ==>
            && r.failedSlot == slot
            && r.failures == Min(FailCount(es), MAX_COUNTED_FAILURES)
            && r.lastApplyMs == LastFail(es, 0)
            && r.retryNotBeforeMs == LastFail(es, 0) + Wait(c.EffectiveInterval(), FailCount(es)))
  {
    if es != [] {
      var front := es[..|es| - 1];
      FailureStateAfter(c, front, slot);
      var before := Run(c, front);
      var e := es[|es| - 1];
      if e.Fail? {
        WaitSaturates(c.EffectiveInterval(), FailCount(es));
        FailedOnce(before, slot, e.now);
      } else {
        assert Run(c, es) == before.(pendingTarget := Run(c, es).pendingTarget);
      }
    }
  }

  /** The k-th consecutive failure of a slot waits exactly the capped doubling, for every k,
      although the stored counter stops at 30. */
  lemma {:induction false} KthFailureWaits(c: Ctrl, es: seq<Event>, slot: int, k: nat)
    requires ValidSlot(slot) && c.failedSlot != slot && OnlyFails(es, slot) && InOrder(es)
    requires es != [] && es[|es| - 1].Fail? && FailCount(es) == k
    ensures k > 0
    ensures Run(c, es).retryNotBeforeMs - es[|es| - 1].now == Min(300000, c.EffectiveInterval() * Pow2(k - 1))
    ensures Run(c, es).failures == Min(k, 30)
  {
    FailureStateAfter(c, es, slot);
    WaitIsCappedDoubling(c.EffectiveInterval(), k);
  }

  /** Event `k` of the run makes the controller issue an automatic attempt of `slot`. */
  ghost predicate Attempt(c: Ctrl, es: seq<Event>, k: nat, slot: int) {
    k < |es| && es[k].Fire? && Step(Run(c, es[..k]), es[k]).1 == Apply(slot)
  }

  /** An attempt after failures comes no earlier than the last failure plus its wait. */
  lemma AttemptWaitsOutBackoff(c: Ctrl, es: seq<Event>, k: nat, slot: int)
    requires ValidSlot(slot) && c.failedSlot != slot && OnlyFails(es, slot) && InOrder(es)
    requires Attempt(c, es, k, slot) && FailCount(es[..k]) > 0
    ensures es[k].now >= LastFail(es[..k], 0) + Wait(c.EffectiveInterval(), FailCount(es[..k]))
  {
    FailureStateAfter(c, es[..k], slot);
  }

  ghost function SumOfWaits(interval: nat, n: nat): nat {
    if n == 0 then 0 else SumOfWaits(interval, n - 1) + Wait(interval, n)
  }

  /** `at` lists attempts in order, with a failure reported between neighbours. */
  ghost predicate FailedAttempts(c: Ctrl, es: seq<Event>, at: seq<nat>, slot: int) {
    && (forall m :: 0 <= m < |at| ==> Attempt(c, es, at[m], slot))
    && forall m, n :: 0 <= m && n == m + 1 < |at| ==> FailBetween(es, at[m], at[n])
  }

  ghost predicate FailBetween(es: seq<Event>, a: nat, b: nat) {
    exists f: nat :: a < f < b && f < |es| && es[f].Fail?
  }

  lemma {:induction false} FailCountGrows(es: seq<Event>, a: nat, f: nat, b: nat)
    requires a < f < b <= |es| && es[f].Fail? && InOrder(es)
    ensures FailCount(es[..a]) < FailCount(es[..b])
    ensures LastFail(es[..b], 0) >= es[a].now
    decreases b
  {
    assert es[..b][..b - 1] == es[..b - 1];
    if f == b - 1 {
      FailCountMonotone(es, a, f);
    } else {
      FailCountGrows(es, a, f, b - 1);
    }
  }

  lemma {:induction false} FailCountMonotone(es: seq<Event>, a: nat, b: nat)
    requires a <= b <= |es|
    ensures FailCount(es[..a]) <= FailCount(es[..b])
  {
    if a < b {
      assert es[..b][..b - 1] == es[..b - 1];
      FailCountMonotone(es, a, b - 1);
    }
  }

  /** From one attempt to the next, with the n-th failure (or a later one) between them. */
  lemma {:induction false} NextAttemptWaits(c: Ctrl, es: seq<Event>, slot: int, a: nat, b: nat, n: nat)
    requires ValidSlot(slot) && c.failedSlot != slot && OnlyFails(es, slot) && InOrder(es)
    requires Attempt(c, es, a, slot) && Attempt(c, es, b, slot) && FailBetween(es, a, b)
    requires n > 0 && FailCount(es[..a]) >= n - 1
    ensures es[b].now - es[a].now >= Wait(c.EffectiveInterval(), n) && FailCount(es[..b]) >= n
  {
    var f: nat :| a < f < b && f < |es| && es[f].Fail?;
    FailCountGrows(es, a, f, b);
    AttemptWaitsOutBackoff(c, es, b, slot);
    WaitMonotone(c.EffectiveInterval(), n, FailCount(es[..b]));
  }

  lemma EarlierAttempts(c: Ctrl, es: seq<Event>, at: seq<nat>, slot: int)
    requires |at| > 1 && FailedAttempts(c, es, at, slot)
    ensures FailedAttempts(c, es, at[..|at| - 1], slot)
    ensures Attempt(c, es, at[|at| - 2], slot) && Attempt(c, es, at[|at| - 1], slot) && FailBetween(es, at[|at| - 2], at[|at| - 1])
  {
  }

  /** k automatic attempts of a slot that keeps failing span at least the first k-1 waits. */
  lemma {:induction false} AttemptsSpanTheWaits(c: Ctrl, es: seq<Event>, at: seq<nat>, slot: int)
    requires ValidSlot(slot) && c.failedSlot != slot && OnlyFails(es, slot) && InOrder(es)
    requires |at| > 0 && FailedAttempts(c, es, at, slot)
    ensures es[at[|at| - 1]].now - es[at[0]].now >= SumOfWaits(c.EffectiveInterval(), |at| - 1)
    ensures FailCount(es[..at[|at| - 1]]) >= |at| - 1
  {
    var n := |at| - 1;
    if n > 0 {
      EarlierAttempts(c, es, at, slot);
      AttemptsSpanTheWaits(c, es, at[..n], slot);
      NextAttemptWaits(c, es, slot, at[n - 1], at[n], n);
    }
  }
}
