/**
 The record of driver calls. The rules an apply must obey are stated over it alone, by a monitor
 that never looks at the program, and so is what an obeyed record implies.
 */
module Transitions {
  import opened Ints
  import opened Ceiling
  import opened Options

  datatype Call =
    | Begin(plan: CeilingPlan)            // an apply starts with this plan
    | Recover(ownsScalar: bool)           // recovery of the current apply starts
    | Reset(ownsScalar: bool)             // an explicit reset starts
    | Lock(hi: U32, ok: bool, notSupported: bool)
    | Unlock(ok: bool)
    | Pin(hi: U32, ok: bool)              // the final lock step takes over
    | Write(curve: bool, verified: bool)  // a clock write of the apply: curve batch or core offset
    | ScalarReset(verified: bool)
    | CurveReset(verified: bool)

  /** What the calls so far say about the hardware and the current operation. */
  datatype Watch = Watch(
    plan: CeilingPlan, recovering: bool, cap: Option<U32>, transition: bool, tried: bool, declined: bool, curveOk: bool, scalarOk: bool)
  {
    function After(c: Call, vfGlobal: bool): Watch {
      match c
      case Begin(p) => Watch(p, false, cap, transition, false, false, true, true)
      case Recover(ownsScalar) => Watch(plan, true, cap, transition, false, false, false, vfGlobal || !ownsScalar)
      case Reset(ownsScalar) => Watch(NO_PLAN, true, cap, transition, false, false, false, vfGlobal || !ownsScalar)
      case Lock(hi, ok, notSupported) =>
        this.(cap := if ok then Some(hi) else cap, transition := transition || ok,
              tried := true, declined := declined || (!ok && !notSupported))
      case Unlock(ok) => if ok then this.(cap := None, transition := false) else this
      case Pin(hi, ok) => if ok then this.(cap := Some(hi), transition := false) else this
      case Write(curve, verified) =>
        if curve then this.(curveOk := verified) else this.(scalarOk := scalarOk && verified)
      case ScalarReset(verified) => this.(scalarOk := verified, curveOk := false)
      case CurveReset(verified) => this.(curveOk := verified)
    }

    /** The GPU is held at or below the planned ceiling, or no form of the cap exists for this
        request and its final state needs no hard pin. */
    predicate Protected() {
      || !plan.required
      || (cap.Some? && cap.value <= plan.ceilingMHz)
      || (plan.reason != RequestedLock && (plan.clampControlAbsent || (tried && !declined)))
    }

    /** The same operation, with the domains verified as before; only the cap may differ. */
    predicate SameOperation(before: Watch) {
      plan == before.plan && recovering == before.recovering && curveOk == before.curveOk && scalarOk == before.scalarOk
    }

    /** The same cap and plan; only what is verified may differ. */
    predicate SameCap(before: Watch) {
      && plan == before.plan && recovering == before.recovering && cap == before.cap
      && transition == before.transition && tried == before.tried && declined == before.declined
    }

    /** The rules of the transition. */
    predicate Allows(c: Call) {
      match c
      case Write(_, _) => !recovering && Protected()
      case ScalarReset(_) => recovering && Protected()
      case CurveReset(_) => recovering && Protected() && scalarOk
      case Unlock(ok) => ok ==> curveOk && scalarOk
      case Pin(_, ok) => ok ==> !recovering && curveOk && scalarOk
      case Lock(hi, _, _) => plan.required && hi == plan.ceilingMHz && (transition && cap.Some? ==> hi <= cap.value)
      case _ => true
    }
  }

  ghost function WatchAfter(log: seq<Call>, vfGlobal: bool): Watch {
    if log == [] then Watch(NO_PLAN, false, None, false, false, false, true, true)
    else WatchAfter(log[..|log| - 1], vfGlobal).After(log[|log| - 1], vfGlobal)
  }

  ghost predicate Obeyed(log: seq<Call>, vfGlobal: bool) {
    log == [] || (Obeyed(log[..|log| - 1], vfGlobal) && WatchAfter(log[..|log| - 1], vfGlobal).Allows(log[|log| - 1]))
  }

  lemma {:induction false} Extend(log: seq<Call>, c: Call, vfGlobal: bool)
    ensures WatchAfter(log + [c], vfGlobal) == WatchAfter(log, vfGlobal).After(c, vfGlobal)
    ensures Obeyed(log + [c], vfGlobal) <==> Obeyed(log, vfGlobal) && WatchAfter(log, vfGlobal).Allows(c)
  {
    assert (log + [c])[..|log|] == log;
  }

  /** `after` extends `before` by clamp calls only: no clock was written. */
  ghost predicate OnlyClamps(before: seq<Call>, after: seq<Call>) {
    && |before| <= |after| && after[..|before|] == before
    && forall i :: |before| <= i < |after| ==> after[i].Lock?
  }

  // ------------------------------------------- what an obeyed record implies

  ghost predicate IsMarker(c: Call) {
    c.Begin? || c.Recover? || c.Reset?
  }

  /** Index of the marker that opened the current operation, -1 before the first one. */
  ghost function LastMarker(log: seq<Call>): (b: int)
    ensures -1 <= b < |log| && (b >= 0 ==> IsMarker(log[b]))
    ensures forall j :: b < j < |log| ==> !IsMarker(log[j])
  {
    if log == [] then -1
    else if IsMarker(log[|log| - 1]) then |log| - 1
    else LastMarker(log[..|log| - 1])
  }

  /** Since marker `b` a separately owned core offset was reset and verified before index `end`. */
  ghost predicate OffsetProved(log: seq<Call>, vfGlobal: bool, b: nat, end: nat)
    requires b < |log| && (log[b].Recover? || log[b].Reset?)
  {
    vfGlobal || !log[b].ownsScalar || exists k :: b < k < end && k < |log| && log[k] == ScalarReset(true)
  }

  /** Since marker `b` the curve was reset and verified, after the core offset was. */
  ghost predicate StockProved(log: seq<Call>, vfGlobal: bool, b: nat, j: nat)
    requires b < |log| && (log[b].Recover? || log[b].Reset?)
  {
    && b < j < |log| && log[j] == CurveReset(true) && OffsetProved(log, vfGlobal, b, j)
    && forall k :: j < k < |log| ==> !log[k].CurveReset? && !log[k].ScalarReset?
  }

  /** A call that writes and verifies the curve, or the core offset. */
  ghost predicate InDomain(c: Call, curve: bool) {
    if curve then c.CurveReset? || (c.Write? && c.curve) else c.ScalarReset? || (c.Write? && !c.curve)
  }

  /** Index of the last call in a domain, -1 if there is none. */
  ghost function LastIn(log: seq<Call>, curve: bool): (k: int)
    ensures -1 <= k < |log| && (k >= 0 ==> InDomain(log[k], curve))
    ensures forall j :: k < j < |log| ==> !InDomain(log[j], curve)
  {
    if log == [] then -1
    else if InDomain(log[|log| - 1], curve) then |log| - 1
    else LastIn(log[..|log| - 1], curve)
  }

  /** The domain's last write was verified: what the GPU holds there is known. */
  ghost predicate Vouched(log: seq<Call>, curve: bool) {
    LastIn(log, curve) >= 0 && log[LastIn(log, curve)].verified
  }

  /** Every core offset written since marker `b` was verified, and so was the last curve batch, however
      many did not verify before it. */
  ghost predicate OffsetsVerified(log: seq<Call>, b: int) {
    forall j :: 0 <= j && b < j < |log| && InDomain(log[j], false) ==> log[j].verified
  }

  ghost predicate LastBatchVerified(log: seq<Call>, b: int) {
    LastIn(log, true) > b ==> Vouched(log, true)
  }

  lemma {:induction false} ApplyVerifiedMeans(log: seq<Call>, vfGlobal: bool)
    requires Obeyed(log, vfGlobal) && LastMarker(log) >= 0 && log[LastMarker(log)].Begin?
    ensures !WatchAfter(log, vfGlobal).recovering
    ensures WatchAfter(log, vfGlobal).scalarOk <==> OffsetsVerified(log, LastMarker(log))
    ensures WatchAfter(log, vfGlobal).curveOk <==> LastBatchVerified(log, LastMarker(log))
  {
    var n := |log| - 1;
    var b := LastMarker(log);
    if !IsMarker(log[n]) {
      var front := log[..n];
      ApplyVerifiedMeans(front, vfGlobal);
      assert OffsetsVerified(log, b) <==> OffsetsVerified(front, b) && (InDomain(log[n], false) ==> log[n].verified) by {
        forall j | 0 <= j < n ensures log[j] == front[j] { }
      }
    }
  }

  lemma {:induction false} OffsetVerifiedMeans(log: seq<Call>, vfGlobal: bool)
    requires Obeyed(log, vfGlobal) && LastMarker(log) >= 0 && !log[LastMarker(log)].Begin?
    ensures WatchAfter(log, vfGlobal).recovering
    ensures WatchAfter(log, vfGlobal).scalarOk ==> OffsetProved(log, vfGlobal, LastMarker(log), |log|)
  {
    var n := |log| - 1;
    var b := LastMarker(log);
    if !IsMarker(log[n]) {
      var front := log[..n];
      OffsetVerifiedMeans(front, vfGlobal);
      if WatchAfter(log, vfGlobal).scalarOk && !vfGlobal && log[b].ownsScalar && !log[n].ScalarReset? {
        var k :| b < k < n && front[k] == ScalarReset(true);
        assert log[k] == ScalarReset(true);
      }
    }
  }

  lemma {:induction false} StockVerifiedMeans(log: seq<Call>, vfGlobal: bool)
    requires Obeyed(log, vfGlobal) && LastMarker(log) >= 0 && !log[LastMarker(log)].Begin?
    requires WatchAfter(log, vfGlobal).curveOk && WatchAfter(log, vfGlobal).scalarOk
    ensures exists j :: StockProved(log, vfGlobal, LastMarker(log), j)
  {
    var n := |log| - 1;
    var b, c, front := LastMarker(log), log[n], log[..n];
    OffsetVerifiedMeans(front, vfGlobal);
    if c.CurveReset? {
      assert OffsetProved(front, vfGlobal, b, n);
      OffsetProvedLater(front, log, vfGlobal, b, n);
      assert StockProved(log, vfGlobal, b, n);
    } else {
      StockVerifiedMeans(front, vfGlobal);
      var j :| StockProved(front, vfGlobal, b, j);
      OffsetProvedLater(front, log, vfGlobal, b, j);
      assert StockProved(log, vfGlobal, b, j);
    }
  }

  lemma OffsetProvedLater(front: seq<Call>, log: seq<Call>, vfGlobal: bool, b: nat, end: nat)
    requires front <= log && b < |front| && (front[b].Recover? || front[b].Reset?) && OffsetProved(front, vfGlobal, b, end)
    ensures OffsetProved(log, vfGlobal, b, end)
  {
    if !vfGlobal && front[b].ownsScalar {
      var k :| b < k < end && k < |front| && front[k] == ScalarReset(true);
      assert log[k] == ScalarReset(true);
    }
  }

  lemma {:induction false} ObeyedPrefix(log: seq<Call>, vfGlobal: bool, i: nat)
    requires Obeyed(log, vfGlobal) && i < |log|
    ensures Obeyed(log[..i], vfGlobal) && WatchAfter(log[..i], vfGlobal).Allows(log[i])
    decreases |log|
  {
    if i < |log| - 1 {
      ObeyedPrefix(log[..|log| - 1], vfGlobal, i);
      assert log[..|log| - 1][..i] == log[..i];
    }
  }

  /** Call `i` lifts or raises an installed transition cap. */
  ghost predicate CapGoesAt(log: seq<Call>, vfGlobal: bool, i: nat)
    requires i < |log|
  {
    var before := WatchAfter(log[..i], vfGlobal);
    var after := before.After(log[i], vfGlobal).cap;
    before.transition && before.cap.Some? && (after == None || after.value > before.cap.value)
  }

  /** Only a release or a final pin that succeeds does that, and only with both domains verified. */
  lemma {:induction false} CapGoesVerified(log: seq<Call>, vfGlobal: bool, i: nat)
    requires Obeyed(log, vfGlobal) && i < |log| && CapGoesAt(log, vfGlobal, i)
    ensures Obeyed(log[..i], vfGlobal)
    ensures log[i] == Unlock(true) || (log[i].Pin? && log[i].ok && !WatchAfter(log[..i], vfGlobal).recovering)
    ensures WatchAfter(log[..i], vfGlobal).curveOk && WatchAfter(log[..i], vfGlobal).scalarOk
  {
    ObeyedPrefix(log, vfGlobal, i);
  }

  /** An installed transition cap is only ever lifted or raised by a release or a final pin that
      succeeds. In an apply that is the final lock step, after every core offset and the last curve
      batch of that apply verified; in a recovery it comes after both the core offset and the curve
      were proved at stock. */
  lemma {:induction false} CapOnlyGoesWhenProved(log: seq<Call>, vfGlobal: bool, i: nat)
    requires Obeyed(log, vfGlobal) && i < |log| && LastMarker(log[..i]) >= 0 && CapGoesAt(log, vfGlobal, i)
    ensures var b := LastMarker(log[..i]);
      && (log[i] == Unlock(true) || (log[i].Pin? && log[i].ok))
      && (log[b].Begin? ==> OffsetsVerified(log[..i], b) && LastBatchVerified(log[..i], b))
      && (!log[b].Begin? ==> log[i] == Unlock(true) && exists j :: StockProved(log[..i], vfGlobal, b, j))
  {
    CapGoesVerified(log, vfGlobal, i);
    if log[LastMarker(log[..i])].Begin? {
      ApplyVerifiedMeans(log[..i], vfGlobal);
    } else {
      OffsetVerifiedMeans(log[..i], vfGlobal);
      StockVerifiedMeans(log[..i], vfGlobal);
    }
  }

  /** A domain the current operation verified was vouched for by its last write, if the operation
      wrote it at all; a recovery always writes the curve, and a core offset it owns. */
  lemma {:induction false} VerifiedIsVouched(log: seq<Call>, vfGlobal: bool, curve: bool)
    requires Obeyed(log, vfGlobal) && LastMarker(log) >= 0
    requires if curve then WatchAfter(log, vfGlobal).curveOk else WatchAfter(log, vfGlobal).scalarOk
    ensures LastIn(log, curve) > LastMarker(log) ==> Vouched(log, curve)
    ensures LastIn(log, curve) < LastMarker(log) ==>
              log[LastMarker(log)].Begin? || (!curve && (vfGlobal || !log[LastMarker(log)].ownsScalar))
  {
    if log[LastMarker(log)].Begin? {
      ApplyVerifiedMeans(log, vfGlobal);
    } else {
      RecoveryIsVouched(log, vfGlobal, curve);
    }
  }

  lemma {:induction false} RecoveryIsVouched(log: seq<Call>, vfGlobal: bool, curve: bool)
    requires Obeyed(log, vfGlobal) && LastMarker(log) >= 0 && !log[LastMarker(log)].Begin?
    requires if curve then WatchAfter(log, vfGlobal).curveOk else WatchAfter(log, vfGlobal).scalarOk
    ensures LastIn(log, curve) > LastMarker(log) ==> Vouched(log, curve)
    ensures LastIn(log, curve) < LastMarker(log) ==> !curve && (vfGlobal || !log[LastMarker(log)].ownsScalar)
  {
    var n := |log| - 1;
    if !IsMarker(log[n]) && !InDomain(log[n], curve) {
      OffsetVerifiedMeans(log[..n], vfGlobal);
      RecoveryIsVouched(log[..n], vfGlobal, curve);
    }
  }

  lemma {:induction false} LastInFront(log: seq<Call>, b: nat, curve: bool)
    requires b <= |log| && LastIn(log, curve) < b
    ensures LastIn(log, curve) == LastIn(log[..b], curve)
  {
    if b < |log| {
      LastInFront(log[..|log| - 1], b, curve);
      assert log[..|log| - 1][..b] == log[..b];
    } else {
      assert log[..b] == log;
    }
  }

  /** A cap goes although the last write of a domain was not verified, or there was none, exactly when the
      operation that lifts it writes nothing in that domain and no earlier write vouches for it. For the
      curve that operation is an apply; a recovery can do so only for a core offset it does not own. */
  lemma {:induction false} UnprovedCapGoesExactlyWhen(log: seq<Call>, vfGlobal: bool, i: nat, curve: bool)
    requires Obeyed(log, vfGlobal) && i < |log| && LastMarker(log[..i]) >= 0 && CapGoesAt(log, vfGlobal, i)
    ensures var b := LastMarker(log[..i]);
      && (!Vouched(log[..i], curve) <==> LastIn(log[..i], curve) < b && !Vouched(log[..b], curve))
      && (LastIn(log[..i], curve) < b ==> log[b].Begin? || (!curve && (vfGlobal || !log[b].ownsScalar)))
  {
    var b := LastMarker(log[..i]);
    CapGoesVerified(log, vfGlobal, i);
    VerifiedIsVouched(log[..i], vfGlobal, curve);
    if LastIn(log[..i], curve) < b {
      LastInFront(log[..i], b, curve);
      assert log[..i][..b] == log[..b];
    }
  }

  /** A curve reset is never attempted while a separately owned core offset is unverified. */
  lemma {:induction false} CurveResetFollowsOffset(log: seq<Call>, vfGlobal: bool, i: nat)
    requires Obeyed(log, vfGlobal) && i < |log| && log[i].CurveReset? && LastMarker(log[..i]) >= 0
    ensures !log[LastMarker(log[..i])].Begin?
    ensures OffsetProved(log[..i], vfGlobal, LastMarker(log[..i]), i)
  {
    ObeyedPrefix(log, vfGlobal, i);
    if log[..i][LastMarker(log[..i])].Begin? {
      ApplyVerifiedMeans(log[..i], vfGlobal);
    } else {
      OffsetVerifiedMeans(log[..i], vfGlobal);
    }
  }

  /** No clock of an apply is written unprotected; towards a hard lock this always means an installed
      cap at or below the planned ceiling. */
  lemma {:induction false} WritesAreProtected(log: seq<Call>, vfGlobal: bool, i: nat)
    requires Obeyed(log, vfGlobal) && i < |log| && log[i].Write?
    ensures var w := WatchAfter(log[..i], vfGlobal);
      && !w.recovering && w.Protected()
      && (w.plan.required && w.plan.reason == RequestedLock ==> w.cap.Some? && w.cap.value <= w.plan.ceilingMHz)
  {
    ObeyedPrefix(log, vfGlobal, i);
  }
}
