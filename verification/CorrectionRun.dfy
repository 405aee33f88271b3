/**
 Whole runs of the correction loop. What the outside world does is a script with one entry per pass:
 the time budget's answer, the readback and range the plan sees, the readback and range that
 landed, and verification's answer. Theorems over every script are theorems over every driver.
 */
module CorrectionRun {
  import opened Ints
  import opened CurveOffset
  import opened Correction

  datatype Pass = Pass(
    mayStart: bool,
    seen: Readback,
    seenRange: OffsetRange,
    landed: Readback,
    landedRange: OffsetRange,
    verified: bool)

  datatype Outcome = Outcome(
    verified: bool, budgetExhausted: bool, fixedPoint: bool, nothingToCorrect: bool, passesRun: nat)

  ghost predicate Runnable(q: Request, s: Steered, script: seq<Pass>) {
    && q.Sized(|s.targetMHz|) && |s.prevKHz| == |s.targetMHz|
    && forall k :: 0 <= k < |script| ==> script[k].seen.Sized(|s.targetMHz|) && script[k].landed.Sized(|s.targetMHz|)
  }

  /** Targets and error history after the first `k` passes were classified. */
  ghost function After(q: Request, s: Steered, script: seq<Pass>, k: nat): (r: Steered)
    requires Runnable(q, s, script) && k <= |script|
    ensures |r.targetMHz| == |r.prevKHz| == |s.targetMHz|
  {
    if k == 0 then s else Classified(q, After(q, s, script, k - 1), script[k - 1].landed)
  }

  ghost predicate HasWork(q: Request, rb: Readback)
    requires q.Sized(|q.lockedTail|) && rb.Sized(|q.lockedTail|)
  {
    exists i: nat :: i < |q.lockedTail| && Planned(q, rb, i)
  }

  ghost predicate FixedAt(q: Request, s: Steered, script: seq<Pass>, k: nat)
    requires Runnable(q, s, script) && k < |script|
  {
    FixedPoint(q, After(q, s, script, k), script[k].landed, k)
  }

  /** Pass `k` writes, is classified, and neither verifies nor ends at a fixed point. */
  ghost predicate GoesOn(q: Request, s: Steered, script: seq<Pass>, k: nat)
    requires Runnable(q, s, script) && k < |script|
  {
    && script[k].mayStart && HasWork(q, script[k].seen)
    && !script[k].verified && !FixedAt(q, s, script, k)
  }

  /** The outcome of a run that stopped in pass `k`, after every earlier pass went on. */
  ghost predicate StopsIn(q: Request, s: Steered, script: seq<Pass>, k: nat, out: Outcome)
    requires Runnable(q, s, script) && k <= |script|
  {
    && (forall j :: 0 <= j < k ==> GoesOn(q, s, script, j))
    && if k == |script| then out == Outcome(false, false, false, false, k)
       else if !script[k].mayStart then out == Outcome(false, true, false, false, k)
       else if !HasWork(q, script[k].seen) then out == Outcome(false, false, false, true, k + 1)
       else
         && (script[k].verified || FixedAt(q, s, script, k))
         && out == Outcome(script[k].verified, false, FixedAt(q, s, script, k), false, k + 1)
  }

  /** One pass: plan and write, then classify what landed; `work` is false when nothing was left to write. */
  method RunPass(q: Request, p: Pass, pass: nat, targetMHz: array<U32>, prevKHz: array<I32>)
    returns (work: bool, fixedPoint: bool, w: Writes)
    requires Fits(q, targetMHz[..], p.seen) && Fits(q, targetMHz[..], p.landed) && prevKHz.Length == targetMHz.Length
    requires targetMHz as object != prevKHz as object
    modifies targetMHz, prevKHz
    ensures work <==> HasWork(q, p.seen)
    ensures w == PlanWrites(q, old(targetMHz[..]), p.seen, p.seenRange)
    ensures work ==> fixedPoint == FixedPoint(q, old(Steered(targetMHz[..], prevKHz[..])), p.landed, pass)
    ensures Steered(targetMHz[..], prevKHz[..]) ==
            if work then Classified(q, old(Steered(targetMHz[..], prevKHz[..])), p.landed)
            else old(Steered(targetMHz[..], prevKHz[..]))
  {
    var offsets := new I32[targetMHz.Length](_ => 0);
    var mask := new bool[targetMHz.Length](_ => false);
    ghost var t := targetMHz[..];
    var plan := PlanPass(q, targetMHz[..], p.seen, p.seenRange, offsets, mask);
    PlanSummaryDescribes(q, t, p.seen, p.seenRange, |t|);
    work, fixedPoint, w := plan.haveCorrections, false, Writes(mask[..], offsets[..]);
    if work {
      var stats := ClassifyPass(q, targetMHz, prevKHz, p.landed, p.landedRange, pass);
      fixedPoint := stats.fixedPoint;
    }
  }

  /** The loop, with at most `|script|` passes. `written` collects what each pass wrote. */
  method RunLoop(q: Request, script: seq<Pass>, targetMHz: array<U32>, prevKHz: array<I32>)
    returns (out: Outcome, ghost stop: nat, written: seq<Writes>)
    requires Runnable(q, Steered(targetMHz[..], prevKHz[..]), script)
    requires targetMHz as object != prevKHz as object
    modifies targetMHz, prevKHz
    ensures stop <= |script| && StopsIn(q, old(Steered(targetMHz[..], prevKHz[..])), script, stop, out)
    ensures |written| == if out.verified || out.fixedPoint then stop + 1 else stop
    ensures Steered(targetMHz[..], prevKHz[..]) == After(q, old(Steered(targetMHz[..], prevKHz[..])), script, |written|)
    ensures forall k :: 0 <= k < |written| ==>
              written[k] == WrittenIn(q, old(Steered(targetMHz[..], prevKHz[..])), script, k)
  {
    ghost var s := Steered(targetMHz[..], prevKHz[..]);
    out, written := Outcome(false, false, false, false, 0), [];
    stop := 0;
    for pass := 0 to |script|
      invariant stop == pass && out == Outcome(false, false, false, false, pass)
      invariant Steered(targetMHz[..], prevKHz[..]) == After(q, s, script, pass)
      invariant forall j :: 0 <= j < pass ==> GoesOn(q, s, script, j)
      invariant |written| == pass && forall j :: 0 <= j < pass ==> written[j] == WrittenIn(q, s, script, j)
    {
      var p := script[pass];
      if !p.mayStart {
        out := out.(budgetExhausted := true);
        return;
      }
      out := out.(passesRun := pass + 1);
      var work, fixedPoint, w := RunPass(q, p, pass, targetMHz, prevKHz);
      if !work {
        out := out.(nothingToCorrect := true);
        return;
      }
      written := written + [w];
      if p.verified {
        out := out.(verified := true, fixedPoint := fixedPoint);
        return;
      }
      if fixedPoint {
        out := out.(fixedPoint := true);
        return;
      }
      stop := stop + 1;
    }
  }

  /** What pass `k` writes. */
  ghost function WrittenIn(q: Request, s: Steered, script: seq<Pass>, k: nat): Writes
    requires Runnable(q, s, script) && k < |script|
  {
    PlanWrites(q, After(q, s, script, k).targetMHz, script[k].seen, script[k].seenRange)
  }

  // ------------------------------------------------ safety over whole runs

  /** A point whose verify target no pass may change. */
  predicate Pinned(q: Request, i: nat)
    requires q.Sized(|q.lockedTail|) && i < |q.lockedTail|
  {
    q.typed[i] || q.lockedTail[i] || q.IsIntent(i)
  }

  /** Over any run against any driver, targets only go down, and pinned ones never move. */
  lemma {:induction false} TargetsNeverRise(q: Request, s: Steered, script: seq<Pass>, j: nat, k: nat, i: nat)
    requires Runnable(q, s, script) && j <= k <= |script| && i < |s.targetMHz|
    ensures After(q, s, script, k).targetMHz[i] <= After(q, s, script, j).targetMHz[i]
    ensures Pinned(q, i) ==> After(q, s, script, k).targetMHz[i] == s.targetMHz[i]
    decreases k
  {
    if j < k {
      TargetsNeverRise(q, s, script, j, k - 1, i);
    } else if k > 0 {
      TargetsNeverRise(q, s, script, k - 1, k - 1, i);
    }
  }

  /** Every write to an offset-intent point is the requested offset, clamped by that pass's range. */
  lemma IntentWritesAreTheRequest(q: Request, s: Steered, script: seq<Pass>, k: nat, i: nat)
    requires Runnable(q, s, script) && k < |script| && i < |s.targetMHz| && q.IsIntent(i)
    ensures WrittenIn(q, s, script, k).mask[i] ==>
              WrittenIn(q, s, script, k).offsetKHz[i] == script[k].seenRange.Clamp(q.targetOffsetKHz[i])
  {
    assert !Floored(q, i);
  }

  // ------------------------------------------------------- fixed points

  /** Classifying one readback twice in a row finds no improvement the second time. */
  lemma RepeatedReadbackNeverImproves(q: Request, s: Steered, rb: Readback)
    requires Suits(q, s, rb)
    ensures !SomeImproved(q, Classified(q, s, rb), rb)
    ensures SomeUnconverged(q, Classified(q, s, rb), rb) <==>
              exists i: nat :: i < |s.targetMHz| && Unconverged(q, s.targetMHz[i], rb, i) && !Accepts(q, s.targetMHz[i], rb, i)
  {
    var next := Classified(q, s, rb);
    forall i: nat | i < |s.targetMHz|
      ensures !Improved(q, next.targetMHz[i], next.prevKHz[i], rb, i)
      ensures Unconverged(q, next.targetMHz[i], rb, i) <==>
                Unconverged(q, s.targetMHz[i], rb, i) && !Accepts(q, s.targetMHz[i], rb, i)
    {
      var t := s.targetMHz[i];
      if Accepts(q, t, rb, i) {
        assert !q.IsTail(i);
        assert next.targetMHz[i] == DisplayMHz(rb.freqKHz[i]) == q.TargetMHz(next.targetMHz[i], i);
      } else {
        assert next.targetMHz[i] == t;
      }
    }
    if i: nat :| i < |s.targetMHz| && Unconverged(q, s.targetMHz[i], rb, i) && !Accepts(q, s.targetMHz[i], rb, i) {
      assert Unconverged(q, next.targetMHz[i], rb, i);
    }
  }

  /** If pass k+1 sees the readback pass k saw, it is a fixed point exactly when a point is unconverged. */
  lemma SameReadbackIsAFixedPoint(q: Request, s: Steered, script: seq<Pass>, k: nat)
    requires Runnable(q, s, script) && k + 1 < |script| && script[k + 1].landed == script[k].landed
    ensures !SomeImproved(q, After(q, s, script, k + 1), script[k + 1].landed)
    ensures FixedAt(q, s, script, k + 1) <==> SomeUnconverged(q, After(q, s, script, k + 1), script[k + 1].landed)
  {
    RepeatedReadbackNeverImproves(q, After(q, s, script, k), script[k].landed);
  }

  /** A driver whose readback never changes. */
  ghost predicate Frozen(script: seq<Pass>, rb: Readback) {
    forall k :: 0 <= k < |script| ==> script[k].seen == rb && script[k].landed == rb
  }

  /** Nothing a frozen driver reports is left to chase after the first pass. */
  ghost predicate SettledAfterOne(q: Request, s: Steered, rb: Readback)
    requires Suits(q, s, rb)
  {
    !SomeUnconverged(q, Classified(q, s, rb), rb)
  }

  lemma {:induction false} FrozenStateIsStable(q: Request, s: Steered, script: seq<Pass>, rb: Readback, k: nat)
    requires Runnable(q, s, script) && Frozen(script, rb) && Suits(q, s, rb) && 1 <= k <= |script|
    requires SettledAfterOne(q, s, rb)
    ensures After(q, s, script, k) == Classified(q, s, rb)
  {
    var one := Classified(q, s, rb);
    if k == 1 {
      assert After(q, s, script, 0) == s;
    } else {
      FrozenStateIsStable(q, s, script, rb, k - 1);
      forall i: nat | i < |one.targetMHz|
        ensures NextTarget(q, one.targetMHz[i], rb, i) == one.targetMHz[i]
        ensures NextError(q, one.targetMHz[i], one.prevKHz[i], rb, i) == one.prevKHz[i]
      {
        assert !Unconverged(q, one.targetMHz[i], rb, i);
      }
      assert Classified(q, one, rb) == one;
    }
  }

  /** A frozen driver runs past its second pass exactly when nothing is left unconverged and the
      first two passes were allowed to start, had work and did not verify. */
  lemma FrozenDriverStopsInTwoPasses(q: Request, s: Steered, script: seq<Pass>, rb: Readback, k: nat, out: Outcome)
    requires Runnable(q, s, script) && Suits(q, s, rb) && Frozen(script, rb)
    requires k <= |script| && StopsIn(q, s, script, k, out)
    ensures k >= 2 <==>
      && |script| >= 2 && HasWork(q, rb) && SettledAfterOne(q, s, rb)
      && forall j :: 0 <= j < 2 ==> script[j].mayStart && !script[j].verified
    ensures !SettledAfterOne(q, s, rb) ==> out.passesRun <= 2
    ensures SettledAfterOne(q, s, rb) ==> !out.fixedPoint
  {
    if |script| >= 2 {
      SameReadbackIsAFixedPoint(q, s, script, 0);
      assert After(q, s, script, 0) == s;
      assert After(q, s, script, 1) == Classified(q, s, rb);
      assert FixedAt(q, s, script, 1) <==> !SettledAfterOne(q, s, rb);
      assert !FixedAt(q, s, script, 0);
      assert k >= 2 ==> GoesOn(q, s, script, 0) && GoesOn(q, s, script, 1);
    }
    if SettledAfterOne(q, s, rb) && 0 < k < |script| {
      FrozenStateIsStable(q, s, script, rb, k);
      assert !FixedAt(q, s, script, k);
    }
  }

  /** A verifying pass is reported verified even when it is also a fixed point. */
  lemma VerificationWins(q: Request, s: Steered, script: seq<Pass>, k: nat, out: Outcome)
    requires Runnable(q, s, script) && k < |script| && StopsIn(q, s, script, k, out)
    requires script[k].mayStart && HasWork(q, script[k].seen) && script[k].verified
    ensures out.verified && out.passesRun == k + 1
    ensures out.fixedPoint <==> FixedAt(q, s, script, k)
  {
  }

  // ------------------------------------------------------ an exact driver

  /** Every populated point of the readback sits at its stock base plus its programmed offset. */
  ghost predicate Exact(baseKHz: seq<nat>, rb: Readback) {
    && rb.Sized(|baseKHz|)
    && forall i :: 0 <= i < |baseKHz| && rb.freqKHz[i] != 0 ==> rb.freqKHz[i] == baseKHz[i] + rb.offsetKHz[i]
  }

  /** The readback after a driver programmed exactly what was written. */
  ghost predicate Obeys(baseKHz: seq<nat>, before: Readback, w: Writes, after: Readback)
    requires before.Sized(|baseKHz|)
  {
    && Exact(baseKHz, after) && |w.mask| == |w.offsetKHz| == |baseKHz|
    && forall i :: 0 <= i < |baseKHz| ==>
         && after.offsetKHz[i] == (if w.mask[i] then w.offsetKHz[i] else before.offsetKHz[i])
         && (after.freqKHz[i] == 0 <==> before.freqKHz[i] == 0 || baseKHz[i] + after.offsetKHz[i] <= 0)
  }

  /** A point steered to an absolute MHz: a typed or derived point, or the anchor of the locked tail. */
  predicate Steerable(q: Request, i: nat)
    requires q.Sized(|q.lockedTail|) && i < |q.lockedTail|
  {
    !Floored(q, i) && !q.IsIntent(i)
  }

  lemma WantedFromBase(q: Request, t: seq<U32>, rb: Readback, baseKHz: seq<nat>, i: nat)
    requires Fits(q, t, rb) && |baseKHz| == |t| && Exact(baseKHz, rb) && i < |t| && rb.freqKHz[i] != 0
    ensures rb.BaseKHz(i) == baseKHz[i]
    ensures Steerable(q, i) ==> WantedKHz(q, t, rb, i) == SaturateI32(q.TargetMHz(t[i], i) * 1000 - baseKHz[i])
  {
  }

  /** The range lets a point move by `deltaKHz`. */
  predicate Reaches(range: OffsetRange, deltaKHz: int) {
    range.Clamp(SaturateI32(deltaKHz)) == deltaKHz
  }

  lemma ReachesExactlyWhatIsPermitted(range: OffsetRange, deltaKHz: int)
    requires range.minKHz <= range.maxKHz
    ensures Reaches(range, deltaKHz) <==> range.Permits(deltaKHz)
  {
  }

  /** One pass over an exact driver puts a steered point on its target exactly when the range lets it
      move that far; classification then finds it converged, exactly up to the display's saturation. */
  lemma OnePassLands(q: Request, s: Steered, baseKHz: seq<nat>, before: Readback, range: OffsetRange, after: Readback, i: nat)
    requires Suits(q, s, before) && |baseKHz| == |s.targetMHz| && Exact(baseKHz, before)
    requires Obeys(baseKHz, before, PlanWrites(q, s.targetMHz, before, range), after)
    requires i < |baseKHz| && Steerable(q, i) && Planned(q, before, i)
    ensures
      var targetMHz := q.TargetMHz(s.targetMHz[i], i);
      var reaches := Reaches(range, targetMHz * 1000 - baseKHz[i]);
      && (targetMHz > 0 ==> (after.freqKHz[i] == targetMHz * 1000 <==> reaches))
      && (reaches ==> after.freqKHz[i] == targetMHz * 1000)
      && (reaches ==> (DisplayMHz(after.freqKHz[i]) == targetMHz <==> targetMHz <= 2147484))
      && (reaches && targetMHz <= 2147484 ==> !Unconverged(q, s.targetMHz[i], after, i))
  {
    WantedFromBase(q, s.targetMHz, before, baseKHz, i);
    DisplayExact(q.TargetMHz(s.targetMHz[i], i));
  }

  /** An offset-intent point holds its offset after one pass exactly when the range permits it. */
  lemma OnePassHoldsIntent(q: Request, s: Steered, baseKHz: seq<nat>, before: Readback, range: OffsetRange, after: Readback, i: nat)
    requires Suits(q, s, before) && |baseKHz| == |s.targetMHz| && Exact(baseKHz, before)
    requires range.minKHz <= range.maxKHz
    requires Obeys(baseKHz, before, PlanWrites(q, s.targetMHz, before, range), after)
    requires i < |baseKHz| && q.IsIntent(i) && Examined(q, before, i) && after.freqKHz[i] != 0
    ensures Unconverged(q, s.targetMHz[i], after, i) <==> !range.Permits(q.targetOffsetKHz[i])
  {
  }

  /** No accumulation: whatever is programmed meanwhile, two plans over the same base write the same
      offset to a point whose target did not change. */
  lemma PlanDependsOnBaseOnly(q: Request, t: seq<U32>, t': seq<U32>, rb: Readback, rb': Readback,
                              baseKHz: seq<nat>, range: OffsetRange, i: nat)
    requires Fits(q, t, rb) && Fits(q, t', rb') && |t| == |t'| == |baseKHz|
    requires Exact(baseKHz, rb) && Exact(baseKHz, rb')
    requires i < |t| && t[i] == t'[i] && rb.freqKHz[i] != 0 && rb'.freqKHz[i] != 0
    ensures Planned(q, rb, i) == Planned(q, rb', i)
    ensures OffsetFor(q, t, rb, range, i) == OffsetFor(q, t', rb', range, i)
  {
    WantedFromBase(q, t, rb, baseKHz, i);
    WantedFromBase(q, t', rb', baseKHz, i);
  }

  /** In a run over an exact driver with a fixed range, all passes write a pinned point the same way. */
  lemma NoAccumulation(q: Request, s: Steered, script: seq<Pass>, baseKHz: seq<nat>, range: OffsetRange, j: nat, k: nat, i: nat)
    requires Runnable(q, s, script) && |baseKHz| == |s.targetMHz|
    requires forall m :: 0 <= m < |script| ==> Exact(baseKHz, script[m].seen) && script[m].seenRange == range
    requires j < |script| && k < |script| && i < |baseKHz| && Pinned(q, i)
    requires script[j].seen.freqKHz[i] != 0 && script[k].seen.freqKHz[i] != 0
    ensures WrittenIn(q, s, script, j).mask[i] == WrittenIn(q, s, script, k).mask[i]
    ensures WrittenIn(q, s, script, j).offsetKHz[i] == WrittenIn(q, s, script, k).offsetKHz[i]
  {
    TargetsNeverRise(q, s, script, j, j, i);
    TargetsNeverRise(q, s, script, k, k, i);
    PlanDependsOnBaseOnly(q, After(q, s, script, j).targetMHz, After(q, s, script, k).targetMHz,
                          script[j].seen, script[k].seen, baseKHz, range, i);
  }
}
