/** What one pass does to each point, told from the request, the readback and the range alone. */
module CorrectionMeaning {
  import opened Ints
  import opened CurveOffset
  import opened Correction
  import opened CorrectionRun

  /** A point of the locked tail, as the request says it. */
  predicate TailPoint(q: Request, i: nat)
    requires i < |q.lockedTail|
  {
    q.hasLock && q.lockedTail[i] && q.lockMHz > 0
  }

  // ---------------------------------------------------------------- writes

  /** A pass writes exactly the live points that are requested or in the locked tail. */
  lemma PassWritesWhatIsAsked(q: Request, t: seq<U32>, rb: Readback, range: OffsetRange, i: nat)
    requires Fits(q, t, rb) && i < |t|
    ensures PlanWrites(q, t, rb, range).mask[i] <==> rb.freqKHz[i] != 0 && (TailPoint(q, i) || q.has[i])
    ensures !PlanWrites(q, t, rb, range).mask[i] ==> PlanWrites(q, t, rb, range).offsetKHz[i] == 0
  {
  }

  /** A tail point beyond the anchor is pushed down as far as the driver permits. */
  lemma TailIsWrittenTheLowestOffset(q: Request, t: seq<U32>, rb: Readback, range: OffsetRange, i: nat)
    requires Fits(q, t, rb) && i < |t| && range.minKHz <= range.maxKHz
    requires rb.freqKHz[i] != 0 && TailPoint(q, i) && i != q.lockCi
    ensures
      var w := PlanWrites(q, t, rb, range);
      w.mask[i] && range.Permits(w.offsetKHz[i]) && forall v: int :: range.Permits(v) ==> w.offsetKHz[i] <= v
  {
  }

  /** A frequency is displayed at or below `mhz` up to half a MHz above it; from 2147484 on always. */
  lemma DisplayAtMost(kHz: nat, mhz: nat)
    ensures DisplayMHz(kHz) <= mhz <==> kHz < mhz * 1000 + 500 || mhz >= 2147484
  {
  }

  /** So after one pass over an exact driver such a point displays no higher than the lock exactly when
      some permitted offset would bring it there. */
  lemma TailIsHeldExactlyWhenItCanBe(
    q: Request, s: Steered, baseKHz: seq<nat>, before: Readback, range: OffsetRange, after: Readback, i: nat)
    requires Suits(q, s, before) && |baseKHz| == |s.targetMHz| && Exact(baseKHz, before) && range.minKHz <= range.maxKHz
    requires Obeys(baseKHz, before, PlanWrites(q, s.targetMHz, before, range), after)
    requires i < |baseKHz| && before.freqKHz[i] != 0 && TailPoint(q, i) && i != q.lockCi
    ensures DisplayMHz(after.freqKHz[i]) <= q.lockMHz <==>
              exists v: int :: range.Permits(v) && DisplayMHz(Max(0, baseKHz[i] + v)) <= q.lockMHz
    ensures DisplayMHz(after.freqKHz[i]) <= q.lockMHz <==>
              (exists v: int :: range.Permits(v) && baseKHz[i] + v < q.lockMHz * 1000 + 500) || q.lockMHz >= 2147484
  {
    var w := PlanWrites(q, s.targetMHz, before, range);
    TailIsWrittenTheLowestOffset(q, s.targetMHz, before, range, i);
    var low := w.offsetKHz[i];
    assert after.freqKHz[i] == Max(0, baseKHz[i] + low);
    assert range.Permits(low);
    DisplayAtMost(after.freqKHz[i], q.lockMHz);
    forall v: int | range.Permits(v)
      ensures DisplayMHz(Max(0, baseKHz[i] + low)) <= DisplayMHz(Max(0, baseKHz[i] + v))
    {
      DisplayMonotone(Max(0, baseKHz[i] + low), Max(0, baseKHz[i] + v));
    }
  }

  /** Every other written point gets the permitted offset nearest to what it wants: its requested offset
      if it asks for one, else the way from its stock base to its target. */
  lemma WriteIsTheNearestPermitted(q: Request, t: seq<U32>, rb: Readback, range: OffsetRange, i: nat, v: int)
    requires Fits(q, t, rb) && i < |t| && rb.freqKHz[i] != 0 && q.has[i] && (TailPoint(q, i) ==> i == q.lockCi)
    requires range.Permits(v)
    ensures
      var asksOffset := !TailPoint(q, i) && q.populated[i] && !q.typed[i] && (q.viaBatch || q.fromOffset[i]);
      var wanted := if asksOffset then q.targetOffsetKHz[i]
                    else SaturateI32((if TailPoint(q, i) then q.lockMHz else t[i]) * 1000 - StockBaseKHz(rb.freqKHz[i], rb.offsetKHz[i]));
      var w := PlanWrites(q, t, rb, range).offsetKHz[i];
      range.Permits(w) && Apart(w, wanted) <= Apart(v, wanted)
  {
  }

  function Apart(a: int, b: int): nat {
    if a < b then b - a else a - b
  }

  /** How the summary counts a written point. */
  lemma KindsOfWrites(q: Request, rb: Readback, i: nat)
    requires q.Sized(|q.lockedTail|) && rb.Sized(|q.lockedTail|) && i < |q.lockedTail|
    ensures PlanKindOf(q, rb, i) == Untouched <==> rb.freqKHz[i] == 0 || !(TailPoint(q, i) || q.has[i])
    ensures PlanKindOf(q, rb, i) == TailFloor <==> rb.freqKHz[i] != 0 && TailPoint(q, i) && i != q.lockCi
    ensures PlanKindOf(q, rb, i) == Offset <==>
              rb.freqKHz[i] != 0 && q.has[i] && !TailPoint(q, i) && q.populated[i] && !q.typed[i] && (q.viaBatch || q.fromOffset[i])
    ensures PlanKindOf(q, rb, i) == Absolute <==>
              rb.freqKHz[i] != 0 && q.has[i] && !TailPoint(q, i) && q.populated[i] && (q.typed[i] || !(q.viaBatch || q.fromOffset[i]))
  {
  }

  // -------------------------------------------------------- classification

  /** How far a point is from where it should be: in offset for a point that asks for one, else in
      frequency. */
  function Astray(q: Request, targetMHz: U32, rb: Readback, i: nat): nat
    requires q.Sized(|q.lockedTail|) && rb.Sized(|q.lockedTail|) && i < |q.lockedTail|
  {
    if !TailPoint(q, i) && q.populated[i] && !q.typed[i] && (q.viaBatch || q.fromOffset[i]) then
      Apart(rb.offsetKHz[i], q.targetOffsetKHz[i])
    else Apart(rb.freqKHz[i], (if TailPoint(q, i) then q.lockMHz else targetMHz) * 1000)
  }

  /** The recorded error is that distance, cut at the largest `int`. */
  lemma ErrorIsHowFarAstray(q: Request, targetMHz: U32, rb: Readback, i: nat)
    requires q.Sized(|q.lockedTail|) && rb.Sized(|q.lockedTail|) && i < |q.lockedTail|
    ensures ErrorKHz(q, targetMHz, rb, i) == Min(Astray(q, targetMHz, rb, i), INT_MAX)
  {
  }

  /** A live requested point that does not read as asked, and asks for a frequency. */
  predicate Misses(q: Request, targetMHz: U32, rb: Readback, i: nat)
    requires q.Sized(|q.lockedTail|) && rb.Sized(|q.lockedTail|) && i < |q.lockedTail|
  {
    && q.has[i] && rb.freqKHz[i] != 0
    && !(!TailPoint(q, i) && q.populated[i] && !q.typed[i] && (q.viaBatch || q.fromOffset[i]))
    && DisplayMHz(rb.freqKHz[i]) != if TailPoint(q, i) then q.lockMHz else targetMHz
  }

  /** The way from its stock base to its target is not permitted by a known range. */
  predicate Unreachable(q: Request, targetMHz: U32, rb: Readback, range: OffsetRange, i: nat)
    requires q.Sized(|q.lockedTail|) && rb.Sized(|q.lockedTail|) && i < |q.lockedTail|
  {
    var wayKHz := (if TailPoint(q, i) then q.lockMHz else targetMHz) * 1000 - StockBaseKHz(rb.freqKHz[i], rb.offsetKHz[i]);
    range.known && !range.Permits(SaturateI32(wayKHz))
  }

  /** The marks of a point that misses its frequency. In a selective batch a tail point gets exactly one of
      out of range, converging, stuck and worsening: by whether it can be reached, and whether it is
      nearer than the last time it was measured, as near, or farther. */
  lemma MarksOfAMiss(q: Request, targetMHz: U32, prevKHz: I32, rb: Readback, range: OffsetRange, i: nat)
    requires q.Sized(|q.lockedTail|) && rb.Sized(|q.lockedTail|) && i < |q.lockedTail| && Misses(q, targetMHz, rb, i)
    ensures
      var c := ClassOf(q, targetMHz, prevKHz, rb, range, i);
      var out, watched := Unreachable(q, targetMHz, rb, range, i), q.viaBatch && TailPoint(q, i);
      var astray, measured := Min(Astray(q, targetMHz, rb, i), INT_MAX), prevKHz != INT_MAX;
      && c.unconverged && !c.intentOff
      && (c.outOfRange <==> out)
      && (c.converging <==> watched && !out && (measured ==> astray < prevKHz))
      && (c.stuck <==> watched && !out && measured && astray == prevKHz)
      && (c.worsening <==> watched && !out && measured && astray > prevKHz)
      && (c.improved <==> measured && astray < prevKHz)
      && (c.strictDiverged <==> !c.accepted && (c.outOfRange || c.stuck || c.worsening))
  {
  }

  /** A readback is accepted as the new target exactly outside a batch, below a nonzero lock, for a point
      nobody typed, reading at or below its target. */
  lemma AcceptedExactlyWhen(q: Request, targetMHz: U32, prevKHz: I32, rb: Readback, range: OffsetRange, i: nat)
    requires q.Sized(|q.lockedTail|) && rb.Sized(|q.lockedTail|) && i < |q.lockedTail| && Misses(q, targetMHz, rb, i)
    ensures ClassOf(q, targetMHz, prevKHz, rb, range, i).accepted <==>
      && !q.viaBatch && q.hasLock && !q.lockedTail[i] && q.lockMHz > 0 && !q.typed[i] && DisplayMHz(rb.freqKHz[i]) <= targetMHz
    ensures NextTarget(q, targetMHz, rb, i)
         == if ClassOf(q, targetMHz, prevKHz, rb, range, i).accepted then DisplayMHz(rb.freqKHz[i]) else targetMHz
    ensures NextError(q, targetMHz, prevKHz, rb, i)
         == if ClassOf(q, targetMHz, prevKHz, rb, range, i).accepted then prevKHz else Min(Astray(q, targetMHz, rb, i), INT_MAX)
  {
  }

  /** A point that asks for an offset is off exactly when another one is programmed. */
  lemma MarksOfAnIntent(q: Request, targetMHz: U32, prevKHz: I32, rb: Readback, range: OffsetRange, i: nat)
    requires q.Sized(|q.lockedTail|) && rb.Sized(|q.lockedTail|) && i < |q.lockedTail|
    requires !TailPoint(q, i) && q.populated[i] && !q.typed[i] && (q.viaBatch || q.fromOffset[i])
    ensures
      var c := ClassOf(q, targetMHz, prevKHz, rb, range, i);
      var off := q.has[i] && rb.freqKHz[i] != 0 && rb.offsetKHz[i] != q.targetOffsetKHz[i];
      && c == SETTLED.(unconverged := off, intentOff := off, improved := off && c.improved)
      && (c.improved <==> off && prevKHz != INT_MAX && Min(Apart(rb.offsetKHz[i], q.targetOffsetKHz[i]), INT_MAX) < prevKHz)
      && NextTarget(q, targetMHz, rb, i) == targetMHz
      && NextError(q, targetMHz, prevKHz, rb, i) == if off then Min(Apart(rb.offsetKHz[i], q.targetOffsetKHz[i]), INT_MAX) else prevKHz
  {
  }

  /** Everything else is settled, and keeps its target and its history. */
  lemma SettledPoints(q: Request, targetMHz: U32, prevKHz: I32, rb: Readback, range: OffsetRange, i: nat)
    requires q.Sized(|q.lockedTail|) && rb.Sized(|q.lockedTail|) && i < |q.lockedTail|
    requires !q.has[i] || rb.freqKHz[i] == 0 || DisplayMHz(rb.freqKHz[i]) == if TailPoint(q, i) then q.lockMHz else targetMHz
    requires TailPoint(q, i) || !q.populated[i] || q.typed[i] || !(q.viaBatch || q.fromOffset[i])
    ensures ClassOf(q, targetMHz, prevKHz, rb, range, i) == SETTLED
    ensures NextTarget(q, targetMHz, rb, i) == targetMHz && NextError(q, targetMHz, prevKHz, rb, i) == prevKHz
  {
  }
}
