/**
 The VF correction loop: plan every point's offset from a readback, write, read back,
 classify progress, verify, and stop on success or on a fixed point.
 */
module Correction {
  import opened Ints
  import opened CurveOffset

  /** What the driver reports for every point; frequency 0 means "not populated". */
  datatype Readback = Readback(freqKHz: seq<U32>, offsetKHz: seq<I32>) {
    predicate Sized(n: nat) {
      |freqKHz| == n && |offsetKHz| == n
    }

    function BaseKHz(i: nat): nat
      requires i < |freqKHz| && i < |offsetKHz|
    {
      StockBaseKHz(freqKHz[i], offsetKHz[i])
    }
  }

  /** The request being steered towards, without the verify targets, which passes may lower. */
  datatype Request = Request(
    hasLock: bool,
    lockMHz: U32,
    lockCi: int,
    viaBatch: bool,
    offsetInVfTable: bool,
    lockedTail: seq<bool>,
    typed: seq<bool>,
    populated: seq<bool>,
    has: seq<bool>,
    fromOffset: seq<bool>,
    targetOffsetKHz: seq<I32>)
  {
    predicate Sized(n: nat) {
      && |lockedTail| == n && |typed| == n && |populated| == n
      && |has| == n && |fromOffset| == n && |targetOffsetKHz| == n
    }

    predicate IsTail(i: nat)
      requires i < |lockedTail|
    {
      hasLock && lockedTail[i] && lockMHz > 0
    }

    predicate IsIntent(i: nat)
      requires Sized(|lockedTail|) && i < |lockedTail|
    {
      !IsTail(i) && populated[i] && OffsetIsIntent(typed[i], fromOffset[i], viaBatch)
    }

    /** The MHz a point is judged against: the lock for a tail point, else its verify target. */
    function TargetMHz(targetMHz: U32, i: nat): U32
      requires i < |lockedTail|
    {
      if IsTail(i) then lockMHz else targetMHz
    }
  }

  ghost predicate Fits(q: Request, t: seq<U32>, rb: Readback) {
    q.Sized(|t|) && rb.Sized(|t|)
  }

  // ---------------------------------------------------------------- planning

  function RequiredDeltaKHz(rb: Readback, i: nat, targetMHz: U32): I32
    requires i < |rb.freqKHz| && i < |rb.offsetKHz|
  {
    SaturateI32(targetMHz * 1000 - rb.BaseKHz(i))
  }

  predicate Planned(q: Request, rb: Readback, i: nat)
    requires q.Sized(|q.lockedTail|) && rb.Sized(|q.lockedTail|) && i < |q.lockedTail|
  {
    rb.freqKHz[i] != 0 && (q.IsTail(i) || q.has[i])
  }

  /** A tail point beyond the anchor gets the uniform flatten floor. */
  predicate Floored(q: Request, i: nat)
    requires i < |q.lockedTail|
  {
    q.IsTail(i) && i != q.lockCi
  }

  /** The offset a point wants before the range clamp. */
  function WantedKHz(q: Request, t: seq<U32>, rb: Readback, i: nat): I32
    requires q.Sized(|t|) && rb.Sized(|t|) && i < |t|
  {
    if !q.IsTail(i) && q.populated[i] then
      SaturateI32(TargetOffsetKHz(q.IsIntent(i), q.targetOffsetKHz[i], t[i], rb.BaseKHz(i)))
    else
      RequiredDeltaKHz(rb, i, q.TargetMHz(t[i], i))
  }

  function OffsetFor(q: Request, t: seq<U32>, rb: Readback, range: OffsetRange, i: nat): I32
    requires q.Sized(|t|) && rb.Sized(|t|) && i < |t|
  {
    if Floored(q, i) then range.minKHz else range.Clamp(WantedKHz(q, t, rb, i))
  }

  /** What one pass writes: the mask and the offsets (0 where nothing is written). */
  datatype Writes = Writes(mask: seq<bool>, offsetKHz: seq<I32>)

  function PlanWrites(q: Request, t: seq<U32>, rb: Readback, range: OffsetRange): Writes
    requires q.Sized(|t|) && rb.Sized(|t|)
  {
    Writes(
      seq(|t|, i requires 0 <= i < |t| => Planned(q, rb, i)),
      seq(|t|, i requires 0 <= i < |t| => if Planned(q, rb, i) then OffsetFor(q, t, rb, range, i) else 0))
  }

  /** How one planned point is accounted for. */
  datatype PlanKind = Untouched | TailFloor | Offset | Absolute | Direct

  function PlanKindOf(q: Request, rb: Readback, i: nat): PlanKind
    requires q.Sized(|q.lockedTail|) && rb.Sized(|q.lockedTail|) && i < |q.lockedTail|
  {
    if !Planned(q, rb, i) then Untouched
    else if !q.IsTail(i) && q.populated[i] then (if q.IsIntent(i) then Offset else Absolute)
    else if Floored(q, i) then TailFloor
    else Direct
  }

  predicate ClampedAt(q: Request, t: seq<U32>, rb: Readback, range: OffsetRange, i: nat)
    requires q.Sized(|t|) && rb.Sized(|t|) && i < |t|
  {
    Planned(q, rb, i) && !Floored(q, i) && range.Clamp(WantedKHz(q, t, rb, i)) != WantedKHz(q, t, rb, i)
  }

  datatype Plan = Plan(
    haveCorrections: bool, tailFloorCount: nat, clampedCount: nat, firstClampedCi: int,
    firstClampedRequestKHz: I32, firstClampedResultKHz: I32, offsetIntentCount: nat, absoluteCount: nat)

  /** Number of the first `n` indices that satisfy `p`. */
  ghost function Count(n: nat, p: nat -> bool): nat {
    if n == 0 then 0 else Count(n - 1, p) + (if p(n - 1) then 1 else 0)
  }

  ghost function IsKind(q: Request, rb: Readback, kind: PlanKind): nat -> bool {
    (i: nat) => q.Sized(|q.lockedTail|) && rb.Sized(|q.lockedTail|) && i < |q.lockedTail| && PlanKindOf(q, rb, i) == kind
  }

  ghost function IsClamped(q: Request, t: seq<U32>, rb: Readback, range: OffsetRange): nat -> bool {
    (i: nat) => q.Sized(|t|) && rb.Sized(|t|) && i < |t| && ClampedAt(q, t, rb, range, i)
  }

  /** What a plan says about the first `k` points. */
  ghost predicate PlanDescribes(plan: Plan, q: Request, t: seq<U32>, rb: Readback, range: OffsetRange, k: nat)
    requires q.Sized(|t|) && rb.Sized(|t|) && k <= |t|
  {
    && (plan.haveCorrections <==> exists i: nat :: i < k && Planned(q, rb, i))
    && plan.tailFloorCount == Count(k, IsKind(q, rb, TailFloor))
    && plan.offsetIntentCount == Count(k, IsKind(q, rb, Offset))
    && plan.absoluteCount == Count(k, IsKind(q, rb, Absolute))
    && plan.clampedCount == Count(k, IsClamped(q, t, rb, range))
    && (plan.clampedCount == 0 ==> plan.firstClampedCi == -1)
    && (plan.clampedCount > 0 ==>
          && 0 <= plan.firstClampedCi < k
          && ClampedAt(q, t, rb, range, plan.firstClampedCi)
          && plan.firstClampedRequestKHz == WantedKHz(q, t, rb, plan.firstClampedCi)
          && plan.firstClampedResultKHz == range.Clamp(plan.firstClampedRequestKHz))
    && (forall i: nat :: i < k && ClampedAt(q, t, rb, range, i) ==> 0 <= plan.firstClampedCi <= i)
  }

  /** Fold one point into the plan's summary. */
  function Account(plan: Plan, kind: PlanKind, i: nat, requested: I32, written: I32): Plan {
    if kind == Untouched then plan
    else
      var p := plan.(
        haveCorrections := true,
        tailFloorCount := plan.tailFloorCount + (if kind == TailFloor then 1 else 0),
        offsetIntentCount := plan.offsetIntentCount + (if kind == Offset then 1 else 0),
        absoluteCount := plan.absoluteCount + (if kind == Absolute then 1 else 0));
      if kind == TailFloor || requested == written then p
      else if p.clampedCount == 0 then
        p.(clampedCount := 1, firstClampedCi := i, firstClampedRequestKHz := requested, firstClampedResultKHz := written)
      else
        p.(clampedCount := p.clampedCount + 1)
  }

  lemma AccountDescribes(plan: Plan, q: Request, t: seq<U32>, rb: Readback, range: OffsetRange, i: nat)
    requires q.Sized(|t|) && rb.Sized(|t|) && i < |t|
    requires PlanDescribes(plan, q, t, rb, range, i)
    ensures PlanDescribes(
      Account(plan, PlanKindOf(q, rb, i), i, WantedKHz(q, t, rb, i), OffsetFor(q, t, rb, range, i)),
      q, t, rb, range, i + 1)
  {
    var kind := PlanKindOf(q, rb, i);
    var after := Account(plan, kind, i, WantedKHz(q, t, rb, i), OffsetFor(q, t, rb, range, i));
    if kind != Untouched {
      assert Planned(q, rb, i);
    }
  }

  /** Plan one point: whether and what it writes, and the summary with the point counted. */
  method PlanPoint(q: Request, t: seq<U32>, rb: Readback, range: OffsetRange, i: nat, before: Plan)
    returns (plan: Plan, masked: bool, written: I32)
    requires Fits(q, t, rb) && i < |t|
    ensures plan == Account(before, PlanKindOf(q, rb, i), i, WantedKHz(q, t, rb, i), OffsetFor(q, t, rb, range, i))
    ensures masked == Planned(q, rb, i)
    ensures written == if masked then OffsetFor(q, t, rb, range, i) else 0
  {
    plan, masked, written := before, false, 0;
    if rb.freqKHz[i] == 0 { return; }
    var isTail := q.IsTail(i);
    if !isTail && !q.has[i] { return; }
    var mhz := if isTail then q.lockMHz else t[i];
    masked := true;
    if !isTail && q.populated[i] {
      var intent := q.IsIntent(i);
      var requested := SaturateI32(TargetOffsetKHz(intent, q.targetOffsetKHz[i], mhz, rb.BaseKHz(i)));
      written := range.Clamp(requested);
      plan := Account(before, if intent then Offset else Absolute, i, requested, written);
    } else if isTail && i != q.lockCi {
      written := range.minKHz;
      plan := Account(before, TailFloor, i, 0, written);
    } else {
      var requested := RequiredDeltaKHz(rb, i, mhz);
      written := range.Clamp(requested);
      plan := Account(before, Direct, i, requested, written);
    }
  }

  /** The summary of the first `k` points. */
  ghost function PlanSummary(q: Request, t: seq<U32>, rb: Readback, range: OffsetRange, k: nat): Plan
    requires q.Sized(|t|) && rb.Sized(|t|) && k <= |t|
  {
    if k == 0 then Plan(false, 0, 0, -1, 0, 0, 0, 0)
    else Account(PlanSummary(q, t, rb, range, k - 1), PlanKindOf(q, rb, k - 1), k - 1,
                 WantedKHz(q, t, rb, k - 1), OffsetFor(q, t, rb, range, k - 1))
  }

  lemma {:induction false} PlanSummaryDescribes(q: Request, t: seq<U32>, rb: Readback, range: OffsetRange, k: nat)
    requires q.Sized(|t|) && rb.Sized(|t|) && k <= |t|
    ensures PlanDescribes(PlanSummary(q, t, rb, range, k), q, t, rb, range, k)
  {
    if k > 0 {
      PlanSummaryDescribes(q, t, rb, range, k - 1);
      AccountDescribes(PlanSummary(q, t, rb, range, k - 1), q, t, rb, range, k - 1);
    }
  }

  /** Plan one pass over every point, into caller-supplied offset and mask buffers. */
  method PlanPass(q: Request, t: seq<U32>, rb: Readback, range: OffsetRange,
                  offsetsOut: array<I32>, maskOut: array<bool>)
    returns (plan: Plan)
    requires Fits(q, t, rb)
    requires offsetsOut.Length == maskOut.Length == |t|
    modifies offsetsOut, maskOut
    ensures Writes(maskOut[..], offsetsOut[..]) == PlanWrites(q, t, rb, range)
    ensures plan == PlanSummary(q, t, rb, range, |t|)
  {
    for i := 0 to |t|
      invariant forall j :: 0 <= j < i ==> offsetsOut[j] == 0 && !maskOut[j]
    {
      offsetsOut[i] := 0;
      maskOut[i] := false;
    }
    ghost var w := PlanWrites(q, t, rb, range);
    plan := Plan(false, 0, 0, -1, 0, 0, 0, 0);
    for i := 0 to |t|
      invariant plan == PlanSummary(q, t, rb, range, i)
      invariant forall j :: i <= j < |t| ==> offsetsOut[j] == 0 && !maskOut[j]
      invariant forall j :: 0 <= j < i ==> maskOut[j] == w.mask[j] && offsetsOut[j] == w.offsetKHz[j]
    {
      var masked, written;
      plan, masked, written := PlanPoint(q, t, rb, range, i, plan);
      if masked {
        offsetsOut[i] := written;
        maskOut[i] := true;
      }
    }
    assert Writes(maskOut[..], offsetsOut[..]) == w;
  }

  // ---------------------------------------------------------- classification

  predicate Examined(q: Request, rb: Readback, i: nat)
    requires q.Sized(|q.lockedTail|) && rb.Sized(|q.lockedTail|) && i < |q.lockedTail|
  {
    q.has[i] && rb.freqKHz[i] != 0
  }

  /** Convergence is exact: the requested offset for an intent point, the displayed MHz for the rest. */
  predicate Unconverged(q: Request, targetMHz: U32, rb: Readback, i: nat)
    requires q.Sized(|q.lockedTail|) && rb.Sized(|q.lockedTail|) && i < |q.lockedTail|
  {
    && Examined(q, rb, i)
    && if q.IsIntent(i) then rb.offsetKHz[i] != q.targetOffsetKHz[i]
       else DisplayMHz(rb.freqKHz[i]) != q.TargetMHz(targetMHz, i)
  }

  function ErrorKHz(q: Request, targetMHz: U32, rb: Readback, i: nat): I32
    requires q.Sized(|q.lockedTail|) && rb.Sized(|q.lockedTail|) && i < |q.lockedTail|
  {
    if q.IsIntent(i) then Distance(rb.offsetKHz[i], q.targetOffsetKHz[i])
    else Distance(rb.freqKHz[i], q.TargetMHz(targetMHz, i) * 1000)
  }

  /** INT_MAX in the history means "never measured". */
  predicate Improved(q: Request, targetMHz: U32, prevKHz: I32, rb: Readback, i: nat)
    requires q.Sized(|q.lockedTail|) && rb.Sized(|q.lockedTail|) && i < |q.lockedTail|
  {
    Unconverged(q, targetMHz, rb, i) && prevKHz != INT_MAX && ErrorKHz(q, targetMHz, rb, i) < prevKHz
  }

  /** A derived, lower readback of a locked request is taken as the new target. */
  predicate Accepts(q: Request, targetMHz: U32, rb: Readback, i: nat)
    requires q.Sized(|q.lockedTail|) && rb.Sized(|q.lockedTail|) && i < |q.lockedTail|
  {
    && Unconverged(q, targetMHz, rb, i) && !q.IsIntent(i)
    && !q.viaBatch && q.hasLock && !q.lockedTail[i] && q.lockMHz > 0 && !q.typed[i]
    && DisplayMHz(rb.freqKHz[i]) <= q.TargetMHz(targetMHz, i)
  }

  function NextTarget(q: Request, targetMHz: U32, rb: Readback, i: nat): U32
    requires q.Sized(|q.lockedTail|) && rb.Sized(|q.lockedTail|) && i < |q.lockedTail|
  {
    if Accepts(q, targetMHz, rb, i) then DisplayMHz(rb.freqKHz[i]) else targetMHz
  }

  function NextError(q: Request, targetMHz: U32, prevKHz: I32, rb: Readback, i: nat): I32
    requires q.Sized(|q.lockedTail|) && rb.Sized(|q.lockedTail|) && i < |q.lockedTail|
  {
    if Unconverged(q, targetMHz, rb, i) && !Accepts(q, targetMHz, rb, i)
    then ErrorKHz(q, targetMHz, rb, i) else prevKHz
  }

  /** One point's contribution to the pass statistics. */
  datatype PointClass = PointClass(
    unconverged: bool, improved: bool, converging: bool, worsening: bool, stuck: bool,
    outOfRange: bool, accepted: bool, strictDiverged: bool, intentOff: bool)

  const SETTLED := PointClass(false, false, false, false, false, false, false, false, false)

  function ClassOf(q: Request, targetMHz: U32, prevKHz: I32, rb: Readback, range: OffsetRange, i: nat): PointClass
    requires q.Sized(|q.lockedTail|) && rb.Sized(|q.lockedTail|) && i < |q.lockedTail|
  {
    if !Unconverged(q, targetMHz, rb, i) then SETTLED
    else
      var improved := Improved(q, targetMHz, prevKHz, rb, i);
      if q.IsIntent(i) then SETTLED.(unconverged := true, improved := improved, intentOff := true)
      else
        var error := ErrorKHz(q, targetMHz, rb, i);
        var measured := prevKHz != INT_MAX;
        var out := range.known && !range.Permits(RequiredDeltaKHz(rb, i, q.TargetMHz(targetMHz, i)));
        var watched := q.viaBatch && q.IsTail(i);
        var stuck := watched && !out && measured && error == prevKHz;
        var worsening := watched && !out && measured && error > prevKHz;
        var accepted := Accepts(q, targetMHz, rb, i);
        PointClass(true, improved,
          watched && !out && (!measured || error < prevKHz), worsening, stuck,
          out, accepted, !accepted && (out || stuck || worsening), false)
  }

  datatype PassStats = PassStats(
    converging: nat, worsening: nat, stuck: nat, outOfRange: nat, acceptedNonTail: nat, strictDiverged: nat,
    unconverged: nat, improved: nat, offsetIntentOff: nat,
    firstOffsetIntentOffCi: int, firstOffsetIntentProgrammedKHz: I32, firstOffsetIntentTargetKHz: I32,
    fixedPoint: bool)

  function Bit(b: bool): nat { if b then 1 else 0 }

  /** The counters of a pass, each over one mark of the point classes. */
  datatype Counter = Converging | Worsening | Stuck | OutOfRange | Accepted | StrictDiverged | NotConverged | Improving | IntentOff

  function Marked(c: PointClass, f: Counter): bool {
    match f
    case Converging => c.converging
    case Worsening => c.worsening
    case Stuck => c.stuck
    case OutOfRange => c.outOfRange
    case Accepted => c.accepted
    case StrictDiverged => c.strictDiverged
    case NotConverged => c.unconverged
    case Improving => c.improved
    case IntentOff => c.intentOff
  }

  function Total(s: PassStats, f: Counter): nat {
    match f
    case Converging => s.converging
    case Worsening => s.worsening
    case Stuck => s.stuck
    case OutOfRange => s.outOfRange
    case Accepted => s.acceptedNonTail
    case StrictDiverged => s.strictDiverged
    case NotConverged => s.unconverged
    case Improving => s.improved
    case IntentOff => s.offsetIntentOff
  }

  ghost function HasMark(cs: seq<PointClass>, f: Counter): nat -> bool {
    (i: nat) => i < |cs| && Marked(cs[i], f)
  }

  const NO_STATS := PassStats(0, 0, 0, 0, 0, 0, 0, 0, 0, -1, 0, 0, false)

  function Classes(q: Request, t: seq<U32>, prev: seq<I32>, rb: Readback, range: OffsetRange): seq<PointClass>
    requires q.Sized(|t|) && rb.Sized(|t|) && |prev| == |t|
  {
    seq(|t|, i requires 0 <= i < |t| => ClassOf(q, t[i], prev[i], rb, range, i))
  }

  /** What the pass statistics say about the first `k` points, apart from the fixed-point flag. */
  ghost predicate StatsDescribe(s: PassStats, q: Request, rb: Readback, cs: seq<PointClass>, k: nat)
    requires q.Sized(|cs|) && rb.Sized(|cs|) && k <= |cs|
  {
    && (forall f: Counter :: Total(s, f) == Count(k, HasMark(cs, f)))
    && (s.offsetIntentOff == 0 ==> s.firstOffsetIntentOffCi == -1)
    && (s.offsetIntentOff > 0 ==>
          && 0 <= s.firstOffsetIntentOffCi < k && cs[s.firstOffsetIntentOffCi].intentOff
          && s.firstOffsetIntentProgrammedKHz == rb.offsetKHz[s.firstOffsetIntentOffCi]
          && s.firstOffsetIntentTargetKHz == q.targetOffsetKHz[s.firstOffsetIntentOffCi])
    && (forall i: nat :: i < k && cs[i].intentOff ==> 0 <= s.firstOffsetIntentOffCi <= i)
  }

  /** Fold one point's class into the running statistics. */
  function Add(s: PassStats, c: PointClass, i: nat, programmedKHz: I32, wantedKHz: I32): PassStats {
    var first := c.intentOff && s.offsetIntentOff == 0;
    PassStats(
      s.converging + Bit(c.converging), s.worsening + Bit(c.worsening), s.stuck + Bit(c.stuck),
      s.outOfRange + Bit(c.outOfRange), s.acceptedNonTail + Bit(c.accepted),
      s.strictDiverged + Bit(c.strictDiverged), s.unconverged + Bit(c.unconverged),
      s.improved + Bit(c.improved), s.offsetIntentOff + Bit(c.intentOff),
      if first then i else s.firstOffsetIntentOffCi,
      if first then programmedKHz else s.firstOffsetIntentProgrammedKHz,
      if first then wantedKHz else s.firstOffsetIntentTargetKHz,
      s.fixedPoint)
  }

  lemma AddTotals(s: PassStats, c: PointClass, i: nat, programmedKHz: I32, wantedKHz: I32, f: Counter)
    ensures Total(Add(s, c, i, programmedKHz, wantedKHz), f) == Total(s, f) + Bit(Marked(c, f))
  {
  }

  lemma {:induction false} CountIsZero(n: nat, p: nat -> bool)
    ensures Count(n, p) == 0 <==> forall i: nat :: i < n ==> !p(i)
  {
    if n > 0 { CountIsZero(n - 1, p); }
  }

  lemma AddDescribes(s: PassStats, q: Request, rb: Readback, cs: seq<PointClass>, i: nat)
    requires q.Sized(|cs|) && rb.Sized(|cs|) && i < |cs|
    requires StatsDescribe(s, q, rb, cs, i)
    ensures StatsDescribe(Add(s, cs[i], i, rb.offsetKHz[i], q.targetOffsetKHz[i]), q, rb, cs, i + 1)
  {
    var after := Add(s, cs[i], i, rb.offsetKHz[i], q.targetOffsetKHz[i]);
    forall f: Counter ensures Total(after, f) == Count(i + 1, HasMark(cs, f)) {
      AddTotals(s, cs[i], i, rb.offsetKHz[i], q.targetOffsetKHz[i], f);
    }
  }

  /** Classify one point: its class, and the target and error history it leaves behind. */
  method ClassifyPoint(q: Request, targetMHz: U32, prevKHz: I32, rb: Readback, range: OffsetRange, i: nat)
    returns (c: PointClass, newTargetMHz: U32, newPrevKHz: I32)
    requires q.Sized(|q.lockedTail|) && rb.Sized(|q.lockedTail|) && i < |q.lockedTail|
    ensures c == ClassOf(q, targetMHz, prevKHz, rb, range, i)
    ensures newTargetMHz == NextTarget(q, targetMHz, rb, i)
    ensures newPrevKHz == NextError(q, targetMHz, prevKHz, rb, i)
  {
    c, newTargetMHz, newPrevKHz := SETTLED, targetMHz, prevKHz;
    if !q.has[i] || rb.freqKHz[i] == 0 { return; }
    if q.IsIntent(i) {
      var programmed, wanted := rb.offsetKHz[i], q.targetOffsetKHz[i];
      if programmed == wanted { return; }
      var error := Distance(programmed, wanted);
      c := c.(unconverged := true, improved := prevKHz != INT_MAX && error < prevKHz, intentOff := true);
      newPrevKHz := error;
      return;
    }
    var actualMHz := DisplayMHz(rb.freqKHz[i]);
    var goalMHz := q.TargetMHz(targetMHz, i);
    if actualMHz == goalMHz { return; }
    var error := Distance(rb.freqKHz[i], (goalMHz as int) * 1000);
    var measured := prevKHz != INT_MAX;
    c := c.(unconverged := true, improved := measured && error < prevKHz);
    var diverged := range.known && !range.Permits(RequiredDeltaKHz(rb, i, goalMHz));
    if q.viaBatch && q.IsTail(i) {
      if !diverged && measured && error < prevKHz {
        c := c.(converging := true);
      } else if !diverged && measured && error == prevKHz {
        c, diverged := c.(stuck := true), true;
      } else if !diverged && measured && error > prevKHz {
        c, diverged := c.(worsening := true), true;
      } else if diverged {
        c := c.(outOfRange := true);
      } else {
        c := c.(converging := true);
      }
    } else if diverged {
      c := c.(outOfRange := true);
    }
    var userExplicit := q.typed[i] && !q.lockedTail[i];
    if !q.viaBatch && q.hasLock && !q.lockedTail[i] && q.lockMHz > 0 && !userExplicit && actualMHz <= goalMHz {
      c := c.(accepted := true);
      newTargetMHz := actualMHz;
    } else {
      c := c.(strictDiverged := diverged);
      newPrevKHz := error;
    }
  }

  /** The statistics of the first `k` points. */
  ghost function StatsSummary(q: Request, rb: Readback, cs: seq<PointClass>, k: nat): (s: PassStats)
    requires q.Sized(|cs|) && rb.Sized(|cs|) && k <= |cs|
    ensures !s.fixedPoint
  {
    if k == 0 then NO_STATS
    else Add(StatsSummary(q, rb, cs, k - 1), cs[k - 1], k - 1, rb.offsetKHz[k - 1], q.targetOffsetKHz[k - 1])
  }

  lemma {:induction false} StatsSummaryDescribes(q: Request, rb: Readback, cs: seq<PointClass>, k: nat)
    requires q.Sized(|cs|) && rb.Sized(|cs|) && k <= |cs|
    ensures StatsDescribe(StatsSummary(q, rb, cs, k), q, rb, cs, k)
  {
    if k == 0 {
      forall f: Counter ensures Total(NO_STATS, f) == 0 { }
    } else {
      StatsSummaryDescribes(q, rb, cs, k - 1);
      AddDescribes(StatsSummary(q, rb, cs, k - 1), q, rb, cs, k - 1);
    }
  }

  /** Classify one pass in place: lowers accepted targets and updates the error history. */
  method ClassifyPass(q: Request, targetMHz: array<U32>, prevKHz: array<I32>, rb: Readback, range: OffsetRange, pass: nat)
    returns (s: PassStats)
    requires Fits(q, targetMHz[..], rb) && prevKHz.Length == targetMHz.Length
    requires prevKHz as object != targetMHz as object
    modifies targetMHz, prevKHz
    ensures Steered(targetMHz[..], prevKHz[..]) == Classified(q, old(Steered(targetMHz[..], prevKHz[..])), rb)
    ensures StatsDescribe(s, q, rb, Classes(q, old(targetMHz[..]), old(prevKHz[..]), rb, range), targetMHz.Length)
    ensures s.fixedPoint <==> FixedPoint(q, old(Steered(targetMHz[..], prevKHz[..])), rb, pass)
  {
    ghost var was := Steered(targetMHz[..], prevKHz[..]);
    ghost var next := Classified(q, was, rb);
    ghost var cs := Classes(q, was.targetMHz, was.prevKHz, rb, range);
    s := NO_STATS;
    for i := 0 to targetMHz.Length
      invariant s == StatsSummary(q, rb, cs, i)
      invariant forall j :: 0 <= j < i ==> targetMHz[j] == next.targetMHz[j] && prevKHz[j] == next.prevKHz[j]
      invariant forall j :: i <= j < targetMHz.Length ==> targetMHz[j] == was.targetMHz[j] && prevKHz[j] == was.prevKHz[j]
    {
      var c, newTarget, newPrev := ClassifyPoint(q, targetMHz[i], prevKHz[i], rb, range, i);
      assert c == cs[i] && newTarget == next.targetMHz[i] && newPrev == next.prevKHz[i];
      s := Add(s, c, i, rb.offsetKHz[i], q.targetOffsetKHz[i]);
      targetMHz[i] := newTarget;
      prevKHz[i] := newPrev;
    }
    s := s.(fixedPoint := pass > 0 && s.unconverged > 0 && s.improved == 0);
    assert Steered(targetMHz[..], prevKHz[..]) == next;
    StatsMeaning(s, q, was, rb, range, pass);
  }

  // ---------------------------------------------------------------- the loop

  /** The state a run of passes carries: verify targets and error history. */
  datatype Steered = Steered(targetMHz: seq<U32>, prevKHz: seq<I32>)

  ghost predicate Suits(q: Request, s: Steered, rb: Readback) {
    Fits(q, s.targetMHz, rb) && |s.prevKHz| == |s.targetMHz|
  }

  function Classified(q: Request, s: Steered, rb: Readback): Steered
    requires q.Sized(|s.targetMHz|) && rb.Sized(|s.targetMHz|) && |s.prevKHz| == |s.targetMHz|
  {
    var n := |s.targetMHz|;
    Steered(
      seq(n, i requires 0 <= i < n => NextTarget(q, s.targetMHz[i], rb, i)),
      seq(n, i requires 0 <= i < n => NextError(q, s.targetMHz[i], s.prevKHz[i], rb, i)))
  }

  ghost predicate SomeUnconverged(q: Request, s: Steered, rb: Readback)
    requires Suits(q, s, rb)
  {
    exists i: nat :: i < |s.targetMHz| && Unconverged(q, s.targetMHz[i], rb, i)
  }

  ghost predicate SomeImproved(q: Request, s: Steered, rb: Readback)
    requires Suits(q, s, rb)
  {
    exists i: nat :: i < |s.targetMHz| && Improved(q, s.targetMHz[i], s.prevKHz[i], rb, i)
  }

  ghost predicate FixedPoint(q: Request, s: Steered, rb: Readback, pass: nat)
    requires Suits(q, s, rb)
  {
    pass > 0 && SomeUnconverged(q, s, rb) && !SomeImproved(q, s, rb)
  }

  /** The pass statistics mean what their names say, and so does the fixed-point flag. */
  lemma {:induction false} StatsMeaning(stats: PassStats, q: Request, s: Steered, rb: Readback, range: OffsetRange, pass: nat)
    requires Suits(q, s, rb)
    requires stats.(fixedPoint := false)
          == StatsSummary(q, rb, Classes(q, s.targetMHz, s.prevKHz, rb, range), |s.targetMHz|)
    requires stats.fixedPoint == (pass > 0 && stats.unconverged > 0 && stats.improved == 0)
    ensures StatsDescribe(stats, q, rb, Classes(q, s.targetMHz, s.prevKHz, rb, range), |s.targetMHz|)
    ensures stats.unconverged > 0 <==> SomeUnconverged(q, s, rb)
    ensures stats.improved > 0 <==> SomeImproved(q, s, rb)
    ensures stats.fixedPoint <==> FixedPoint(q, s, rb, pass)
  {
    var cs := Classes(q, s.targetMHz, s.prevKHz, rb, range);
    StatsSummaryDescribes(q, rb, cs, |cs|);
    forall f: Counter ensures Total(stats, f) == Count(|cs|, HasMark(cs, f)) {
      assert Total(stats, f) == Total(stats.(fixedPoint := false), f);
    }
    CountsMean(stats, q, s, rb, range);
  }

  lemma CountsMean(stats: PassStats, q: Request, s: Steered, rb: Readback, range: OffsetRange)
    requires Suits(q, s, rb)
    requires StatsDescribe(stats, q, rb, Classes(q, s.targetMHz, s.prevKHz, rb, range), |s.targetMHz|)
    ensures stats.unconverged > 0 <==> SomeUnconverged(q, s, rb)
    ensures stats.improved > 0 <==> SomeImproved(q, s, rb)
  {
    var cs := Classes(q, s.targetMHz, s.prevKHz, rb, range);
    assert Total(stats, NotConverged) == stats.unconverged && Total(stats, Improving) == stats.improved;
    CountIsZero(|cs|, HasMark(cs, NotConverged));
    CountIsZero(|cs|, HasMark(cs, Improving));
    forall i: nat | i < |cs|
      ensures HasMark(cs, NotConverged)(i) == Unconverged(q, s.targetMHz[i], rb, i)
      ensures HasMark(cs, Improving)(i) == Improved(q, s.targetMHz[i], s.prevKHz[i], rb, i)
    {
    }
  }
}
