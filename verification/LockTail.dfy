/**
 Two scans that decide whether a locked tail can stay flat: the pre-tail check, asked before the
 first write, and the flat-tail check over the targets of a correction request.
 */
module LockTail {
  import opened Ints
  import opened CurveOffset
  import opened Correction

  // ------------------------------------------------------- the pre-tail check

  /** How a requested point with offset provenance is judged. */
  datatype Provenance = Stored | LiveBase | Agreement

  function ProvenanceMode(offsetInVfTable: bool, baseIsPostReset: bool): Provenance {
    if !offsetInVfTable then Stored else if baseIsPostReset then LiveBase else Agreement
  }

  datatype Points = Points(
    populated: seq<bool>, tail: seq<bool>, has: seq<bool>, fromOffset: seq<bool>, requestMHz: seq<U32>,
    hasGpuOffset: bool, stockBaseKHz: seq<int>, componentMHz: seq<I32>, unownedKHz: seq<int>)
  {
    predicate Sized(n: nat) {
      && |populated| == n && |tail| == n && |has| == n && |fromOffset| == n && |requestMHz| == n
      && |stockBaseKHz| == n && |componentMHz| == n && |unownedKHz| == n
    }

    predicate WellSized() {
      Sized(|populated|)
    }

    function BaseTargetMHz(i: nat): U32
      requires WellSized() && i < |populated|
    {
      DisplayMHz(Max(0, stockBaseKHz[i] + componentMHz[i] * 1000))
    }

    /** Where point `i` will sit, as the given mode judges it. */
    function TargetMHz(mode: Provenance, i: nat): U32
      requires WellSized() && i < |populated|
    {
      var offsetIntent := mode != Stored && has[i] && fromOffset[i];
      if has[i] && !offsetIntent then requestMHz[i]
      else if offsetIntent && mode == Agreement then Min(requestMHz[i], BaseTargetMHz(i))
      else if offsetIntent || hasGpuOffset then BaseTargetMHz(i)
      else DisplayMHz(Max(0, unownedKHz[i]))
    }

    /** A populated point below the tail: no populated tail point at or before it. */
    ghost predicate BelowTail(i: nat)
      requires WellSized() && i < |populated|
    {
      populated[i] && forall j: nat :: j <= i && populated[j] ==> !tail[j]
    }

    ghost predicate Violates(mode: Provenance, lockMHz: U32, i: nat)
      requires WellSized()
    {
      lockMHz > 0 && i < |populated| && BelowTail(i) && TargetMHz(mode, i) > lockMHz
    }

    /** `ci` is the least violating index, or -1 when there is none. */
    ghost predicate FirstViolation(mode: Provenance, lockMHz: U32, ci: int)
      requires WellSized()
    {
      && -1 <= ci < |populated|
      && (ci >= 0 ==> Violates(mode, lockMHz, ci))
      && (forall j: nat :: j < |populated| && (ci == -1 || j < ci) ==> !Violates(mode, lockMHz, j))
    }
  }

  method FindPretailViolation(p: Points, mode: Provenance, lockMHz: U32) returns (ci: int, offendingMHz: U32)
    requires p.WellSized()
    ensures p.FirstViolation(mode, lockMHz, ci)
    ensures offendingMHz == if ci >= 0 then p.TargetMHz(mode, ci) else 0
  {
    ci, offendingMHz := -1, 0;
    if lockMHz == 0 { return; }
    for i := 0 to |p.populated|
      invariant forall j: nat :: j < i && p.populated[j] ==> !p.tail[j]
      invariant forall j: nat :: j < i ==> !p.Violates(mode, lockMHz, j)
    {
      if !p.populated[i] { continue; }
      if p.tail[i] {
        assert forall j: nat :: i <= j < |p.populated| ==> !p.BelowTail(j);
        return;
      }
      var target := p.TargetMHz(mode, i);
      if target > lockMHz {
        return i, target;
      }
    }
  }

  lemma AgreementIsTheLowerTarget(p: Points, i: nat)
    requires p.WellSized() && i < |p.populated|
    ensures p.TargetMHz(Agreement, i) == Min(p.TargetMHz(Stored, i), p.TargetMHz(LiveBase, i))
  {
  }

  /** The agreement mode's answer is the least index at which both other modes object. */
  lemma AgreementIsFirstCommonViolation(p: Points, lockMHz: U32, ci: int)
    requires p.WellSized()
    ensures p.FirstViolation(Agreement, lockMHz, ci) <==>
      && -1 <= ci < |p.populated|
      && (ci >= 0 ==> p.Violates(Stored, lockMHz, ci) && p.Violates(LiveBase, lockMHz, ci))
      && forall j: nat :: j < |p.populated| && (ci == -1 || j < ci) ==>
           !(p.Violates(Stored, lockMHz, j) && p.Violates(LiveBase, lockMHz, j))
  {
    forall j: nat | j < |p.populated|
      ensures p.Violates(Agreement, lockMHz, j) <==> p.Violates(Stored, lockMHz, j) && p.Violates(LiveBase, lockMHz, j)
    {
      AgreementIsTheLowerTarget(p, j);
    }
  }

  /** Whenever agreement refuses, both other modes refuse at that index or earlier. */
  lemma AgreementRefusalIsUnanimous(p: Points, lockMHz: U32, agreed: int, stored: int, live: int)
    requires p.WellSized()
    requires p.FirstViolation(Agreement, lockMHz, agreed) && agreed >= 0
    requires p.FirstViolation(Stored, lockMHz, stored) && p.FirstViolation(LiveBase, lockMHz, live)
    ensures 0 <= stored <= agreed && 0 <= live <= agreed
  {
    AgreementIsFirstCommonViolation(p, lockMHz, agreed);
  }

  /** Whichever mode the routing picks, it refuses whenever the agreement mode would, no later. */
  lemma ChosenModeIsAtLeastAsStrict(p: Points, offsetInVfTable: bool, baseIsPostReset: bool, lockMHz: U32, agreed: int, chosen: int)
    requires p.WellSized() && agreed >= 0 && p.FirstViolation(Agreement, lockMHz, agreed)
    requires p.FirstViolation(ProvenanceMode(offsetInVfTable, baseIsPostReset), lockMHz, chosen)
    ensures 0 <= chosen <= agreed
  {
    AgreementIsFirstCommonViolation(p, lockMHz, agreed);
  }

  /** Which target a point is judged by, from the routing: without table offsets what is stored; with them, and
      over a base read after the reset, where the offset will put it; otherwise the lower of the two. A point
      nobody requested sits where the requested GPU offset puts it, or where it is. */
  lemma RoutingJudges(p: Points, offsetInVfTable: bool, baseIsPostReset: bool, i: nat)
    requires p.WellSized() && i < |p.populated|
    ensures
      var t := p.TargetMHz(ProvenanceMode(offsetInVfTable, baseIsPostReset), i);
      var projected := DisplayMHz(Max(0, p.stockBaseKHz[i] + p.componentMHz[i] * 1000));
      && (p.has[i] && (!p.fromOffset[i] || !offsetInVfTable) ==> t == p.requestMHz[i])
      && (p.has[i] && p.fromOffset[i] && offsetInVfTable && baseIsPostReset ==> t == projected)
      && (p.has[i] && p.fromOffset[i] && offsetInVfTable && !baseIsPostReset ==> t == if p.requestMHz[i] < projected then p.requestMHz[i] else projected)
      && (!p.has[i] ==> t == if p.hasGpuOffset then projected else DisplayMHz(Max(0, p.unownedKHz[i])))
  {
  }

  /** The flat-tail check judges a tail point by the lock, a point that asks for an offset by where that puts
      it over the live base, and any other by its target. */
  lemma FlatTargets(q: Request, t: seq<U32>, rb: Readback, i: nat)
    requires q.Sized(|t|) && rb.Sized(|t|) && i < |t|
    ensures
      var asksOffset := !(q.hasLock && q.lockedTail[i] && q.lockMHz > 0) && q.populated[i] && !q.typed[i] && (q.viaBatch || q.fromOffset[i]);
      FlatTargetMHz(q, t, rb, i)
        == if q.lockedTail[i] then q.lockMHz
           else if q.offsetInVfTable && asksOffset then DisplayMHz(Max(0, StockBaseKHz(rb.freqKHz[i], rb.offsetKHz[i]) + q.targetOffsetKHz[i]))
           else t[i]
  {
  }

  /** Raising a nonzero lock never moves the first violation to an earlier point. */
  lemma RaisingTheLockNeverRefusesEarlier(p: Points, mode: Provenance, lockMHz: U32, higherMHz: U32, ci: int, higherCi: int)
    requires p.WellSized() && 0 < lockMHz <= higherMHz
    requires p.FirstViolation(mode, lockMHz, ci) && p.FirstViolation(mode, higherMHz, higherCi)
    ensures higherCi >= 0 ==> 0 <= ci <= higherCi
  {
    if higherCi >= 0 {
      assert p.Violates(mode, lockMHz, higherCi);
    }
  }

  /** Every raise from `lockMHz` keeps or delays the refusal. */
  ghost predicate RaisesAreMonotone(p: Points, mode: Provenance, lockMHz: U32)
    requires p.WellSized()
  {
    forall higherMHz: U32, ci, higherCi ::
      higherMHz >= lockMHz && p.FirstViolation(mode, lockMHz, ci) && p.FirstViolation(mode, higherMHz, higherCi) && higherCi >= 0
      ==> 0 <= ci <= higherCi
  }

  /** A zero lock switches the check off, so the monotonicity fails there exactly when a 1 MHz lock would refuse. */
  lemma RaisesAreMonotoneExactlyWhen(p: Points, mode: Provenance, lockMHz: U32, atOne: int)
    requires p.WellSized() && p.FirstViolation(mode, 1, atOne)
    ensures RaisesAreMonotone(p, mode, lockMHz) <==> lockMHz > 0 || atOne == -1
  {
    if lockMHz > 0 {
      forall higherMHz: U32, ci, higherCi |
        higherMHz >= lockMHz && p.FirstViolation(mode, lockMHz, ci) && p.FirstViolation(mode, higherMHz, higherCi) && higherCi >= 0
        ensures 0 <= ci <= higherCi
      {
        RaisingTheLockNeverRefusesEarlier(p, mode, lockMHz, higherMHz, ci, higherCi);
      }
    } else {
      assert p.FirstViolation(mode, 0, -1);
      if atOne == -1 {
        forall higherMHz: U32, higherCi | p.FirstViolation(mode, higherMHz, higherCi)
          ensures higherCi == -1
        {
          if higherCi >= 0 {
            assert p.Violates(mode, 1, higherCi);
          }
        }
      }
    }
  }

  // ------------------------------------------------------ the flat-tail check

  /** Where a point is meant to sit for the flat-tail check. */
  function FlatTargetMHz(q: Request, t: seq<U32>, rb: Readback, i: nat): U32
    requires q.Sized(|t|) && rb.Sized(|t|) && i < |t|
  {
    if q.lockedTail[i] then q.lockMHz
    else if q.offsetInVfTable && q.IsIntent(i) then
      DisplayMHz(Min(Max(0, rb.BaseKHz(i) + q.targetOffsetKHz[i]), UINT_MAX))
    else t[i]
  }

  /** The target of the last examined point before `i`, 0 when there is none. */
  ghost function PreviousMHz(q: Request, t: seq<U32>, rb: Readback, i: nat): U32
    requires q.Sized(|t|) && rb.Sized(|t|) && i <= |t|
  {
    if i == 0 then 0
    else if Examined(q, rb, i - 1) then FlatTargetMHz(q, t, rb, i - 1)
    else PreviousMHz(q, t, rb, i - 1)
  }

  ghost predicate RaisesPlateau(q: Request, t: seq<U32>, rb: Readback, i: nat)
    requires q.Sized(|t|) && rb.Sized(|t|)
  {
    && i < |t| && i > 0 && Examined(q, rb, i) && q.lockedTail[i]
    && PreviousMHz(q, t, rb, i) > FlatTargetMHz(q, t, rb, i)
  }

  ghost predicate FirstRaise(q: Request, t: seq<U32>, rb: Readback, ci: int)
    requires q.Sized(|t|) && rb.Sized(|t|)
  {
    && -1 <= ci < |t|
    && (ci >= 0 ==> RaisesPlateau(q, t, rb, ci))
    && (forall j: nat :: j < |t| && (ci == -1 || j < ci) ==> !RaisesPlateau(q, t, rb, j))
  }

  method FindTailViolation(q: Request, t: seq<U32>, rb: Readback) returns (ci: int, previousMHz: U32)
    requires Fits(q, t, rb)
    ensures FirstRaise(q, t, rb, ci)
    ensures previousMHz == if ci >= 0 then PreviousMHz(q, t, rb, ci) else 0
  {
    var last: U32 := 0;
    ci, previousMHz := -1, 0;
    for i := 0 to |t|
      invariant last == PreviousMHz(q, t, rb, i)
      invariant forall j: nat :: j < i ==> !RaisesPlateau(q, t, rb, j)
    {
      if rb.freqKHz[i] == 0 || !q.has[i] { continue; }
      var current := FlatTargetMHz(q, t, rb, i);
      if q.lockedTail[i] && i > 0 && last > current {
        return i, last;
      }
      last := current;
    }
  }

  ghost predicate TailIsSuffix(q: Request) {
    forall i: nat, j: nat :: i < j < |q.lockedTail| && q.lockedTail[i] ==> q.lockedTail[j]
  }

  ghost predicate PretailRises(q: Request, t: seq<U32>, rb: Readback)
    requires q.Sized(|t|) && rb.Sized(|t|)
  {
    forall i: nat, j: nat ::
      i < j < |t| && Examined(q, rb, i) && Examined(q, rb, j) && !q.lockedTail[i] && !q.lockedTail[j]
      ==> FlatTargetMHz(q, t, rb, i) <= FlatTargetMHz(q, t, rb, j)
  }

  /** The highest target among the examined points before `i`. */
  ghost function RunningMax(q: Request, t: seq<U32>, rb: Readback, i: nat): U32
    requires q.Sized(|t|) && rb.Sized(|t|) && i <= |t|
  {
    if i == 0 then 0
    else if Examined(q, rb, i - 1) then Max(RunningMax(q, t, rb, i - 1), FlatTargetMHz(q, t, rb, i - 1))
    else RunningMax(q, t, rb, i - 1)
  }

  /** Over a rising pre-tail the previous target is the running maximum. */
  lemma {:induction false} PreviousIsRunningMax(q: Request, t: seq<U32>, rb: Readback, i: nat)
    requires Fits(q, t, rb) && i <= |t| && PretailRises(q, t, rb)
    requires forall j: nat :: j < i ==> !q.lockedTail[j]
    ensures PreviousMHz(q, t, rb, i) == RunningMax(q, t, rb, i)
    ensures forall j: nat :: j < i && Examined(q, rb, j) ==> FlatTargetMHz(q, t, rb, j) <= RunningMax(q, t, rb, i)
    ensures RunningMax(q, t, rb, i) > 0 ==>
      exists j: nat :: j < i && Examined(q, rb, j) && FlatTargetMHz(q, t, rb, j) == RunningMax(q, t, rb, i)
  {
    if i > 0 {
      PreviousIsRunningMax(q, t, rb, i - 1);
    }
  }

  /** In the tail the previous target is the lock once a tail point was examined. */
  lemma {:induction false} PreviousInTail(q: Request, t: seq<U32>, rb: Readback, first: nat, i: nat)
    requires Fits(q, t, rb) && first <= i <= |t|
    requires forall j: nat :: first <= j < i ==> q.lockedTail[j]
    ensures PreviousMHz(q, t, rb, i) ==
      if exists j: nat :: first <= j < i && Examined(q, rb, j) then q.lockMHz else PreviousMHz(q, t, rb, first)
    ensures RunningMax(q, t, rb, i) ==
      if exists j: nat :: first <= j < i && Examined(q, rb, j) then Max(RunningMax(q, t, rb, first), q.lockMHz)
      else RunningMax(q, t, rb, first)
  {
    if first < i {
      PreviousInTail(q, t, rb, first, i - 1);
      if Examined(q, rb, i - 1) {
        assert exists j: nat :: first <= j < i && Examined(q, rb, j);
      } else {
        assert forall j: nat :: first <= j < i && Examined(q, rb, j) ==> j < i - 1;
      }
    }
  }

  /** The index where a suffix tail starts. */
  ghost function TailStart(q: Request, i: nat): (first: nat)
    requires i <= |q.lockedTail|
    requires forall j: nat, k: nat :: i <= j < k < |q.lockedTail| && q.lockedTail[j] ==> q.lockedTail[k]
    requires forall j: nat :: j < i ==> !q.lockedTail[j]
    ensures first <= |q.lockedTail|
    ensures forall j: nat :: j < |q.lockedTail| ==> (q.lockedTail[j] <==> first <= j)
    decreases |q.lockedTail| - i
  {
    if i == |q.lockedTail| || q.lockedTail[i] then i else TailStart(q, i + 1)
  }

  /** Examined tail points at or after the start see no maximum above the lock. */
  ghost predicate MaxIsLockOnTail(q: Request, t: seq<U32>, rb: Readback)
    requires q.Sized(|t|) && rb.Sized(|t|)
  {
    forall i: nat :: i < |t| && Examined(q, rb, i) && q.lockedTail[i] ==> RunningMax(q, t, rb, i + 1) == q.lockMHz
  }

  /** With a suffix tail and a rising pre-tail, the check passes exactly when the running
      maximum equals the lock on every examined tail point. */
  lemma FlatTailIffMaxIsLock(q: Request, t: seq<U32>, rb: Readback)
    requires Fits(q, t, rb) && TailIsSuffix(q) && PretailRises(q, t, rb)
    ensures FirstRaise(q, t, rb, -1) <==> MaxIsLockOnTail(q, t, rb)
  {
    var first := TailStart(q, 0);
    PreviousIsRunningMax(q, t, rb, first);
    forall i: nat | i < |t| && Examined(q, rb, i) && q.lockedTail[i]
      ensures RaisesPlateau(q, t, rb, i) <==>
        (forall j: nat :: first <= j < i ==> !Examined(q, rb, j)) && RunningMax(q, t, rb, first) > q.lockMHz
      ensures RunningMax(q, t, rb, i + 1) == Max(RunningMax(q, t, rb, first), q.lockMHz)
    {
      PreviousInTail(q, t, rb, first, i);
    }
    if FirstRaise(q, t, rb, -1) && !MaxIsLockOnTail(q, t, rb) {
      var i: nat :| i < |t| && Examined(q, rb, i) && q.lockedTail[i] && RunningMax(q, t, rb, i + 1) != q.lockMHz;
      FirstExamined(q, rb, first, i);
    }
  }

  /** There is a first examined index in a range that has one. */
  lemma {:induction false} FirstExamined(q: Request, rb: Readback, first: nat, i: nat)
    requires q.Sized(|q.lockedTail|) && rb.Sized(|q.lockedTail|) && first <= i < |q.lockedTail| && Examined(q, rb, i)
    ensures exists k: nat :: first <= k <= i && Examined(q, rb, k) && forall j: nat :: first <= j < k ==> !Examined(q, rb, j)
    decreases i
  {
    if j: nat :| first <= j < i && Examined(q, rb, j) {
      FirstExamined(q, rb, first, j);
    }
  }

  /** The two scans look at the same points, bases and offsets. A point the correction adds to the
      requested ones comes from a selective batch, and from the GPU offset alone. */
  ghost predicate SamePoints(p: Points, q: Request, t: seq<U32>, rb: Readback)
    requires q.Sized(|t|) && rb.Sized(|t|)
  {
    && p.Sized(|t|) && q.offsetInVfTable && p.tail == q.lockedTail
    && forall i: nat :: i < |t| ==>
         && p.populated[i] == (rb.freqKHz[i] != 0) && p.stockBaseKHz[i] == rb.BaseKHz(i)
         && (!q.lockedTail[i] && p.has[i] ==> Requested(p, q, t, i))
         && (!q.lockedTail[i] && q.has[i] && !p.has[i] ==> Synthesized(p, q, i))
         && (!q.lockedTail[i] && q.has[i] && !q.typed[i] ==> q.targetOffsetKHz[i] == (p.componentMHz[i] as int) * 1000)
  }

  /** The correction takes a requested point over; it was typed unless it came from the GPU offset. */
  predicate Requested(p: Points, q: Request, t: seq<U32>, i: nat)
    requires p.Sized(|t|) && q.Sized(|t|) && i < |t|
  {
    q.has[i] && q.populated[i] && q.fromOffset[i] == p.fromOffset[i] && p.requestMHz[i] == t[i] && q.typed[i] == !q.fromOffset[i]
  }

  predicate Synthesized(p: Points, q: Request, i: nat)
    requires q.Sized(|q.lockedTail|) && i < |q.lockedTail|
  {
    q.viaBatch && p.hasGpuOffset && q.populated[i] && !q.typed[i] && !q.fromOffset[i]
  }

  lemma SameTarget(p: Points, q: Request, t: seq<U32>, rb: Readback, i: nat)
    requires Fits(q, t, rb) && SamePoints(p, q, t, rb) && i < |t| && q.has[i] && !q.lockedTail[i]
    ensures FlatTargetMHz(q, t, rb, i) == p.TargetMHz(LiveBase, i)
  {
  }

  /** A passing live-base pre-tail check implies a passing flat-tail check. */
  lemma PretailPassImpliesFlatTail(p: Points, q: Request, t: seq<U32>, rb: Readback)
    requires Fits(q, t, rb) && TailIsSuffix(q) && SamePoints(p, q, t, rb)
    requires q.lockMHz > 0 && p.FirstViolation(LiveBase, q.lockMHz, -1)
    ensures FirstRaise(q, t, rb, -1)
  {
    var first := TailStart(q, 0);
    PretailBelowLock(p, q, t, rb, first);
    forall i: nat | i < |t| && Examined(q, rb, i) && q.lockedTail[i]
      ensures !RaisesPlateau(q, t, rb, i)
    {
      PreviousInTail(q, t, rb, first, i);
    }
  }

  lemma {:induction false} PretailBelowLock(p: Points, q: Request, t: seq<U32>, rb: Readback, i: nat)
    requires Fits(q, t, rb) && SamePoints(p, q, t, rb) && i <= |t|
    requires q.lockMHz > 0 && p.FirstViolation(LiveBase, q.lockMHz, -1)
    requires forall j: nat :: j < i ==> !q.lockedTail[j]
    ensures PreviousMHz(q, t, rb, i) <= q.lockMHz
  {
    if i > 0 {
      PretailBelowLock(p, q, t, rb, i - 1);
      if Examined(q, rb, i - 1) {
        SameTarget(p, q, t, rb, i - 1);
        assert p.BelowTail(i - 1);
        assert !p.Violates(LiveBase, q.lockMHz, i - 1);
      }
    }
  }

  /** The two checks agree when the pre-tail rises, every populated pre-tail point is requested,
      and some tail point is requested. */
  lemma ChecksAgree(p: Points, q: Request, t: seq<U32>, rb: Readback)
    requires Fits(q, t, rb) && TailIsSuffix(q) && SamePoints(p, q, t, rb) && PretailRises(q, t, rb) && q.lockMHz > 0
    requires forall i: nat :: i < |t| && rb.freqKHz[i] != 0 && !q.lockedTail[i] ==> q.has[i]
    requires exists i: nat :: i < |t| && Examined(q, rb, i) && q.lockedTail[i]
    ensures FirstRaise(q, t, rb, -1) <==> p.FirstViolation(LiveBase, q.lockMHz, -1)
  {
    if p.FirstViolation(LiveBase, q.lockMHz, -1) {
      PretailPassImpliesFlatTail(p, q, t, rb);
    }
    if FirstRaise(q, t, rb, -1) {
      FlatTailIffMaxIsLock(q, t, rb);
      var first := TailStart(q, 0);
      PreviousIsRunningMax(q, t, rb, first);
      var last: nat :| last < |t| && Examined(q, rb, last) && q.lockedTail[last];
      PreviousInTail(q, t, rb, first, last);
      assert RunningMax(q, t, rb, last + 1) == q.lockMHz;
      forall i: nat | i < |t|
        ensures !p.Violates(LiveBase, q.lockMHz, i)
      {
        if p.BelowTail(i) {
          assert i < first && Examined(q, rb, i);
          SameTarget(p, q, t, rb, i);
        }
      }
    }
  }
}
