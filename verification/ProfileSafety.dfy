/** What every successful profile read guarantees, whatever the file holds. */
module ProfileSafety {
  import opened Ini
  import opened ProfileControls
  import opened ProfileCurve
  import opened ProfileLoad
  import opened ProfileOwnership

  const MAX_RESTORED_MHZ := 6000

  /** Every point is either fully absent or a positive frequency within reach. */
  predicate Sane(p: Points, bound: int) {
    forall i :: 0 <= i < VF_NUM_POINTS ==> if p[i].has then 0 < p[i].mhz <= bound else p[i] == NO_POINT
  }

  predicate InRange(c: Settings) {
    && (c.gpu.has ==> -1000 <= c.gpu.mhz <= 1000) && 0 <= c.gpu.excludeLow <= VF_NUM_POINTS
    && -1 <= c.lock.ci < VF_NUM_POINTS && c.lock.mhz <= MAX_RESTORED_MHZ && LOCK_NONE <= c.lock.mode <= LOCK_HARD
    && (c.mem.has ==> -3000 <= c.mem.value <= 3000)
    && (c.power.has ==> POWER_MIN <= c.power.value <= POWER_MAX)
    && (c.fan.has ==> 0 <= c.fan.percent <= 100) && (!c.fan.has ==> c.fan.mode == FanAuto)
  }

  lemma ReadPointsAreSane(e: Entries)
    ensures Sane(PointsRead(PointReader(e)), MAX_POINT_MHZ)
  {
    var p := PointsRead(PointReader(e));
    forall i | 0 <= i < VF_NUM_POINTS
      ensures if p[i].has then 0 < p[i].mhz <= MAX_POINT_MHZ else p[i] == NO_POINT
    {
      assert p[i] == PointAt(PointReader(e), i);
      assert PointReader(e)(i) == ReadPoint(e, i);
    }
  }

  lemma RestoredIsSane(e: Entries, c: Settings, p: Points, curve: Curve)
    requires Sane(p, MAX_POINT_MHZ) && c.gpu.mhz <= 1000
    ensures Sane(Restored(e, c, p, curve), MAX_RESTORED_MHZ)
  {
  }

  /** The repair only ever removes points. */
  lemma RepairOnlyRemoves(visible: nat -> bool, offset: nat -> IntRead, c: Settings, p: Points, i: nat)
    requires i < VF_NUM_POINTS
    ensures Repaired(visible, offset, c, p)[i] == p[i] || Repaired(visible, offset, c, p)[i] == NO_POINT
  {
  }

  lemma CleanedIsSane(e: Entries, c: Settings, p: Points, mode: ReadMode, curve: Curve)
    requires Sane(p, MAX_RESTORED_MHZ)
    ensures Sane(Cleaned(e, c, p, mode, curve), MAX_RESTORED_MHZ)
  {
    var q := Cleaned(e, c, p, mode, curve);
    forall i | 0 <= i < VF_NUM_POINTS
      ensures q[i] == p[i] || q[i] == NO_POINT
    {
      RepairOnlyRemoves(VisibilityReader(e, mode, curve), OffsetReader(e), c, p, i);
    }
  }

  function PreparedPoints(r: Stored, c: Settings, mode: ReadMode, curve: Curve): Points {
    Cleaned(r.curve, c, Restored(r.curve, c, PointsRead(PointReader(r.curve)), curve), mode, curve)
  }

  lemma PreparedIs(r: Stored, mode: ReadMode, curve: Curve)
    requires Prepared(r, mode, curve).Ok?
    ensures ReadControls(r.controls, r.fan).Ok?
    ensures
      var d := Prepared(r, mode, curve).value;
      && d.settings == Clamped(ReadControls(r.controls, r.fan).value)
      && d.points == PreparedPoints(r, d.settings, mode, curve)
      && Monotone(d.points) && !PreTailAbove(d.points, d.settings.lock)
  {
  }

  lemma PreparedPointsAreSane(r: Stored, c: Settings, mode: ReadMode, curve: Curve)
    requires c.gpu.mhz <= 1000
    ensures Sane(PreparedPoints(r, c, mode, curve), MAX_RESTORED_MHZ)
  {
    var p := PointsRead(PointReader(r.curve));
    ReadPointsAreSane(r.curve);
    RestoredIsSane(r.curve, c, p, curve);
    CleanedIsSane(r.curve, c, Restored(r.curve, c, p, curve), mode, curve);
  }

  /** What the trust-boundary clamp leaves, for settings as read. */
  predicate InBounds(c: Settings) {
    InRange(c.(fan := FinalFan(c.fan))) && c.gpu.mhz <= 1000 && c.lock.mhz <= MAX_POINT_MHZ
  }

  lemma ClampedIsInBounds(c: Settings)
    requires !c.gpu.has ==> c.gpu.mhz == 0
    ensures InBounds(Clamped(c))
  {
  }

  lemma OffsetReadsAsZeroUnlessStored(e: Entries, fan: Entries)
    requires ReadControls(e, fan).Ok?
    ensures ReadGpuOffset(e).Ok? && ReadControls(e, fan).value.gpu == ReadGpuOffset(e).value
    ensures !ReadGpuOffset(e).value.has ==> ReadGpuOffset(e).value.mhz == 0
  {
  }

  lemma ReadSettingsAreInBounds(e: Entries, fan: Entries)
    requires ReadControls(e, fan).Ok?
    ensures InBounds(Clamped(ReadControls(e, fan).value))
  {
    OffsetReadsAsZeroUnlessStored(e, fan);
    ClampedIsInBounds(ReadControls(e, fan).value);
  }

  lemma PreparedIsSane(r: Stored, mode: ReadMode, curve: Curve)
    requires Prepared(r, mode, curve).Ok?
    ensures
      var d := Prepared(r, mode, curve).value;
      && Sane(d.points, MAX_RESTORED_MHZ) && Monotone(d.points) && !PreTailAbove(d.points, d.settings.lock)
      && InBounds(d.settings)
  {
    PreparedIs(r, mode, curve);
    ReadSettingsAreInBounds(r.controls, r.fan);
    PreparedPointsAreSane(r, Prepared(r, mode, curve).value.settings, mode, curve);
  }

  /** Dropping points keeps the shape. */
  lemma FewerPointsKeepShape(p: Points, q: Points, lock: Lock, bound: int)
    requires Sane(p, bound) && Monotone(p) && forall i :: 0 <= i < VF_NUM_POINTS ==> q[i] == p[i] || q[i] == NO_POINT
    ensures Sane(q, bound) && Monotone(q) && (PreTailAbove(q, lock) ==> PreTailAbove(p, lock))
  {
  }

  lemma FinalPointsAreFewer(explicit: bool, r: Stored, p: Points, lock: Lock, mode: ReadMode, live: Live, i: nat)
    requires i < VF_NUM_POINTS && Sane(p, MAX_RESTORED_MHZ)
    ensures FinalPoints(explicit, r, p, lock, mode, live)[i] == p[i] || FinalPoints(explicit, r, p, lock, mode, live)[i] == NO_POINT
  {
  }

  lemma InferredLockIsSane(explicit: bool, d: Desired, curve: Curve)
    requires Sane(d.points, MAX_RESTORED_MHZ) && -1 <= d.settings.lock.ci < VF_NUM_POINTS && d.settings.lock.mhz <= MAX_POINT_MHZ
    ensures
      var lock := Inferred(explicit, d, curve);
      -1 <= lock.ci < VF_NUM_POINTS && lock.mhz <= MAX_RESTORED_MHZ && lock.mode == d.settings.lock.mode
  {
  }

  lemma CompletedIsSafe(r: Stored, d: Desired, mode: ReadMode, live: Live)
    requires Sane(d.points, MAX_RESTORED_MHZ) && Monotone(d.points) && !PreTailAbove(d.points, d.settings.lock) && InBounds(d.settings)
    ensures
      var done := Completed(r, d, mode, live);
      && Sane(done.points, MAX_RESTORED_MHZ) && Monotone(done.points) && InRange(done.settings)
      && (!InfersLock(LockCiExplicit(r.controls), d.settings.lock) ==> !PreTailAbove(done.points, done.settings.lock))
  {
    var explicit := LockCiExplicit(r.controls);
    var lock := Inferred(explicit, d, live.curve);
    InferredLockIsSane(explicit, d, live.curve);
    var q := FinalPoints(explicit, r, d.points, lock, mode, live);
    forall i | 0 <= i < VF_NUM_POINTS
      ensures q[i] == d.points[i] || q[i] == NO_POINT
    {
      FinalPointsAreFewer(explicit, r, d.points, lock, mode, live, i);
    }
    FewerPointsKeepShape(d.points, q, FinalLock(explicit, r, d.points, lock, mode, live.curve), MAX_RESTORED_MHZ);
  }

  /** Every successful read, in either mode, returns settings in range and a curve of positive,
      locally rising frequencies; and unless the lock was inferred no point below the anchor exceeds
      it, so the later flat-tail apply cannot fail on the stored shape. */
  lemma LoadedRecordIsSafe(f: File, slot: int, mode: ReadMode, live: Live)
    requires Loaded(f, slot, mode, live).Ok?
    ensures RecordOf(f, slot).Ok? && Prepared(RecordOf(f, slot).value, mode, live.curve).Ok?
    ensures
      var d := Loaded(f, slot, mode, live).value;
      var r := RecordOf(f, slot).value;
      var lock := Prepared(r, mode, live.curve).value.settings.lock;
      && Sane(d.points, MAX_RESTORED_MHZ) && Monotone(d.points) && InRange(d.settings)
      && (!InfersLock(LockCiExplicit(r.controls), lock) ==> !PreTailAbove(d.points, d.settings.lock))
  {
    var r := RecordOf(f, slot).value;
    PreparedIsSane(r, mode, live.curve);
    CompletedIsSafe(r, Prepared(r, mode, live.curve).value, mode, live);
  }

  // -------------------------------------- exactly when an inferred lock is safe

  /** A requested point above a later pair of populated requested points that share a frequency. */
  predicate Undercuts(p: Points, curve: Curve, i: nat, j: nat, k: nat)
    requires i < VF_NUM_POINTS && j < VF_NUM_POINTS && k < VF_NUM_POINTS
  {
    i < j < k && p[i].has && MayPair(p, curve, j, k) && p[i].mhz > p[j].mhz
  }

  ghost predicate CouldUndercut(p: Points, curve: Curve) {
    exists i: nat, j: nat, k: nat :: i < VF_NUM_POINTS && j < VF_NUM_POINTS && k < VF_NUM_POINTS && Undercuts(p, curve, i, j, k)
  }

  /** Whatever voltages these populated points read at, completing this record leaves no point below
      the anchor above the lock. */
  ghost predicate NeverUndercut(r: Stored, d: Desired, mode: ReadMode, curve: Curve) {
    forall live: Live :: SameMask(curve, live.curve) ==>
      !PreTailAbove(Completed(r, d, mode, live).points, Completed(r, d, mode, live).settings.lock)
  }

  lemma CompletedAboveIsUndercut(r: Stored, d: Desired, mode: ReadMode, live: Live)
    requires Sane(d.points, MAX_RESTORED_MHZ) && Monotone(d.points) && !PreTailAbove(d.points, d.settings.lock) && InBounds(d.settings)
    requires PreTailAbove(Completed(r, d, mode, live).points, Completed(r, d, mode, live).settings.lock)
    ensures InfersLock(LockCiExplicit(r.controls), d.settings.lock) && CouldUndercut(d.points, live.curve)
  {
    var explicit, done := LockCiExplicit(r.controls), Completed(r, d, mode, live);
    CompletedIsSafe(r, d, mode, live);
    CompletedLockIsInferred(r, d, mode, live);
    var j := FirstFlat(d.points, live.curve, 0).value;
    var i :| 0 <= i < VF_NUM_POINTS && i < j && done.points[i].has && done.points[i].mhz > done.settings.lock.mhz;
    FinalPointsAreFewer(explicit, r, d.points, Inferred(explicit, d, live.curve), mode, live, i);
    PairAbove(d.points, live.curve, i, j);
  }

  lemma CompletedLockIsInferred(r: Stored, d: Desired, mode: ReadMode, live: Live)
    requires InfersLock(LockCiExplicit(r.controls), d.settings.lock) && Completed(r, d, mode, live).settings.lock.Complete()
    ensures
      var flat, lock := FirstFlat(d.points, live.curve, 0), Completed(r, d, mode, live).settings.lock;
      flat.Some? && lock.ci == flat.value && lock.mhz == d.points[flat.value].mhz > 0
  {
  }

  lemma PairAbove(p: Points, curve: Curve, i: nat, j: nat)
    requires i < j < VF_NUM_POINTS && FlatFrom(p, curve, j) && p[i].has && p[i].mhz > p[j].mhz > 0
    ensures CouldUndercut(p, curve)
  {
    var k :| j < k < VF_NUM_POINTS && Shown(p, curve, k);
    assert Undercuts(p, curve, i, j, k);
  }

  /** Showing only the pair infers a lock below the earlier point, and nothing then drops that point. */
  lemma ShowingThePairUndercuts(r: Stored, d: Desired, mode: ReadMode, curve: Curve, i: nat, j: nat, k: nat)
    requires i < VF_NUM_POINTS && j < VF_NUM_POINTS && k < VF_NUM_POINTS && Undercuts(d.points, curve, i, j, k)
    requires InfersLock(LockCiExplicit(r.controls), d.settings.lock)
    ensures
      var done := Completed(r, d, mode, Live(Showing(curve, {j, k}), false));
      PreTailAbove(done.points, done.settings.lock)
  {
    PairShownIsInferred(d.points, curve, j, k);
    var done := Completed(r, d, mode, Live(Showing(curve, {j, k}), false));
    assert done.points == d.points;
    assert done.settings.lock.ci == j && done.settings.lock.mhz == d.points[j].mhz && done.settings.lock.Complete();
    assert done.points[i].has;
  }

  lemma CouldUndercutByMask(p: Points, a: Curve, b: Curve)
    requires SameMask(a, b) && CouldUndercut(p, b)
    ensures CouldUndercut(p, a)
  {
    var i: nat, j: nat, k: nat :| i < VF_NUM_POINTS && j < VF_NUM_POINTS && k < VF_NUM_POINTS && Undercuts(p, b, i, j, k);
    assert Undercuts(p, a, i, j, k);
  }

  /** In either mode: the completed record is safe under every GPU state with these populated points
      exactly when the lock is not inferred or no earlier point exceeds an equal pair. */
  lemma InferenceIsSafeExactlyWhen(r: Stored, d: Desired, mode: ReadMode, curve: Curve)
    requires Prepared(r, mode, curve) == Ok(d)
    ensures NeverUndercut(r, d, mode, curve) <==> !InfersLock(LockCiExplicit(r.controls), d.settings.lock) || !CouldUndercut(d.points, curve)
  {
    PreparedIsSane(r, mode, curve);
    if InfersLock(LockCiExplicit(r.controls), d.settings.lock) && CouldUndercut(d.points, curve) {
      var i: nat, j: nat, k: nat :| i < VF_NUM_POINTS && j < VF_NUM_POINTS && k < VF_NUM_POINTS && Undercuts(d.points, curve, i, j, k);
      ShowingThePairUndercuts(r, d, mode, curve, i, j, k);
      ShowingKeepsMask(curve, {j, k});
      assert SameMask(curve, Live(Showing(curve, {j, k}), false).curve);
    } else {
      forall live: Live | SameMask(curve, live.curve)
        ensures !PreTailAbove(Completed(r, d, mode, live).points, Completed(r, d, mode, live).settings.lock)
      {
        if PreTailAbove(Completed(r, d, mode, live).points, Completed(r, d, mode, live).settings.lock) {
          CompletedAboveIsUndercut(r, d, mode, live);
          CouldUndercutByMask(d.points, curve, live.curve);
        }
      }
    }
  }

  /** No ownership read of this slot, under any GPU state with these populated points, leaves a point
      below the anchor above the lock. */
  ghost predicate ReadsAreSafe(f: File, slot: int, live: Live) {
    forall other: Live :: SameMask(live.curve, other.curve) && Loaded(f, slot, ForOwnership, other).Ok? ==>
      !PreTailAbove(Loaded(f, slot, ForOwnership, other).value.points, Loaded(f, slot, ForOwnership, other).value.settings.lock)
  }

  lemma OwnershipReadsAreSafeExactlyWhen(f: File, slot: int, live: Live, r: Stored, d: Desired)
    requires RecordOf(f, slot) == Ok(r) && Prepared(r, ForOwnership, live.curve) == Ok(d)
    ensures ReadsAreSafe(f, slot, live) <==> !InfersLock(LockCiExplicit(r.controls), d.settings.lock) || !CouldUndercut(d.points, live.curve)
  {
    InferenceIsSafeExactlyWhen(r, d, ForOwnership, live.curve);
    forall other: Live | SameMask(live.curve, other.curve)
      ensures Loaded(f, slot, ForOwnership, other) == Ok(Completed(r, d, ForOwnership, other))
    {
      PreparedByMask(r, live.curve, other.curve);
    }
  }

  /** What the editor shows after a read over a loaded curve. */
  lemma EditorShowsOnlyVisible(f: File, slot: int, live: Live, i: nat)
    requires Loaded(f, slot, ForEditor, live).Ok? && live.loaded && AnyPopulated(live.curve) && i < VF_NUM_POINTS
    ensures Loaded(f, slot, ForEditor, live).value.points[i].has ==> live.curve[i].Visible()
  {
  }
}
