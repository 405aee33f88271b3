/** What an ownership read may depend on: the file and which VF points are populated. */
module ProfileOwnership {
  import opened Ini
  import opened ProfileControls
  import opened ProfileCurve
  import opened ProfileLoad
  import opened Options

  lemma {:induction false} OrdinalByMask(a: Curve, b: Curve, i: nat)
    requires SameMask(a, b) && i <= VF_NUM_POINTS
    ensures Ordinal(a, i) == Ordinal(b, i)
  {
    if i > 0 { OrdinalByMask(a, b, i - 1); }
  }

  lemma ComponentByMask(a: Curve, b: Curve, i: nat, gpu: GpuOffset)
    requires SameMask(a, b) && i < VF_NUM_POINTS
    ensures ComponentMHz(a, i, gpu) == ComponentMHz(b, i, gpu)
  {
    OrdinalByMask(a, b, i);
  }

  lemma RestoredByMask(e: Entries, c: Settings, p: Points, a: Curve, b: Curve)
    requires SameMask(a, b)
    ensures Restored(e, c, p, a) == Restored(e, c, p, b)
  {
    forall i | 0 <= i < VF_NUM_POINTS
      ensures ComponentMHz(a, i, c.gpu) == ComponentMHz(b, i, c.gpu)
    {
      ComponentByMask(a, b, i, c.gpu);
    }
    assert AllFromBase(p, c.gpu, a) == AllFromBase(p, c.gpu, b);
  }

  /** Up to the shape checks, an ownership read sees no more of the GPU than its populated points. */
  lemma PreparedByMask(r: Stored, a: Curve, b: Curve)
    requires SameMask(a, b)
    ensures Prepared(r, ForOwnership, a) == Prepared(r, ForOwnership, b)
  {
    var read := ReadControls(r.controls, r.fan);
    if read.Ok? {
      RestoredByMask(r.curve, Clamped(read.value), PointsRead(PointReader(r.curve)), a, b);
    }
  }

  // ------------------------------------------ when inference can bring the GPU in

  /** Two populated requested points share a frequency: a flat tail, as soon as only they are shown. */
  ghost predicate CouldLookFlat(p: Points, curve: Curve) {
    exists i, j :: 0 <= i < j < VF_NUM_POINTS && MayPair(p, curve, i, j)
  }

  predicate MayPair(p: Points, curve: Curve, i: nat, j: nat)
    requires i < VF_NUM_POINTS && j < VF_NUM_POINTS
  {
    p[i].has && p[j].has && curve[i].Populated() && curve[j].Populated() && p[i].mhz == p[j].mhz > 0
  }

  lemma FlatIsAPair(p: Points, curve: Curve, i: nat)
    requires i < VF_NUM_POINTS && FlatFrom(p, curve, i) && p[i].mhz > 0
    ensures CouldLookFlat(p, curve)
  {
    var j :| i < j < VF_NUM_POINTS && Shown(p, curve, j);
    assert MayPair(p, curve, i, j);
  }

  /** The same populated points, with only those in `shown` at a visible voltage. */
  function Showing(curve: Curve, shown: set<int>): Curve {
    seq(VF_NUM_POINTS, i requires 0 <= i < VF_NUM_POINTS =>
      curve[i].(voltUv := if i in shown then 700000 else 0))
  }

  lemma ShowingKeepsMask(curve: Curve, shown: set<int>)
    ensures SameMask(curve, Showing(curve, shown))
    ensures forall i :: 0 <= i < VF_NUM_POINTS ==> Showing(curve, shown)[i].Visible() == (curve[i].Populated() && i in shown)
  {
  }

  lemma {:induction false} NothingShownNothingInferred(p: Points, curve: Curve)
    ensures FirstFlat(p, Showing(curve, {}), 0) == None
  {
    ShowingKeepsMask(curve, {});
  }

  lemma {:induction false} PairShownIsInferred(p: Points, curve: Curve, i: nat, j: nat)
    requires i < j < VF_NUM_POINTS && MayPair(p, curve, i, j)
    ensures FirstFlat(p, Showing(curve, {i, j}), 0) == Some(i)
  {
    var shown := Showing(curve, {i, j});
    ShowingKeepsMask(curve, {i, j});
    assert Shown(p, shown, i) && Shown(p, shown, j);
    forall k | 0 <= k < i
      ensures !FlatFrom(p, shown, k)
    {
    }
    FirstFlatIs(p, shown, i);
  }

  /** The read of this slot is the same for every GPU state with these populated points. */
  ghost predicate DependsOnMaskOnly(f: File, slot: int, live: Live) {
    forall other: Live :: SameMask(live.curve, other.curve) ==>
      Loaded(f, slot, ForOwnership, other) == Loaded(f, slot, ForOwnership, live)
  }

  /** Inference stays out of it, or could find nothing. */
  ghost predicate Settled(explicit: bool, d: Desired, curve: Curve) {
    !InfersLock(explicit, d.settings.lock) || !CouldLookFlat(d.points, curve)
  }

  /** The same, of the record as prepared; an unreadable record has no lock to settle. */
  ghost predicate LockIsSettled(f: File, slot: int, live: Live) {
    RecordOf(f, slot).Ok? && Prepared(RecordOf(f, slot).value, ForOwnership, live.curve).Ok? ==>
      Settled(LockCiExplicit(RecordOf(f, slot).value.controls), Prepared(RecordOf(f, slot).value, ForOwnership, live.curve).value, live.curve)
  }

  lemma InferredWhenSettled(explicit: bool, d: Desired, curve: Curve)
    requires Settled(explicit, d, curve)
    ensures Inferred(explicit, d, curve) == d.settings.lock
  {
    var flat := FirstFlat(d.points, curve, 0);
    if InfersLock(explicit, d.settings.lock) && flat.Some? && d.points[flat.value].mhz > 0 {
      FlatIsAPair(d.points, curve, flat.value);
    }
  }

  lemma NothingPopulatedIsSettled(f: File, slot: int, live: Live)
    requires !AnyPopulated(live.curve)
    ensures LockIsSettled(f, slot, live)
  {
  }

  lemma CouldLookFlatByMask(p: Points, a: Curve, b: Curve)
    requires SameMask(a, b)
    ensures CouldLookFlat(p, a) == CouldLookFlat(p, b)
  {
    if i, j :| 0 <= i < j < VF_NUM_POINTS && MayPair(p, a, i, j) { assert MayPair(p, b, i, j); }
    if i, j :| 0 <= i < j < VF_NUM_POINTS && MayPair(p, b, i, j) { assert MayPair(p, a, i, j); }
  }

  lemma SettledReadsAgree(f: File, slot: int, live: Live, other: Live)
    requires LockIsSettled(f, slot, live) && SameMask(live.curve, other.curve)
    ensures Loaded(f, slot, ForOwnership, other) == Loaded(f, slot, ForOwnership, live)
  {
    if RecordOf(f, slot).Ok? {
      var r := RecordOf(f, slot).value;
      PreparedByMask(r, live.curve, other.curve);
      var prepared := Prepared(r, ForOwnership, live.curve);
      if prepared.Ok? {
        CouldLookFlatByMask(prepared.value.points, live.curve, other.curve);
        InferredWhenSettled(LockCiExplicit(r.controls), prepared.value, live.curve);
        InferredWhenSettled(LockCiExplicit(r.controls), prepared.value, other.curve);
      }
    }
  }

  /** Showing one pair completes the lock; showing nothing leaves it incomplete. */
  lemma ShowingAPairCompletesTheLock(r: Stored, d: Desired, curve: Curve, i: nat, j: nat)
    requires Prepared(r, ForOwnership, curve) == Ok(d) && InfersLock(LockCiExplicit(r.controls), d.settings.lock)
    requires i < j < VF_NUM_POINTS && MayPair(d.points, curve, i, j)
    ensures Prepared(r, ForOwnership, Showing(curve, {})) == Prepared(r, ForOwnership, Showing(curve, {i, j})) == Ok(d)
    ensures !Inferred(LockCiExplicit(r.controls), d, Showing(curve, {})).Complete()
    ensures Inferred(LockCiExplicit(r.controls), d, Showing(curve, {i, j})).Complete()
  {
    ShowingKeepsMask(curve, {});
    ShowingKeepsMask(curve, {i, j});
    PreparedByMask(r, curve, Showing(curve, {}));
    PreparedByMask(r, curve, Showing(curve, {i, j}));
    NothingShownNothingInferred(d.points, curve);
    PairShownIsInferred(d.points, curve, i, j);
  }

  lemma UnsettledReadsDiffer(f: File, slot: int, live: Live, r: Stored, d: Desired, i: nat, j: nat)
    requires RecordOf(f, slot) == Ok(r) && Prepared(r, ForOwnership, live.curve) == Ok(d)
    requires InfersLock(LockCiExplicit(r.controls), d.settings.lock)
    requires i < j < VF_NUM_POINTS && MayPair(d.points, live.curve, i, j)
    ensures Loaded(f, slot, ForOwnership, live.(curve := Showing(live.curve, {i, j})))
         != Loaded(f, slot, ForOwnership, live.(curve := Showing(live.curve, {})))
  {
    ShowingAPairCompletesTheLock(r, d, live.curve, i, j);
  }

  /** An ownership read depends on the file and the populated points alone exactly when the lock
      is settled: stored completely, stored as absent, or impossible to infer from this curve. */
  lemma OwnershipReadIsDriftFree(f: File, slot: int, live: Live)
    ensures DependsOnMaskOnly(f, slot, live) <==> LockIsSettled(f, slot, live)
  {
    if LockIsSettled(f, slot, live) {
      forall other: Live | SameMask(live.curve, other.curve)
        ensures Loaded(f, slot, ForOwnership, other) == Loaded(f, slot, ForOwnership, live)
      {
        SettledReadsAgree(f, slot, live, other);
      }
    } else {
      var r := RecordOf(f, slot).value;
      var d := Prepared(r, ForOwnership, live.curve).value;
      var i, j :| 0 <= i < j < VF_NUM_POINTS && MayPair(d.points, live.curve, i, j);
      UnsettledReadsDiffer(f, slot, live, r, d, i, j);
      ShowingKeepsMask(live.curve, {});
      ShowingKeepsMask(live.curve, {i, j});
    }
  }

  // --------------------------------------------- reads that need no curve at all

  /** Point `i` reads differently once it is excluded from the GPU offset: it is stored relative to the
      offset, or, unmarked, lands on the lock only with it. */
  predicate Shifts(decode: Decode, c: Settings, p: Points, i: nat)
    requires i < VF_NUM_POINTS
  {
    && p[i].has
    && match decode
       case BasePlusOffset => true
       case Unmarked => c.lock.Complete() && c.lock.ci == i && c.gpu.mhz > 0 && p[i].mhz + c.gpu.mhz == c.lock.mhz
       case _ => false
  }

  /** Some stored point is relative to a GPU offset that excludes low points. */
  ghost predicate Relative(decode: Decode, c: Settings, p: Points) {
    c.gpu.has && c.gpu.mhz != 0 && c.gpu.excludeLow > 0 && exists i: nat :: i < VF_NUM_POINTS && Shifts(decode, c, p, i)
  }

  /** The stored points mean the same on every curve, or are not readable on any. */
  ghost predicate NeedsNoCurve(r: Stored) {
    var read, points := ReadControls(r.controls, r.fan), PointReader(r.curve);
    read.Err? || FirstRefusal(points, 0).Some? || !Relative(SectionDecode(r.curve), Clamped(read.value), PointsRead(points))
  }

  lemma NothingIsShifted(decode: Decode, c: Settings, p: Points, curve: Curve)
    requires !Relative(decode, c, p) && c.gpu.has && c.gpu.mhz != 0 && c.gpu.excludeLow > 0
    ensures decode == Unmarked ==> !UsesBase(decode, c, p, curve)
    ensures decode == BasePlusOffset ==> AllFromBase(p, c.gpu, curve) == p
  {
    if decode == Unmarked && UsesBase(decode, c, p, curve) {
      assert Shifts(decode, c, p, c.lock.ci);
    }
    if decode == BasePlusOffset {
      forall i | 0 <= i < VF_NUM_POINTS ensures !p[i].has {
        assert !Shifts(decode, c, p, i);
      }
    }
  }

  lemma RestoredOnAnyCurve(e: Entries, c: Settings, p: Points, a: Curve, b: Curve)
    requires !Relative(SectionDecode(e), c, p)
    ensures Restored(e, c, p, a) == Restored(e, c, p, b)
  {
    if c.gpu.has && c.gpu.mhz != 0 {
      if c.gpu.excludeLow > 0 {
        NothingIsShifted(SectionDecode(e), c, p, a);
        NothingIsShifted(SectionDecode(e), c, p, b);
      } else {
        assert AllFromBase(p, c.gpu, a) == AllFromBase(p, c.gpu, b);
      }
    }
  }

  lemma PreparedOnAnyCurve(r: Stored, a: Curve, b: Curve)
    requires NeedsNoCurve(r)
    ensures Prepared(r, ForOwnership, a) == Prepared(r, ForOwnership, b)
  {
    var read, points := ReadControls(r.controls, r.fan), PointReader(r.curve);
    if read.Ok? && FirstRefusal(points, 0).None? {
      RestoredOnAnyCurve(r.curve, Clamped(read.value), PointsRead(points), a, b);
    }
  }

  /** A curve with every point populated. */
  function FullCurve(): Curve {
    seq(VF_NUM_POINTS, _ => VfPoint(1, 0, 0))
  }

  /** The lock stays as stored on every curve. */
  ghost predicate SettledOnAnyCurve(f: File, slot: int, live: Live) {
    && LockIsSettled(f, slot, live.(curve := FullCurve()))
    && (RecordOf(f, slot).Ok? ==> NeedsNoCurve(RecordOf(f, slot).value))
  }

  lemma SettledIsSettledThere(f: File, slot: int, live: Live, other: Live)
    requires SettledOnAnyCurve(f, slot, live)
    ensures LockIsSettled(f, slot, other)
  {
    if RecordOf(f, slot).Ok? {
      var r := RecordOf(f, slot).value;
      PreparedOnAnyCurve(r, FullCurve(), other.curve);
      var prepared := Prepared(r, ForOwnership, other.curve);
      if prepared.Ok? { FlatOnAFullCurve(prepared.value.points, other.curve); }
    }
  }

  lemma FlatOnAFullCurve(p: Points, curve: Curve)
    ensures CouldLookFlat(p, curve) ==> CouldLookFlat(p, FullCurve())
  {
    if i, j :| 0 <= i < j < VF_NUM_POINTS && MayPair(p, curve, i, j) { assert MayPair(p, FullCurve(), i, j); }
  }

  /** Such a read is the same under every GPU state. */
  lemma ReadsAgreeOnAnyCurve(f: File, slot: int, live: Live, a: Live, b: Live)
    requires SettledOnAnyCurve(f, slot, live)
    ensures Loaded(f, slot, ForOwnership, a) == Loaded(f, slot, ForOwnership, b)
  {
    SettledIsSettledThere(f, slot, live, a);
    SettledIsSettledThere(f, slot, live, b);
    if RecordOf(f, slot).Ok? {
      var r := RecordOf(f, slot).value;
      PreparedOnAnyCurve(r, a.curve, b.curve);
      var prepared := Prepared(r, ForOwnership, a.curve);
      if prepared.Ok? {
        InferredWhenSettled(LockCiExplicit(r.controls), prepared.value, a.curve);
        InferredWhenSettled(LockCiExplicit(r.controls), prepared.value, b.curve);
      }
    }
  }

  // ------------------------------------------------- reads that do need a curve

  function EmptyCurve(): Curve {
    seq(VF_NUM_POINTS, _ => VfPoint(0, 0, 0))
  }

  /** A curve with only point `i` populated. */
  function Only(i: nat): Curve {
    seq(VF_NUM_POINTS, k => if k == i then VfPoint(1, 0, 0) else VfPoint(0, 0, 0))
  }

  lemma {:induction false} NothingBelow(i: nat, k: nat)
    requires k <= i < VF_NUM_POINTS
    ensures Ordinal(Only(i), k) == 0
  {
    if k > 0 { NothingBelow(i, k - 1); }
  }

  /** Excluding the point shifts it, or makes it appear. */
  lemma ShiftedPoint(e: Entries, c: Settings, p: Points, i: nat)
    requires c.gpu.has && c.gpu.mhz != 0 && c.gpu.excludeLow > 0
    requires i < VF_NUM_POINTS && Shifts(SectionDecode(e), c, p, i) && p[i].mhz > 0
    ensures
      var with, without := Restored(e, c, p, EmptyCurve())[i], Restored(e, c, p, Only(i))[i];
      without.has && (!with.has || with.mhz != without.mhz)
  {
    NothingBelow(i, i);
    assert ComponentMHz(EmptyCurve(), i, c.gpu) == c.gpu.mhz && ComponentMHz(Only(i), i, c.gpu) == 0;
  }

  /** Neither the settings nor the shape of the points the checks see depends on more than `Restored`. */
  lemma RelativePrepared(r: Stored, c: Settings, curve: Curve)
    requires ReadControls(r.controls, r.fan).Ok? && c == Clamped(ReadControls(r.controls, r.fan).value)
    requires c.gpu.has && c.gpu.mhz != 0 && SectionDecode(r.curve) != WithOrigin && Prepared(r, ForOwnership, curve).Ok?
    ensures Prepared(r, ForOwnership, curve) == Ok(Desired(Restored(r.curve, c, PointsRead(PointReader(r.curve)), curve), c))
  {
  }

  /** A stripped record comes out without points and lock. */
  predicate Stripped(r: Stored, c: Settings) {
    Strips(LockCiExplicit(r.controls), c.lock, r)
  }

  lemma AbsentPointsAreBlank(e: Entries, c: Settings, curve: Curve, i: nat)
    requires i < VF_NUM_POINTS && SectionDecode(e) != WithOrigin
    ensures var q := Restored(e, c, PointsRead(PointReader(e)), curve)[i]; !q.has ==> q == NO_POINT
  {
  }

  lemma StrippedReads(r: Stored, c: Settings, live: Live)
    requires ReadControls(r.controls, r.fan).Ok? && c == Clamped(ReadControls(r.controls, r.fan).value)
    requires c.gpu.has && c.gpu.mhz != 0 && SectionDecode(r.curve) != WithOrigin && Prepared(r, ForOwnership, live.curve).Ok?
    requires Stripped(r, c)
    ensures Completed(r, Prepared(r, ForOwnership, live.curve).value, ForOwnership, live)
         == Desired(seq(VF_NUM_POINTS, _ => NO_POINT), c.(lock := c.lock.(has := false, ci := -1, mhz := 0), fan := FinalFan(c.fan)))
  {
    RelativePrepared(r, c, live.curve);
    var p := Restored(r.curve, c, PointsRead(PointReader(r.curve)), live.curve);
    forall i | 0 <= i < VF_NUM_POINTS ensures Cleared(p)[i] == NO_POINT {
      AbsentPointsAreBlank(r.curve, c, live.curve, i);
    }
    assert Cleared(p) == seq(VF_NUM_POINTS, _ => NO_POINT);
  }

  lemma UnstrippedPoints(r: Stored, c: Settings, live: Live)
    requires ReadControls(r.controls, r.fan).Ok? && c == Clamped(ReadControls(r.controls, r.fan).value)
    requires c.gpu.has && c.gpu.mhz != 0 && SectionDecode(r.curve) != WithOrigin && Prepared(r, ForOwnership, live.curve).Ok?
    requires !Stripped(r, c)
    ensures Completed(r, Prepared(r, ForOwnership, live.curve).value, ForOwnership, live).points
         == Restored(r.curve, c, PointsRead(PointReader(r.curve)), live.curve)
  {
    RelativePrepared(r, c, live.curve);
  }

  /** lock_ci and lock_mhz as the writer stores them: an anchor with its frequency, or a negative index. */
  predicate ExplicitLock(e: Entries) {
    var ci, mhz := ReadInt(e, LockCi), ReadInt(e, LockMHz);
    ci.Got? && (ci.value < 0 || (mhz.Got? && mhz.value > 0))
  }

  lemma ExplicitLockReads(e: Entries)
    requires ExplicitLock(e) && ReadLock(e).Ok?
    ensures LockCiExplicit(e) && (ReadLock(e).value.ci < 0 || ReadLock(e).value.Complete())
  {
  }

  lemma PreparedLock(r: Stored, mode: ReadMode, curve: Curve)
    requires Prepared(r, mode, curve).Ok?
    ensures ReadLock(r.controls).Ok?
    ensures
      var read, lock := ReadLock(r.controls).value, Prepared(r, mode, curve).value.settings.lock;
      lock.has == read.has && (lock.ci < 0 <==> read.ci < 0) && (lock.mhz > 0 <==> read.mhz > 0)
  {
  }

  /** Explicit lock keys settle the lock. */
  lemma ExplicitLockIsSettled(f: File, slot: int, live: Live)
    requires RecordOf(f, slot).Ok? && ExplicitLock(RecordOf(f, slot).value.controls)
    ensures DependsOnMaskOnly(f, slot, live)
  {
    var r := RecordOf(f, slot).value;
    if Prepared(r, ForOwnership, live.curve).Ok? {
      PreparedLock(r, ForOwnership, live.curve);
      ExplicitLockReads(r.controls);
    }
    OwnershipReadIsDriftFree(f, slot, live);
  }

  /** The read uses nothing of the file but the slot's own sections (and slot 1's fallback). */
  lemma ReadUsesOwnSections(f: File, g: File, slot: int, mode: ReadMode, live: Live)
    requires SlotRecord(f, slot) == SlotRecord(g, slot)
    requires slot == 1 ==> LegacyRecord(f) == LegacyRecord(g)
    ensures Loaded(f, slot, mode, live) == Loaded(g, slot, mode, live)
    ensures SlotSaved(f, slot) == SlotSaved(g, slot)
  {
  }
}
