/** Loading a profile slot, for the editor or for the "what is applied" comparison. */
module ProfileLoad {
  import opened Text
  import opened Ini
  import opened ProfileControls
  import opened ProfileCurve
  import opened Slots

  datatype Live = Live(curve: Curve, loaded: bool)

  /** The three sections of one record. */
  datatype Stored = Stored(controls: Entries, curve: Entries, fan: Entries) {
    predicate HasAny() {
      controls != map[] || curve != map[] || fan != map[]
    }
  }

  function SlotRecord(f: File, slot: int): Stored {
    Stored(EntriesOf(f, Controls(slot)), EntriesOf(f, Section.Curve(slot)), EntriesOf(f, FanCurve(slot)))
  }

  function LegacyRecord(f: File): Stored {
    Stored(EntriesOf(f, LegacyControls), EntriesOf(f, LegacyCurve), EntriesOf(f, LegacyFanCurve))
  }

  /** Slot 1 falls back to the sections of builds without slots. */
  function RecordOf(f: File, slot: int): Result<Stored> {
    if slot < 1 || slot > NUM_SLOTS then Err(BadArguments)
    else if SlotRecord(f, slot).HasAny() then Ok(SlotRecord(f, slot))
    else if slot == 1 && LegacyRecord(f).HasAny() then Ok(LegacyRecord(f))
    else Err(EmptySlot)
  }

  predicate SlotSaved(f: File, slot: int) {
    1 <= slot <= NUM_SLOTS && (SlotRecord(f, slot).HasAny() || (slot == 1 && LegacyRecord(f).HasAny()))
  }

  const EXPLICIT_POINTS := "explicit_vf_points_v1"

  predicate ExplicitFormat(e: Entries) {
    LowerAll(Trim(ReadText(e, FormatKey, 64))) == EXPLICIT_POINTS
  }

  // ------------------------------------------------------- the read, as stages

  function Restored(e: Entries, c: Settings, p: Points, curve: Curve): Points {
    var decode := SectionDecode(e);
    if decode == WithOrigin then WithOrigins(OriginReader(e), p)
    else if UsesBase(decode, c, p, curve) then AllFromBase(p, c.gpu, curve)
    else p
  }

  function Cleaned(e: Entries, c: Settings, p: Points, mode: ReadMode, curve: Curve): Points {
    if SectionDecode(e) == WithOrigin then p
    else Repaired(VisibilityReader(e, mode, curve), OffsetReader(e), c, p)
  }

  /** Everything up to and including the two shape checks. */
  function Prepared(r: Stored, mode: ReadMode, curve: Curve): Result<Desired> {
    var read :- ReadControls(r.controls, r.fan);
    var points := PointReader(r.curve);
    var refusal := FirstRefusal(points, 0);
    if refusal.Some? then Err(BadKey(refusal.value))
    else
      var c := Clamped(read);
      var p := Cleaned(r.curve, c, Restored(r.curve, c, PointsRead(points), curve), mode, curve);
      if !Monotone(p) then Err(NonMonotone)
      else if PreTailAbove(p, c.lock) then Err(PreTailAboveLock)
      else Ok(Desired(p, c))
  }

  /** The lock is inferred from the curve unless it is complete or explicitly absent. */
  predicate InfersLock(explicit: bool, lock: Lock) {
    !(explicit && lock.ci < 0) && !lock.Complete()
  }

  function Inferred(explicit: bool, d: Desired, curve: Curve): Lock {
    var lock := d.settings.lock;
    if !InfersLock(explicit, lock) then lock
    else match FirstFlat(d.points, curve, 0)
      case None => lock
      case Some(i) => if d.points[i].mhz > 0 then lock.(has := true, ci := i, mhz := d.points[i].mhz, tracks := false) else lock
  }

  predicate Strips(explicit: bool, lock: Lock, r: Stored) {
    explicit && lock.ci < 0 && !ExplicitFormat(r.curve)
  }

  function Cleared(p: Points): Points {
    seq(VF_NUM_POINTS, i requires 0 <= i < VF_NUM_POINTS => if p[i].has then NO_POINT else p[i])
  }

  /** The editor's view of the tail: some shown point from the anchor on, and all of them at the lock. */
  predicate TailShownFlat(p: Points, lock: Lock, curve: Curve) {
    && (exists i :: 0 <= lock.ci <= i < VF_NUM_POINTS && Shown(p, curve, i))
    && forall i :: 0 <= lock.ci <= i < VF_NUM_POINTS && Shown(p, curve, i) ==> p[i].mhz == lock.mhz
  }

  function OnlyShown(p: Points, curve: Curve): Points {
    seq(VF_NUM_POINTS, i requires 0 <= i < VF_NUM_POINTS => if p[i].has && !curve[i].Visible() then NO_POINT else p[i])
  }

  predicate AnyPopulated(curve: Curve) {
    exists i :: 0 <= i < VF_NUM_POINTS && curve[i].Populated()
  }

  function FinalLock(explicit: bool, r: Stored, p: Points, lock: Lock, mode: ReadMode, curve: Curve): Lock {
    if Strips(explicit, lock, r) then lock.(has := false, ci := -1, mhz := 0)
    else if mode == ForEditor && lock.Complete() && TailShownFlat(p, lock, curve) then lock.(tracks := false)
    else lock
  }

  function FinalPoints(explicit: bool, r: Stored, p: Points, lock: Lock, mode: ReadMode, live: Live): Points {
    var kept := if Strips(explicit, lock, r) then Cleared(p) else p;
    if mode == ForEditor && live.loaded && AnyPopulated(live.curve) then OnlyShown(kept, live.curve) else kept
  }

  function FinalFan(fan: FanIntent): FanIntent {
    if fan.has then fan else fan.(mode := FanAuto)
  }

  /** Inference, the legacy strip, and the editor's projections. */
  function Completed(r: Stored, d: Desired, mode: ReadMode, live: Live): Desired {
    var explicit := LockCiExplicit(r.controls);
    var lock := Inferred(explicit, d, live.curve);
    Desired(FinalPoints(explicit, r, d.points, lock, mode, live),
            d.settings.(lock := FinalLock(explicit, r, d.points, lock, mode, live.curve), fan := FinalFan(d.settings.fan)))
  }

  function Loaded(f: File, slot: int, mode: ReadMode, live: Live): Result<Desired> {
    var r :- RecordOf(f, slot);
    var d :- Prepared(r, mode, live.curve);
    Ok(Completed(r, d, mode, live))
  }

  // ------------------------------------------------------ the read, as the code runs it

  method ClearPoints(points: array<CurvePoint>)
    requires points.Length == VF_NUM_POINTS
    modifies points
    ensures points[..] == Cleared(old(points[..]))
  {
    var i := 0;
    while i < VF_NUM_POINTS
      invariant 0 <= i <= VF_NUM_POINTS
      invariant forall j :: 0 <= j < i ==> points[j] == if old(points[j]).has then NO_POINT else old(points[j])
      invariant forall j :: i <= j < VF_NUM_POINTS ==> points[j] == old(points[j])
    {
      if points[i].has { points[i] := NO_POINT; }
      i := i + 1;
    }
  }

  method FilterHidden(points: array<CurvePoint>, curve: Curve)
    requires points.Length == VF_NUM_POINTS
    modifies points
    ensures points[..] == OnlyShown(old(points[..]), curve)
  {
    var i := 0;
    while i < VF_NUM_POINTS
      invariant 0 <= i <= VF_NUM_POINTS
      invariant forall j :: 0 <= j < i ==>
        points[j] == if old(points[j]).has && !curve[j].Visible() then NO_POINT else old(points[j])
      invariant forall j :: i <= j < VF_NUM_POINTS ==> points[j] == old(points[j])
    {
      if points[i].has && !curve[i].Visible() { points[i] := NO_POINT; }
      i := i + 1;
    }
  }

  method ScanShownTail(points: array<CurvePoint>, lock: Lock, curve: Curve) returns (flat: bool)
    requires points.Length == VF_NUM_POINTS && lock.ci >= 0
    ensures flat == TailShownFlat(points[..], lock, curve)
  {
    ghost var p: Points := points[..];
    var saw, i := false, lock.ci;
    while i < VF_NUM_POINTS
      invariant lock.ci <= i
      invariant saw == exists j :: lock.ci <= j < i && j < VF_NUM_POINTS && Shown(p, curve, j)
      invariant forall j :: lock.ci <= j < i && j < VF_NUM_POINTS && Shown(p, curve, j) ==> p[j].mhz == lock.mhz
    {
      if points[i].has && curve[i].Visible() {
        saw := true;
        assert Shown(p, curve, i);
        if points[i].mhz != lock.mhz { return false; }
      }
      i := i + 1;
    }
    return saw;
  }

  method LoadCurve(r: Stored, c: Settings, points: array<CurvePoint>, mode: ReadMode, curve: Curve)
    requires points.Length == VF_NUM_POINTS
    modifies points
    ensures points[..] == Cleaned(r.curve, c, Restored(r.curve, c, old(points[..]), curve), mode, curve)
  {
    var decode := SectionDecode(r.curve);
    if decode == WithOrigin {
      RestoreOrigins(OriginReader(r.curve), points);
    } else {
      if UsesBase(decode, c, points[..], curve) { RestoreFromBase(points, c.gpu, curve); }
      Repair(VisibilityReader(r.curve, mode, curve), OffsetReader(r.curve), c, points);
    }
  }

  method Finish(r: Stored, c: Settings, points: array<CurvePoint>, mode: ReadMode, live: Live) returns (d: Desired)
    requires points.Length == VF_NUM_POINTS
    modifies points
    ensures d == Completed(r, Desired(old(points[..]), c), mode, live)
  {
    var explicit, lock, fan := LockCiExplicit(r.controls), c.lock, c.fan;
    if !(explicit && lock.ci < 0) && (!lock.has || lock.ci < 0 || lock.mhz <= 0) {
      var flat := InferLock(points[..], live.curve);
      if flat.Some? && points[flat.value].mhz > 0 {
        lock := lock.(has := true, ci := flat.value, mhz := points[flat.value].mhz, tracks := false);
      }
    }
    assert lock == Inferred(explicit, Desired(old(points[..]), c), live.curve);
    if explicit && lock.ci < 0 && !ExplicitFormat(r.curve) {
      ClearPoints(points);
      lock := lock.(has := false, ci := -1, mhz := 0);
    } else if mode == ForEditor && lock.Complete() {
      var flat := ScanShownTail(points, lock, live.curve);
      if flat { lock := lock.(tracks := false); }
    }
    if mode == ForEditor && live.loaded && AnyPopulated(live.curve) {
      FilterHidden(points, live.curve);
    }
    if !fan.has { fan := fan.(mode := FanAuto); }
    d := Desired(points[..], c.(lock := lock, fan := fan));
  }

  method LoadProfile(f: File, slot: int, mode: ReadMode, live: Live) returns (result: Result<Desired>)
    ensures result == Loaded(f, slot, mode, live)
  {
    var r :- RecordOf(f, slot);
    var read :- ReadControls(r.controls, r.fan);
    var points := new CurvePoint[VF_NUM_POINTS](_ => NO_POINT);
    var reader := PointReader(r.curve);
    var refused := LoadPoints(reader, points);
    if refused.Some? { return Err(BadKey(refused.value)); }
    var c := Clamped(read);
    LoadCurve(r, c, points, mode, live.curve);
    var monotone := CheckMonotone(points);
    if !monotone { return Err(NonMonotone); }
    var above := CheckPreTail(points, c.lock);
    if above { return Err(PreTailAboveLock); }
    var d := Finish(r, c, points, mode, live);
    return Ok(d);
  }
}
