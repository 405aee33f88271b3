/** Stored profiles that show where the round trip, the drift-free read and the pre-tail check stop holding. */
module ProfileExamples {
  import opened Text
  import opened Ini
  import opened ProfileControls
  import opened ProfileCurve
  import opened ProfileLoad
  import opened ProfileOwnership
  import opened ProfileSave
  import opened ProfileRoundTrip
  import opened IndicatorSync
  import opened Options

  // ------------------------------------------------- a point below 700 mV

  function OnePoint(): Points {
    seq(VF_NUM_POINTS, i requires 0 <= i < VF_NUM_POINTS => if i == 10 then CurvePoint(true, 1500, false) else NO_POINT)
  }

  function LowVoltage(): Curve {
    seq(VF_NUM_POINTS, _ => VfPoint(1500000, 650000, 0))
  }

  function LockedRequest(): Desired {
    Desired(OnePoint(), Settings(GpuOffset(true, 0, 0), Lock(true, 20, 1800, LOCK_FLATTEN, true),
                                 Setting(true, 0), Setting(true, 100), FanIntent(true, FanAuto, 0), ""))
  }

  /** A requested point below the visible voltage is lost by saving, whatever the file and later state. */
  lemma HiddenPointIsLost(f: File, now: Running, later: Live)
    ensures Loaded(Saved(f, 1, RecordText(LockedRequest(), now, LowVoltage())), 1, ForOwnership, later) != Ok(LockedRequest())
  {
    var d := LockedRequest();
    assert AsSaved(d.settings, now) == d.settings;
    assert Storable(d, now);
    assert d.points[10].has && !WrittenVisible(LowVoltage()[10]);
    FullRecordRoundTrip(f, 1, d, now, LowVoltage(), later);
  }

  // --------------------------------------------- points and no lock keys

  /** A curve section that holds these frequencies and nothing else. */
  function PointsText(m: map<nat, int>): Entries {
    map i | i in m :: Point(i, Mhz) := FormatInt(m[i])
  }

  function PointsOf(m: map<nat, int>): Points {
    seq(VF_NUM_POINTS, i requires 0 <= i < VF_NUM_POINTS => if i in m then CurvePoint(true, m[i], false) else NO_POINT)
  }

  predicate InReach(m: map<nat, int>) {
    forall i :: i in m ==> 0 < m[i] <= MAX_POINT_MHZ
  }

  function UnlockedFile(m: map<nat, int>): File {
    map[Section.Curve(2) := PointsText(m)]
  }

  function Populated(): Curve {
    seq(VF_NUM_POINTS, _ => VfPoint(1900000, 800000, 0))
  }

  const NO_SETTINGS := Settings(GpuOffset(false, 0, 0), DEFAULT_LOCK, Setting(false, 0), Setting(false, 100), DEFAULT_FAN, "")

  lemma OnlyFrequencies(m: map<nat, int>, k: Key)
    requires !(k.Point? && k.field == Mhz)
    ensures ReadInt(PointsText(m), k) == Absent
  {
    assert k !in PointsText(m);
  }

  lemma StoredPointReads(m: map<nat, int>, i: nat)
    requires InReach(m)
    ensures ReadPoint(PointsText(m), i) == if i in m then Taken(m[i]) else Skipped
  {
    OnlyFrequencies(m, Point(i, Visibility));
    OnlyFrequencies(m, Point(i, Millivolt));
    if i in m {
      StoredIntReadsBack(PointsText(m), Point(i, Mhz), m[i]);
    } else {
      assert Point(i, Mhz) !in PointsText(m);
    }
  }

  lemma FromReader(read: nat -> PointRead, m: map<nat, int>)
    requires forall i: nat :: read(i) == if i in m then Taken(m[i]) else Skipped
    ensures FirstRefusal(read, 0) == None && PointsRead(read) == PointsOf(m)
  {
    NoRefusal(read, 0);
    assert forall i :: 0 <= i < VF_NUM_POINTS ==> PointsRead(read)[i] == PointsOf(m)[i];
  }

  lemma StoredPointsRead(m: map<nat, int>)
    requires InReach(m)
    ensures FirstRefusal(PointReader(PointsText(m)), 0) == None && PointsRead(PointReader(PointsText(m))) == PointsOf(m)
  {
    forall i: nat
      ensures PointReader(PointsText(m))(i) == if i in m then Taken(m[i]) else Skipped
    {
      StoredPointReads(m, i);
    }
    FromReader(PointReader(PointsText(m)), m);
  }

  lemma NoControls()
    ensures ReadControls(map[], map[]) == Ok(NO_SETTINGS) && Clamped(NO_SETTINGS) == NO_SETTINGS
    ensures !LockCiExplicit(map[])
  {
  }

  lemma LeftAlone(m: map<nat, int>, p: Points, curve: Curve)
    ensures Cleaned(PointsText(m), NO_SETTINGS, Restored(PointsText(m), NO_SETTINGS, p, curve), ForOwnership, curve) == p
  {
    assert CurveSemantics !in PointsText(m);
    assert SectionDecode(PointsText(m)) == Unmarked;
  }

  lemma PreparedFrom(r: Stored, c: Settings, p: Points, mode: ReadMode, curve: Curve)
    requires ReadControls(r.controls, r.fan) == Ok(c) && Clamped(c) == c && FirstRefusal(PointReader(r.curve), 0) == None
    requires Cleaned(r.curve, c, Restored(r.curve, c, PointsRead(PointReader(r.curve)), curve), mode, curve) == p
    requires Monotone(p) && !PreTailAbove(p, c.lock)
    ensures Prepared(r, mode, curve) == Ok(Desired(p, c))
  {
  }

  lemma UnlockedPrepared(m: map<nat, int>, curve: Curve)
    requires InReach(m) && Monotone(PointsOf(m))
    ensures Prepared(Stored(map[], PointsText(m), map[]), ForOwnership, curve) == Ok(Desired(PointsOf(m), NO_SETTINGS))
  {
    NoControls();
    StoredPointsRead(m);
    LeftAlone(m, PointsOf(m), curve);
    PreparedFrom(Stored(map[], PointsText(m), map[]), NO_SETTINGS, PointsOf(m), ForOwnership, curve);
  }

  lemma UnlockedRecord(m: map<nat, int>, i: nat)
    requires i in m
    ensures RecordOf(UnlockedFile(m), 2) == Ok(Stored(map[], PointsText(m), map[]))
  {
    assert Point(i, Mhz) in PointsText(m);
    assert SlotRecord(UnlockedFile(m), 2) == Stored(map[], PointsText(m), map[]);
  }

  function TwoPoints(): map<nat, int> {
    map[10 := 1900, 20 := 1900]
  }

  lemma TwoPointsFit()
    ensures InReach(TwoPoints()) && Monotone(PointsOf(TwoPoints())) && 10 in TwoPoints()
    ensures MayPair(PointsOf(TwoPoints()), Populated(), 10, 20)
  {
  }

  /** Two equal points and no lock keys: which lock the read infers depends on the live voltages. */
  lemma UnlockedReadDrifts()
    ensures !DependsOnMaskOnly(UnlockedFile(TwoPoints()), 2, Live(Populated(), true))
  {
    var live := Live(Populated(), true);
    TwoPointsFit();
    UnlockedRecord(TwoPoints(), 10);
    UnlockedPrepared(TwoPoints(), live.curve);
    assert !LockCiExplicit(map[]) by { NoControls(); }
    OwnershipReadIsDriftFree(UnlockedFile(TwoPoints()), 2, live);
  }

  lemma TwoPointsInferred()
    ensures FirstFlat(PointsOf(TwoPoints()), Populated(), 0) == Some(10)
    ensures FirstFlat(PointsOf(TwoPoints()), EmptyCurve(), 0) == None
  {
    var p := PointsOf(TwoPoints());
    assert Shown(p, Populated(), 10) && Shown(p, Populated(), 20);
    FirstFlatIs(p, Populated(), 10);
  }

  lemma LeftoverCurveIsRead(f: File, r: Stored, d: Desired, leftover: Live, none: Live)
    requires d == Desired(PointsOf(TwoPoints()), NO_SETTINGS) && !LockCiExplicit(r.controls)
    requires RecordOf(f, 2) == Ok(r) && leftover == Live(Populated(), false) && none == Live(EmptyCurve(), false)
    requires Prepared(r, ForOwnership, Populated()) == Prepared(r, ForOwnership, EmptyCurve()) == Ok(d)
    ensures var service := Service(true, true, UserSlot, 2, Completed(r, d, ForOwnership, leftover));
      Verdict(service, f, leftover) == 2 && Verdict(service, f, none) == 0
  {
    TwoPointsInferred();
    var intent := Completed(r, d, ForOwnership, leftover);
    CompletingALockIsNoticed(r, d, leftover, none);
    MatchesItself(intent);
    VerdictOfPrepared(2, intent, f, leftover, r, d);
    VerdictOfPrepared(2, intent, f, none, r, d);
  }

  /** Two GPU states without a loaded curve, one with a curve left over: one key, two verdicts. */
  lemma LeftoverCurveChangesTheVerdict()
    ensures
      var f, leftover, none := UnlockedFile(TwoPoints()), Live(Populated(), false), Live(EmptyCurve(), false);
      && MaskOf(leftover) == MaskOf(none) && LockIsSettled(f, 2, none)
      && exists intent: Desired ::
           Verdict(Service(true, true, UserSlot, 2, intent), f, leftover) != Verdict(Service(true, true, UserSlot, 2, intent), f, none)
  {
    var leftover, none := Live(Populated(), false), Live(EmptyCurve(), false);
    EmptyKeys(leftover, none);
    assert !AnyPopulated(EmptyCurve());
    NothingPopulatedIsSettled(UnlockedFile(TwoPoints()), 2, none);
    TwoPointsRead();
    LeftoverCurveIsRead(UnlockedFile(TwoPoints()), Stored(map[], PointsText(TwoPoints()), map[]),
                        Desired(PointsOf(TwoPoints()), NO_SETTINGS), leftover, none);
  }

  lemma TwoPointsRead()
    ensures RecordOf(UnlockedFile(TwoPoints()), 2) == Ok(Stored(map[], PointsText(TwoPoints()), map[])) && !LockCiExplicit(map[])
    ensures forall curve: Curve :: Prepared(Stored(map[], PointsText(TwoPoints()), map[]), ForOwnership, curve)
                                == Ok(Desired(PointsOf(TwoPoints()), NO_SETTINGS))
  {
    TwoPointsFit();
    UnlockedRecord(TwoPoints(), 10);
    NoControls();
    forall curve: Curve
      ensures Prepared(Stored(map[], PointsText(TwoPoints()), map[]), ForOwnership, curve) == Ok(Desired(PointsOf(TwoPoints()), NO_SETTINGS))
    {
      UnlockedPrepared(TwoPoints(), curve);
    }
  }

  function ThreePoints(): map<nat, int> {
    map[5 := 2000, 10 := 1900, 20 := 1900]
  }

  lemma ThreePointsFit()
    ensures InReach(ThreePoints()) && Monotone(PointsOf(ThreePoints())) && 5 in ThreePoints()
  {
  }

  lemma SecondPointIsInferred()
    ensures FirstFlat(PointsOf(ThreePoints()), Populated(), 0) == Some(10)
  {
    var p, curve := PointsOf(ThreePoints()), Populated();
    assert Shown(p, curve, 5) && Shown(p, curve, 10) && Shown(p, curve, 20);
    FirstFlatIs(p, curve, 10);
  }

  lemma InferredBelowTheFirst(r: Stored, d: Desired, live: Live)
    requires d == Desired(PointsOf(ThreePoints()), NO_SETTINGS) && FirstFlat(d.points, live.curve, 0) == Some(10)
    requires !LockCiExplicit(r.controls)
    ensures
      var done := Completed(r, d, ForOwnership, live);
      done.settings.lock.Complete() && PreTailAbove(done.points, done.settings.lock)
  {
    assert d.points[5].has && d.points[5].mhz > 1900;
  }

  lemma LoadedFrom(f: File, slot: int, mode: ReadMode, live: Live, r: Stored, d: Desired)
    requires RecordOf(f, slot) == Ok(r) && Prepared(r, mode, live.curve) == Ok(d)
    ensures Loaded(f, slot, mode, live) == Ok(Completed(r, d, mode, live))
  {
  }

  /** The pre-tail check comes before inference: an inferred lock can lie below an earlier point. */
  lemma InferredLockEscapesThePreTailCheck()
    ensures
      var r := Loaded(UnlockedFile(ThreePoints()), 2, ForOwnership, Live(Populated(), true));
      r.Ok? && r.value.settings.lock.Complete() && PreTailAbove(r.value.points, r.value.settings.lock)
  {
    var d, live := Desired(PointsOf(ThreePoints()), NO_SETTINGS), Live(Populated(), true);
    var r := Stored(map[], PointsText(ThreePoints()), map[]);
    ThreePointsFit();
    UnlockedRecord(ThreePoints(), 5);
    UnlockedPrepared(ThreePoints(), Populated());
    assert !LockCiExplicit(r.controls) by { NoControls(); }
    SecondPointIsInferred();
    InferredBelowTheFirst(r, d, live);
    LoadedFrom(UnlockedFile(ThreePoints()), 2, ForOwnership, live, r, d);
  }
}
