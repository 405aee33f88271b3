/** Saving a record and reading it back. */
module ProfileRoundTrip {
  import opened Ints
  import opened Text
  import opened Ini
  import opened ProfileControls
  import opened ProfileCurve
  import opened ProfileLoad
  import opened ProfileSave
  import opened Options
  import opened Slots

  // ----------------------------------------------------------------- scalars

  /** The lock unit as a save can store it: complete, or absent. */
  predicate StorableLock(lock: Lock) {
    && LOCK_NONE <= lock.mode <= LOCK_HARD && lock.has == (lock.ci >= 0)
    && ((0 <= lock.ci < VF_NUM_POINTS && 0 < lock.mhz <= MAX_POINT_MHZ) || (lock.ci == -1 && lock.mhz == 0))
  }

  /** The ranges the program accepts for a stored record. */
  predicate StorableSettings(a: Settings) {
    && a.gpu.has && -1000 <= a.gpu.mhz <= 1000 && 0 <= a.gpu.excludeLow <= VF_NUM_POINTS
    && StorableLock(a.lock)
    && a.mem.has && -3000 <= a.mem.value <= 3000
    && a.power.has && POWER_MIN <= a.power.value <= POWER_MAX
    && a.fan.has && 0 <= a.fan.percent <= 100
  }

  /** A fan percentage is only stored for the fixed mode. */
  function Reloaded(a: Settings): Settings {
    a.(fan := a.fan.(percent := if a.fan.mode == FanFixed then a.fan.percent else 0))
  }

  lemma StoredInt(e: Entries, k: Key, v: I32)
    requires k in e && e[k] == FormatInt(v)
    ensures OptionalInt(e, k) == Ok(Some(v))
  {
    StoredIntReadsBack(e, k, v);
  }

  lemma GpuOffsetReadsBack(e: Entries, gpu: GpuOffset)
    requires gpu.has && -1000 <= gpu.mhz <= 1000 && 0 <= gpu.excludeLow <= VF_NUM_POINTS
    requires GpuOffsetMHz in e && e[GpuOffsetMHz] == FormatInt(gpu.mhz)
    requires ExcludeLowCount in e && e[ExcludeLowCount] == FormatInt(gpu.excludeLow)
    ensures ReadGpuOffset(e) == Ok(gpu)
  {
    StoredInt(e, GpuOffsetMHz, gpu.mhz);
    StoredInt(e, ExcludeLowCount, gpu.excludeLow);
  }

  lemma LockFromStored(lock: Lock)
    requires StorableLock(lock)
    ensures LockFrom(Ok(Some(lock.ci)), Ok(Some(lock.mhz)), Ok(Some(if lock.tracks then 1 else 0)), Ok(Some(lock.mode))) == Ok(lock)
  {
  }

  lemma LockReadsBack(e: Entries, lock: Lock)
    requires StorableLock(lock)
    requires LockCi in e && e[LockCi] == FormatInt(lock.ci)
    requires LockMHz in e && e[LockMHz] == FormatInt(lock.mhz)
    requires LockTracksAnchor in e && e[LockTracksAnchor] == Flag(lock.tracks)
    requires LockModeKey in e && e[LockModeKey] == FormatInt(lock.mode)
    ensures ReadLock(e) == Ok(lock) && LockCiExplicit(e)
  {
    LockFromStored(lock);
    StoredInt(e, LockCi, lock.ci);
    StoredInt(e, LockMHz, lock.mhz);
    StoredInt(e, LockTracksAnchor, if lock.tracks then 1 else 0);
    StoredInt(e, LockModeKey, lock.mode);
  }

  lemma MemReadsBack(e: Entries, mem: Setting)
    requires mem.has && -3000 <= mem.value <= 3000 && MemOffsetMHz in e && e[MemOffsetMHz] == FormatInt(mem.value)
    ensures ReadMem(e) == Ok(mem)
  {
    StoredInt(e, MemOffsetMHz, mem.value);
  }

  lemma PowerReadsBack(e: Entries, power: Setting)
    requires power.has && POWER_MIN <= power.value <= POWER_MAX
    requires PowerLimitPct in e && e[PowerLimitPct] == FormatInt(power.value)
    ensures ReadPower(e) == Ok(power)
  {
    StoredInt(e, PowerLimitPct, power.value);
  }

  lemma FanModeReadsBack(e: Entries, mode: FanMode)
    requires FanModeKey in e && e[FanModeKey] == FanModeName(mode)
    ensures ReadFanMode(e) == Ok(Some(mode))
  {
    var t := FanModeName(mode);
    assert Visible(t) && |t| < 64 && LowerAll(t) == t;
    TrimNothing(t);
  }

  /** Whatever the single fan key holds, it reads as "auto" or as the stored percentage. */
  lemma FanValueReadsBack(e: Entries, auto: bool, percent: int)
    requires 0 <= percent <= 100
    requires Fan in e && e[Fan] == if auto then "auto" else FormatInt(percent)
    ensures ReadFanValue(e) == Ok(Some(if auto then FanIntent(true, FanAuto, 0) else FanIntent(true, FanFixed, percent)))
  {
    if auto {
      assert Visible("auto") && LowerAll("auto") == "auto";
      TrimNothing("auto");
    } else {
      IntRoundTrip(percent);
      NumberIsNotAuto(percent);
    }
  }

  lemma NumberIsNotAuto(v: nat)
    requires v <= INT_MAX
    ensures LowerAll(FormatInt(v)) != "auto"
  {
    DigitsParseBack(v, false);
    var t := FormatInt(v);
    assert DigitValue(t[0]) < 10;
    assert LowerAll(t)[0] == t[0];
  }

  lemma FanReadsBack(e: Entries, fan: FanIntent, auto: bool)
    requires fan.has && 0 <= fan.percent <= 100
    requires FanModeKey in e && e[FanModeKey] == FanModeName(fan.mode)
    requires Fan in e && e[Fan] == if auto then "auto" else FormatInt(fan.percent)
    requires FanFixedPct in e && e[FanFixedPct] == FormatInt(fan.percent)
    ensures ReadFan(e) == Ok(fan.(percent := if fan.mode == FanFixed then fan.percent else 0))
  {
    FanModeReadsBack(e, fan.mode);
    FanValueReadsBack(e, auto, fan.percent);
    StoredInt(e, FanFixedPct, fan.percent);
  }

  lemma OffsetsReadBack(c: Settings, now: Running)
    requires StorableSettings(AsSaved(c, now))
    ensures ReadGpuOffset(ControlsText(c, now)) == Ok(AsSaved(c, now).gpu)
  {
    GpuOffsetReadsBack(ControlsText(c, now), AsSaved(c, now).gpu);
  }

  lemma LockUnitReadsBack(c: Settings, now: Running)
    requires StorableSettings(AsSaved(c, now))
    ensures LockCiExplicit(ControlsText(c, now)) && ReadLock(ControlsText(c, now)) == Ok(AsSaved(c, now).lock)
  {
    LockReadsBack(ControlsText(c, now), AsSaved(c, now).lock);
  }

  lemma LimitsReadBack(c: Settings, now: Running)
    requires StorableSettings(AsSaved(c, now))
    ensures ReadMem(ControlsText(c, now)) == Ok(AsSaved(c, now).mem)
    ensures ReadPower(ControlsText(c, now)) == Ok(AsSaved(c, now).power)
  {
    MemReadsBack(ControlsText(c, now), AsSaved(c, now).mem);
    PowerReadsBack(ControlsText(c, now), AsSaved(c, now).power);
  }

  lemma FanUnitReadsBack(c: Settings, now: Running)
    requires StorableSettings(AsSaved(c, now))
    ensures ReadFan(ControlsText(c, now)) == Ok(Reloaded(AsSaved(c, now)).fan)
  {
    FanReadsBack(ControlsText(c, now), AsSaved(c, now).fan, if c.fan.has then c.fan.mode == FanAuto else now.fanIsAuto);
  }

  /** Every scalar of a storable record reads back. */
  lemma SettingsReadBack(c: Settings, now: Running)
    requires StorableSettings(AsSaved(c, now))
    ensures
      var e, fanCurve := ControlsText(c, now), map[FanCurveBody := AsSaved(c, now).fanCurve];
      LockCiExplicit(e) && ReadControls(e, fanCurve) == Ok(Reloaded(AsSaved(c, now)))
  {
    OffsetsReadBack(c, now);
    LockUnitReadsBack(c, now);
    LimitsReadBack(c, now);
    FanUnitReadsBack(c, now);
  }

  lemma ClampKeeps(a: Settings)
    requires StorableSettings(a)
    ensures Clamped(Reloaded(a)) == Reloaded(a)
  {
  }

  // ------------------------------------------------------------------ points

  predicate StorablePoints(p: Points, lock: Lock) {
    && (forall i :: 0 <= i < VF_NUM_POINTS ==> if p[i].has then 0 < p[i].mhz <= MAX_POINT_MHZ else p[i] == NO_POINT)
    && Monotone(p) && !PreTailAbove(p, lock)
  }

  /** A hidden point is written with visible=0, and a read skips it. */
  function Survivors(p: Points, curve: Curve): Points {
    seq(VF_NUM_POINTS, i requires 0 <= i < VF_NUM_POINTS => if p[i].has && WrittenVisible(curve[i]) then p[i] else NO_POINT)
  }

  function Lookup(e: Entries, k: Key): Option<string> {
    if k in e then Some(e[k]) else None
  }

  lemma {:induction false} CurveTextHeader(gpu: GpuOffset, p: Points, curve: Curve, n: nat)
    requires n <= VF_NUM_POINTS
    ensures Lookup(CurveText(gpu, p, curve, n), FormatKey) == Some(EXPLICIT_POINTS)
    ensures Lookup(CurveText(gpu, p, curve, n), CurveSemantics) == Some(WITH_ORIGIN)
  {
    if n > 0 { CurveTextHeader(gpu, p, curve, n - 1); }
  }

  lemma {:induction false} CurveTextAt(gpu: GpuOffset, p: Points, curve: Curve, n: nat, i: nat, field: PointField)
    requires n <= VF_NUM_POINTS && i < VF_NUM_POINTS
    ensures Lookup(CurveText(gpu, p, curve, n), Point(i, field))
         == if i < n && Written(p[i]) && (field == FromGpuOffset ==> p[i].fromOffset) then Some(FieldText(p[i], curve[i], field)) else None
  {
    if n > 0 { CurveTextAt(gpu, p, curve, n - 1, i, field); }
  }

  /** Each point reads back as itself, or is skipped when it was written hidden. */
  lemma {:induction false} PointReadsBack(gpu: GpuOffset, p: Points, curve: Curve, i: nat)
    requires i < VF_NUM_POINTS && (if p[i].has then 0 < p[i].mhz <= MAX_POINT_MHZ else p[i] == NO_POINT)
    ensures
      var e := CurveText(gpu, p, curve, VF_NUM_POINTS);
      ReadPoint(e, i) == if p[i].has && WrittenVisible(curve[i]) then Taken(p[i].mhz) else Skipped
  {
    var e := CurveText(gpu, p, curve, VF_NUM_POINTS);
    CurveTextAt(gpu, p, curve, VF_NUM_POINTS, i, Mhz);
    CurveTextAt(gpu, p, curve, VF_NUM_POINTS, i, Visibility);
    if p[i].has {
      StoredIntReadsBack(e, Point(i, Mhz), p[i].mhz);
      StoredIntReadsBack(e, Point(i, Visibility), if WrittenVisible(curve[i]) then 1 else 0);
    }
  }

  lemma {:induction false} OriginReadsBack(gpu: GpuOffset, p: Points, curve: Curve, i: nat)
    requires i < VF_NUM_POINTS && (if p[i].has then 0 < p[i].mhz <= MAX_POINT_MHZ else p[i] == NO_POINT)
    ensures Projected(CurveText(gpu, p, curve, VF_NUM_POINTS), i) == (p[i].has && p[i].fromOffset)
  {
    var e := CurveText(gpu, p, curve, VF_NUM_POINTS);
    CurveTextAt(gpu, p, curve, VF_NUM_POINTS, i, FromGpuOffset);
    if p[i].has && p[i].fromOffset { StoredIntReadsBack(e, Point(i, FromGpuOffset), 1); }
  }

  lemma {:induction false} OriginMarkerReadsBack(gpu: GpuOffset, p: Points, curve: Curve)
    ensures SectionDecode(CurveText(gpu, p, curve, VF_NUM_POINTS)) == WithOrigin
  {
    CurveTextHeader(gpu, p, curve, VF_NUM_POINTS);
    assert Visible(WITH_ORIGIN) && LowerAll(WITH_ORIGIN) == WITH_ORIGIN;
    TrimNothing(WITH_ORIGIN);
  }

  lemma {:induction false} FormatMarkerReadsBack(gpu: GpuOffset, p: Points, curve: Curve)
    ensures ExplicitFormat(CurveText(gpu, p, curve, VF_NUM_POINTS))
  {
    CurveTextHeader(gpu, p, curve, VF_NUM_POINTS);
    assert Visible(EXPLICIT_POINTS) && LowerAll(EXPLICIT_POINTS) == EXPLICIT_POINTS;
    TrimNothing(EXPLICIT_POINTS);
  }

  lemma {:induction false} NoRefusal(read: nat -> PointRead, i: nat)
    requires i <= VF_NUM_POINTS && forall j :: 0 <= j < VF_NUM_POINTS ==> !read(j).Refused?
    ensures FirstRefusal(read, i) == None
    decreases VF_NUM_POINTS - i
  {
    if i < VF_NUM_POINTS { NoRefusal(read, i + 1); }
  }

  /** What the two readers must say for the survivors to come back. */
  ghost predicate ReadersSee(read: nat -> PointRead, origin: nat -> bool, p: Points, curve: Curve) {
    forall i :: 0 <= i < VF_NUM_POINTS ==>
      && read(i) == (if p[i].has && WrittenVisible(curve[i]) then Taken(p[i].mhz) else Skipped)
      && origin(i) == (p[i].has && p[i].fromOffset)
  }

  lemma SurvivorsComeBack(read: nat -> PointRead, origin: nat -> bool, p: Points, curve: Curve)
    requires ReadersSee(read, origin, p, curve)
    ensures FirstRefusal(read, 0) == None && WithOrigins(origin, PointsRead(read)) == Survivors(p, curve)
  {
    NoRefusal(read, 0);
    var q := WithOrigins(origin, PointsRead(read));
    assert forall i :: 0 <= i < VF_NUM_POINTS ==> q[i] == Survivors(p, curve)[i];
  }

  /** The whole curve reads back with its provenance, minus the points written hidden. */
  lemma {:induction false} CurveReadsBack(gpu: GpuOffset, p: Points, curve: Curve)
    requires forall i :: 0 <= i < VF_NUM_POINTS ==> if p[i].has then 0 < p[i].mhz <= MAX_POINT_MHZ else p[i] == NO_POINT
    ensures
      var e := CurveText(gpu, p, curve, VF_NUM_POINTS);
      && FirstRefusal(PointReader(e), 0) == None
      && WithOrigins(OriginReader(e), PointsRead(PointReader(e))) == Survivors(p, curve)
  {
    var e := CurveText(gpu, p, curve, VF_NUM_POINTS);
    forall i | 0 <= i < VF_NUM_POINTS
      ensures PointReader(e)(i) == (if p[i].has && WrittenVisible(curve[i]) then Taken(p[i].mhz) else Skipped)
      ensures OriginReader(e)(i) == (p[i].has && p[i].fromOffset)
    {
      PointReadsBack(gpu, p, curve, i);
      OriginReadsBack(gpu, p, curve, i);
    }
    SurvivorsComeBack(PointReader(e), OriginReader(e), p, curve);
  }

  lemma SurvivorsKeepShape(p: Points, curve: Curve, lock: Lock)
    requires StorablePoints(p, lock)
    ensures Monotone(Survivors(p, curve)) && !PreTailAbove(Survivors(p, curve), lock)
  {
  }

  // -------------------------------------------------------------- round trip

  /** What a saved request reads back as, whatever the GPU shows by then. */
  function ReadsBackAs(d: Desired, now: Running, curve: Curve): Desired {
    Desired(Survivors(d.points, curve), Reloaded(AsSaved(d.settings, now)))
  }

  predicate Storable(d: Desired, now: Running) {
    StorableSettings(AsSaved(d.settings, now)) && StorablePoints(d.points, AsSaved(d.settings, now).lock)
  }

  lemma PreparedReadsBack(d: Desired, now: Running, curve: Curve, mode: ReadMode, later: Curve)
    requires Storable(d, now)
    ensures Prepared(RecordText(d, now, curve), mode, later) == Ok(ReadsBackAs(d, now, curve))
  {
    var r, a := RecordText(d, now, curve), AsSaved(d.settings, now);
    SettingsReadBack(d.settings, now);
    ClampKeeps(a);
    OriginMarkerReadsBack(a.gpu, d.points, curve);
    CurveReadsBack(a.gpu, d.points, curve);
    SurvivorsKeepShape(d.points, curve, a.lock);
  }

  lemma CompletedReadsBack(d: Desired, now: Running, curve: Curve, later: Live)
    requires Storable(d, now)
    ensures Completed(RecordText(d, now, curve), ReadsBackAs(d, now, curve), ForOwnership, later) == ReadsBackAs(d, now, curve)
  {
    SettingsReadBack(d.settings, now);
    FormatMarkerReadsBack(AsSaved(d.settings, now).gpu, d.points, curve);
  }

  /** Saving a storable request and reading the slot back for ownership, under any later GPU state,
      gives the saved settings and every point that was not written hidden. */
  lemma SavedRecordReadsBack(f: File, slot: int, d: Desired, now: Running, curve: Curve, later: Live)
    requires 1 <= slot <= NUM_SLOTS && Storable(d, now)
    ensures Loaded(Saved(f, slot, RecordText(d, now, curve)), slot, ForOwnership, later) == Ok(ReadsBackAs(d, now, curve))
  {
    var r := RecordText(d, now, curve);
    SavedRecord(f, slot, r);
    assert GpuOffsetMHz in r.controls;
    PreparedReadsBack(d, now, curve, ForOwnership, later.curve);
    CompletedReadsBack(d, now, curve, later);
  }

  /** And read back in the editor: the same, except that over a loaded curve exactly the points it shows are
      left, each with its frequency and origin, and a lock whose tail is shown flat no longer tracks. */
  lemma SavedEditorReadsBack(f: File, slot: int, d: Desired, now: Running, curve: Curve, later: Live)
    requires 1 <= slot <= NUM_SLOTS && Storable(d, now)
    ensures
      var out, back := Loaded(Saved(f, slot, RecordText(d, now, curve)), slot, ForEditor, later), ReadsBackAs(d, now, curve);
      var filtered := later.loaded && exists k :: 0 <= k < VF_NUM_POINTS && later.curve[k].Populated();
      && out.Ok?
      && (forall i :: 0 <= i < VF_NUM_POINTS ==>
            out.value.points[i] == if filtered && back.points[i].has && !later.curve[i].Visible() then NO_POINT else back.points[i])
      && out.value.settings == back.settings.(lock := back.settings.lock.(tracks := out.value.settings.lock.tracks))
      && (out.value.settings.lock.tracks <==>
            back.settings.lock.tracks && !(back.settings.lock.Complete() && TailShownFlat(back.points, back.settings.lock, later.curve)))
  {
    var r, back := RecordText(d, now, curve), ReadsBackAs(d, now, curve);
    SavedRecord(f, slot, r);
    assert GpuOffsetMHz in r.controls;
    PreparedReadsBack(d, now, curve, ForEditor, later.curve);
    SettingsReadBack(d.settings, now);
    FormatMarkerReadsBack(AsSaved(d.settings, now).gpu, d.points, curve);
    EditorCompletes(r, back, later);
  }

  lemma EditorCompletes(r: Stored, back: Desired, later: Live)
    requires LockCiExplicit(r.controls) && ExplicitFormat(r.curve) && StorableLock(back.settings.lock) && back.settings.fan.has
    ensures
      var out := Completed(r, back, ForEditor, later);
      var filtered := later.loaded && exists k :: 0 <= k < VF_NUM_POINTS && later.curve[k].Populated();
      && (forall i :: 0 <= i < VF_NUM_POINTS ==>
            out.points[i] == if filtered && back.points[i].has && !later.curve[i].Visible() then NO_POINT else back.points[i])
      && out.settings == back.settings.(lock := back.settings.lock.(tracks := out.settings.lock.tracks))
      && (out.settings.lock.tracks <==>
            back.settings.lock.tracks && !(back.settings.lock.Complete() && TailShownFlat(back.points, back.settings.lock, later.curve)))
  {
  }

  // --------------------------------------------- what a save stores, from its inputs

  /** Owned settings are stored as requested, the rest as they run. Without an offset nothing is excluded. */
  lemma SavedSettingsMean(c: Settings, now: Running)
    ensures
      var a := AsSaved(c, now);
      && a.gpu.has && a.gpu.mhz == (if c.gpu.has then c.gpu.mhz else now.gpu.mhz)
      && a.gpu.excludeLow == (if a.gpu.mhz == 0 then 0 else if c.gpu.has then c.gpu.excludeLow else now.gpu.excludeLow)
      && (c.lock.has ==> a.lock == c.lock)
      && (!c.lock.has ==> a.lock == Lock(now.lockedCi >= 0, if now.lockedCi >= 0 then now.lockedCi else -1, now.lockedMHz, now.lockMode, now.tracks))
      && a.mem == Setting(true, if c.mem.has then c.mem.value else now.memMHz)
      && a.power == Setting(true, if c.power.has then c.power.value else now.powerPct)
      && (c.fan.has ==> a.fan == c.fan && a.fanCurve == c.fanCurve)
      && (!c.fan.has ==> a.fan == FanIntent(true, now.fanMode, now.fanPercent) && a.fanCurve == now.fanCurve)
  {
  }

  /** The keys a reader of older builds looks at: voltage, offset and visibility of each written point, and
      the GPU offset next to the curve. */
  lemma {:induction false} StoredFields(gpu: GpuOffset, p: Points, curve: Curve, i: nat)
    requires i < VF_NUM_POINTS && p[i].has && p[i].mhz != 0
    requires -1000 <= gpu.mhz <= 1000 && 0 <= gpu.excludeLow <= VF_NUM_POINTS
    ensures
      var e := CurveText(gpu, p, curve, VF_NUM_POINTS);
      && ReadInt(e, Point(i, Millivolt)) == Got(curve[i].voltUv / 1000)
      && ReadInt(e, Point(i, OffsetKHz)) == Got(if curve[i].freqKHz > 0 then curve[i].offsetKHz else 0)
      && ReadInt(e, Point(i, Visibility)) == Got(if curve[i].voltUv == 0 || (curve[i].freqKHz != 0 && curve[i].voltUv >= 700000) then 1 else 0)
      && ReadInt(e, GpuOffsetMHz) == Got(gpu.mhz) && ReadInt(e, ExcludeLowCount) == Got(gpu.excludeLow)
  {
    var e := CurveText(gpu, p, curve, VF_NUM_POINTS);
    CurveTextAt(gpu, p, curve, VF_NUM_POINTS, i, Millivolt);
    CurveTextAt(gpu, p, curve, VF_NUM_POINTS, i, OffsetKHz);
    CurveTextAt(gpu, p, curve, VF_NUM_POINTS, i, Visibility);
    StoredIntReadsBack(e, Point(i, Millivolt), curve[i].voltUv / 1000);
    StoredIntReadsBack(e, Point(i, OffsetKHz), if curve[i].freqKHz > 0 then curve[i].offsetKHz else 0);
    StoredIntReadsBack(e, Point(i, Visibility), if WrittenVisible(curve[i]) then 1 else 0);
    OffsetNextToTheCurve(gpu, p, curve, VF_NUM_POINTS);
    StoredIntReadsBack(e, GpuOffsetMHz, gpu.mhz);
    StoredIntReadsBack(e, ExcludeLowCount, gpu.excludeLow);
  }

  lemma {:induction false} OffsetNextToTheCurve(gpu: GpuOffset, p: Points, curve: Curve, n: nat)
    requires n <= VF_NUM_POINTS
    ensures Lookup(CurveText(gpu, p, curve, n), GpuOffsetMHz) == Some(FormatInt(gpu.mhz))
    ensures Lookup(CurveText(gpu, p, curve, n), ExcludeLowCount) == Some(FormatInt(gpu.excludeLow))
  {
    if n > 0 { OffsetNextToTheCurve(gpu, p, curve, n - 1); }
  }

  /** The startup section keeps the logon start and says whether a logon slot is chosen; the file says its
      format version. */
  lemma SharedSectionsAfterASave(f: File, slot: int, r: Stored)
    ensures
      var g := Saved(f, slot, r);
      && (ConfigInt(EntriesOf(g, Startup), StartOnLogon, 0) != 0 <==> ConfigInt(EntriesOf(f, Startup), StartOnLogon, 0) != 0)
      && (ConfigInt(EntriesOf(g, Startup), ApplyOnLaunch, 0) != 0 <==> 1 <= ConfigInt(EntriesOf(f, Profiles), LogonSlot, 0) <= 5)
      && EntriesOf(g, Meta) == map[FormatVersion := "2"]
  {
    SavedSection(f, slot, r, Startup);
    SavedSection(f, slot, r, Meta);
    var e := StartupText(f);
    PreferenceReadsBack(e, StartOnLogon, if ConfigInt(EntriesOf(f, Startup), StartOnLogon, 0) != 0 then 1 else 0);
    PreferenceReadsBack(e, ApplyOnLaunch, if Preference(f, LogonSlot) > 0 then 1 else 0);
  }

  /** A request that owns every setting. */
  predicate Full(c: Settings) {
    c.gpu.has && (c.gpu.mhz == 0 ==> c.gpu.excludeLow == 0) && c.lock.has && c.mem.has && c.power.has && c.fan.has
  }

  /** Every requested point was visible at the save, or had no reported voltage, and no percentage
      rides on a fan mode that does not use one. */
  predicate NothingLost(d: Desired, curve: Curve) {
    && (forall i :: 0 <= i < VF_NUM_POINTS && d.points[i].has ==> WrittenVisible(curve[i]))
    && (d.settings.fan.mode == FanFixed || d.settings.fan.percent == 0)
  }

  lemma ReadsBackUnchanged(d: Desired, now: Running, curve: Curve)
    requires Storable(d, now) && Full(d.settings)
    ensures ReadsBackAs(d, now, curve) == d <==> NothingLost(d, curve)
  {
    assert AsSaved(d.settings, now) == d.settings;
    var q := Survivors(d.points, curve);
    if NothingLost(d, curve) {
      assert forall i :: 0 <= i < VF_NUM_POINTS ==> q[i] == d.points[i];
    } else if i :| 0 <= i < VF_NUM_POINTS && d.points[i].has && !WrittenVisible(curve[i]) {
      assert q[i] != d.points[i];
    }
  }

  /** The round trip is exact precisely when nothing was lost at the save. */
  lemma FullRecordRoundTrip(f: File, slot: int, d: Desired, now: Running, curve: Curve, later: Live)
    requires 1 <= slot <= NUM_SLOTS && Storable(d, now) && Full(d.settings)
    ensures Loaded(Saved(f, slot, RecordText(d, now, curve)), slot, ForOwnership, later) == Ok(d) <==> NothingLost(d, curve)
  {
    SavedRecordReadsBack(f, slot, d, now, curve, later);
    ReadsBackUnchanged(d, now, curve);
  }
}
