/** Saving a profile slot: a rewrite of the whole file that replaces one record. */
module ProfileSave {
  import opened Ints
  import opened Text
  import opened Ini
  import opened ProfileControls
  import opened ProfileCurve
  import opened ProfileLoad
  import opened Slots

  /** The running state a save falls back on for settings the request does not own. */
  datatype Running = Running(
    gpu: GpuOffset, lockedCi: int, lockedMHz: nat, tracks: bool, lockMode: int,
    memMHz: int, powerPct: int, fanMode: FanMode, fanIsAuto: bool, fanPercent: nat, fanCurve: string)

  // ------------------------------------------------------ the record to write

  /** No offset, no exclusion. */
  function SavedGpu(gpu: GpuOffset, now: Running): GpuOffset {
    var from := if gpu.has then gpu else now.gpu;
    GpuOffset(true, from.mhz, if from.mhz == 0 then 0 else from.excludeLow)
  }

  function SavedLock(lock: Lock, now: Running): Lock {
    if lock.has then lock
    else Lock(now.lockedCi >= 0, if now.lockedCi >= 0 then now.lockedCi else -1, now.lockedMHz, now.lockMode, now.tracks)
  }

  function SavedFan(fan: FanIntent, now: Running): FanIntent {
    if fan.has then fan else FanIntent(true, now.fanMode, now.fanPercent)
  }

  /** The request with every setting it does not own taken from the running state. */
  function AsSaved(c: Settings, now: Running): Settings {
    Settings(SavedGpu(c.gpu, now), SavedLock(c.lock, now),
             Setting(true, if c.mem.has then c.mem.value else now.memMHz),
             Setting(true, if c.power.has then c.power.value else now.powerPct),
             SavedFan(c.fan, now), if c.fan.has then c.fanCurve else now.fanCurve)
  }

  function Flag(b: bool): string {
    FormatInt(if b then 1 else 0)
  }

  function FanText(fan: FanIntent, now: Running): string {
    if (if fan.has then fan.mode == FanAuto else now.fanIsAuto) then "auto" else FormatInt(SavedFan(fan, now).percent)
  }

  function ControlsText(c: Settings, now: Running): Entries {
    var a := AsSaved(c, now);
    map[
      GpuOffsetMHz := FormatInt(a.gpu.mhz), ExcludeLowCount := FormatInt(a.gpu.excludeLow),
      LockCi := FormatInt(a.lock.ci), LockMHz := FormatInt(a.lock.mhz),
      LockTracksAnchor := Flag(a.lock.tracks), LockModeKey := FormatInt(a.lock.mode),
      MemOffsetMHz := FormatInt(a.mem.value), PowerLimitPct := FormatInt(a.power.value),
      FanModeKey := FanModeName(a.fan.mode), Fan := FanText(c.fan, now),
      FanFixedPct := FormatInt(if c.fan.has then ClampPercent(c.fan.percent) else now.fanPercent)]
  }

  // ------------------------------------------------------------ curve points

  predicate Written(p: CurvePoint) {
    p.has && p.mhz != 0
  }

  /** A point without a reported voltage asserts its own visibility. */
  predicate WrittenVisible(v: VfPoint) {
    v.voltUv == 0 || v.Visible()
  }

  function FieldText(p: CurvePoint, v: VfPoint, field: PointField): string {
    match field
    case Mhz => FormatInt(p.mhz)
    case Millivolt => FormatInt(v.voltUv / 1000)
    case OffsetKHz => FormatInt(if v.freqKHz > 0 then v.offsetKHz else 0)
    case Visibility => Flag(WrittenVisible(v))
    case FromGpuOffset => Flag(true)
  }

  /** The keys of one point; only a projected point says where its value came from. */
  function WithPoint(e: Entries, i: nat, p: CurvePoint, v: VfPoint): Entries {
    var four := e[Point(i, Mhz) := FieldText(p, v, Mhz)][Point(i, Millivolt) := FieldText(p, v, Millivolt)]
                 [Point(i, OffsetKHz) := FieldText(p, v, OffsetKHz)][Point(i, Visibility) := FieldText(p, v, Visibility)];
    if p.fromOffset then four[Point(i, FromGpuOffset) := FieldText(p, v, FromGpuOffset)] else four
  }

  function CurveHeader(gpu: GpuOffset): Entries {
    map[FormatKey := EXPLICIT_POINTS, GpuOffsetMHz := FormatInt(gpu.mhz),
        ExcludeLowCount := FormatInt(gpu.excludeLow), CurveSemantics := WITH_ORIGIN]
  }

  /** The curve section after the first `n` points. */
  function CurveText(gpu: GpuOffset, p: Points, curve: Curve, n: nat): Entries
    requires n <= VF_NUM_POINTS
  {
    if n == 0 then CurveHeader(gpu)
    else
      var e := CurveText(gpu, p, curve, n - 1);
      if Written(p[n - 1]) then WithPoint(e, n - 1, p[n - 1], curve[n - 1]) else e
  }

  method WriteCurve(gpu: GpuOffset, p: Points, curve: Curve) returns (e: Entries)
    ensures e == CurveText(gpu, p, curve, VF_NUM_POINTS)
  {
    e := CurveHeader(gpu);
    var i := 0;
    while i < VF_NUM_POINTS
      invariant 0 <= i <= VF_NUM_POINTS
      invariant e == CurveText(gpu, p, curve, i)
    {
      if Written(p[i]) { e := WithPoint(e, i, p[i], curve[i]); }
      i := i + 1;
    }
  }

  // -------------------------------------------------------------- whole file

  function SlotPreference(v: int): int {
    if 0 <= v <= NUM_SLOTS then v else 0
  }

  function Preference(f: File, k: Key): int {
    SlotPreference(ConfigInt(EntriesOf(f, Profiles), k, 0))
  }

  function ProfilesText(f: File, slot: int): Entries {
    map[SelectedSlot := FormatInt(slot), AppliedSlot := FormatInt(Preference(f, AppliedSlot)),
        AppLaunchSlot := FormatInt(Preference(f, AppLaunchSlot)), LogonSlot := FormatInt(Preference(f, LogonSlot)),
        LogonSharedSlot := FormatInt(Preference(f, LogonSharedSlot))]
  }

  function StartupText(f: File): Entries {
    map[ApplyOnLaunch := Flag(Preference(f, LogonSlot) > 0),
        StartOnLogon := Flag(ConfigInt(EntriesOf(f, Startup), StartOnLogon, 0) != 0)]
  }

  /** What a save of this slot replaces; slot 1 is mirrored into the legacy sections. */
  predicate Rewrites(slot: int, s: Section) {
    match s
    case Controls(k) => k == slot
    case Curve(k) => k == slot
    case FanCurve(k) => k == slot
    case LegacyControls => slot == 1
    case LegacyCurve => slot == 1
    case LegacyFanCurve => slot == 1
    case Meta => true
    case Profiles => true
    case Startup => true
    case _ => false
  }

  function Rewritten(slot: int): (all: set<Section>)
    ensures forall s :: s in all <==> Rewrites(slot, s)
  {
    var own := {Controls(slot), Section.Curve(slot), FanCurve(slot), Meta, Profiles, Startup};
    if slot == 1 then own + {LegacyControls, LegacyCurve, LegacyFanCurve} else own
  }

  function RecordText(d: Desired, now: Running, curve: Curve): Stored {
    Stored(ControlsText(d.settings, now), CurveText(SavedGpu(d.settings.gpu, now), d.points, curve, VF_NUM_POINTS),
           map[FanCurveBody := AsSaved(d.settings, now).fanCurve])
  }

  function SectionText(f: File, slot: int, r: Stored, s: Section): Entries {
    match s
    case Controls(_) => r.controls
    case LegacyControls => r.controls
    case Curve(_) => r.curve
    case LegacyCurve => r.curve
    case FanCurve(_) => r.fan
    case LegacyFanCurve => r.fan
    case Profiles => ProfilesText(f, slot)
    case Startup => StartupText(f)
    case _ => map[FormatVersion := "2"]
  }

  function NewSections(f: File, slot: int, r: Stored): File {
    map s | s in Rewritten(slot) :: SectionText(f, slot, r, s)
  }

  function Saved(f: File, slot: int, r: Stored): File {
    ReplaceSections(f, Rewritten(slot), NewSections(f, slot, r))
  }

  /** Copy every section but the rewritten ones. */
  method CopyOthers(f: File, skip: set<Section>) returns (g: File)
    ensures g == f - skip
  {
    g := map[];
    var rest := f.Keys;
    while rest != {}
      invariant rest <= f.Keys
      invariant g == (f - skip) - rest
      decreases |rest|
    {
      var s :| s in rest;
      rest := rest - {s};
      if s !in skip { g := g[s := f[s]]; }
      assert g.Keys == ((f - skip) - rest).Keys;
    }
  }

  /** `writes` is whether the atomic replacement of the file succeeds. */
  method SaveProfile(f: File, slot: int, d: Desired, now: Running, curve: Curve, writes: bool) returns (ok: bool, g: File)
    ensures ok == (1 <= slot <= NUM_SLOTS && writes)
    ensures g == if ok then Saved(f, slot, RecordText(d, now, curve)) else f
  {
    if slot < 1 || slot > NUM_SLOTS || !writes { return false, f; }
    var a := AsSaved(d.settings, now);
    var curveText := WriteCurve(a.gpu, d.points, curve);
    var others := CopyOthers(f, Rewritten(slot));
    var r := Stored(ControlsText(d.settings, now), curveText, map[FanCurveBody := a.fanCurve]);
    return true, others + NewSections(f, slot, r);
  }

  // ----------------------------------------------------- what a save changes

  /** A save touches its own sections and the shared ones, and nothing else. */
  lemma SavedSection(f: File, slot: int, r: Stored, s: Section)
    ensures EntriesOf(Saved(f, slot, r), s) == if Rewrites(slot, s) then SectionText(f, slot, r, s) else EntriesOf(f, s)
  {
  }

  /** Every other slot still holds the record, the GPU binding and the marker it held. */
  lemma SaveKeepsOtherSlots(f: File, slot: int, r: Stored, other: int)
    requires other != slot
    ensures SlotRecord(Saved(f, slot, r), other) == SlotRecord(f, other)
    ensures EntriesOf(Saved(f, slot, r), SlotGpu(other)) == EntriesOf(f, SlotGpu(other))
    ensures EntriesOf(Saved(f, slot, r), Publish(other)) == EntriesOf(f, Publish(other))
  {
    SavedSection(f, slot, r, Controls(other));
    SavedSection(f, slot, r, Section.Curve(other));
    SavedSection(f, slot, r, FanCurve(other));
    SavedSection(f, slot, r, SlotGpu(other));
    SavedSection(f, slot, r, Publish(other));
  }

  /** The legacy sections are slot 1's mirror. */
  lemma SaveAndLegacySections(f: File, slot: int, r: Stored)
    ensures LegacyRecord(Saved(f, slot, r)) == if slot == 1 then r else LegacyRecord(f)
  {
    SavedSection(f, slot, r, LegacyControls);
    SavedSection(f, slot, r, LegacyCurve);
    SavedSection(f, slot, r, LegacyFanCurve);
  }

  lemma SavedRecord(f: File, slot: int, r: Stored)
    ensures SlotRecord(Saved(f, slot, r), slot) == r
  {
    SavedSection(f, slot, r, Controls(slot));
    SavedSection(f, slot, r, Section.Curve(slot));
    SavedSection(f, slot, r, FanCurve(slot));
  }

  lemma PreferenceReadsBack(e: Entries, k: Key, v: I32)
    requires k in e && e[k] == FormatInt(v)
    ensures ConfigInt(e, k, 0) == v
  {
    IntRoundTrip(v);
  }

  lemma ProfilesTextAt(f: File, slot: int, k: Key)
    requires k in {AppliedSlot, AppLaunchSlot, LogonSlot, LogonSharedSlot}
    ensures k in ProfilesText(f, slot) && ProfilesText(f, slot)[k] == FormatInt(Preference(f, k))
  {
  }

  /** The stored slot preferences survive a save... */
  lemma PreferenceSurvives(f: File, slot: int, r: Stored, k: Key)
    requires k in {AppliedSlot, AppLaunchSlot, LogonSlot, LogonSharedSlot}
    ensures Preference(Saved(f, slot, r), k) == Preference(f, k)
  {
    SavedSection(f, slot, r, Profiles);
    ProfilesTextAt(f, slot, k);
    PreferenceReadsBack(ProfilesText(f, slot), k, Preference(f, k));
  }

  /** ... and the selection moves to the saved slot. */
  lemma SelectionMoves(f: File, slot: int, r: Stored)
    requires 1 <= slot <= NUM_SLOTS
    ensures Preference(Saved(f, slot, r), SelectedSlot) == slot
  {
    SavedSection(f, slot, r, Profiles);
    PreferenceReadsBack(ProfilesText(f, slot), SelectedSlot, slot);
  }
}
