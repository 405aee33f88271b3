/** What a loaded profile holds, told from the keys of its sections and the live curve. */
module ProfileMeaning {
  import opened Ints
  import opened Text
  import opened Ini
  import opened ProfileControls
  import opened ProfileCurve
  import opened ProfileLoad
  import opened ProfileSafety
  import opened Options

  // ------------------------------------------------------------------ scalars

  /** `c` is the value of lo..hi nearest to `v`. */
  predicate Nearest(c: int, v: int, lo: int, hi: int) {
    lo <= c <= hi && (lo <= v <= hi ==> c == v) && (v < lo ==> c == lo) && (v > hi ==> c == hi)
  }

  lemma ClampIsNearest(v: int, lo: int, hi: int)
    requires lo <= hi
    ensures Nearest(Clamp(v, lo, hi), v, lo, hi)
  {
  }

  /** The settings a record's control keys stand for. */
  function SettingsOf(r: Stored): Settings
    requires ReadControls(r.controls, r.fan).Ok?
  {
    Clamped(ReadControls(r.controls, r.fan).value)
  }

  /** The GPU offset: owned exactly when its key holds a number; the exclusion count falls back on the old
      flag, which stands for 70. */
  lemma OffsetFromKeys(r: Stored)
    requires ReadControls(r.controls, r.fan).Ok?
    ensures
      var e, gpu := r.controls, SettingsOf(r).gpu;
      var mhz, count, flag := ReadInt(e, GpuOffsetMHz), ReadInt(e, ExcludeLowCount), ReadInt(e, ExcludeLow70);
      && mhz != Malformed && count != Malformed && (count == Absent ==> flag != Malformed)
      && (gpu.has <==> mhz.Got?) && (mhz.Got? ==> Nearest(gpu.mhz, mhz.value, -1000, 1000)) && (mhz == Absent ==> gpu.mhz == 0)
      && (count.Got? ==> Nearest(gpu.excludeLow, count.value, 0, 128))
      && (count == Absent ==> gpu.excludeLow == if flag.Got? && flag.value != 0 then 70 else 0)
  {
    OffsetReads(r);
  }

  lemma OffsetReads(r: Stored)
    requires ReadControls(r.controls, r.fan).Ok?
    ensures ReadGpuOffset(r.controls).Ok? && ReadControls(r.controls, r.fan).value.gpu == ReadGpuOffset(r.controls).value
  {
  }

  /** The memory offset and the power limit. */
  lemma LimitsFromKeys(r: Stored)
    requires ReadControls(r.controls, r.fan).Ok?
    ensures
      var e, c := r.controls, SettingsOf(r);
      var mem, power := ReadInt(e, MemOffsetMHz), ReadInt(e, PowerLimitPct);
      && mem != Malformed && power != Malformed
      && (c.mem.has <==> mem.Got?) && (mem.Got? ==> Nearest(c.mem.value, mem.value, -3000, 3000))
      && (c.power.has <==> power.Got?) && (power.Got? ==> 50 <= power.value <= 150 && c.power.value == power.value)
      && (power == Absent ==> c.power.value == 100)
  {
    LimitsRead(r);
  }

  lemma LimitsRead(r: Stored)
    requires ReadControls(r.controls, r.fan).Ok?
    ensures ReadMem(r.controls).Ok? && ReadControls(r.controls, r.fan).value.mem == ReadMem(r.controls).value
    ensures ReadPower(r.controls).Ok? && ReadControls(r.controls, r.fan).value.power == ReadPower(r.controls).value
  {
  }

  /** The lock unit: an anchor or a frequency claims a lock; without a mode a claimed lock flattens, and an
      unknown mode is none. */
  lemma LockFromKeys(r: Stored)
    requires ReadControls(r.controls, r.fan).Ok?
    ensures
      var e, lock := r.controls, SettingsOf(r).lock;
      var ci, mhz, tracks, mode := ReadInt(e, LockCi), ReadInt(e, LockMHz), ReadInt(e, LockTracksAnchor), ReadInt(e, LockModeKey);
      && ci != Malformed && mhz != Malformed && tracks != Malformed && mode != Malformed && (mhz.Got? ==> mhz.value >= 0)
      && (lock.has <==> (ci.Got? && ci.value >= 0) || (mhz.Got? && mhz.value > 0))
      && (ci.Got? ==> Nearest(lock.ci, ci.value, -1, 127)) && (ci == Absent ==> lock.ci == 0)
      && (mhz.Got? ==> Nearest(lock.mhz, mhz.value, 0, 5000)) && (mhz == Absent ==> lock.mhz == 0)
      && lock.tracks == (tracks == Absent || tracks.value != 0)
      && lock.mode == (if mode.Got? then (if 0 <= mode.value <= 2 then mode.value else 0) else if lock.has then 1 else 0)
  {
    LockReads(r);
    var e := r.controls;
    KeysRead(e, LockCi);
    KeysRead(e, LockMHz);
    KeysRead(e, LockTracksAnchor);
    KeysRead(e, LockModeKey);
    LockUnit(OptionalInt(e, LockCi), OptionalInt(e, LockMHz), OptionalInt(e, LockTracksAnchor), OptionalInt(e, LockModeKey));
    ClampedLockMeans(ReadControls(r.controls, r.fan).value);
  }

  lemma LockReads(r: Stored)
    requires ReadControls(r.controls, r.fan).Ok?
    ensures ReadLock(r.controls).Ok? && ReadControls(r.controls, r.fan).value.lock == ReadLock(r.controls).value
  {
  }

  lemma KeysRead(e: Entries, k: Key)
    ensures OptionalInt(e, k).Err? <==> ReadInt(e, k) == Malformed
    ensures OptionalInt(e, k).Ok? ==> OptionalInt(e, k).value == if ReadInt(e, k).Got? then Some(ReadInt(e, k).value) else None
  {
  }

  lemma LockUnit(ci: Result<Option<I32>>, mhz: Result<Option<I32>>, tracks: Result<Option<I32>>, mode: Result<Option<I32>>)
    requires LockFrom(ci, mhz, tracks, mode).Ok?
    ensures ci.Ok? && mhz.Ok? && tracks.Ok? && mode.Ok? && (mhz.value.Some? ==> mhz.value.value >= 0)
    ensures
      var lock := LockFrom(ci, mhz, tracks, mode).value;
      && (lock.has <==> (ci.value.Some? && ci.value.value >= 0) || (mhz.value.Some? && mhz.value.value > 0))
      && lock.ci == (if ci.value.Some? then ci.value.value else 0)
      && lock.mhz == (if mhz.value.Some? then mhz.value.value else 0)
      && lock.tracks == (tracks.value.None? || tracks.value.value != 0)
      && lock.mode == (if mode.value.Some? then (if 0 <= mode.value.value <= 2 then mode.value.value else 0) else if lock.has then 1 else 0)
  {
  }

  lemma ClampedLockMeans(c: Settings)
    ensures
      var lock := Clamped(c).lock;
      && lock.has == c.lock.has && lock.tracks == c.lock.tracks && Nearest(lock.ci, c.lock.ci, -1, 127)
      && (c.lock.mhz >= 0 ==> Nearest(lock.mhz, c.lock.mhz, 0, 5000)) && Nearest(lock.mode, c.lock.mode, 0, 2)
  {
  }

  /** The names of a fan mode, in any case. */
  lemma FanModeNames(t: string)
    ensures ParseFanMode(t) == Some(FanAuto) <==> LowerAll(t) == "auto" || LowerAll(t) == "default"
    ensures ParseFanMode(t) == Some(FanFixed) <==> LowerAll(t) == "fixed" || LowerAll(t) == "manual"
    ensures ParseFanMode(t) == Some(FanCurveMode) <==> LowerAll(t) == "curve"
  {
  }

  /** The fan: its mode key decides; a percentage belongs to the fixed mode, the explicit one before the one
      of the old single key. Without a mode key a percentage means fixed, and "auto" automatic. */
  lemma FanFromKeys(r: Stored)
    requires ReadControls(r.controls, r.fan).Ok?
    ensures
      var e, fan := r.controls, SettingsOf(r).fan;
      var mode, single, pct := Trim(ReadText(e, FanModeKey, 64)), Trim(ReadText(e, Fan, 64)), ReadInt(e, FanFixedPct);
      var singlePct := if single == "" || LowerAll(single) == "auto" then None else ParseInt(single);
      && (mode != "" ==> ParseFanMode(mode).Some? && fan.has && fan.mode == ParseFanMode(mode).value)
      && (mode != "" && fan.mode != FanFixed ==> fan.percent == 0)
      && (mode != "" && fan.mode == FanFixed && pct.Got? ==> Nearest(fan.percent, pct.value, 0, 100))
      && (mode != "" && fan.mode == FanFixed && pct == Absent ==> fan.percent == if singlePct.Some? then singlePct.value else 0)
      && (mode == "" && pct.Got? ==> fan.has && fan.mode == FanFixed && Nearest(fan.percent, pct.value, 0, 100))
      && (mode == "" && pct == Absent ==>
            && (fan.has <==> single != "")
            && (single != "" ==> if LowerAll(single) == "auto" then fan.mode == FanAuto else fan.mode == FanFixed && singlePct.Some? && singlePct.value == fan.percent))
      && (singlePct.Some? ==> 0 <= singlePct.value <= 100)
  {
    FanReads(r);
  }

  lemma FanReads(r: Stored)
    requires ReadControls(r.controls, r.fan).Ok?
    ensures ReadFan(r.controls).Ok? && ReadControls(r.controls, r.fan).value.fan == ReadFan(r.controls).value
    ensures ReadControls(r.controls, r.fan).value.fanCurve == if FanCurveBody in r.fan then r.fan[FanCurveBody] else ""
  {
  }

  /** The controls are readable exactly when every number among them parses, the lock frequency is not negative,
      the power limit lies in 50..150, and the fan keys name a mode, "auto" or a percentage. */
  lemma ControlsReadExactlyWhen(r: Stored)
    ensures ReadControls(r.controls, r.fan).Ok? <==>
      && WellFormedNumbers(r.controls)
      && (ReadInt(r.controls, LockMHz).Got? ==> ReadInt(r.controls, LockMHz).value >= 0)
      && (ReadInt(r.controls, PowerLimitPct).Got? ==> 50 <= ReadInt(r.controls, PowerLimitPct).value <= 150)
      && WellFormedFan(r.controls)
  {
    OffsetReadsExactlyWhen(r.controls);
    LockReadsExactlyWhen(r.controls);
    LimitsReadExactlyWhen(r.controls);
    FanReadsExactlyWhen(r.controls);
  }

  predicate WellFormedNumbers(e: Entries) {
    && ReadInt(e, GpuOffsetMHz) != Malformed && ReadInt(e, ExcludeLowCount) != Malformed
    && (ReadInt(e, ExcludeLowCount) == Absent ==> ReadInt(e, ExcludeLow70) != Malformed)
    && ReadInt(e, LockCi) != Malformed && ReadInt(e, LockMHz) != Malformed
    && ReadInt(e, LockTracksAnchor) != Malformed && ReadInt(e, LockModeKey) != Malformed
    && ReadInt(e, MemOffsetMHz) != Malformed && ReadInt(e, PowerLimitPct) != Malformed && ReadInt(e, FanFixedPct) != Malformed
  }

  predicate WellFormedFan(e: Entries) {
    var mode, single := Trim(ReadText(e, FanModeKey, 64)), Trim(ReadText(e, Fan, 64));
    && (mode != "" ==> ParseFanMode(mode).Some?)
    && (single != "" && LowerAll(single) != "auto" ==> ParseInt(single).Some? && 0 <= ParseInt(single).value <= 100)
  }

  lemma OffsetReadsExactlyWhen(e: Entries)
    ensures ReadGpuOffset(e).Ok? <==>
      && ReadInt(e, GpuOffsetMHz) != Malformed && ReadInt(e, ExcludeLowCount) != Malformed
      && (ReadInt(e, ExcludeLowCount) == Absent ==> ReadInt(e, ExcludeLow70) != Malformed)
  {
  }

  lemma LockReadsExactlyWhen(e: Entries)
    ensures ReadLock(e).Ok? <==>
      && ReadInt(e, LockCi) != Malformed && ReadInt(e, LockMHz) != Malformed
      && ReadInt(e, LockTracksAnchor) != Malformed && ReadInt(e, LockModeKey) != Malformed
      && (ReadInt(e, LockMHz).Got? ==> ReadInt(e, LockMHz).value >= 0)
  {
    KeysRead(e, LockCi);
    KeysRead(e, LockMHz);
    KeysRead(e, LockTracksAnchor);
    KeysRead(e, LockModeKey);
    LockReadsFrom(OptionalInt(e, LockCi), OptionalInt(e, LockMHz), OptionalInt(e, LockTracksAnchor), OptionalInt(e, LockModeKey));
  }

  lemma LockReadsFrom(ci: Result<Option<I32>>, mhz: Result<Option<I32>>, tracks: Result<Option<I32>>, mode: Result<Option<I32>>)
    ensures LockFrom(ci, mhz, tracks, mode).Ok? <==>
      ci.Ok? && mhz.Ok? && tracks.Ok? && mode.Ok? && (mhz.value.Some? ==> mhz.value.value >= 0)
  {
  }

  lemma LimitsReadExactlyWhen(e: Entries)
    ensures ReadMem(e).Ok? <==> ReadInt(e, MemOffsetMHz) != Malformed
    ensures ReadPower(e).Ok? <==>
      ReadInt(e, PowerLimitPct) != Malformed && (ReadInt(e, PowerLimitPct).Got? ==> 50 <= ReadInt(e, PowerLimitPct).value <= 150)
  {
  }

  lemma FanReadsExactlyWhen(e: Entries)
    ensures ReadFan(e).Ok? <==> WellFormedFan(e) && ReadInt(e, FanFixedPct) != Malformed
  {
  }

  /** The settings that come out: those of the keys, a fan nobody claimed automatic, and the lock as below. */
  lemma LoadedSettings(f: File, slot: int, mode: ReadMode, live: Live)
    requires Loaded(f, slot, mode, live).Ok?
    ensures
      var r, c := RecordOf(f, slot).value, Loaded(f, slot, mode, live).value.settings;
      && RecordOf(f, slot).Ok? && ReadControls(r.controls, r.fan).Ok?
      && c == SettingsOf(r).(lock := c.lock, fan := c.fan)
      && c.fan == (if SettingsOf(r).fan.has then SettingsOf(r).fan else SettingsOf(r).fan.(mode := FanAuto))
  {
    PreparedIs(RecordOf(f, slot).value, mode, live.curve);
  }

  // ---------------------------------------------------------------- the record

  /** A slot reads its own sections if it has any; only slot 1 falls back on the sections without a number. */
  lemma RecordFromSections(f: File, slot: int)
    ensures RecordOf(f, slot).Ok? <==> SlotSaved(f, slot)
    ensures
      var own := EntriesOf(f, Controls(slot)) != map[] || EntriesOf(f, Section.Curve(slot)) != map[] || EntriesOf(f, FanCurve(slot)) != map[];
      RecordOf(f, slot).Ok? ==>
        RecordOf(f, slot).value == (if own then Stored(EntriesOf(f, Controls(slot)), EntriesOf(f, Section.Curve(slot)), EntriesOf(f, FanCurve(slot)))
                                    else Stored(EntriesOf(f, LegacyControls), EntriesOf(f, LegacyCurve), EntriesOf(f, LegacyFanCurve)))
    ensures SlotSaved(f, slot) ==> 1 <= slot <= 5
    ensures 2 <= slot <= 5 ==> (SlotSaved(f, slot) <==>
      EntriesOf(f, Controls(slot)) != map[] || EntriesOf(f, Section.Curve(slot)) != map[] || EntriesOf(f, FanCurve(slot)) != map[])
  {
  }

  // ---------------------------------------------------------------- the points

  /** A section with per-point origins stands for exactly the points that can be taken from it. */
  lemma PointsWithOrigin(r: Stored, mode: ReadMode, curve: Curve, i: nat)
    requires Prepared(r, mode, curve).Ok? && i < VF_NUM_POINTS && LowerAll(Trim(ReadText(r.curve, CurveSemantics, 64))) == "absolute_with_origin"
    ensures
      var p, origin := Prepared(r, mode, curve).value.points[i], ReadInt(r.curve, Point(i, FromGpuOffset));
      && (p.has <==> ReadPoint(r.curve, i).Taken?) && (p.has ==> p.mhz == ReadPoint(r.curve, i).mhz)
      && (p.fromOffset <==> p.has && origin.Got? && origin.value != 0) && (!p.has ==> p == NO_POINT)
  {
    PreparedIs(r, mode, curve);
  }

  /** Whether point `i` is among the lowest populated points that the GPU offset excludes. */
  ghost predicate Excluded(curve: Curve, i: nat, excludeLow: int)
    requires i < VF_NUM_POINTS
  {
    excludeLow > 0 && curve[i].freqKHz != 0 && |PopulatedBelow(curve, i)| < excludeLow
  }

  ghost function PopulatedBelow(curve: Curve, i: nat): set<int>
    requires i <= VF_NUM_POINTS
  {
    set k | 0 <= k < i && curve[k].freqKHz != 0
  }

  lemma {:induction false} OrdinalCounts(curve: Curve, i: nat)
    requires i <= VF_NUM_POINTS
    ensures Ordinal(curve, i) == |PopulatedBelow(curve, i)|
  {
    if i > 0 {
      OrdinalCounts(curve, i - 1);
      if curve[i - 1].freqKHz != 0 {
        assert PopulatedBelow(curve, i) == PopulatedBelow(curve, i - 1) + {i - 1};
      } else {
        assert PopulatedBelow(curve, i) == PopulatedBelow(curve, i - 1);
      }
    }
  }

  /** A section relative to the GPU offset stands for its values plus that offset, but for the excluded
      points; what ends at or below zero goes. */
  lemma PointsPlusOffset(r: Stored, mode: ReadMode, curve: Curve, i: nat)
    requires Prepared(r, mode, curve).Ok? && i < VF_NUM_POINTS && LowerAll(Trim(ReadText(r.curve, CurveSemantics, 64))) == "base_plus_gpu_offset"
    requires Prepared(r, mode, curve).value.settings.gpu.has && Prepared(r, mode, curve).value.settings.gpu.mhz != 0
    ensures
      var p, gpu := Prepared(r, mode, curve).value.points[i], Prepared(r, mode, curve).value.settings.gpu;
      var shift := if Excluded(curve, i, gpu.excludeLow) then 0 else gpu.mhz;
      && (p.has <==> ReadPoint(r.curve, i).Taken? && ReadPoint(r.curve, i).mhz + shift > 0)
      && (p.has ==> p.mhz == ReadPoint(r.curve, i).mhz + shift && p.fromOffset)
  {
    PreparedIs(r, mode, curve);
    OrdinalCounts(curve, i);
    assert SectionDecode(r.curve) == BasePlusOffset;
  }

  /** An unmarked section is taken the same way exactly when only that puts its lock point on the lock. */
  lemma UnmarkedPoints(r: Stored, mode: ReadMode, curve: Curve, i: nat)
    requires Prepared(r, mode, curve).Ok? && i < VF_NUM_POINTS && Trim(ReadText(r.curve, CurveSemantics, 64)) == ""
    requires Prepared(r, mode, curve).value.settings.gpu.has && Prepared(r, mode, curve).value.settings.gpu.mhz != 0
    ensures
      var p, c := Prepared(r, mode, curve).value.points[i], Prepared(r, mode, curve).value.settings;
      var at := if c.lock.ci >= 0 then ReadPoint(r.curve, c.lock.ci) else Skipped;
      var relative := && c.lock.has && c.lock.ci >= 0 && c.lock.mhz > 0 && c.gpu.mhz > 0 && at.Taken?
                      && !Excluded(curve, c.lock.ci, c.gpu.excludeLow) && at.mhz + c.gpu.mhz == c.lock.mhz;
      var shift := if !relative || Excluded(curve, i, c.gpu.excludeLow) then 0 else c.gpu.mhz;
      && (p.has <==> ReadPoint(r.curve, i).Taken? && ReadPoint(r.curve, i).mhz + shift > 0)
      && (p.has ==> p.mhz == ReadPoint(r.curve, i).mhz + shift && (p.fromOffset <==> relative))
  {
    PreparedIs(r, mode, curve);
    var c := Prepared(r, mode, curve).value.settings;
    ReadSettingsAreInBounds(r.controls, r.fan);
    assert SectionDecode(r.curve) == Unmarked;
    OffsetLeavesNothingToRepair(r, c, mode, curve);
    UnmarkedRestored(r.curve, c, PointsRead(PointReader(r.curve)), curve, i);
  }

  /** Over a GPU offset the points are only restored, never repaired. */
  lemma OffsetLeavesNothingToRepair(r: Stored, c: Settings, mode: ReadMode, curve: Curve)
    requires c.gpu.has && c.gpu.mhz != 0
    ensures PreparedPoints(r, c, mode, curve) == Restored(r.curve, c, PointsRead(PointReader(r.curve)), curve)
  {
  }

  lemma UnmarkedRestored(e: Entries, c: Settings, p: Points, curve: Curve, i: nat)
    requires SectionDecode(e) == Unmarked && c.gpu.has && c.gpu.mhz != 0 && c.lock.ci < VF_NUM_POINTS && i < VF_NUM_POINTS
    requires !p[i].fromOffset && (p[i].has ==> p[i].mhz > 0)
    ensures
      var q := Restored(e, c, p, curve)[i];
      var relative := && c.lock.has && c.lock.ci >= 0 && c.lock.mhz > 0 && c.gpu.mhz > 0 && p[c.lock.ci].has
                      && !Excluded(curve, c.lock.ci, c.gpu.excludeLow) && p[c.lock.ci].mhz + c.gpu.mhz == c.lock.mhz;
      var shift := if !relative || Excluded(curve, i, c.gpu.excludeLow) then 0 else c.gpu.mhz;
      && (q.has <==> p[i].has && p[i].mhz + shift > 0)
      && (q.has ==> q.mhz == p[i].mhz + shift && (q.fromOffset <==> relative))
  {
    OrdinalCounts(curve, i);
    if 0 <= c.lock.ci { OrdinalCounts(curve, c.lock.ci); }
  }

  // ------------------------------------------------------------------ repair

  /** The points of the visible tail from index `ci` on. */
  ghost function VisibleTail(visible: nat -> bool, p: Points, ci: int): set<int> {
    set i | 0 <= ci <= i < VF_NUM_POINTS && p[i].has && visible(i)
  }

  lemma {:induction false} TailCounts(visible: nat -> bool, p: Points, i: nat)
    requires i <= VF_NUM_POINTS
    ensures TailCount(visible, p, i) == |VisibleTail(visible, p, i)|
    decreases VF_NUM_POINTS - i
  {
    if i < VF_NUM_POINTS {
      TailCounts(visible, p, i + 1);
      if p[i].has && visible(i) {
        assert VisibleTail(visible, p, i) == VisibleTail(visible, p, i + 1) + {i};
      } else {
        assert VisibleTail(visible, p, i) == VisibleTail(visible, p, i + 1);
      }
    }
  }

  /** A curve is repaired exactly under a lock at point 3 or above without any GPU offset, whose visible tail
      has at least four points, all at the lock. */
  lemma RepairedExactlyWhen(visible: nat -> bool, c: Settings, p: Points)
    ensures NeedsRepair(visible, c, p) <==>
      && c.lock.has && 3 <= c.lock.ci < 128 && c.lock.mhz != 0 && !(c.gpu.has && c.gpu.mhz != 0) && c.gpu.excludeLow <= 0
      && |VisibleTail(visible, p, c.lock.ci)| >= 4 && forall i :: i in VisibleTail(visible, p, c.lock.ci) ==> p[i].mhz == c.lock.mhz
  {
    if 0 <= c.lock.ci <= VF_NUM_POINTS { TailCounts(visible, p, c.lock.ci); }
  }

  /** What the repair removes: below the anchor every visible point saved with offset 0, but for two points
      that climb to the anchor in steps of at most 60 MHz; and then a visible third one at least 150 MHz
      below them whose saved offset is 60 to 250 MHz. */
  lemma RepairRemovesExactly(visible: nat -> bool, offset: nat -> IntRead, c: Settings, p: Points, i: nat)
    requires NeedsRepair(visible, c, p) && i < VF_NUM_POINTS
    ensures
      var q, ci := Repaired(visible, offset, c, p), c.lock.ci;
      var climbs := && p[ci - 1].has && p[ci - 2].has && p[ci - 2].mhz < p[ci - 1].mhz < c.lock.mhz
                    && c.lock.mhz - p[ci - 1].mhz <= 60 && p[ci - 1].mhz - p[ci - 2].mhz <= 60;
      var scaffold := p[i].has && visible(i) && offset(i) == Got(0) && i < (if climbs then ci - 2 else ci);
      var artifact := && climbs && i == ci - 3 && p[i].has && visible(i) && p[ci - 2].mhz - p[i].mhz >= 150
                      && offset(i).Got? && (60000 <= offset(i).value <= 250000 || -250000 <= offset(i).value <= -60000);
      q[i] == if scaffold || artifact then NO_POINT else p[i]
  {
  }

  /** Which points count as visible: by their mark, and without one all of them for the comparison and those
      the live curve shows for the editor. */
  lemma VisibilityFromKeys(e: Entries, mode: ReadMode, curve: Curve, i: nat)
    requires i < VF_NUM_POINTS
    ensures
      var mark := ReadInt(e, Point(i, Visibility));
      VisibilityReader(e, mode, curve)(i) <==>
        if mark.Got? then mark.value != 0 else mode == ForOwnership || (curve[i].freqKHz != 0 && curve[i].voltUv >= 700000)
    ensures OffsetReader(e)(i) == ReadInt(e, Point(i, OffsetKHz))
  {
  }

  /** A section without origins, and not relative to a GPU offset, stands for the points that can be taken from
      it as far as the repair keeps them; over a GPU offset it keeps them all. */
  lemma AbsolutePoints(r: Stored, mode: ReadMode, curve: Curve)
    requires Prepared(r, mode, curve).Ok? && LowerAll(Trim(ReadText(r.curve, CurveSemantics, 64))) != "absolute_with_origin"
    requires
      var gpu, text := Prepared(r, mode, curve).value.settings.gpu, LowerAll(Trim(ReadText(r.curve, CurveSemantics, 64)));
      gpu.has && gpu.mhz != 0 ==> text != "" && text != "base_plus_gpu_offset"
    ensures
      var c, p := Prepared(r, mode, curve).value.settings, Prepared(r, mode, curve).value.points;
      var taken := PointsRead(PointReader(r.curve));
      && p == Repaired(VisibilityReader(r.curve, mode, curve), OffsetReader(r.curve), c, taken)
      && (c.gpu.has && c.gpu.mhz != 0 ==> p == taken)
  {
    PreparedIs(r, mode, curve);
    assert LowerAll("") == "";
  }

  lemma TakenPoints(e: Entries, i: nat)
    requires i < VF_NUM_POINTS
    ensures
      var p := PointsRead(PointReader(e))[i];
      && (p.has <==> ReadPoint(e, i).Taken?) && (p.has ==> p == CurvePoint(true, ReadPoint(e, i).mhz, false)) && (!p.has ==> p == NO_POINT)
  {
    assert PointReader(e)(i) == ReadPoint(e, i);
  }

  // ------------------------------------------------------------ what is refused

  /** Two neighbouring points fall. */
  predicate Falls(p: Points) {
    exists i :: 0 <= i < 127 && p[i].has && p[i + 1].has && p[i + 1].mhz < p[i].mhz
  }

  /** Some point before the anchor lies above a complete lock. */
  predicate PeaksBeforeTheLock(p: Points, lock: Lock) {
    lock.has && lock.ci >= 0 && lock.mhz > 0 && exists i :: 0 <= i < 128 && i < lock.ci && p[i].has && p[i].mhz > lock.mhz
  }

  lemma ShapeChecksMean(p: Points, lock: Lock)
    ensures Falls(p) <==> !Monotone(p)
    ensures PeaksBeforeTheLock(p, lock) <==> PreTailAbove(p, lock)
  {
    if !Monotone(p) {
      var i :| 0 < i < VF_NUM_POINTS && p[i].has && p[i - 1].has && p[i - 1].mhz > p[i].mhz;
      assert p[i - 1 + 1].has;
    }
    if Falls(p) {
      var i :| 0 <= i < 127 && p[i].has && p[i + 1].has && p[i + 1].mhz < p[i].mhz;
      assert p[i + 1 - 1].has;
    }
  }

  lemma {:induction false} RefusalMeans(read: nat -> PointRead, i: nat)
    requires i <= VF_NUM_POINTS
    ensures FirstRefusal(read, i).None? <==> forall k: nat :: i <= k < VF_NUM_POINTS ==> !read(k).Refused?
    ensures FirstRefusal(read, i).Some? ==>
      exists k: nat :: i <= k < VF_NUM_POINTS && read(k).Refused? && read(k).key == FirstRefusal(read, i).value
                       && forall j: nat :: i <= j < k ==> !read(j).Refused?
    decreases VF_NUM_POINTS - i
  {
    if i < VF_NUM_POINTS && !read(i).Refused? { RefusalMeans(read, i + 1); }
  }

  /** A record is refused exactly for unreadable settings, for the first unreadable point, for neighbouring
      points that fall, or for an earlier point above the lock, in this order. */
  lemma RefusedExactlyWhen(r: Stored, mode: ReadMode, curve: Curve)
    ensures
      var settings, got := ReadControls(r.controls, r.fan), Prepared(r, mode, curve);
      if settings.Err? then got == Err(settings.error)
      else if exists k: nat :: k < VF_NUM_POINTS && ReadPoint(r.curve, k).Refused? then
        got.Err? && exists k: nat :: FirstRefused(r.curve, k) && got.error == BadKey(ReadPoint(r.curve, k).key)
      else
        var p := PreparedPoints(r, SettingsOf(r), mode, curve);
        && (got == Err(NonMonotone) <==> Falls(p))
        && (got == Err(PreTailAboveLock) <==> !Falls(p) && PeaksBeforeTheLock(p, SettingsOf(r).lock))
        && (got.Ok? <==> !Falls(p) && !PeaksBeforeTheLock(p, SettingsOf(r).lock))
  {
    var settings := ReadControls(r.controls, r.fan);
    if settings.Ok? {
      var c := Clamped(settings.value);
      PointsAreRefused(r.curve);
      if FirstRefusal(PointReader(r.curve), 0).None? { ShapeChecksMean(PreparedPoints(r, c, mode, curve), c.lock); }
    }
  }

  /** Point `k` is the first one that cannot be read. */
  predicate FirstRefused(e: Entries, k: nat) {
    k < VF_NUM_POINTS && ReadPoint(e, k).Refused? && forall j: nat :: j < k ==> !ReadPoint(e, j).Refused?
  }

  lemma PointsAreRefused(e: Entries)
    ensures FirstRefusal(PointReader(e), 0).None? <==> forall k: nat :: k < VF_NUM_POINTS ==> !ReadPoint(e, k).Refused?
    ensures FirstRefusal(PointReader(e), 0).Some? ==>
      exists k: nat :: FirstRefused(e, k) && ReadPoint(e, k).key == FirstRefusal(PointReader(e), 0).value
  {
    var read := PointReader(e);
    RefusalMeans(read, 0);
    forall k: nat ensures read(k) == ReadPoint(e, k) { }
    if FirstRefusal(read, 0).Some? {
      var k: nat :| k < VF_NUM_POINTS && read(k).Refused? && read(k).key == FirstRefusal(read, 0).value && forall j: nat :: j < k ==> !read(j).Refused?;
      assert FirstRefused(e, k);
    }
  }

  // -------------------------------------------------------------------- the lock

  predicate HasFlatEnd(p: Points, curve: Curve) {
    exists i :: 0 <= i < VF_NUM_POINTS && FlatFrom(p, curve, i)
  }

  /** The points from `i` on that the curve shows. */
  ghost function ShownFrom(p: Points, curve: Curve, i: int): set<int> {
    set j | 0 <= j < 128 && i <= j && p[j].has && curve[j].freqKHz != 0 && curve[j].voltUv >= 700000
  }

  /** A flat end starts at a shown point of nonzero frequency, with another one behind it and none that differs. */
  lemma FlatMeans(p: Points, curve: Curve, i: nat)
    requires i < VF_NUM_POINTS
    ensures FlatFrom(p, curve, i) <==>
      && i in ShownFrom(p, curve, i) && |ShownFrom(p, curve, i)| >= 2 && p[i].mhz != 0
      && forall j :: j in ShownFrom(p, curve, i) ==> p[j].mhz == p[i].mhz
  {
    var all := ShownFrom(p, curve, i);
    if FlatFrom(p, curve, i) {
      var j :| i < j < VF_NUM_POINTS && Shown(p, curve, j);
      assert |all - {i, j}| == |all| - 2;
    }
    if i in all && |all| >= 2 {
      assert |all - {i}| > 0;
      var j :| j in all - {i};
      assert Shown(p, curve, j) && i < j;
    }
    forall j | i < j < VF_NUM_POINTS ensures Shown(p, curve, j) <==> j in all { }
  }

  /** The tail is shown flat when the curve shows some of it, all at the lock. */
  lemma ShownTailMeans(p: Points, lock: Lock, curve: Curve)
    requires lock.ci >= 0
    ensures TailShownFlat(p, lock, curve) <==>
      ShownFrom(p, curve, lock.ci) != {} && forall j :: j in ShownFrom(p, curve, lock.ci) ==> p[j].mhz == lock.mhz
  {
    var all := ShownFrom(p, curve, lock.ci);
    forall j | lock.ci <= j < VF_NUM_POINTS ensures Shown(p, curve, j) <==> j in all { }
    if all != {} { var j :| j in all; assert Shown(p, curve, j); }
  }

  /** The lock that comes out: the stored one if it is complete or stored as absent; else the first shown
      point from which all shown points agree, if there is one. A stripped record has none, and in the
      editor a tail shown flat at the lock no longer tracks its anchor. */
  lemma LoadedLock(f: File, slot: int, mode: ReadMode, live: Live)
    requires Loaded(f, slot, mode, live).Ok?
    ensures
      var r := RecordOf(f, slot).value;
      var lock, p, out := SettingsOf(r).lock, Prepared(r, mode, live.curve).value.points, Loaded(f, slot, mode, live).value.settings.lock;
      var ci := ReadInt(r.controls, LockCi);
      var stored := (ci.Got? && ci.value < 0) || (lock.has && lock.ci >= 0 && lock.mhz > 0);
      && (StoredStripped(r) ==> out == lock.(has := false, ci := -1, mhz := 0))
      && (!StoredStripped(r) && stored ==> out == lock.(tracks := out.tracks))
      && (!StoredStripped(r) && !stored && !HasFlatEnd(p, live.curve) ==> out == lock.(tracks := out.tracks))
      && (!StoredStripped(r) && !stored && HasFlatEnd(p, live.curve) ==>
            && 0 <= out.ci < VF_NUM_POINTS && FlatFrom(p, live.curve, out.ci) && out.has && out.mhz == p[out.ci].mhz && out.mode == lock.mode && !out.tracks
            && forall i :: 0 <= i < out.ci ==> !FlatFrom(p, live.curve, i))
      && (out.tracks ==> lock.tracks) && (mode == ForOwnership && stored ==> out.tracks == lock.tracks)
      && (!StoredStripped(r) && mode == ForEditor && stored && out.Complete() ==> (out.tracks <==> lock.tracks && !TailShownFlat(p, out, live.curve)))
  {
    var r := RecordOf(f, slot).value;
    PreparedIs(r, mode, live.curve);
    LockFromKeys(r);
    ExplicitlyAbsent(r);
    FlatPointsAreReal(r, mode, live.curve);
    var d, explicit := Prepared(r, mode, live.curve).value, LockCiExplicit(r.controls);
    InferredLockMeans(explicit, d, live.curve);
    FinalLockMeans(explicit, r, d.points, Inferred(explicit, d, live.curve), mode, live.curve);
  }

  /** "Explicit and negative" after the clamp is what the key says. */
  lemma ExplicitlyAbsent(r: Stored)
    requires ReadControls(r.controls, r.fan).Ok?
    ensures
      var ci := ReadInt(r.controls, LockCi);
      && (LockCiExplicit(r.controls) && SettingsOf(r).lock.ci < 0 <==> ci.Got? && ci.value < 0)
      && (Strips(LockCiExplicit(r.controls), SettingsOf(r).lock, r) <==> StoredStripped(r))
  {
    LockFromKeys(r);
  }

  lemma InferredLockMeans(explicit: bool, d: Desired, curve: Curve)
    requires forall i :: 0 <= i < VF_NUM_POINTS && d.points[i].has ==> d.points[i].mhz > 0
    ensures
      var lock, out := d.settings.lock, Inferred(explicit, d, curve);
      var stored := (explicit && lock.ci < 0) || (lock.has && lock.ci >= 0 && lock.mhz > 0);
      && (stored || !HasFlatEnd(d.points, curve) ==> out == lock)
      && (!stored && HasFlatEnd(d.points, curve) ==>
            && 0 <= out.ci < VF_NUM_POINTS && FlatFrom(d.points, curve, out.ci) && out.has && out.mhz == d.points[out.ci].mhz
            && out.mode == lock.mode && !out.tracks && forall i :: 0 <= i < out.ci ==> !FlatFrom(d.points, curve, i))
  {
    var flat := FirstFlat(d.points, curve, 0);
  }

  lemma FinalLockMeans(explicit: bool, r: Stored, p: Points, lock: Lock, mode: ReadMode, curve: Curve)
    ensures
      var out := FinalLock(explicit, r, p, lock, mode, curve);
      && (Strips(explicit, lock, r) ==> out == lock.(has := false, ci := -1, mhz := 0))
      && (!Strips(explicit, lock, r) ==> out == lock.(tracks := lock.tracks && !(mode == ForEditor && lock.Complete() && TailShownFlat(p, lock, curve))))
  {
  }

  lemma FlatPointsAreReal(r: Stored, mode: ReadMode, curve: Curve)
    requires Prepared(r, mode, curve).Ok?
    ensures forall i :: 0 <= i < VF_NUM_POINTS && Prepared(r, mode, curve).value.points[i].has ==> Prepared(r, mode, curve).value.points[i].mhz > 0
  {
    PreparedIsSane(r, mode, curve);
  }

  /** An explicitly absent lock next to a curve without the current format marker: a leftover capture. */
  predicate StoredStripped(r: Stored) {
    var ci := ReadInt(r.controls, LockCi);
    ci.Got? && ci.value < 0 && LowerAll(Trim(ReadText(r.curve, FormatKey, 64))) != "explicit_vf_points_v1"
  }

  // -------------------------------------------------------------- what comes out

  /** The points that come out. A stripped record has none. Otherwise every prepared point is kept, except
      that over a loaded curve the editor drops exactly those the curve does not show. */
  lemma LoadedPoints(f: File, slot: int, mode: ReadMode, live: Live, i: nat)
    requires Loaded(f, slot, mode, live).Ok? && i < VF_NUM_POINTS
    ensures
      var r := RecordOf(f, slot).value;
      var p, out := Prepared(r, mode, live.curve).value.points[i], Loaded(f, slot, mode, live).value.points[i];
      var filtered := mode == ForEditor && live.loaded && exists k :: 0 <= k < VF_NUM_POINTS && live.curve[k].freqKHz != 0;
      && (!p.has ==> p == NO_POINT)
      && (StoredStripped(r) ==> out == NO_POINT)
      && (!StoredStripped(r) && !filtered ==> out == p)
      && (!StoredStripped(r) && filtered ==> (out == p <==> !p.has || live.curve[i].Visible()) && (out != p ==> out == NO_POINT))
  {
    var r := RecordOf(f, slot).value;
    PreparedIs(r, mode, live.curve);
    PreparedIsSane(r, mode, live.curve);
    ExplicitlyAbsent(r);
    var d, explicit := Prepared(r, mode, live.curve).value, LockCiExplicit(r.controls);
    var lock := Inferred(explicit, d, live.curve);
    assert Strips(explicit, lock, r) == Strips(explicit, d.settings.lock, r);
    FinalPointMeans(explicit, r, d.points, lock, mode, live, i);
  }

  lemma FinalPointMeans(explicit: bool, r: Stored, p: Points, lock: Lock, mode: ReadMode, live: Live, i: nat)
    requires i < VF_NUM_POINTS && (!p[i].has ==> p[i] == NO_POINT)
    ensures
      var out := FinalPoints(explicit, r, p, lock, mode, live)[i];
      var filtered := mode == ForEditor && live.loaded && exists k :: 0 <= k < VF_NUM_POINTS && live.curve[k].freqKHz != 0;
      && (Strips(explicit, lock, r) ==> out == NO_POINT)
      && (!Strips(explicit, lock, r) && !filtered ==> out == p[i])
      && (!Strips(explicit, lock, r) && filtered ==> out == if p[i].has && !live.curve[i].Visible() then NO_POINT else p[i])
  {
    if k :| 0 <= k < VF_NUM_POINTS && live.curve[k].freqKHz != 0 { assert live.curve[k].Populated(); }
    if k :| 0 <= k < VF_NUM_POINTS && live.curve[k].Populated() { assert live.curve[k].freqKHz != 0; }
  }

  /** Visible means populated and at least 700 mV. */
  lemma VisiblePoints(v: VfPoint)
    ensures v.Visible() <==> v.freqKHz != 0 && v.voltUv >= 700000
  {
  }
}
