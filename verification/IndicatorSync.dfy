/** The applied-profile indicator: a persisted slot number kept in step with the service, behind a cache. */
module IndicatorSync {
  import opened Text
  import opened Ini
  import opened ProfileControls
  import opened ProfileCurve
  import opened ProfileLoad
  import opened ProfileOwnership
  import opened ProfileSave
  import opened Options
  import opened Slots

  datatype Source = UserSlot | OtherSource

  /** What the service last published. */
  datatype Service = Service(authoritative: bool, hasIntent: bool, source: Source, slot: int, intent: Desired) {
    /** The personal slot whose stored record is compared, or 0. */
    function Candidate(): int {
      if source == UserSlot && 1 <= slot <= NUM_SLOTS then slot else 0
    }

    predicate Compares() {
      authoritative && hasIntent && Candidate() > 0
    }
  }

  // ------------------------------------------------- the ownership comparison

  function NormalExclude(gpu: GpuOffset): int {
    if !gpu.has || gpu.mhz == 0 then 0 else Clamp(gpu.excludeLow, 0, VF_NUM_POINTS)
  }

  predicate FanMatches(p: Settings, a: Settings) {
    if p.fan.has && a.fan.has then
      && p.fan.mode == a.fan.mode
      && (p.fan.mode == FanFixed ==> ClampPercent(p.fan.percent) == ClampPercent(a.fan.percent))
      && (p.fan.mode == FanCurveMode ==> p.fanCurve == a.fanCurve)
    else a.fan.has ==> p.fan.has
  }

  predicate LockMatches(p: Lock, a: Lock) {
    p.has == a.has && (p.has ==> p.ci == a.ci && p.mhz == a.mhz && p.mode == a.mode && p.tracks == a.tracks)
  }

  predicate PointsMatch(p: Points, a: Points) {
    forall i :: 0 <= i < VF_NUM_POINTS ==> p[i].has == a[i].has && (p[i].has ==> p[i].mhz == a[i].mhz)
  }

  predicate SettingsMatch(p: Settings, a: Settings) {
    && p.gpu.has == a.gpu.has && (p.gpu.has ==> p.gpu.mhz == a.gpu.mhz && NormalExclude(p.gpu) == NormalExclude(a.gpu))
    && p.mem.has == a.mem.has && (p.mem.has ==> p.mem.value == a.mem.value)
    && p.power.has == a.power.has && (p.power.has ==> p.power.value == a.power.value)
    && FanMatches(p, a) && LockMatches(p.lock, a.lock)
  }

  /** Is the stored profile what is now in force? A profile may claim a fan the active intent leaves alone. */
  predicate Matches(profile: Desired, active: Desired) {
    SettingsMatch(profile.settings, active.settings) && PointsMatch(profile.points, active.points)
  }

  /** What two records are compared by: owned settings with their values, the exclusion only over an offset,
      the fan percentage and curve only in the mode that uses them, and the points without their origin. */
  datatype Essence = Essence(
    gpu: Option<(int, int)>, mem: Option<int>, power: Option<int>, lock: Option<(int, int, int, bool)>,
    fan: Option<(FanMode, int, string)>, points: seq<Option<int>>)

  function EssenceOf(d: Desired, withFan: bool): Essence {
    var c := d.settings;
    Essence(
      if c.gpu.has then Some((c.gpu.mhz, if c.gpu.mhz == 0 then 0 else if c.gpu.excludeLow < 0 then 0 else if c.gpu.excludeLow > 128 then 128 else c.gpu.excludeLow)) else None,
      if c.mem.has then Some(c.mem.value) else None,
      if c.power.has then Some(c.power.value) else None,
      if c.lock.has then Some((c.lock.ci, c.lock.mhz, c.lock.mode, c.lock.tracks)) else None,
      if withFan && c.fan.has then Some((c.fan.mode,
                                         if c.fan.mode != FanFixed then 0 else if c.fan.percent < 0 then 0 else if c.fan.percent > 100 then 100 else c.fan.percent,
                                         if c.fan.mode == FanCurveMode then c.fanCurve else "")) else None,
      PointValues(d.points))
  }

  /** A profile matches what is in force exactly when they agree in that; a fan the active intent leaves alone
      may be claimed by the profile. */
  lemma MatchesExactlyWhen(profile: Desired, active: Desired)
    ensures Matches(profile, active) <==> EssenceOf(profile, active.settings.fan.has) == EssenceOf(active, true)
  {
    PointsMatchExactlyWhen(profile.points, active.points);
  }

  function PointValues(p: Points): seq<Option<int>> {
    seq(VF_NUM_POINTS, i requires 0 <= i < VF_NUM_POINTS => if p[i].has then Some(p[i].mhz) else None)
  }

  lemma PointsMatchExactlyWhen(p: Points, a: Points)
    ensures PointsMatch(p, a) <==> PointValues(p) == PointValues(a)
  {
    if PointValues(p) == PointValues(a) {
      forall i | 0 <= i < VF_NUM_POINTS ensures p[i].has == a[i].has && (p[i].has ==> p[i].mhz == a[i].mhz) {
        assert PointValues(p)[i] == PointValues(a)[i];
      }
    }
  }

  /** The slot to tick, recomputed from scratch. */
  function Verdict(service: Service, f: File, live: Live): int {
    if !service.Compares() then 0
    else match Loaded(f, service.slot, ForOwnership, live)
      case Err(_) => 0
      case Ok(saved) => if Matches(saved, service.intent) then service.slot else 0
  }

  /** A slot is ticked exactly when the service vouches for an intent taken from that personal slot, and the
      slot still loads as a record with the essence of the intent; nothing else is ever ticked. */
  lemma TickedExactlyWhen(s: Service, f: File, live: Live, slot: int)
    requires slot != 0
    ensures Verdict(s, f, live) == slot <==>
      && slot == s.slot && 1 <= slot <= 5 && s.authoritative && s.hasIntent && s.source == UserSlot
      && Loaded(f, slot, ForOwnership, live).Ok?
      && EssenceOf(Loaded(f, slot, ForOwnership, live).value, s.intent.settings.fan.has) == EssenceOf(s.intent, true)
  {
    if Loaded(f, s.slot, ForOwnership, live).Ok? {
      MatchesExactlyWhen(Loaded(f, s.slot, ForOwnership, live).value, s.intent);
    }
  }

  // --------------------------------------------------------------- cache key

  /** Presence, size and last-write time of the file. */
  type Stamp = nat

  datatype CacheKey = CacheKey(
    authoritative: bool, hasIntent: bool, source: Source, slot: int, stamp: Stamp, mask: seq<bool>, intent: Desired)

  /** The zeroed intent of a service that published none. */
  function NoIntent(): Desired {
    Desired(seq(VF_NUM_POINTS, _ => NO_POINT),
            Settings(GpuOffset(false, 0, 0), Lock(false, 0, 0, LOCK_NONE, false), Setting(false, 0), Setting(false, 0), DEFAULT_FAN, ""))
  }

  /** The populated points, or none while no curve is loaded. */
  function MaskOf(live: Live): seq<bool> {
    seq(VF_NUM_POINTS, i requires 0 <= i < VF_NUM_POINTS => live.loaded && live.curve[i].Populated())
  }

  method PopulatedMask(live: Live) returns (mask: array<bool>)
    ensures fresh(mask) && mask[..] == MaskOf(live)
  {
    mask := new bool[VF_NUM_POINTS](_ => false);
    if live.loaded {
      var i := 0;
      while i < VF_NUM_POINTS
        invariant 0 <= i <= VF_NUM_POINTS
        invariant forall j :: 0 <= j < i ==> mask[j] == live.curve[j].Populated()
        invariant forall j :: i <= j < VF_NUM_POINTS ==> !mask[j]
      {
        if live.curve[i].Populated() { mask[i] := true; }
        i := i + 1;
      }
    }
  }

  function KeyOf(service: Service, live: Live, stamp: Stamp): CacheKey {
    CacheKey(service.authoritative, service.hasIntent, service.source, service.slot, stamp, MaskOf(live),
             if service.hasIntent then service.intent else NoIntent())
  }

  predicate Unchanged(cached: CacheKey, current: CacheKey) {
    && cached.authoritative == current.authoritative && cached.hasIntent == current.hasIntent
    && cached.source == current.source && cached.slot == current.slot
    && cached.stamp == current.stamp && cached.mask == current.mask
    && (!current.hasIntent || cached.intent == current.intent)
  }

  // ------------------------------------------------ what makes the key enough

  /** The key shows the curve the read will see. A curve that is not loaded is not shown, but it is
      still read. */
  predicate MaskIsTrue(live: Live) {
    live.loaded || !AnyPopulated(live.curve)
  }

  lemma SameKeySameMask(a: Live, b: Live)
    requires MaskOf(a) == MaskOf(b) && MaskIsTrue(a) && MaskIsTrue(b)
    ensures SameMask(a.curve, b.curve)
  {
    forall i | 0 <= i < VF_NUM_POINTS
      ensures a.curve[i].Populated() == b.curve[i].Populated()
    {
      assert MaskOf(a)[i] == MaskOf(b)[i];
    }
  }

  /** Every GPU state with this key has the verdict of this one, whatever the service compares. */
  ghost predicate KeyDecides(f: File, slot: int, live: Live) {
    forall intent: Desired, other: Live :: MaskOf(live) == MaskOf(other) ==>
      Verdict(Service(true, true, UserSlot, slot, intent), f, other) == Verdict(Service(true, true, UserSlot, slot, intent), f, live)
  }

  /** The key captures what the comparison, if there is one, depends on. */
  ghost predicate Captured(service: Service, f: File, live: Live) {
    service.Compares() ==> KeyDecides(f, service.slot, live)
  }

  lemma VerdictByKey(s: Service, live: Live, s': Service, live': Live, f: File, stamp: Stamp)
    requires Unchanged(KeyOf(s, live, stamp), KeyOf(s', live', stamp)) && Captured(s', f, live')
    ensures Verdict(s, f, live) == Verdict(s', f, live')
  {
    if s.Compares() {
      assert s' == Service(true, true, UserSlot, s.slot, s.intent) && s == s';
    }
  }

  lemma CompletingALockIsNoticed(r: Stored, d: Desired, a: Live, b: Live)
    requires Inferred(LockCiExplicit(r.controls), d, a.curve).Complete() && !Inferred(LockCiExplicit(r.controls), d, b.curve).Complete()
    ensures !Matches(Completed(r, d, ForOwnership, b), Completed(r, d, ForOwnership, a))
  {
  }

  lemma SameReadsDecide(f: File, slot: int, live: Live)
    requires 1 <= slot <= NUM_SLOTS
    requires forall other: Live :: MaskOf(live) == MaskOf(other) ==> Loaded(f, slot, ForOwnership, other) == Loaded(f, slot, ForOwnership, live)
    ensures KeyDecides(f, slot, live)
  {
  }

  lemma UnsettledUndecides(f: File, slot: int, live: Live)
    requires 1 <= slot <= NUM_SLOTS && !LockIsSettled(f, slot, live)
    ensures !KeyDecides(f, slot, live)
  {
    var r := RecordOf(f, slot).value;
    var d := Prepared(r, ForOwnership, live.curve).value;
    var i, j :| 0 <= i < j < VF_NUM_POINTS && MayPair(d.points, live.curve, i, j);
    DriftChangesTheVerdict(f, slot, live, r, d, i, j);
  }

  /** While the key shows a curve, it decides the verdict exactly when the lock is settled. */
  lemma KeyDecidesExactlyWhenSettled(f: File, slot: int, live: Live)
    requires 1 <= slot <= NUM_SLOTS && live.loaded && AnyPopulated(live.curve)
    ensures KeyDecides(f, slot, live) <==> LockIsSettled(f, slot, live)
  {
    if LockIsSettled(f, slot, live) {
      var i :| 0 <= i < VF_NUM_POINTS && live.curve[i].Populated();
      forall other: Live | MaskOf(live) == MaskOf(other)
        ensures Loaded(f, slot, ForOwnership, other) == Loaded(f, slot, ForOwnership, live)
      {
        assert MaskOf(live)[i] && MaskOf(other)[i];
        SameKeySameMask(live, other);
        SettledReadsAgree(f, slot, live, other);
      }
      SameReadsDecide(f, slot, live);
    } else {
      UnsettledUndecides(f, slot, live);
    }
  }

  lemma EmptyKeys(a: Live, b: Live)
    requires !(a.loaded && AnyPopulated(a.curve)) && !(b.loaded && AnyPopulated(b.curve))
    ensures MaskOf(a) == MaskOf(b)
  {
    forall i | 0 <= i < VF_NUM_POINTS ensures !MaskOf(a)[i] && !MaskOf(b)[i] { }
  }

  /** While it shows none, a curve that is not loaded can still be read: the key then decides the
      verdict of a record that needs no curve exactly when the lock is settled on a full one. */
  lemma EmptyKeyDecidesExactlyWhenSettled(f: File, slot: int, live: Live)
    requires 1 <= slot <= NUM_SLOTS && !(live.loaded && AnyPopulated(live.curve))
    requires RecordOf(f, slot).Ok? ==> NeedsNoCurve(RecordOf(f, slot).value)
    ensures KeyDecides(f, slot, live) <==> LockIsSettled(f, slot, live.(curve := FullCurve()))
  {
    if LockIsSettled(f, slot, live.(curve := FullCurve())) {
      forall other: Live
        ensures Loaded(f, slot, ForOwnership, other) == Loaded(f, slot, ForOwnership, live)
      {
        ReadsAgreeOnAnyCurve(f, slot, live, other, live);
      }
      SameReadsDecide(f, slot, live);
    } else {
      var full := live.(loaded := false, curve := FullCurve());
      EmptyKeys(full, live);
      UnsettledUndecides(f, slot, full);
      SameKeySameDecision(f, slot, live, full);
    }
  }

  /** Records that do depend on the curve: the key then decides the verdict exactly when no curve makes
      the record readable, or every curve does and the record is stripped of its points. */
  lemma EmptyKeyAndRelativeRecords(f: File, slot: int, live: Live, r: Stored, c: Settings)
    requires 1 <= slot <= NUM_SLOTS && !(live.loaded && AnyPopulated(live.curve))
    requires RecordOf(f, slot) == Ok(r) && !NeedsNoCurve(r) && c == Clamped(ReadControls(r.controls, r.fan).value)
    ensures KeyDecides(f, slot, live) <==>
      || (forall curve: Curve :: Prepared(r, ForOwnership, curve).Err?)
      || (Stripped(r, c) && forall curve: Curve :: Prepared(r, ForOwnership, curve).Ok?)
  {
    if forall curve: Curve :: Prepared(r, ForOwnership, curve).Err? {
      UnreadableDecides(f, slot, live, r);
    } else {
      var readable: Curve :| Prepared(r, ForOwnership, readable).Ok?;
      if unreadable: Curve :| Prepared(r, ForOwnership, unreadable).Err? {
        ReadableAndNot(f, slot, live, r, readable, unreadable);
      } else if Stripped(r, c) {
        StrippedDecides(f, slot, live, r, c);
      } else {
        ShiftedUndecides(f, slot, live, r, c);
      }
    }
  }

  lemma UnreadableDecides(f: File, slot: int, live: Live, r: Stored)
    requires 1 <= slot <= NUM_SLOTS && RecordOf(f, slot) == Ok(r)
    requires forall curve: Curve :: Prepared(r, ForOwnership, curve).Err?
    ensures KeyDecides(f, slot, live)
  {
    forall other: Live ensures Loaded(f, slot, ForOwnership, other).Err? {
      assert Prepared(r, ForOwnership, other.curve).Err?;
    }
  }

  lemma ReadableAndNot(f: File, slot: int, live: Live, r: Stored, readable: Curve, unreadable: Curve)
    requires 1 <= slot <= NUM_SLOTS && !(live.loaded && AnyPopulated(live.curve)) && RecordOf(f, slot) == Ok(r)
    requires Prepared(r, ForOwnership, readable).Ok? && Prepared(r, ForOwnership, unreadable).Err?
    ensures !KeyDecides(f, slot, live)
  {
    var a, b := Live(readable, false), Live(unreadable, false);
    var d := Prepared(r, ForOwnership, readable).value;
    var intent := Completed(r, d, ForOwnership, a);
    EmptyKeys(live, a);
    EmptyKeys(live, b);
    MatchesItself(intent);
    VerdictOfPrepared(slot, intent, f, a, r, d);
    assert Loaded(f, slot, ForOwnership, b).Err?;
    TwoVerdictsUndecide(f, slot, live, intent, a, b);
  }

  lemma StrippedDecides(f: File, slot: int, live: Live, r: Stored, c: Settings)
    requires 1 <= slot <= NUM_SLOTS && RecordOf(f, slot) == Ok(r) && !NeedsNoCurve(r)
    requires c == Clamped(ReadControls(r.controls, r.fan).value) && Stripped(r, c)
    requires forall curve: Curve :: Prepared(r, ForOwnership, curve).Ok?
    ensures KeyDecides(f, slot, live)
  {
    forall other: Live ensures Loaded(f, slot, ForOwnership, other) == Loaded(f, slot, ForOwnership, live) {
      assert Prepared(r, ForOwnership, other.curve).Ok? && Prepared(r, ForOwnership, live.curve).Ok?;
      StrippedReads(r, c, other);
      StrippedReads(r, c, live);
    }
    SameReadsDecide(f, slot, live);
  }

  /** One point excluded and not: two reads, two verdicts. */
  lemma ShiftedUndecides(f: File, slot: int, live: Live, r: Stored, c: Settings)
    requires 1 <= slot <= NUM_SLOTS && !(live.loaded && AnyPopulated(live.curve)) && RecordOf(f, slot) == Ok(r) && !NeedsNoCurve(r)
    requires c == Clamped(ReadControls(r.controls, r.fan).value) && !Stripped(r, c)
    requires forall curve: Curve :: Prepared(r, ForOwnership, curve).Ok?
    ensures !KeyDecides(f, slot, live)
  {
    var p := PointsRead(PointReader(r.curve));
    var i: nat :| i < VF_NUM_POINTS && Shifts(SectionDecode(r.curve), c, p, i);
    var a, b := Live(EmptyCurve(), false), Live(Only(i), false);
    var da, db := Prepared(r, ForOwnership, a.curve).value, Prepared(r, ForOwnership, b.curve).value;
    var intent := Completed(r, da, ForOwnership, a);
    ShiftedReadsDiffer(r, c, i, a, b);
    MatchesItself(intent);
    VerdictOfPrepared(slot, intent, f, a, r, da);
    VerdictOfPrepared(slot, intent, f, b, r, db);
    EmptyKeys(live, a);
    EmptyKeys(live, b);
    TwoVerdictsUndecide(f, slot, live, intent, a, b);
  }

  lemma ShiftedReadsDiffer(r: Stored, c: Settings, i: nat, a: Live, b: Live)
    requires !NeedsNoCurve(r) && c == Clamped(ReadControls(r.controls, r.fan).value) && !Stripped(r, c)
    requires i < VF_NUM_POINTS && Shifts(SectionDecode(r.curve), c, PointsRead(PointReader(r.curve)), i)
    requires a == Live(EmptyCurve(), false) && b == Live(Only(i), false)
    requires Prepared(r, ForOwnership, a.curve).Ok? && Prepared(r, ForOwnership, b.curve).Ok?
    ensures !Matches(Completed(r, Prepared(r, ForOwnership, b.curve).value, ForOwnership, b),
                     Completed(r, Prepared(r, ForOwnership, a.curve).value, ForOwnership, a))
  {
    ShiftedPoint(r.curve, c, PointsRead(PointReader(r.curve)), i);
    UnstrippedPoints(r, c, a);
    UnstrippedPoints(r, c, b);
    PointTellsThemApart(Completed(r, Prepared(r, ForOwnership, a.curve).value, ForOwnership, a),
                        Completed(r, Prepared(r, ForOwnership, b.curve).value, ForOwnership, b), i);
  }

  lemma PointTellsThemApart(a: Desired, b: Desired, i: nat)
    requires i < VF_NUM_POINTS && b.points[i].has && (!a.points[i].has || a.points[i].mhz != b.points[i].mhz)
    ensures !Matches(b, a)
  {
  }

  lemma SameKeySameDecision(f: File, slot: int, a: Live, b: Live)
    requires MaskOf(a) == MaskOf(b)
    ensures KeyDecides(f, slot, a) ==> KeyDecides(f, slot, b)
  {
  }

  lemma VerdictOfPrepared(slot: int, intent: Desired, f: File, live: Live, r: Stored, d: Desired)
    requires 1 <= slot <= NUM_SLOTS && RecordOf(f, slot) == Ok(r) && Prepared(r, ForOwnership, live.curve) == Ok(d)
    ensures Verdict(Service(true, true, UserSlot, slot, intent), f, live)
         == if Matches(Completed(r, d, ForOwnership, live), intent) then slot else 0
  {
    assert Loaded(f, slot, ForOwnership, live) == Ok(Completed(r, d, ForOwnership, live));
  }

  lemma MatchesItself(d: Desired)
    ensures Matches(d, d)
  {
  }

  lemma TwoVerdictsUndecide(f: File, slot: int, live: Live, intent: Desired, a: Live, b: Live)
    requires MaskOf(live) == MaskOf(a) && MaskOf(live) == MaskOf(b)
    requires Verdict(Service(true, true, UserSlot, slot, intent), f, a) != Verdict(Service(true, true, UserSlot, slot, intent), f, b)
    ensures !KeyDecides(f, slot, live)
  {
  }

  lemma DriftChangesTheVerdict(f: File, slot: int, live: Live, r: Stored, d: Desired, i: nat, j: nat)
    requires 1 <= slot <= NUM_SLOTS && RecordOf(f, slot) == Ok(r) && Prepared(r, ForOwnership, live.curve) == Ok(d)
    requires InfersLock(LockCiExplicit(r.controls), d.settings.lock)
    requires i < j < VF_NUM_POINTS && MayPair(d.points, live.curve, i, j)
    ensures !KeyDecides(f, slot, live)
  {
    var pair, none := live.(curve := Showing(live.curve, {i, j})), live.(curve := Showing(live.curve, {}));
    var intent := Completed(r, d, ForOwnership, pair);
    PairAndNoneDiffer(f, slot, live, r, d, i, j);
    ShowingKeepsKey(live, {});
    ShowingKeepsKey(live, {i, j});
    TwoVerdictsUndecide(f, slot, live, intent, pair, none);
  }

  lemma PairAndNoneDiffer(f: File, slot: int, live: Live, r: Stored, d: Desired, i: nat, j: nat)
    requires 1 <= slot <= NUM_SLOTS && RecordOf(f, slot) == Ok(r) && Prepared(r, ForOwnership, live.curve) == Ok(d)
    requires InfersLock(LockCiExplicit(r.controls), d.settings.lock)
    requires i < j < VF_NUM_POINTS && MayPair(d.points, live.curve, i, j)
    ensures
      var pair, none := live.(curve := Showing(live.curve, {i, j})), live.(curve := Showing(live.curve, {}));
      var service := Service(true, true, UserSlot, slot, Completed(r, d, ForOwnership, pair));
      Verdict(service, f, pair) == slot && Verdict(service, f, none) == 0
  {
    var pair, none := live.(curve := Showing(live.curve, {i, j})), live.(curve := Showing(live.curve, {}));
    var intent := Completed(r, d, ForOwnership, pair);
    ShowingAPairCompletesTheLock(r, d, live.curve, i, j);
    CompletingALockIsNoticed(r, d, pair, none);
    MatchesItself(intent);
    VerdictOfPrepared(slot, intent, f, pair, r, d);
    VerdictOfPrepared(slot, intent, f, none, r, d);
  }

  lemma ShowingKeepsKey(live: Live, shown: set<int>)
    ensures MaskOf(live.(curve := Showing(live.curve, shown))) == MaskOf(live)
  {
    ShowingKeepsMask(live.curve, shown);
  }

  // ------------------------------------------------------ the persisted slot

  /** set_config_int on [profiles] applied_slot. */
  function WithApplied(f: File, slot: int): File {
    f[Profiles := EntriesOf(f, Profiles)[AppliedSlot := FormatInt(slot)]]
  }

  lemma AppliedReadsBack(f: File, slot: int)
    requires 0 <= slot <= NUM_SLOTS
    ensures Preference(WithApplied(f, slot), AppliedSlot) == slot
  {
    PreferenceReadsBack(EntriesOf(WithApplied(f, slot), Profiles), AppliedSlot, slot);
  }

  /** Persisting the verdict does not disturb what the verdict is computed from. */
  lemma AppliedKeepsRecords(f: File, slot: int, other: int, live: Live)
    ensures Loaded(WithApplied(f, slot), other, ForOwnership, live) == Loaded(f, other, ForOwnership, live)
    ensures LockIsSettled(WithApplied(f, slot), other, live) == LockIsSettled(f, other, live)
    ensures SettledOnAnyCurve(WithApplied(f, slot), other, live) == SettledOnAnyCurve(f, other, live)
  {
    var g := WithApplied(f, slot);
    assert SlotRecord(g, other) == SlotRecord(f, other) && LegacyRecord(g) == LegacyRecord(f);
    assert RecordOf(g, other) == RecordOf(f, other);
  }

  method CurrentKey(service: Service, live: Live, stamp: Stamp) returns (key: CacheKey)
    ensures key == KeyOf(service, live, stamp)
  {
    var mask := PopulatedMask(live);
    key := CacheKey(service.authoritative, service.hasIntent, service.source, service.slot, stamp, mask[..],
                    if service.hasIntent then service.intent else NoIntent());
  }

  method Judge(service: Service, f: File, live: Live) returns (applied: int)
    ensures applied == Verdict(service, f, live) && 0 <= applied <= NUM_SLOTS
  {
    applied := 0;
    if service.Compares() {
      var saved := LoadProfile(f, service.slot, ForOwnership, live);
      if saved.Ok? && Matches(saved.value, service.intent) { applied := service.slot; }
    }
  }

  datatype WriteOutcome = Persisted | NotWritten | WrittenUnverified

  /** The key was taken from a file whose persisted slot was the verdict. */
  ghost predicate SoundKey(key: CacheKey, contents: map<Stamp, File>, service: Service, live: Live) {
    && key.stamp in contents && key == KeyOf(service, live, key.stamp)
    && Preference(contents[key.stamp], AppliedSlot) == Verdict(service, contents[key.stamp], live)
  }

  /** The slot is the verdict of some state with the current key, perhaps an earlier one. */
  ghost predicate VerdictOfKey(slot: int, service: Service, f: File, live: Live, stamp: Stamp) {
    exists s: Service, l: Live :: Unchanged(KeyOf(s, l, stamp), KeyOf(service, live, stamp)) && slot == Verdict(s, f, l)
  }

  lemma CurrentVerdictOfKey(service: Service, f: File, live: Live, stamp: Stamp)
    ensures VerdictOfKey(Verdict(service, f, live), service, f, live, stamp)
  {
    assert Unchanged(KeyOf(service, live, stamp), KeyOf(service, live, stamp));
  }

  /** Writing the verdict makes the persisted slot agree with it, under the new stamp. */
  lemma WrittenVerdictIsSound(service: Service, f: File, live: Live, contents: map<Stamp, File>, stamp: Stamp)
    ensures
      var g := WithApplied(f, Verdict(service, f, live));
      && Verdict(service, g, live) == Verdict(service, f, live) == Preference(g, AppliedSlot)
      && SoundKey(KeyOf(service, live, stamp), contents[stamp := g], service, live)
  {
    var applied := Verdict(service, f, live);
    AppliedReadsBack(f, applied);
    AppliedKeepsRecords(f, applied, service.slot, live);
  }

  // ------------------------------------------------------------- the program

  class Indicator {
    var file: File
    var stamp: Stamp
    var service: Service
    var live: Live
    var cache: Option<CacheKey>
    /** What every stamp seen so far stood for, and what the cached key was taken from. */
    ghost var contents: map<Stamp, File>
    ghost var cachedService: Service
    ghost var cachedLive: Live

    ghost predicate Valid()
      reads this
    {
      && stamp in contents && contents[stamp] == file
      && (cache.Some? ==> SoundKey(cache.value, contents, cachedService, cachedLive))
    }

    constructor (file: File, stamp: Stamp, service: Service, live: Live)
      ensures Valid() && this.file == file && cache == None
    {
      this.file, this.stamp, this.service, this.live, cache := file, stamp, service, live, None;
      contents, cachedService, cachedLive := map[stamp := file], service, live;
    }

    method ServiceChanged(s: Service)
      requires Valid()
      modifies this`service
      ensures Valid() && service == s
    {
      service := s;
    }

    method LiveChanged(l: Live)
      requires Valid()
      modifies this`live
      ensures Valid() && live == l
    {
      live := l;
    }

    /** Any program replaces the file; a stamp seen before only comes back with its old contents. */
    method FileReplaced(f: File, st: Stamp)
      requires Valid() && (st in contents ==> contents[st] == f)
      modifies this`file, this`stamp, this`contents
      ensures Valid() && file == f && stamp == st
      ensures contents == old(contents)[st := f]
    {
      file, stamp, contents := f, st, contents[st := f];
    }

    /** The cached sync. Unless the write fails it ends with the persisted slot equal to the verdict of a
        state with the current key; of the current state itself when it was recomputed, or when the key
        captures the comparison. A cache hit changes nothing. */
    method Sync(outcome: WriteOutcome, newStamp: Stamp) returns (hit: bool, failed: bool)
      requires Valid() && newStamp !in contents
      modifies this`file, this`stamp, this`contents, this`cache, this`cachedService, this`cachedLive
      ensures Valid()
      ensures hit ==> file == old(file) && stamp == old(stamp) && cache == old(cache) && !failed
      ensures !failed ==> VerdictOfKey(Preference(file, AppliedSlot), service, file, live, stamp)
      ensures !failed && (!hit || Captured(service, file, live)) ==> Preference(file, AppliedSlot) == Verdict(service, file, live)
      ensures Verdict(service, file, live) == Verdict(service, old(file), live)
      ensures file == old(file) || file == WithApplied(old(file), Verdict(service, old(file), live))
      ensures failed ==> cache == old(cache)
    {
      var key := CurrentKey(service, live, stamp);
      if cache.Some? && Unchanged(cache.value, key) {
        if Captured(service, file, live) { VerdictByKey(cachedService, cachedLive, service, live, file, stamp); }
        return true, false;
      }
      var applied := Judge(service, file, live);
      CurrentVerdictOfKey(service, file, live, stamp);
      if Preference(file, AppliedSlot) == applied {
        cache, cachedService, cachedLive := Some(key), service, live;
        return false, false;
      }
      if outcome == NotWritten { return false, true; }
      WrittenVerdictIsSound(service, file, live, contents, newStamp);
      FileReplaced(WithApplied(file, applied), newStamp);
      CurrentVerdictOfKey(service, file, live, stamp);
      if outcome == WrittenUnverified { return false, true; }
      cache, cachedService, cachedLive := Some(key.(stamp := newStamp)), service, live;
      return false, false;
    }
  }
}
