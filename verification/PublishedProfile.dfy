/** What a reader of the machine bank gets: the profile that was published. */
module PublishedProfile {
  import opened Ini
  import opened GpuSelection
  import opened ProfileControls
  import opened ProfileCurve
  import opened ProfileLoad
  import opened ProfileSafety
  import opened ProfileSave
  import opened ProfileRoundTrip
  import opened Publication
  import opened Slots

  /** The profile the editor has loaded when it publishes. */
  function Source(src: File, slot: int, live: Live, now: Running): Desired
    requires JobOf(src, slot, live, now).Some?
  {
    Loaded(src, slot, ForEditor, live).value
  }

  lemma JobRecord(src: File, slot: int, live: Live, now: Running)
    requires JobOf(src, slot, live, now).Some?
    ensures 1 <= slot <= NUM_SLOTS
    ensures JobOf(src, slot, live, now).value.Text().record == RecordText(Source(src, slot, live, now), now, live.curve)
  {
  }

  /** A slot that holds a publication reads back as what was published, under any GPU state. */
  lemma HeldRecordReadsBack(f: File, slot: int, d: Desired, now: Running, curve: Curve, later: Live)
    requires RecordOf(f, slot) == Ok(RecordText(d, now, curve)) && Storable(d, now)
    ensures Loaded(f, slot, ForOwnership, later) == Ok(ReadsBackAs(d, now, curve))
  {
    PreparedReadsBack(d, now, curve, ForOwnership, later.curve);
    CompletedReadsBack(d, now, curve, later);
  }

  /** In every consistent state of the bank, a slot that is offered and whose latest publication is this
      one reads back as the published profile. */
  lemma OfferedProfileReadsBack(f: File, initial: File, latest: map<int, Edition>, src: File, slot: int, live: Live, now: Running, later: Live)
    requires JobOf(src, slot, live, now).Some? && Storable(Source(src, slot, live, now), now)
    requires Consistent(f, initial, latest) && Available(f, slot) && slot in latest && latest[slot] == JobOf(src, slot, live, now).value.Text()
    ensures Loaded(f, slot, ForOwnership, later) == Ok(ReadsBackAs(Source(src, slot, live, now), now, live.curve))
  {
    JobRecord(src, slot, live, now);
    assert SlotConsistent(f, initial, latest, slot);
    HeldRecordReadsBack(f, slot, Source(src, slot, live, now), now, live.curve, later);
  }

  /** And it is bound to the GPU selected in the file it was published from. */
  lemma OfferedProfileIsBound(f: File, initial: File, latest: map<int, Edition>, src: File, slot: int, live: Live, now: Running)
    requires JobOf(src, slot, live, now).Some?
    requires Consistent(f, initial, latest) && Available(f, slot) && slot in latest && latest[slot] == JobOf(src, slot, live, now).value.Text()
    ensures
      var selected, bound := Parse(EntriesOf(src, SelectedGpu)), Parse(EntriesOf(f, SlotGpu(slot)));
      selected.Some? && bound.Some? && SameSelection(selected.value, bound.value)
  {
    JobMeans(src, slot, live, now);
    assert SlotConsistent(f, initial, latest, slot);
    BoundToTheSelectedGpu(f, src, slot, live, now);
  }

  /** The editor has dropped what it cannot show, so publishing over a loaded curve hides no point. */
  lemma NothingIsHidden(src: File, slot: int, live: Live, now: Running)
    requires JobOf(src, slot, live, now).Some? && live.loaded && AnyPopulated(live.curve)
    ensures forall i :: 0 <= i < VF_NUM_POINTS && Source(src, slot, live, now).points[i].has ==> WrittenVisible(live.curve[i])
  {
    forall i | 0 <= i < VF_NUM_POINTS && Source(src, slot, live, now).points[i].has
      ensures WrittenVisible(live.curve[i])
    {
      EditorShowsOnlyVisible(src, slot, live, i);
    }
  }

  /** Published over a loaded curve, a profile that owns every setting comes back exactly, unless it
      carries a fan percentage its mode does not use. */
  lemma PublishedProfileIsExact(f: File, initial: File, latest: map<int, Edition>, src: File, slot: int, live: Live, now: Running, later: Live)
    requires JobOf(src, slot, live, now).Some? && live.loaded && AnyPopulated(live.curve)
    requires Storable(Source(src, slot, live, now), now) && Full(Source(src, slot, live, now).settings)
    requires Consistent(f, initial, latest) && Available(f, slot) && slot in latest && latest[slot] == JobOf(src, slot, live, now).value.Text()
    ensures
      var d := Source(src, slot, live, now);
      Loaded(f, slot, ForOwnership, later) == Ok(d) <==> d.settings.fan.mode == FanFixed || d.settings.fan.percent == 0
  {
    OfferedProfileReadsBack(f, initial, latest, src, slot, live, now, later);
    NothingIsHidden(src, slot, live, now);
    ReadsBackUnchanged(Source(src, slot, live, now), now, live.curve);
  }

  /** What the loader leaves open: the settings filled in from the running state, frequencies above the
      stored range, an incomplete lock, and an inferred lock below an earlier point. */
  predicate Completes(d: Desired, now: Running) {
    var a := AsSaved(d.settings, now);
    && (!d.settings.gpu.has ==> -1000 <= a.gpu.mhz <= 1000 && 0 <= a.gpu.excludeLow <= VF_NUM_POINTS)
    && (!d.settings.mem.has ==> -3000 <= now.memMHz <= 3000)
    && (!d.settings.power.has ==> POWER_MIN <= now.powerPct <= POWER_MAX)
    && (!d.settings.fan.has ==> 0 <= a.fan.percent <= 100)
    && StorableLock(a.lock) && !PreTailAbove(d.points, a.lock)
    && forall i :: 0 <= i < VF_NUM_POINTS ==> d.points[i].mhz <= MAX_POINT_MHZ
  }

  /** Exactly when a loaded profile can be stored without loss of range. */
  lemma LoadedIsStorableExactlyWhen(src: File, slot: int, live: Live, now: Running)
    requires JobOf(src, slot, live, now).Some?
    ensures Storable(Source(src, slot, live, now), now) <==> Completes(Source(src, slot, live, now), now)
  {
    LoadedRecordIsSafe(src, slot, ForEditor, live);
    StorableMeans(Source(src, slot, live, now), now);
  }

  lemma StorableMeans(d: Desired, now: Running)
    requires Sane(d.points, MAX_RESTORED_MHZ) && Monotone(d.points) && InRange(d.settings)
    ensures Storable(d, now) <==> Completes(d, now)
  {
  }
}
