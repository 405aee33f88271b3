/**
 Publishing a profile to the machine-wide bank: several atomic file writes under one lock, any of
 which may fail, with a crash possible after each. A slot is offered to readers only while its
 settings and its GPU binding belong together.
 */
module Publication {
  import opened Text
  import opened Ini
  import opened GpuSelection
  import opened ProfileControls
  import opened ProfileCurve
  import opened ProfileLoad
  import opened ProfileSave
  import opened Options
  import opened Slots

  // ------------------------------------------------------- what a reader sees

  datatype PublishState = LegacyState | InProgress | Committed | InvalidState

  const PUBLISHING := "publishing"
  const COMMITTED := "committed"

  function StateOf(f: File, slot: int): PublishState {
    if slot < 1 || slot > NUM_SLOTS then InvalidState
    else match ConfigString(EntriesOf(f, Publish(slot)), State, 32)
      case None => InvalidState
      case Some(v) =>
        if v == "" then LegacyState
        else if SameIgnoringCase(v, PUBLISHING) then InProgress
        else if SameIgnoringCase(v, COMMITTED) then Committed
        else InvalidState
  }

  /** A reader may use the slot. */
  predicate Available(f: File, slot: int) {
    && SlotSaved(f, slot)
    && var gpu := EntriesOf(f, SlotGpu(slot));
       match StateOf(f, slot)
       case LegacyState => gpu == map[] || Parse(gpu).Some?
       case Committed => gpu != map[] && Parse(gpu).Some?
       case _ => false
  }

  /** Markers are required: the tolerance for banks older than the marker is never reached, because
      the value reader reports an absent key as a failure. */
  lemma UnmarkedSlotIsNeverOffered(f: File, slot: int)
    ensures StateOf(f, slot) != LegacyState
    ensures EntriesOf(f, Publish(slot)) == map[] ==> !Available(f, slot)
  {
  }

  // ------------------------------------------------------------ atomic writes

  /** The sections of one bank slot; slot 1 includes the legacy mirror. */
  predicate BankOwns(slot: int, s: Section) {
    match s
    case Controls(k) => k == slot
    case Curve(k) => k == slot
    case FanCurve(k) => k == slot
    case SlotGpu(k) => k == slot
    case Publish(k) => k == slot
    case LegacyControls => slot == 1
    case LegacyCurve => slot == 1
    case LegacyFanCurve => slot == 1
    case _ => false
  }

  function BankSections(slot: int): (all: set<Section>)
    ensures forall s :: s in all <==> BankOwns(slot, s)
  {
    var own := {Controls(slot), Section.Curve(slot), FanCurve(slot), SlotGpu(slot), Publish(slot)};
    if slot == 1 then own + {LegacyControls, LegacyCurve, LegacyFanCurve} else own
  }

  function Marker(text: string): Entries {
    map[State := text]
  }

  function Emptied(f: File, slot: int): File {
    ReplaceSections(f, BankSections(slot), map[])
  }

  function Marked(f: File, slot: int): File {
    ReplaceSections(f, BankSections(slot), map[Publish(slot) := Marker(PUBLISHING)])
  }

  function Bound(f: File, slot: int, binding: Entries): File {
    ReplaceSections(f, {SlotGpu(slot)}, map[SlotGpu(slot) := binding])
  }

  function WithCommit(f: File, slot: int): File {
    ReplaceSections(f, {Publish(slot)}, map[Publish(slot) := Marker(COMMITTED)])
  }

  /** Everything a reader of one slot looks at. */
  datatype Image = Image(record: Stored, fallback: Stored, gpu: Entries, publish: Entries)

  const NOTHING: Stored := Stored(map[], map[], map[])

  function ImageOf(f: File, slot: int): Image {
    Image(SlotRecord(f, slot), if slot == 1 then LegacyRecord(f) else NOTHING,
          EntriesOf(f, SlotGpu(slot)), EntriesOf(f, Publish(slot)))
  }

  lemma SameImageSameView(f: File, g: File, slot: int)
    requires ImageOf(f, slot) == ImageOf(g, slot)
    ensures Available(f, slot) == Available(g, slot) && RecordOf(f, slot) == RecordOf(g, slot)
  {
  }

  lemma ReplacedSection(f: File, slot: int, added: File, s: Section)
    ensures EntriesOf(ReplaceSections(f, BankSections(slot), added), s)
         == if s in added then added[s] else if BankOwns(slot, s) then map[] else EntriesOf(f, s)
  {
  }

  /** Replacing a slot's sections leaves it with at most a marker, and every other slot as it was. */
  lemma ReplacedImage(f: File, slot: int, added: File, other: int)
    requires added.Keys <= {Publish(slot)}
    ensures ImageOf(ReplaceSections(f, BankSections(slot), added), other)
         == if other == slot then Image(NOTHING, NOTHING, map[], EntriesOf(added, Publish(slot))) else ImageOf(f, other)
  {
    var g := ReplaceSections(f, BankSections(slot), added);
    assert SlotRecord(g, other) == if other == slot then NOTHING else SlotRecord(f, other) by {
      ReplacedSection(f, slot, added, Controls(other));
      ReplacedSection(f, slot, added, Section.Curve(other));
      ReplacedSection(f, slot, added, FanCurve(other));
    }
    assert LegacyRecord(g) == if slot == 1 then NOTHING else LegacyRecord(f) by {
      ReplacedSection(f, slot, added, LegacyControls);
      ReplacedSection(f, slot, added, LegacyCurve);
      ReplacedSection(f, slot, added, LegacyFanCurve);
    }
    ReplacedSection(f, slot, added, SlotGpu(other));
    ReplacedSection(f, slot, added, Publish(other));
  }

  lemma EmptiedImage(f: File, slot: int, other: int)
    ensures ImageOf(Emptied(f, slot), other) == if other == slot then Image(NOTHING, NOTHING, map[], map[]) else ImageOf(f, other)
  {
    ReplacedImage(f, slot, map[], other);
  }

  lemma MarkedImage(f: File, slot: int, other: int)
    ensures ImageOf(Marked(f, slot), other)
         == if other == slot then Image(NOTHING, NOTHING, map[], Marker(PUBLISHING)) else ImageOf(f, other)
  {
    ReplacedImage(f, slot, map[Publish(slot) := Marker(PUBLISHING)], other);
  }

  lemma SavedImage(f: File, slot: int, r: Stored, other: int)
    ensures ImageOf(Saved(f, slot, r), other)
         == if other == slot then ImageOf(f, slot).(record := r, fallback := if slot == 1 then r else NOTHING) else ImageOf(f, other)
  {
    SaveAndLegacySections(f, slot, r);
    if other == slot {
      SavedRecord(f, slot, r);
      SavedSection(f, slot, r, SlotGpu(slot));
      SavedSection(f, slot, r, Publish(slot));
    } else {
      SaveKeepsOtherSlots(f, slot, r, other);
    }
  }

  lemma BoundImage(f: File, slot: int, binding: Entries, other: int)
    ensures ImageOf(Bound(f, slot, binding), other) == if other == slot then ImageOf(f, slot).(gpu := binding) else ImageOf(f, other)
  {
  }

  lemma CommitImage(f: File, slot: int, other: int)
    ensures ImageOf(WithCommit(f, slot), other)
         == if other == slot then ImageOf(f, slot).(publish := Marker(COMMITTED)) else ImageOf(f, other)
  {
  }

  lemma MarkerReadsBack(f: File, slot: int, committed: bool)
    requires 1 <= slot <= NUM_SLOTS && EntriesOf(f, Publish(slot)) == Marker(if committed then COMMITTED else PUBLISHING)
    ensures StateOf(f, slot) == if committed then Committed else InProgress
  {
    var t := if committed then COMMITTED else PUBLISHING;
    assert Visible(t);
    TrimNothing(t);
    SameAsItself(t);
  }

  // --------------------------------------------------------------- the claim

  /** What one publication puts into a slot. */
  datatype Edition = Edition(record: Stored, binding: Entries)

  predicate Holds(f: File, slot: int, e: Edition) {
    RecordOf(f, slot) == Ok(e.record) && EntriesOf(f, SlotGpu(slot)) == e.binding
  }

  /** A slot that is offered holds settings and binding of one publication, the last one begun, or
      has not been touched since the bank was opened. */
  ghost predicate SlotConsistent(f: File, initial: File, latest: map<int, Edition>, slot: int) {
    Available(f, slot) ==>
      if slot in latest then Holds(f, slot, latest[slot]) else ImageOf(f, slot) == ImageOf(initial, slot)
  }

  ghost predicate Consistent(f: File, initial: File, latest: map<int, Edition>) {
    forall slot :: 1 <= slot <= NUM_SLOTS ==> SlotConsistent(f, initial, latest, slot)
  }

  /** Only this slot's image differs. */
  ghost predicate OthersKept(f: File, g: File, slot: int) {
    forall other :: other != slot ==> ImageOf(g, other) == ImageOf(f, other)
  }

  /** A write that leaves the other slots alone keeps consistency as soon as its own slot is fine. */
  lemma OwnSlotSuffices(f: File, g: File, initial: File, latest: map<int, Edition>, next: map<int, Edition>, slot: int)
    requires Consistent(f, initial, latest) && OthersKept(f, g, slot)
    requires forall other :: other != slot ==> (other in next <==> other in latest) && (other in next ==> next[other] == latest[other])
    requires SlotConsistent(g, initial, next, slot)
    ensures Consistent(g, initial, next)
  {
    forall other | 1 <= other <= NUM_SLOTS
      ensures SlotConsistent(g, initial, next, other)
    {
      if other != slot {
        assert SlotConsistent(f, initial, latest, other);
        SameImageSameView(f, g, other);
      }
    }
  }

  lemma UnofferedWhilePublishing(f: File, slot: int)
    requires 1 <= slot <= NUM_SLOTS && EntriesOf(f, Publish(slot)) == Marker(PUBLISHING)
    ensures !Available(f, slot)
  {
    MarkerReadsBack(f, slot, false);
  }

  /** Committing a slot that holds an edition offers exactly that edition. */
  lemma CommitKeepsEdition(f: File, slot: int, e: Edition)
    requires 1 <= slot <= NUM_SLOTS && Holds(f, slot, e)
    ensures Holds(WithCommit(f, slot), slot, e)
  {
    CommitImage(f, slot, slot);
  }

  /** A durable state and the publications begun by then. */
  datatype Snapshot = Snapshot(file: File, latest: map<int, Edition>)

  datatype WriteResult = Done | Failed | Crashed

  /** What the administrator publishes: the loaded profile as it will be written, and the selected GPU. */
  datatype Job = Job(record: Stored, selection: Selection) {
    predicate Printable() {
      record.HasAny() && Format(selection).Some? && WellFormed(selection)
    }

    function Text(): Edition {
      Edition(record, match Format(selection) case Some(binding) => binding case None => map[])
    }
  }

  lemma HoldsEdition(f: File, slot: int, job: Job)
    requires 1 <= slot <= NUM_SLOTS && job.Printable()
    requires SlotRecord(f, slot) == job.record && EntriesOf(f, SlotGpu(slot)) == Format(job.selection).value
    ensures Holds(f, slot, job.Text())
  {
  }

  lemma OfferedOnceCommitted(f: File, slot: int, job: Job)
    requires 1 <= slot <= NUM_SLOTS && job.Printable() && SlotRecord(f, slot) == job.record
    requires EntriesOf(f, SlotGpu(slot)) == Format(job.selection).value && EntriesOf(f, Publish(slot)) == Marker(COMMITTED)
    ensures StateOf(f, slot) == Committed && Available(f, slot) && Holds(f, slot, job.Text())
  {
    MarkerReadsBack(f, slot, true);
    PrintedSelectionParsesBack(job.selection, Format(job.selection).value);
    assert SelectedIndex in Format(job.selection).value;
  }

  /** The job the source file describes, when it can be published at all. */
  function JobOf(src: File, slot: int, live: Live, now: Running): Option<Job> {
    if slot < 1 || slot > NUM_SLOTS || !SlotSaved(src, slot) then None
    else match Loaded(src, slot, ForEditor, live)
      case Err(_) => None
      case Ok(d) =>
        var gpu := EntriesOf(src, SelectedGpu);
        if gpu == map[] || Parse(gpu).None? then None
        else Some(Job(RecordText(d, now, live.curve), Parse(gpu).value))
  }

  lemma ParsedSelectionIsPrintable(e: Entries)
    requires Parse(e).Some?
    ensures Format(Parse(e).value).Some? && WellFormed(Parse(e).value)
  {
  }

  lemma JobIsPrintable(src: File, slot: int, live: Live, now: Running)
    requires JobOf(src, slot, live, now).Some?
    ensures JobOf(src, slot, live, now).value.Printable()
  {
    ParsedSelectionIsPrintable(EntriesOf(src, SelectedGpu));
    var d := Loaded(src, slot, ForEditor, live).value;
    assert GpuOffsetMHz in RecordText(d, now, live.curve).controls;
  }

  /** When there is nothing to publish, and what is published otherwise: the record of the profile as the
      editor loads it, and the GPU the source file selects. */
  lemma JobMeans(src: File, slot: int, live: Live, now: Running)
    ensures JobOf(src, slot, live, now).None? <==>
      || !(1 <= slot <= 5) || !SlotSaved(src, slot) || Loaded(src, slot, ForEditor, live).Err?
      || EntriesOf(src, SelectedGpu) == map[] || Parse(EntriesOf(src, SelectedGpu)).None?
    ensures JobOf(src, slot, live, now).Some? ==>
      && JobOf(src, slot, live, now).value.record == RecordText(Loaded(src, slot, ForEditor, live).value, now, live.curve)
      && JobOf(src, slot, live, now).value.selection == Parse(EntriesOf(src, SelectedGpu)).value
  {
  }

  /** A slot that holds the publication is bound to the GPU the source file selected. */
  lemma BoundToTheSelectedGpu(f: File, src: File, slot: int, live: Live, now: Running)
    requires JobOf(src, slot, live, now).Some? && Holds(f, slot, JobOf(src, slot, live, now).value.Text())
    ensures
      var selected, bound := Parse(EntriesOf(src, SelectedGpu)), Parse(EntriesOf(f, SlotGpu(slot)));
      selected.Some? && bound.Some? && SameSelection(selected.value, bound.value)
    ensures RecordOf(f, slot) == Ok(RecordText(Loaded(src, slot, ForEditor, live).value, now, live.curve))
  {
    JobMeans(src, slot, live, now);
    var sel := JobOf(src, slot, live, now).value.selection;
    ParsedSelectionIsPrintable(EntriesOf(src, SelectedGpu));
    PrintedSelectionParsesBack(sel, Format(sel).value);
  }

  /** A slot is offered exactly when it holds a record, its marker reads "committed" in any case, and its GPU
      section names a selection. */
  lemma OfferedExactlyWhen(f: File, slot: int)
    ensures Available(f, slot) <==>
      && 1 <= slot <= 5 && SlotSaved(f, slot)
      && ConfigString(EntriesOf(f, Publish(slot)), State, 32).Some?
      && SameIgnoringCase(ConfigString(EntriesOf(f, Publish(slot)), State, 32).value, "committed")
      && EntriesOf(f, SlotGpu(slot)) != map[] && Parse(EntriesOf(f, SlotGpu(slot))).Some?
  {
    UnmarkedSlotIsNeverOffered(f, slot);
  }

  datatype Outcome = NotPossible | Succeeded | Faulted | Mismatched | Interrupted

  class Bank {
    var file: File
    const initial: File
    ghost var latest: map<int, Edition>
    /** Every durable state so far, oldest first. */
    ghost var history: seq<Snapshot>

    ghost predicate Valid()
      reads this
    {
      && history != [] && history[|history| - 1] == Snapshot(file, latest)
      && forall k :: 0 <= k < |history| ==> Consistent(history[k].file, initial, history[k].latest)
    }

    constructor (file: File)
      ensures Valid() && this.file == file && initial == file && latest == map[]
    {
      this.file, initial, latest, history := file, file, map[], [Snapshot(file, map[])];
    }

    /** History grew by states in which no slot but this one differs from `f`. */
    ghost predicate Extends(before: seq<Snapshot>, f: File, slot: int)
      reads this
    {
      before <= history && OthersKept(f, file, slot) && forall k :: |before| <= k < |history| ==> OthersKept(f, history[k].file, slot)
    }

    /** One atomic replacement of the file. A crash may come before or after it takes effect. */
    method Write(g: File, slot: int, ghost next: map<int, Edition>) returns (w: WriteResult)
      requires Valid() && Consistent(g, initial, next) && OthersKept(file, g, slot)
      modifies this`file, this`latest, this`history
      ensures Valid() && Extends(old(history), old(file), slot)
      ensures w == Done ==> file == g && latest == next
      ensures w == Failed ==> file == old(file) && latest == old(latest)
      ensures w == Crashed ==> (file == g && latest == next) || (file == old(file) && latest == old(latest))
    {
      var takesEffect, crashes := *, *;
      if takesEffect {
        file, latest := g, next;
        history := history + [Snapshot(g, next)];
        w := if crashes then Crashed else Done;
      } else {
        w := if crashes then Crashed else Failed;
      }
    }

    /** A staging write: the marker still says "publishing", so the slot stays withdrawn. */
    method Stage(g: File, slot: int) returns (w: WriteResult)
      requires Valid() && 1 <= slot <= NUM_SLOTS && slot in latest
      requires EntriesOf(g, Publish(slot)) == Marker(PUBLISHING) && OthersKept(file, g, slot)
      modifies this`file, this`latest, this`history
      ensures Valid() && Extends(old(history), old(file), slot)
      ensures latest == old(latest)
      ensures w == Done ==> file == g
      ensures w == Failed ==> file == old(file)
    {
      UnofferedWhilePublishing(g, slot);
      OwnSlotSuffices(file, g, initial, latest, latest, slot);
      w := Write(g, slot, latest);
    }

    /** Withdraw the slot behind a durable marker. */
    method Begin(slot: int, ghost edition: Edition) returns (w: WriteResult)
      requires Valid() && 1 <= slot <= NUM_SLOTS
      modifies this`file, this`latest, this`history
      ensures Valid() && Extends(old(history), old(file), slot)
      ensures w == Done ==> ImageOf(file, slot) == Image(NOTHING, NOTHING, map[], Marker(PUBLISHING))
      ensures w == Done ==> latest == old(latest)[slot := edition]
      ensures w == Failed ==> file == old(file) && latest == old(latest)
    {
      forall other ensures other != slot ==> ImageOf(Marked(file, slot), other) == ImageOf(file, other) { MarkedImage(file, slot, other); }
      MarkedImage(file, slot, slot);
      UnofferedWhilePublishing(Marked(file, slot), slot);
      OwnSlotSuffices(file, Marked(file, slot), initial, latest, latest[slot := edition], slot);
      w := Write(Marked(file, slot), slot, latest[slot := edition]);
    }

    /** Offer the slot: by now it holds the whole edition. */
    method Commit(slot: int, ghost edition: Edition) returns (w: WriteResult)
      requires Valid() && 1 <= slot <= NUM_SLOTS && slot in latest && latest[slot] == edition
      requires Holds(file, slot, edition)
      modifies this`file, this`latest, this`history
      ensures Valid() && Extends(old(history), old(file), slot)
      ensures latest == old(latest)
      ensures w == Done ==> ImageOf(file, slot) == old(ImageOf(file, slot)).(publish := Marker(COMMITTED))
      ensures w == Failed ==> file == old(file)
    {
      var g := WithCommit(file, slot);
      forall other ensures other != slot ==> ImageOf(g, other) == ImageOf(file, other) { CommitImage(file, slot, other); }
      CommitImage(file, slot, slot);
      CommitKeepsEdition(file, slot, edition);
      OwnSlotSuffices(file, g, initial, latest, latest, slot);
      w := Write(g, slot, latest);
    }

    /** Remove the slot; it is withdrawn whether or not a publication was under way. */
    method Remove(slot: int) returns (w: WriteResult)
      requires Valid() && 1 <= slot <= NUM_SLOTS
      modifies this`file, this`latest, this`history
      ensures Valid() && Extends(old(history), old(file), slot)
      ensures latest == old(latest)
      ensures w == Done ==> !Available(file, slot)
      ensures w == Failed ==> file == old(file)
    {
      forall other ensures other != slot ==> ImageOf(Emptied(file, slot), other) == ImageOf(file, other) { EmptiedImage(file, slot, other); }
      EmptiedImage(file, slot, slot);
      UnmarkedSlotIsNeverOffered(Emptied(file, slot), slot);
      OwnSlotSuffices(file, Emptied(file, slot), initial, latest, latest, slot);
      w := Write(Emptied(file, slot), slot, latest);
    }

    /** Write the settings behind the marker. */
    method StageRecord(slot: int, record: Stored) returns (w: WriteResult)
      requires Valid() && 1 <= slot <= NUM_SLOTS && slot in latest
      requires ImageOf(file, slot) == Image(NOTHING, NOTHING, map[], Marker(PUBLISHING))
      modifies this`file, this`latest, this`history
      ensures Valid() && Extends(old(history), old(file), slot)
      ensures latest == old(latest)
      ensures w == Done ==> SlotRecord(file, slot) == record && EntriesOf(file, Publish(slot)) == Marker(PUBLISHING)
      ensures w == Failed ==> file == old(file)
    {
      forall other ensures other != slot ==> ImageOf(Saved(file, slot, record), other) == ImageOf(file, other) {
        SavedImage(file, slot, record, other);
      }
      SavedImage(file, slot, record, slot);
      w := Stage(Saved(file, slot, record), slot);
    }

    /** Write the GPU binding behind the marker and read it back. `matched` is whether it could be
        printed and read back as the same selection; a printable one always is. */
    method StageBinding(slot: int, sel: Selection) returns (w: WriteResult, matched: bool)
      requires Valid() && 1 <= slot <= NUM_SLOTS && slot in latest
      requires EntriesOf(file, Publish(slot)) == Marker(PUBLISHING)
      modifies this`file, this`latest, this`history
      ensures Valid() && Extends(old(history), old(file), slot)
      ensures latest == old(latest)
      ensures Format(sel).Some? && WellFormed(sel) ==> matched
      ensures w != Crashed ==> EntriesOf(file, Publish(slot)) == Marker(PUBLISHING) && SlotRecord(file, slot) == old(SlotRecord(file, slot))
      ensures w == Done && matched ==> Format(sel).Some? && EntriesOf(file, SlotGpu(slot)) == Format(sel).value
    {
      var binding := Format(sel);
      if binding.None? { return Failed, false; }
      var g := Bound(file, slot, binding.value);
      forall other ensures other != slot ==> ImageOf(g, other) == ImageOf(file, other) { BoundImage(file, slot, binding.value, other); }
      BoundImage(file, slot, binding.value, slot);
      w := Stage(g, slot);
      matched := true;
      if w == Done {
        PrintedSelectionParsesBack(sel, binding.value);
        var readback := Parse(EntriesOf(file, SlotGpu(slot)));
        matched := readback.Some? && SameSelection(sel, readback.value);
      }
    }

    /** The whole edition, behind the marker. */
    method StageEdition(slot: int, job: Job) returns (w: WriteResult, matched: bool)
      requires Valid() && 1 <= slot <= NUM_SLOTS && job.Printable() && slot in latest
      requires ImageOf(file, slot) == Image(NOTHING, NOTHING, map[], Marker(PUBLISHING))
      modifies this`file, this`latest, this`history
      ensures Valid() && Extends(old(history), old(file), slot)
      ensures latest == old(latest) && matched
      ensures w != Crashed ==> EntriesOf(file, Publish(slot)) == Marker(PUBLISHING)
      ensures w == Done ==> SlotRecord(file, slot) == job.record && EntriesOf(file, SlotGpu(slot)) == Format(job.selection).value
    {
      matched := true;
      w := StageRecord(slot, job.record);
      if w == Done {
        w, matched := StageBinding(slot, job.selection);
      }
    }

    /** Commit what is staged, and read the marker back. */
    method CommitEdition(slot: int, job: Job) returns (w: WriteResult)
      requires Valid() && 1 <= slot <= NUM_SLOTS && job.Printable() && slot in latest && latest[slot] == job.Text()
      requires SlotRecord(file, slot) == job.record && EntriesOf(file, SlotGpu(slot)) == Format(job.selection).value
      modifies this`file, this`latest, this`history
      ensures Valid() && Extends(old(history), old(file), slot)
      ensures w == Done ==> Available(file, slot) && Holds(file, slot, job.Text())
      ensures w == Failed ==> file == old(file)
    {
      HoldsEdition(file, slot, job);
      w := Commit(slot, job.Text());
      if w == Done {
        OfferedOnceCommitted(file, slot, job);
        if StateOf(file, slot) != Committed { w := Failed; }
      }
    }

    method StageAndCommit(slot: int, job: Job) returns (w: WriteResult, matched: bool)
      requires Valid() && 1 <= slot <= NUM_SLOTS && job.Printable() && slot in latest && latest[slot] == job.Text()
      requires ImageOf(file, slot) == Image(NOTHING, NOTHING, map[], Marker(PUBLISHING))
      modifies this`file, this`latest, this`history
      ensures Valid() && Extends(old(history), old(file), slot) && matched
      ensures w == Done ==> Available(file, slot) && Holds(file, slot, job.Text())
      ensures w == Failed ==> EntriesOf(file, Publish(slot)) == Marker(PUBLISHING)
    {
      w, matched := StageEdition(slot, job);
      if w == Done && matched {
        w := CommitEdition(slot, job);
      }
    }

    method PublishJob(slot: int, job: Job) returns (r: Outcome)
      requires Valid() && 1 <= slot <= NUM_SLOTS && job.Printable()
      modifies this`file, this`latest, this`history
      ensures Valid() && Extends(old(history), old(file), slot)
      ensures r == Succeeded || r == Faulted || r == Interrupted
      ensures r == Succeeded ==> Available(file, slot) && Holds(file, slot, job.Text())
      ensures r == Faulted ==> !Available(file, slot) || file == old(file)
    {
      var w := Begin(slot, job.Text());
      if w != Done { return if w == Crashed then Interrupted else Faulted; }
      var hardened, matched := *, true;
      w := Failed;
      if hardened {
        w, matched := StageAndCommit(slot, job);
        if w == Crashed { return Interrupted; }
        if w == Done && matched { return Succeeded; }
      }
      UnofferedWhilePublishing(file, slot);
      w := Remove(slot);
      return if w == Crashed then Interrupted else if matched then Faulted else Mismatched;
    }

    /** Publish the source profile of this slot. In every durable state on the way no other slot
        changes; on success the slot offers exactly this edition; and the selection's readback never
        is what stops it, so a publication that was possible only fails through a write or a crash. */
    method PublishSlot(src: File, slot: int, live: Live, now: Running) returns (r: Outcome)
      requires Valid()
      modifies this`file, this`latest, this`history
      ensures Valid() && Extends(old(history), old(file), slot)
      ensures r == NotPossible <==> JobOf(src, slot, live, now).None?
      ensures r == NotPossible <==>
        || !(1 <= slot <= 5) || !SlotSaved(src, slot) || Loaded(src, slot, ForEditor, live).Err?
        || EntriesOf(src, SelectedGpu) == map[] || Parse(EntriesOf(src, SelectedGpu)).None?
      ensures r == NotPossible ==> file == old(file)
      ensures r != Mismatched
      ensures r == Succeeded ==>
        && Parse(EntriesOf(file, SlotGpu(slot))).Some?
        && SameSelection(Parse(EntriesOf(src, SelectedGpu)).value, Parse(EntriesOf(file, SlotGpu(slot))).value)
        && RecordOf(file, slot) == Ok(RecordText(Loaded(src, slot, ForEditor, live).value, now, live.curve))
      ensures r == Succeeded ==> Available(file, slot) && Holds(file, slot, JobOf(src, slot, live, now).value.Text())
      ensures r == Faulted ==> !Available(file, slot) || file == old(file)
    {
      var possible := JobOf(src, slot, live, now);
      JobMeans(src, slot, live, now);
      if possible.None? { return NotPossible; }
      JobIsPrintable(src, slot, live, now);
      r := PublishJob(slot, possible.value);
      if r == Succeeded { BoundToTheSelectedGpu(file, src, slot, live, now); }
    }

    /** clear_machine_profile_slot: one write, then the file is hardened, which may fail. */
    method ClearSlot(slot: int) returns (r: Outcome)
      requires Valid()
      modifies this`file, this`latest, this`history
      ensures Valid() && Extends(old(history), old(file), slot)
      ensures r == NotPossible <==> !(1 <= slot <= NUM_SLOTS)
      ensures r == Succeeded ==> !Available(file, slot)
      ensures r == NotPossible ==> file == old(file)
    {
      if slot < 1 || slot > NUM_SLOTS { return NotPossible; }
      var w := Remove(slot);
      var hardened := *;
      return if w == Crashed then Interrupted else if w == Failed || !hardened then Faulted else Succeeded;
    }
  }
}
