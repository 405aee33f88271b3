/** The transition clock witness: which samples are judged, and what the verdict means. */
module Witness {
  import opened Ints

  const BIN_TOLERANCE_MHZ := 15
  const STAGE_CAPACITY := 48

  datatype Event =
    | Begin(ceilingMHz: U32, armed: bool)
    | SetClamp(ceilingMHz: U32, armed: bool)
    | Sample(clockValid: bool, gpcMHz: U32, stage: string, atArming: bool)
    | Finish
    | End

  datatype Verdict = NoClamp | ArmFailed | Unknown | Held | HeldRounded | Exceeded

  /** Unsigned arithmetic: `ceiling + 15` wraps at 32 bits. */
  function VerdictOf(clampRequested: bool, clampArmed: bool, ceilingMHz: U32, peakMHz: U32): Verdict {
    if !clampRequested || ceilingMHz == 0 then NoClamp
    else if !clampArmed then ArmFailed
    else if peakMHz == 0 then Unknown
    else if peakMHz <= ceilingMHz then Held
    else if peakMHz <= (ceilingMHz as int + BIN_TOLERANCE_MHZ) % 0x1_0000_0000 then HeldRounded
    else Exceeded
  }

  predicate CountsTowardVerdict(clampArmed: bool, atArming: bool) {
    clampArmed && !atArming
  }

  function Truncated(stage: string): (t: string)
    ensures t <= stage && |t| <= 47 && (|stage| <= 47 ==> t == stage) && (|stage| > 47 ==> |t| == 47)
  {
    if |stage| < STAGE_CAPACITY then stage else stage[..STAGE_CAPACITY - 1]
  }

  /** The witness record as a value. */
  datatype Record = Record(
    active: bool, ceilingMHz: U32, clampArmed: bool, finished: bool, samples: nat,
    peakMHz: U32, peakStage: string, preArmPeakMHz: U32)
  {
    function After(e: Event): Record {
      match e
      case Begin(ceiling, armed) => Record(true, ceiling, armed, false, 0, 0, "", 0)
      case SetClamp(ceiling, armed) => this.(ceilingMHz := ceiling, clampArmed := armed, finished := false)
      case Finish => this.(finished := true)
      case End => this.(active := false)
      case Sample(valid, mhz, stage, atArming) =>
        if !active || finished then this
        else
          var counted := this.(samples := samples + 1);
          if !valid then counted
          else if !CountsTowardVerdict(clampArmed, atArming) then counted.(preArmPeakMHz := Max(preArmPeakMHz, mhz))
          else if mhz > peakMHz then counted.(peakMHz := mhz, peakStage := Truncated(stage))
          else counted
    }

    function Verdict(): Verdict {
      VerdictOf(ceilingMHz != 0, clampArmed, ceilingMHz, peakMHz)
    }
  }

  const IDLE := Record(false, 0, false, false, 0, 0, "", 0)

  /** The one global witness. */
  class ApplyClockWitness {
    var active: bool
    var ceilingMHz: U32
    var clampArmed: bool
    var transitionFinished: bool
    var samples: nat
    var peakGpcMHz: U32
    var peakStage: string
    var preArmPeakGpcMHz: U32

    ghost function Value(): Record
      reads this
    {
      Record(active, ceilingMHz, clampArmed, transitionFinished, samples, peakGpcMHz, peakStage, preArmPeakGpcMHz)
    }

    constructor ()
      ensures Value() == IDLE
    {
      active, ceilingMHz, clampArmed, transitionFinished := false, 0, false, false;
      samples, peakGpcMHz, peakStage, preArmPeakGpcMHz := 0, 0, "", 0;
    }

    method BeginApply(ceiling: U32, armed: bool)
      modifies this
      ensures Value() == old(Value()).After(Begin(ceiling, armed))
    {
      transitionFinished, samples, peakGpcMHz, peakStage, preArmPeakGpcMHz := false, 0, 0, "", 0;
      active, ceilingMHz, clampArmed := true, ceiling, armed;
    }

    method SetClampState(ceiling: U32, armed: bool)
      modifies this
      ensures Value() == old(Value()).After(SetClamp(ceiling, armed))
    {
      ceilingMHz, clampArmed, transitionFinished := ceiling, armed, false;
    }

    method FinishTransition()
      modifies this
      ensures Value() == old(Value()).After(Finish)
    {
      transitionFinished := true;
    }

    method Fold(clockValid: bool, mhz: U32, stage: string, atArming: bool)
      modifies this
      ensures Value() == old(Value()).After(Sample(clockValid, mhz, stage, atArming))
    {
      if !active || transitionFinished { return; }
      samples := samples + 1;
      if clockValid {
        if !CountsTowardVerdict(clampArmed, atArming) {
          if mhz > preArmPeakGpcMHz { preArmPeakGpcMHz := mhz; }
        } else if mhz > peakGpcMHz {
          peakGpcMHz := mhz;
          peakStage := Truncated(stage);
        }
      }
    }

    method EndApply() returns (verdict: Verdict)
      modifies this
      ensures Value() == old(Value()).After(End)
      ensures old(active) ==> verdict == old(Value()).Verdict()
    {
      verdict := NoClamp;
      if !active { return; }
      verdict := VerdictOf(ceilingMHz != 0, clampArmed, ceilingMHz, peakGpcMHz);
      active := false;
    }
  }

  // ------------------------------------------------- what the history says

  ghost function Recorded(h: seq<Event>): Record {
    if h == [] then IDLE else Recorded(h[..|h| - 1]).After(h[|h| - 1])
  }

  ghost predicate IsSetting(e: Event) {
    e.Begin? || e.SetClamp?
  }

  /** Just before event `i`, the apply begun at `b` is still being witnessed. */
  ghost predicate Witnessed(h: seq<Event>, b: int, i: int)
    requires i <= |h|
  {
    0 <= b < i && h[b].Begin? && forall k :: b < k < i ==> !h[k].Begin? && !h[k].End?
  }

  /** Just before event `i`, the clamp set at `s` is armed and the transition is not finished. */
  ghost predicate ArmedBy(h: seq<Event>, s: int, i: int)
    requires i <= |h|
  {
    0 <= s < i && IsSetting(h[s]) && h[s].armed && forall k :: s < k < i ==> !IsSetting(h[k]) && !h[k].Finish?
  }

  ghost predicate Armed(h: seq<Event>, i: int)
    requires i <= |h|
  {
    exists s :: ArmedBy(h, s, i)
  }

  /** Sample `i` was taken while armed, not at the arming instant, and not after the finish. */
  ghost predicate Judged(h: seq<Event>, i: int)
    requires 0 <= i < |h|
  {
    h[i].Sample? && h[i].clockValid && !h[i].atArming && Armed(h, i)
  }

  lemma {:induction false} ArmedMeans(h: seq<Event>)
    ensures Recorded(h).clampArmed && !Recorded(h).finished <==> Armed(h, |h|)
  {
    if h != [] {
      var n := |h| - 1;
      var front := h[..n];
      ArmedMeans(front);
      if IsSetting(h[n]) {
        if h[n].armed {
          assert ArmedBy(h, n, |h|);
        }
      } else if !h[n].Finish? {
        if s :| ArmedBy(front, s, n) { assert ArmedBy(h, s, |h|); }
        if s :| ArmedBy(h, s, |h|) { assert ArmedBy(front, s, n); }
      }
    }
  }

  lemma {:induction false} ActiveMeans(h: seq<Event>)
    ensures Recorded(h).active <==> exists b :: Witnessed(h, b, |h|)
  {
    if h != [] {
      var n := |h| - 1;
      var front := h[..n];
      ActiveMeans(front);
      if h[n].Begin? {
        assert Witnessed(h, n, |h|);
      } else if !h[n].End? {
        if b :| Witnessed(front, b, n) { assert Witnessed(h, b, |h|); }
        if b :| Witnessed(h, b, |h|) { assert Witnessed(front, b, n); }
      }
    }
  }

  lemma JudgedInPrefix(h: seq<Event>, n: nat, i: nat)
    requires i < n <= |h|
    ensures Judged(h[..n], i) <==> Judged(h, i)
  {
    if s :| ArmedBy(h[..n], s, i) { assert ArmedBy(h, s, i); }
    if s :| ArmedBy(h, s, i) { assert ArmedBy(h[..n], s, i); }
  }

  /** Sample `i` is the first judged one of the apply begun at `b` to reach this peak. */
  ghost predicate PeaksAt(h: seq<Event>, b: int, i: int, peakMHz: U32, stage: string)
    requires -1 <= b
  {
    && b < i < |h| && Judged(h, i) && h[i].gpcMHz == peakMHz && stage == Truncated(h[i].stage)
    && forall k :: b < k < i && Judged(h, k) ==> h[k].gpcMHz < peakMHz
  }

  /** For every event sequence the peak is the highest judged sample of the current apply, and the
      stage is that of the first sample that reached it. */
  lemma {:induction false} PeakIsHighestJudgedSample(h: seq<Event>, b: int)
    requires Witnessed(h, b, |h|)
    ensures forall i :: b < i < |h| && Judged(h, i) ==> h[i].gpcMHz <= Recorded(h).peakMHz
    ensures Recorded(h).peakMHz > 0 ==>
      exists i :: PeaksAt(h, b, i, Recorded(h).peakMHz, Recorded(h).peakStage)
  {
    var n := |h| - 1;
    if b < n {
      var front := h[..n];
      assert Witnessed(front, b, n);
      PeakIsHighestJudgedSample(front, b);
      ArmedMeans(front);
      ActiveMeans(front);
      forall i | b < i < n
        ensures Judged(front, i) == Judged(h, i)
      {
        JudgedInPrefix(h, n, i);
      }
      if Recorded(h).peakMHz == Recorded(front).peakMHz > 0 {
        var i :| PeaksAt(front, b, i, Recorded(front).peakMHz, Recorded(front).peakStage);
        assert PeaksAt(h, b, i, Recorded(h).peakMHz, Recorded(h).peakStage);
      }
      JudgedLast(h);
      if Recorded(h).peakMHz > Recorded(front).peakMHz {
        assert PeaksAt(h, b, n, Recorded(h).peakMHz, Recorded(h).peakStage);
      }
    }
  }

  lemma JudgedLast(h: seq<Event>)
    requires h != []
    ensures Judged(h, |h| - 1) <==>
      && h[|h| - 1].Sample? && h[|h| - 1].clockValid && !h[|h| - 1].atArming
      && Armed(h[..|h| - 1], |h| - 1)
  {
    var n := |h| - 1;
    if s :| ArmedBy(h[..n], s, n) { assert ArmedBy(h, s, n); }
    if s :| ArmedBy(h, s, n) { assert ArmedBy(h[..n], s, n); }
  }

  /** The apply begun at `b` only ever sets its clamp at the ceiling it began with: the one its guard
      planned. It may be set any number of times, as a recovery does, with the transition finished in between. */
  ghost predicate OneCeiling(h: seq<Event>, b: int) {
    && Witnessed(h, b, |h|)
    && forall k :: b < k < |h| && h[k].SetClamp? ==> h[k].ceilingMHz == h[b].ceilingMHz
  }

  /** The latest setting of the clamp since `b` armed it. */
  ghost predicate LastSettingArms(h: seq<Event>, b: int)
    requires 0 <= b
  {
    exists s :: LastSetting(h, b, s) && h[s].armed
  }

  ghost predicate LastSetting(h: seq<Event>, b: int, s: int)
    requires 0 <= b
  {
    b <= s < |h| && IsSetting(h[s]) && forall k :: s < k < |h| ==> !IsSetting(h[k])
  }

  lemma {:induction false} CeilingStays(h: seq<Event>, b: int)
    requires OneCeiling(h, b)
    ensures Recorded(h).ceilingMHz == h[b].ceilingMHz
    ensures Recorded(h).clampArmed <==> LastSettingArms(h, b)
  {
    var n := |h| - 1;
    var front := h[..n];
    if b < n {
      assert OneCeiling(front, b);
      CeilingStays(front, b);
      if !IsSetting(h[n]) {
        if s :| LastSetting(front, b, s) && front[s].armed { assert LastSetting(h, b, s); }
        if s :| LastSetting(h, b, s) && h[s].armed { assert LastSetting(front, b, s); }
      } else {
        assert LastSetting(h, b, n);
      }
    } else {
      assert LastSetting(h, b, n);
    }
  }

  /** The highest peak that does not count as exceeded: one clock bin above the ceiling, and the
      ceiling itself where the 32-bit sum would wrap. */
  function Threshold(ceilingMHz: U32): (t: nat)
    ensures ceilingMHz <= t <= ceilingMHz as int + BIN_TOLERANCE_MHZ
  {
    if ceilingMHz <= UINT_MAX - BIN_TOLERANCE_MHZ then ceilingMHz as int + BIN_TOLERANCE_MHZ else ceilingMHz
  }

  lemma VerdictRanges(armed: bool, ceilingMHz: U32, peakMHz: U32)
    ensures var v := VerdictOf(ceilingMHz != 0, armed, ceilingMHz, peakMHz);
      && (v == NoClamp <==> ceilingMHz == 0)
      && (v == ArmFailed <==> ceilingMHz != 0 && !armed)
      && (v == Unknown <==> ceilingMHz != 0 && armed && peakMHz == 0)
      && (v == Held <==> ceilingMHz != 0 && armed && 0 < peakMHz <= ceilingMHz)
      && (v == HeldRounded <==> ceilingMHz != 0 && armed && ceilingMHz < peakMHz <= Threshold(ceilingMHz))
      && (v == Exceeded <==> ceilingMHz != 0 && armed && peakMHz > Threshold(ceilingMHz))
  {
  }

  /** Some judged sample of the apply begun at `b` read above `mhz`. */
  ghost predicate SomeJudgedAbove(h: seq<Event>, b: int, mhz: int)
    requires -1 <= b
  {
    exists i :: b < i < |h| && Judged(h, i) && h[i].gpcMHz > mhz
  }

  lemma {:induction false} PeakExceeds(h: seq<Event>, b: int, mhz: nat)
    requires Witnessed(h, b, |h|)
    ensures Recorded(h).peakMHz > mhz <==> SomeJudgedAbove(h, b, mhz)
  {
    PeakIsHighestJudgedSample(h, b);
  }

  /** For every apply that keeps to one ceiling, each verdict means exactly what its name says about
      the samples taken while the clamp was armed. */
  lemma {:induction false} VerdictOfApply(h: seq<Event>, b: int)
    requires OneCeiling(h, b)
    ensures var c, v := h[b].ceilingMHz, Recorded(h).Verdict();
      && (v == NoClamp <==> c == 0)
      && (v == ArmFailed <==> c != 0 && !LastSettingArms(h, b))
      && (v == Unknown <==> c != 0 && LastSettingArms(h, b) && !SomeJudgedAbove(h, b, 0))
      && (v == Held <==> c != 0 && LastSettingArms(h, b) && SomeJudgedAbove(h, b, 0) && !SomeJudgedAbove(h, b, c))
      && (v == HeldRounded <==> c != 0 && LastSettingArms(h, b) && SomeJudgedAbove(h, b, c) && !SomeJudgedAbove(h, b, Threshold(c)))
      && (v == Exceeded <==> c != 0 && LastSettingArms(h, b) && SomeJudgedAbove(h, b, Threshold(c)))
  {
    CeilingStays(h, b);
    VerdictRanges(Recorded(h).clampArmed, h[b].ceilingMHz, Recorded(h).peakMHz);
    PeakExceeds(h, b, 0);
    PeakExceeds(h, b, h[b].ceilingMHz);
    PeakExceeds(h, b, Threshold(h[b].ceilingMHz));
  }

  // ------------------------------------------------------- what else is recorded

  /** Just before event `i` the transition is open: not finished since the clamp was last set. */
  ghost predicate Open(h: seq<Event>, i: int)
    requires i <= |h|
  {
    exists s :: OpenedBy(h, s, i)
  }

  ghost predicate OpenedBy(h: seq<Event>, s: int, i: int)
    requires i <= |h|
  {
    0 <= s < i && IsSetting(h[s]) && forall k :: s < k < i ==> !IsSetting(h[k]) && !h[k].Finish?
  }

  lemma {:induction false} OpenMeans(h: seq<Event>, b: int)
    requires Witnessed(h, b, |h|)
    ensures !Recorded(h).finished <==> Open(h, |h|)
  {
    var n := |h| - 1;
    var front := h[..n];
    if IsSetting(h[n]) {
      assert OpenedBy(h, n, |h|);
    } else if b < n {
      assert Witnessed(front, b, n);
      OpenMeans(front, b);
      if !h[n].Finish? {
        if s :| OpenedBy(front, s, n) { assert OpenedBy(h, s, |h|); }
        if s :| OpenedBy(h, s, |h|) { assert OpenedBy(front, s, n); }
      }
    }
  }

  lemma OpenInPrefix(h: seq<Event>, n: nat, i: nat)
    requires i <= n <= |h|
    ensures Open(h[..n], i) <==> Open(h, i)
  {
    if s :| OpenedBy(h[..n], s, i) { assert OpenedBy(h, s, i); }
    if s :| OpenedBy(h, s, i) { assert OpenedBy(h[..n], s, i); }
  }

  /** A sample that is recorded at all. */
  ghost predicate Recordable(h: seq<Event>, i: int)
    requires 0 <= i < |h|
  {
    h[i].Sample? && Open(h, i)
  }

  /** How many of the events between `b` and `n` are such samples. */
  ghost function Taken(h: seq<Event>, b: nat, n: nat): nat
    requires n <= |h|
  {
    if n <= b + 1 then 0 else Taken(h, b, n - 1) + if Recordable(h, n - 1) then 1 else 0
  }

  ghost predicate BeforeArming(h: seq<Event>, i: int)
    requires 0 <= i < |h|
  {
    h[i].Sample? && h[i].clockValid && Open(h, i) && (h[i].atArming || !Armed(h, i))
  }

  lemma {:induction false} TakenInPrefix(h: seq<Event>, b: nat, m: nat, n: nat)
    requires n <= m <= |h|
    ensures Taken(h[..m], b, n) == Taken(h, b, n)
  {
    if n > b + 1 {
      TakenInPrefix(h, b, m, n - 1);
      OpenInPrefix(h, m, n - 1);
    }
  }

  /** For every event sequence the sample count is the number of samples taken while the transition was open. */
  lemma {:induction false} SamplesAreCounted(h: seq<Event>, b: int)
    requires Witnessed(h, b, |h|)
    ensures Recorded(h).samples == Taken(h, b, |h|)
  {
    var n := |h| - 1;
    if b < n {
      var front := h[..n];
      assert Witnessed(front, b, n);
      SamplesAreCounted(front, b);
      OpenMeans(front, b);
      ActiveMeans(front);
      OpenInPrefix(h, n, n);
      TakenInPrefix(h, b, n, n);
    }
  }

  /** The other peak is the highest of the valid samples that are not judged. */
  ghost predicate OtherPeak(h: seq<Event>, b: int, peakMHz: U32)
    requires 0 <= b
  {
    && (forall i :: b < i < |h| && BeforeArming(h, i) ==> h[i].gpcMHz <= peakMHz)
    && (peakMHz > 0 ==> exists i :: b < i < |h| && BeforeArming(h, i) && h[i].gpcMHz == peakMHz)
  }

  lemma BeforeArmingInPrefix(h: seq<Event>, n: nat, i: nat)
    requires i < n <= |h|
    ensures BeforeArming(h[..n], i) == BeforeArming(h, i)
  {
    OpenInPrefix(h, n, i);
    ArmedInPrefix(h, n, i);
  }

  lemma OtherPeakGrows(h: seq<Event>, b: int, peakMHz: U32)
    requires 0 <= b < |h| - 1 && OtherPeak(h[..|h| - 1], b, peakMHz)
    ensures OtherPeak(h, b, if BeforeArming(h, |h| - 1) then Max(peakMHz, h[|h| - 1].gpcMHz) else peakMHz)
  {
    var n := |h| - 1;
    forall i | b < i < n ensures BeforeArming(h[..n], i) == BeforeArming(h, i) { BeforeArmingInPrefix(h, n, i); }
    if peakMHz > 0 {
      var i :| b < i < n && BeforeArming(h[..n], i) && h[..n][i].gpcMHz == peakMHz;
      assert BeforeArming(h, i);
    }
  }

  /** And for every event sequence that is what is recorded. */
  lemma {:induction false} OtherPeakIsRecorded(h: seq<Event>, b: int)
    requires Witnessed(h, b, |h|)
    ensures OtherPeak(h, b, Recorded(h).preArmPeakMHz)
  {
    var n := |h| - 1;
    if b < n {
      var front := h[..n];
      assert Witnessed(front, b, n);
      OtherPeakIsRecorded(front, b);
      OpenMeans(front, b);
      ActiveMeans(front);
      ArmedMeans(front);
      OpenInPrefix(h, n, n);
      ArmedInPrefix(h, n, n);
      OtherPeakGrows(h, b, Recorded(front).preArmPeakMHz);
    }
  }

  lemma ArmedInPrefix(h: seq<Event>, n: nat, i: nat)
    requires i <= n <= |h|
    ensures Armed(h[..n], i) <==> Armed(h, i)
  {
    if s :| ArmedBy(h[..n], s, i) { assert ArmedBy(h, s, i); }
    if s :| ArmedBy(h, s, i) { assert ArmedBy(h[..n], s, i); }
  }
}
