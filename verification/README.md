# Green Curve decision cores in Dafny

Green Curve tunes the voltage/frequency curve of an NVIDIA GPU from saved profiles. This project
models the decisions it makes away from the driver calls, and proves what they promise over every
input, every run or every reachable state:

- **Curve correction** (`Correction`, `CorrectionRun`, `CorrectionMeaning`, `LockTail`, with `CurveOffset`): plan every
  point's offset from a readback, write, classify, verify, and stop on success or at a fixed point;
  and the two scans that decide whether a locked tail can stay flat.
- **Transition protection** (`Ceiling`, `Transitions`, `ApplyRun`, `ApplyScripts`, `ApplyMeaning`,
  `ApplyProgram`, `Witness`): which clock cap an apply arms, when it must refuse, when the cap may go again, and what
  the clock witness may conclude. Every driver call may fail, as a script of answers says; the rules are
  stated over the record of calls, and an apply is a function of the script that the program computes.
- **Auto-profile switching** (`Controller`, `Backoff`, `Driver`, `DriverRate`, `DriverTiming`,
  `DriverPicks`, `DriverBackoff`, `DriverMeaning`): debounce, cooldown, exponential backoff, pins, deferred picks and
  recursive dispatch, with exact timing and rate theorems over whole runs.
- **Profile store** (`Text`, `Ini`, `GpuSelection`, `TextMeaning`, `ProfileControls`, `ProfileCurve`,
  `ProfileLoad`, `ProfileMeaning`, `ProfileSafety`, `ProfileOwnership`, `ProfileSave`, `ProfileRoundTrip`,
  `ProfileExamples`, `IndicatorSync`, `Publication`, `PublishedProfile`, `Logon`): printing and
  parsing a profile, the ownership read, the applied-slot cache, the multi-write publication to the
  machine bank and what its readers get, and the logon transaction.

`Base.dfy` holds the machine integers, `Option` and the slot numbers. Code that updates state in
place is a class or a method over arrays, proved against a function on values; runs, transformations
and round trips are then lemmas about those functions. The `…Meaning` modules pin those functions down
from the outside: from the keys of a file, the fields of a request, the answers of a driver or the
events of a run, without naming how the result is computed. `dafny verify dfyconfig.toml` checks everything.

## Results

- One planned pass over a driver that reads back base plus offset lands a steered point on its target
  exactly when the range lets it move that far, and no later pass of any run writes a pinned point
  differently (`OnePassLands`, `NoAccumulation`).
- The locked tail is pushed down as far as the driver permits, so after one pass it displays above the lock
  exactly when no permitted offset could bring it down (`TailIsHeldExactlyWhenItCanBe`).
- A frozen driver costs at most two passes unless nothing is left to chase, and then exactly when
  verification keeps failing (`FrozenDriverStopsInTwoPasses`).
- An installed transition cap is lifted or raised only by the final lock step of an apply whose every
  core offset and last curve batch verified, however many batches missed before it, or by a recovery
  that proved both the core offset and the curve at stock (`CapOnlyGoesWhenProved`). A domain whose last
  write is unverified at that moment is one the operation did not write at all
  (`UnprovedCapGoesExactlyWhen`). Every apply, reset and recovery keeps these rules whatever the driver
  answers (`ApplyKeepsTheRules`).
- Every clock written towards a hard lock is written under an installed cap at or below it
  (`HardLockWritesAreCapped`); protection is only ever gone without towards no pin, where the driver has
  no form of it (`GoesOnUnprotectedExactlyWhen`). An apply that finishes wrote exactly what was due
  (`FinishedWroteWhatWasDue`).
- Some answers of the driver make an apply refuse behind a clock write if and only if it resets to stock,
  its plan can be armed and it asks for no pin (`RefusesAfterAWriteExactlyWhen`).
- A detected target is attempted exactly when debounce, cooldown and backoff allow, from any reachable
  driver state (`DetectedTargetIsAppliedWhenDue`). In every run and window the timer issues at most
  1 + length/interval attempts, plus one per superseded request (`AtMostOneAttemptPerInterval`).
- In every run a completion executes exactly the pick that waits behind its request, or failing that
  one a superseded request left behind (`EveryCompletionExecutesTheDuePick`); a deferred pick survives
  an event exactly when that is no revert (`PickSurvivesExactlyWhen`).
- In every run the k-th consecutive failure of a slot waits min(300000, interval * 2^(k-1)) ms, and k timer
  attempts of a failing slot span the first k-1 waits (`DriverBackoff`).
- Each verdict of the clock witness means exactly what its name says about the samples taken while the
  clamp was armed, for every apply that keeps to one ceiling, recoveries included (`VerdictOfApply`).
- Saving and reading back a profile is exact if and only if nothing was hidden at the save
  (`FullRecordRoundTrip`); an ownership read is free of live drift if and only if the lock is settled
  (`OwnershipReadIsDriftFree`), and exactly then the cache key of a loaded curve decides the verdict
  (`KeyDecidesExactlyWhenSettled`).
- No read leaves a point below the anchor above the lock, under any GPU state with these populated
  points, if and only if the lock is not inferred or no earlier point exceeds an equal pair
  (`OwnershipReadsAreSafeExactlyWhen`).
- In every durable state of every run of publications, clears, failures and crashes, a bank slot that
  is offered holds settings and GPU binding of one same publication (`Bank`), and reads back as the
  profile that was published (`OfferedProfileReadsBack`, `PublishedProfileIsExact`), bound to the GPU that
  was selected (`OfferedProfileIsBound`).
- What a load gives is spelled out key by key and point by point, for the editor and for the comparison
  (`LoadedSettings`, `LoadedLock`, `LoadedPoints`), and a profile matches what is in force exactly when they
  agree in essence (`MatchesExactlyWhen`).

## Where the code and its intent part

- **Publication marker.** A bank written before the marker existed is meant to stay readable, but the
  value reader reports an absent key as a failure, so the legacy state is never reached and such a slot
  is never offered (`UnmarkedSlotIsNeverOffered`).
- **Retained caps.** A cap kept because the curve would not return to stock is meant to stay until that
  is proved, but an apply that asks for no lock, resets nothing and finds no clock to write releases it
  (`UnlockedApplyLiftsTheCap`, and from a fresh start `RetainedCapCanBeLifted`);
  `UnprovedCapGoesExactlyWhen` is the exact condition.
- **Refusals.** A refused apply reports that no clock was changed. That holds at the first arming. At the
  second one, after the reset to stock, it does not (`RefusedBehindTheBaseline`, `RefusedRecord`);
  `RefusesAfterAWriteExactlyWhen` says for which applies the driver's answers can lead there.
- **Deferred picks.** A superseded request clears the in-flight flag but keeps the deferred pick, so a
  later completion can execute it over a newer one (`StalePickOverridesNewerPick`); it also spends no
  cooldown (`SupersedeEscapesTheCooldown`). Turning automatic switching off while a request is in
  flight skips the revert and drops the deferred pick with it (`RevertDropsThePick`).
- **Hidden points.** A requested point below 700 mV is written with `visible=0` and dropped by the next
  read (`HiddenPointIsLost`).
- **Inferred locks.** Without explicit lock keys an ownership read can follow the live voltages
  (`UnlockedReadDrifts`).
- **Cache key.** The key shows no points while no curve is loaded, although a curve left over from before
  is still read, so one key can stand for two verdicts (`LeftoverCurveChangesTheVerdict`);
  `EmptyKeyDecidesExactlyWhenSettled` and `EmptyKeyAndRelativeRecords` say for every record when it does not.
- **Order of the load checks.** Locks are inferred after the pre-tail check, so an inferred lock can lie
  below an earlier point (`InferredLockEscapesThePreTailCheck`); `OwnershipReadsAreSafeExactlyWhen` and
  `InferenceIsSafeExactlyWhen` say exactly when it cannot.
- **Pre-tail check.** A zero lock switches the check off, so raising it to a nonzero one can introduce a
  refusal (`RaisesAreMonotoneExactlyWhen`).
- **GPU selection.** A role recorded without a location does not survive printing
  (`PrintedSelectionParsesBack`); a parsed selection never has one.

## Model

| member | source | states |
|---|---|---|
| `CurveOffset.OffsetRange.Clamp` | source/vf_offset_range_policy.h:128-135 | the result lies in the range and is the input whenever the range permits it |
| `CurveOffset.StockBaseKHz` | source/curve_point_offset_policy.h:88-92 | base plus programmed offset is the live frequency again |
| `CurveOffset.DisplayMonotone` | source/apply_correction_policy.h:72-76 | a higher frequency never displays lower |
| `CurveOffset.DisplayExact` | source/apply_correction_policy.h:72-76 | whole MHz survive the kHz round trip exactly up to the saturation point |
| `Correction.PlanPoint` | source/apply_correction_policy.h:129-173 | one point's mask, offset and place in the summary |
| `Correction.PlanPass` | source/apply_correction_policy.h:124-176 | the mask and offset buffers hold the planned writes, the plan their summary |
| `Correction.PlanSummaryDescribes` | source/apply_correction_policy.h:108-176 | the summary counts each kind of point, the clamped ones and the first clamp exactly |
| `Correction.AccountDescribes` | source/apply_correction_policy.h:129-173 | folding in one point keeps the summary's meaning |
| `Correction.ClassifyPoint` | source/apply_correction_policy.h:227-323 | one point's class, the target it leaves and the error it records |
| `Correction.ClassifyPass` | source/apply_correction_policy.h:220-329 | targets and history after the pass, exact statistics, and the fixed-point flag |
| `Correction.StatsSummaryDescribes` | source/apply_correction_policy.h:197-329 | every counter of a pass is the number of points with its mark, and the first intent point off its offset is reported with its values |
| `Correction.StatsMeaning` | source/apply_correction_policy.h:220-329 | unconverged, improved and fixed point mean that some point is, some point did, and neither first nor improving nor done |
| `CorrectionMeaning.PassWritesWhatIsAsked` | source/apply_correction_policy.h:124-176 | a pass writes exactly the live points that are requested or in the locked tail |
| `CorrectionMeaning.TailIsWrittenTheLowestOffset` | source/apply_correction_policy.h:137-173 | a live tail point other than the anchor is written a permitted offset at or below every other permitted one |
| `CorrectionMeaning.DisplayAtMost` | source/apply_correction_policy.h:72-76 | a frequency displays at or below a value up to half a MHz above it |
| `CorrectionMeaning.TailIsHeldExactlyWhenItCanBe` | source/apply_correction_policy.h:137-173 | over an exact driver such a point displays no higher than the lock after one pass exactly when some permitted offset would bring it there |
| `CorrectionMeaning.WriteIsTheNearestPermitted` | source/apply_correction_policy.h:94-173 | every other written point gets the permitted offset nearest to its requested offset, or to the way from its stock base to its target |
| `CorrectionMeaning.KindsOfWrites` | source/apply_correction_policy.h:129-173 | how a written point is counted, from the request |
| `CorrectionMeaning.ErrorIsHowFarAstray` | source/apply_correction_policy.h:231-275 | the recorded error is the distance from the requested offset or frequency, cut at the largest int |
| `CorrectionMeaning.MarksOfAMiss` | source/apply_correction_policy.h:257-323 | a tail point of a batch that misses is exactly one of out of range, converging, stuck and worsening, by reach and by distance |
| `CorrectionMeaning.AcceptedExactlyWhen` | source/apply_correction_policy.h:294-315 | when a lower readback becomes the target, and what target and error remain |
| `CorrectionMeaning.MarksOfAnIntent` | source/apply_correction_policy.h:231-256 | a point that asks for an offset is off exactly when another one is programmed |
| `CorrectionMeaning.SettledPoints` | source/apply_correction_policy.h:227-262 | any other point keeps its target and its history |
| `CorrectionRun.RunPass` | source/apply_correction_policy.h:354-368 | one pass plans, writes and classifies what landed |
| `CorrectionRun.RunLoop` | source/apply_correction_policy.h:345-371 | the loop stops in the first pass that may not start, has no work, verifies or is a fixed point, and its outcome says which |
| `CorrectionRun.TargetsNeverRise` | source/apply_correction_policy.h:294-315 | over any run targets are non-increasing, and typed, tail and offset-intent targets never change |
| `CorrectionRun.IntentWritesAreTheRequest` | source/apply_correction_policy.h:154-165 | every write to an offset-intent point is the clamped requested offset |
| `CorrectionRun.RepeatedReadbackNeverImproves` | source/apply_correction_policy.h:231-315 | the same readback twice: no improvement the second time, and the same points stay unconverged |
| `CorrectionRun.SameReadbackIsAFixedPoint` | source/apply_correction_policy.h:220-329 | such a pass is a fixed point exactly when a point is unconverged |
| `CorrectionRun.FrozenStateIsStable` | source/apply_correction_policy.h:231-315 | against a frozen driver the state settles after one pass |
| `CorrectionRun.FrozenDriverStopsInTwoPasses` | source/apply_correction_policy.h:345-371 | a frozen driver runs past pass two exactly when nothing is left to chase and verification fails |
| `CorrectionRun.VerificationWins` | source/apply_correction_policy.h:359-368 | a verifying pass is reported verified even at a fixed point |
| `CorrectionRun.WantedFromBase` | source/apply_correction_policy.h:94-106 | the wanted offset depends on the stock base only |
| `CorrectionRun.OnePassLands` | source/apply_correction_policy.h:72-106 | a steered point sits on its target after one pass exactly when the range lets it move that far, and then counts converged, exactly up to display saturation |
| `CorrectionRun.ReachesExactlyWhatIsPermitted` | source/vf_offset_range_policy.h:128-135 | in a range that is not inverted a point can move exactly as far as the range permits |
| `CorrectionRun.OnePassHoldsIntent` | source/apply_correction_policy.h:231-238 | an offset-intent point converges in one pass exactly when the range permits its offset |
| `CorrectionRun.PlanDependsOnBaseOnly` | source/apply_correction_policy.h:94-106 | plans over the same base write the same whatever is programmed |
| `CorrectionRun.NoAccumulation` | source/apply_correction_policy.h:124-176 | all passes of a run write a pinned point identically |
| `LockTail.FindPretailViolation` | source/apply_lock_pretail_policy.h:97-135 | the least populated pre-tail index above the lock, with its target, or none |
| `LockTail.AgreementIsTheLowerTarget` | source/apply_lock_pretail_policy.h:58-72 | the agreement mode judges the lower of the two targets |
| `LockTail.AgreementIsFirstCommonViolation` | source/apply_lock_pretail_policy.h:97-135 | its answer is the least index where both other modes object |
| `LockTail.AgreementRefusalIsUnanimous` | source/apply_lock_pretail_policy.h:97-135 | when it refuses, both others refuse there or earlier |
| `LockTail.ChosenModeIsAtLeastAsStrict` | source/apply_lock_pretail_policy.h:67-72 | the mode the routing picks refuses whenever agreement would, no later |
| `LockTail.RoutingJudges` | source/apply_lock_pretail_policy.h:67-130 | which target each point is judged by, from the routing and the request |
| `LockTail.FlatTargets` | source/apply_correction_policy.h:444-454 | which target the flat-tail check judges each point by |
| `LockTail.RaisingTheLockNeverRefusesEarlier` | source/apply_lock_pretail_policy.h:97-135 | raising a nonzero lock never moves a refusal earlier |
| `LockTail.RaisesAreMonotoneExactlyWhen` | source/apply_lock_pretail_policy.h:97-135 | that holds exactly when the lock is nonzero or a 1 MHz lock would not refuse |
| `LockTail.FindTailViolation` | source/apply_correction_policy.h:444-475 | the least tail index that follows a higher target, with that target, or none |
| `LockTail.PreviousIsRunningMax` | source/apply_correction_policy.h:460-475 | over a rising pre-tail the previous target is the running maximum |
| `LockTail.FlatTailIffMaxIsLock` | source/apply_correction_policy.h:444-475 | the scan passes exactly when the running maximum is the lock on every tail point |
| `LockTail.PretailPassImpliesFlatTail` | source/apply_lock_pretail_policy.h:97-135 | a passing live-base pre-tail check implies a passing flat-tail check, selective batches included |
| `LockTail.ChecksAgree` | source/apply_correction_policy.h:444-475 | with a rising, fully covered pre-tail and a tail the two checks agree, selective batches included |
| `Ceiling.OutgoingCeiling` | source/gpu_backend_apply_ceiling.h:34-49 | a retained cap, else the pin, else the highest frequency of the curve, displayed |
| `Ceiling.PlanIsHighestPermittedCeiling` | source/apply_clock_ceiling_policy.h:154-189 | the plan is the highest ceiling both endpoints permit, armed exactly when needed and installable |
| `Ceiling.PlanReasons` | source/apply_clock_ceiling_policy.h:154-189 | the reason, the symmetric fallback and the absent control of a plan, from the request |
| `ApplyRun.StockResetIsOrdered` | source/clock_reset_policy.h:9-23 | the curve is reset only after a separately owned offset verified; release is permitted exactly when both verified |
| `ApplyRun.RollbackReleasesOnlyProved` | source/main_gpu_rollback.h:36-146 | a release is reported only with both domains proved at stock, and then no transition cap is left; otherwise the cap is as it was |
| `ApplyRun.ResetReleasesOnlyProved` | source/main_service_apply_runtime.cpp:279-467 | the same, and with stock proved and neither a lock nor a cap believed active the reset always counts as released |
| `ApplyRun.PlanIsGuarded` | source/gpu_backend_apply_ceiling.h:80-109 | the plan drawn from the observed outgoing state never raises a retained cap and arms only what can be released |
| `ApplyRun.ArmingProtects` | source/gpu_backend_apply_ceiling.h:119-210 | only clamps are tried, an armed clamp is left alone, and unless the transition must be refused the GPU is protected |
| `ApplyRun.RecoveryIsProtected` | source/gpu_backend_apply_failure.h:54-77 | protection is re-established before anything is reset, or recovery stops with the cap as it was; a transition cap goes only with the release it reports |
| `ApplyRun.OffsetMustVerify` | source/gpu_backend_apply.cpp:509-557 | a core offset is written under protection and must verify at once |
| `ApplyRun.LastPassDecides` | source/gpu_backend_apply.cpp:896-1040 | however many correction passes rewrite a batch, the last verification decides |
| `ApplyRun.BatchMustVerify` | source/gpu_backend_apply.cpp:693-1158 | a curve batch succeeds only if its last write verified |
| `ApplyRun.BaselineVerifies` | source/gpu_backend_reset_baseline.cpp:10-123 | the baseline succeeds only with offset and curve verified |
| `ApplyRun.ClocksVerify` | source/gpu_backend_apply.cpp:497-1189 | writes happen only under protection and leave the cap alone; success means every offset and the last curve batch verified |
| `ApplyRun.LockStepSettlesTheCap` | source/gpu_backend_apply.cpp:1190-1302 | a hard lock ends at its pin, any other owner of the lock domain ends without a transition cap, and a failed or unentitled step changes nothing |
| `ApplyRun.ApplyKeepsTheRules` | source/gpu_backend_apply.cpp:126-1392 | whatever the driver answers an apply keeps the rules; a finished one leaves no transition cap and its hard lock pinned; a first refusal has only tried clamps, a second one has verified stock |
| `ApplyRun.StableApply` | source/gpu_backend_apply.cpp:126-1392 | whatever every single step keeps, a whole apply keeps |
| `ApplyRun.ApplyIsFaithful` | source/gpu_backend_apply.cpp:126-1392 | the monitor of an apply says of it what it says of its record of calls |
| `ApplyScripts.RefusedAtStockNeeds` | source/gpu_backend_apply.cpp:150-169 | a refusal behind the baseline needs a reset to stock, a plan that can be armed and no requested pin |
| `ApplyScripts.RefusalsAndWrites` | source/gpu_backend_apply.cpp:485-496 | a refusal at the first arming has written no clock, one at the second always has |
| `ApplyScripts.RefusesAfterAWriteExactlyWhen` | source/gpu_backend_apply.cpp:485-496 | some script of answers leads to a refusal behind a write if and only if the apply resets to stock, can be armed and asks for no pin |
| `ApplyScripts.RefusedRecord` | source/gpu_backend_apply_ceiling.h:152-179 | the calls of such an apply: unsupported clamp, verified baseline, declined clamp |
| `ApplyScripts.RefusedBehindTheBaseline` | source/gpu_backend_apply.cpp:485-496 | from a fresh start one such apply obeys the rules and refuses behind a write |
| `ApplyScripts.UnlockedApplyReleases` | source/gpu_backend_apply.cpp:1192-1233 | an apply without lock, reset and writes plans no protection and releases whatever cap there is |
| `ApplyScripts.UnlockedApplyLiftsTheCap` | source/gpu_backend_apply.cpp:1192-1233 | from any sound state such an apply lifts a retained cap, and vouches for nothing it did not find vouched for |
| `ApplyScripts.RetainedCapCanBeLifted` | source/gpu_backend_apply.cpp:1192-1233 | from a fresh start two applies in a row keep a cap over an unverified curve and then lift it |
| `ApplyMeaning.ArmedExactlyWhen` | source/gpu_backend_apply_ceiling.h:119-210 | a clamp is installed exactly when protection is needed and possible and the driver takes a form the request permits |
| `ApplyMeaning.GoesOnUnprotectedExactlyWhen` | source/apply_clock_ceiling_policy.h:255-277 | an apply that needs protection goes on without it exactly towards no pin, when the driver has no form of it |
| `ApplyMeaning.ApplyIsOneOperation` | source/gpu_backend_apply.cpp:126-1392 | an apply begins once and starts no reset |
| `ApplyMeaning.HardLockWritesAreCapped` | source/apply_clock_ceiling_policy.h:267-277 | whatever the driver answers, every clock written towards a hard lock is written under an installed cap at or below it |
| `ApplyMeaning.HardLockNeedsClampControl` | source/gpu_backend_apply_ceiling.h:119-140 | without clamp control such an apply is refused, or given up, before any write |
| `ApplyMeaning.FinishedWroteWhatWasDue` | source/gpu_backend_apply.cpp:497-1189 | a finished apply wrote exactly what was due, in that order, and nothing else but correction passes |
| `ApplyMeaning.FinishNeedsEveryYes` | source/gpu_backend_apply.cpp:497-1392 | behind its arming an apply without correction passes finishes only if every answer is yes |
| `ApplyMeaning.ApplyNeedsEveryYes` | source/gpu_backend_apply.cpp:126-1392 | and so does a whole apply whose clamp stands or is not needed |
| `ApplyMeaning.CorrectionSucceedsExactlyWhen` | source/apply_correction_policy.h:345-371 | a missed batch is saved exactly when a pass that was allowed to start verifies |
| `ApplyMeaning.CooperativeDriverFinishes` | source/gpu_backend_apply.cpp:126-1392 | with a driver that says yes an apply finishes, unless no cap could exist for it |
| `ApplyMeaning.CooperativeRollback` | source/main_gpu_rollback.h:36-146 | with such a driver a rollback proves stock and releases the cap |
| `ApplyMeaning.CooperativeReset` | source/main_service_apply_runtime.cpp:279-467 | and so does an explicit reset |
| `ApplyMeaning.CooperativeRecovery` | source/gpu_backend_apply_failure.h:54-77 | and a recovery, once its protection stands or none can be had |
| `ApplyProgram.Gpu.ResetCoreClockControls` | source/clock_reset_policy.h:9-23 | the program resets in that order, and permits release exactly when both domains verified |
| `ApplyProgram.Gpu.Rollback` | source/main_gpu_rollback.h:25-146 | the program releases the cap only with stock proved, and keeps it otherwise |
| `ApplyProgram.Gpu.ResetAll` | source/main_service_apply_runtime.cpp:279-467 | the program's explicit reset does the same, and counts as released when nothing was believed active |
| `ApplyProgram.Guard.constructor` | source/gpu_backend_apply_ceiling.h:69-109 | the plan is drawn from the observed outgoing state |
| `ApplyProgram.Guard.Arm` | source/gpu_backend_apply_ceiling.h:119-210 | the program tries clamps only, the symmetric one only where permitted, and ends protected or must refuse |
| `ApplyProgram.RecoverApply` | source/gpu_backend_apply_failure.h:54-77 | the program re-establishes protection before it resets anything, or stops with the cap as it was |
| `ApplyProgram.WriteOffset` | source/gpu_backend_apply.cpp:509-526 | the program writes a due core offset and fails at once if it does not verify, as `OffsetMustVerify` assumes |
| `ApplyProgram.CorrectCurve` | source/gpu_backend_apply.cpp:896-1040 | the loop of correction passes stops at the first verified write, a refused start or its limit, as `LastPassDecides` assumes |
| `ApplyProgram.WriteCurve` | source/gpu_backend_apply.cpp:693-1158 | a due batch with its correction and the checks behind it, as `BatchMustVerify` assumes |
| `ApplyProgram.WriteBaseline` | source/gpu_backend_reset_baseline.cpp:10-123 | the baseline writes the offset before the curve and stops at a failure, as `BaselineVerifies` assumes |
| `ApplyProgram.WriteClocks` | source/gpu_backend_apply.cpp:497-1189 | the writes come in their order and stop at the first failure, as `ClocksVerify` assumes |
| `ApplyProgram.FinalLockStep` | source/gpu_backend_apply.cpp:1190-1302 | the program ends a hard lock at its pin and any other owner without a transition cap, or changes nothing |
| `ApplyProgram.RunApply` | source/gpu_backend_apply.cpp:126-1392 | the program's calls, cap record and ending are those of the scripted apply, answer by answer |
| `ApplyProgram.ApplyProfile` | source/gpu_backend_apply.cpp:126-1392 | the rules are kept, a finished apply leaves no transition cap and its hard lock pinned, and a refused one has written no clock, or only the verified baseline under a plan that can be armed and asks for no pin |
| `ApplyProgram.Session` | source/apply_clock_ceiling_policy.h:415-484 | the record of any session of applies and resets obeys the rules |
| `Transitions.ApplyVerifiedMeans` | source/gpu_backend_apply.cpp:646-1040 | in an apply the offset counts as verified exactly when every offset write verified, the curve exactly when its last batch did |
| `Transitions.OffsetVerifiedMeans` | source/clock_reset_policy.h:9-23 | a verified core offset in a recovery was reset and verified there, or is not owned separately |
| `Transitions.StockVerifiedMeans` | source/apply_clock_ceiling_policy.h:447-477 | both domains verified in a recovery means the curve was reset after the offset was proved |
| `Transitions.CapOnlyGoesWhenProved` | source/apply_clock_ceiling_policy.h:415-484 | an installed cap goes only by a final step with every offset and the last batch verified, or by a recovery that proved stock |
| `Transitions.VerifiedIsVouched` | source/clock_reset_policy.h:9-23 | a domain counted as verified had its last write verified, if the operation wrote it; a recovery always writes the curve and an owned offset |
| `Transitions.UnprovedCapGoesExactlyWhen` | source/gpu_backend_apply.cpp:1213-1233 | a cap goes over a domain nothing vouches for, unverified or never written, exactly when the operation writes nothing there and no earlier write vouches for it; for the curve that is an apply |
| `Transitions.CurveResetFollowsOffset` | source/clock_reset_policy.h:9-23 | the curve reset never precedes verification of a separately owned offset |
| `Transitions.WritesAreProtected` | source/apply_clock_ceiling_policy.h:267-277 | no clock of an apply is written unprotected under its plan |
| `Witness.ApplyClockWitness.BeginApply` | source/apply_clock_witness.h:151-157 | the record starts anew with this ceiling |
| `Witness.ApplyClockWitness.SetClampState` | source/apply_clock_witness.h:161-165 | ceiling and arming are set and the transition is open again |
| `Witness.ApplyClockWitness.FinishTransition` | source/apply_clock_witness.h:169-171 | later samples no longer count |
| `Witness.ApplyClockWitness.Fold` | source/apply_clock_witness.h:107-128 | counters and peak after one sample |
| `Witness.ApplyClockWitness.EndApply` | source/apply_clock_witness.h:215-246 | the verdict of the record, and an idle witness |
| `Witness.ArmedMeans` | source/apply_clock_witness.h:151-171 | the record is armed exactly when some setting armed it and nothing since ended that |
| `Witness.PeakIsHighestJudgedSample` | source/apply_clock_witness.h:107-128 | for every event sequence the peak is the highest valid sample taken while armed, not at arming, not after finish |
| `Witness.CeilingStays` | source/gpu_backend_apply_ceiling.h:152-188 | while every setting of the clamp carries the first ceiling, that is the ceiling judged, and the last setting decides whether it is armed |
| `Witness.VerdictOfApply` | source/apply_clock_ceiling_policy.h:369-393 | for every apply that keeps to one ceiling, however often it is armed: exceeded exactly when a judged sample passed the ceiling by more than 15 MHz, and likewise for every other verdict |
| `Witness.SamplesAreCounted` | source/apply_clock_witness.h:107-128 | the sample count is the number of samples taken while the transition was open |
| `Witness.OtherPeakIsRecorded` | source/apply_clock_witness.h:107-128 | the other peak is the highest valid sample that is not judged |
| `Controller.AutoProfileController.OnApplyFailed` | source/auto_profile_controller.cpp:46-67 | counter, retry moment and cooldown after a failure |
| `Controller.AutoProfileController.BackoffDelay` | source/auto_profile_controller.cpp:54-61 | the doubling loop computes the capped wait |
| `Controller.AutoProfileController.SyncConfig` | source/auto_profile_controller.cpp:69-75 | configured values, with the defaults for invalid ones |
| `Controller.AutoProfileController.constructor` | source/auto_profile_controller.cpp:77-91 | no pin, no target and no failure, with the configured values |
| `Controller.AutoProfileController.OnTargetResolved` | source/auto_profile_controller.cpp:97-112 | the armed delay is the longer of debounce and remaining backoff |
| `Controller.AutoProfileController.OnDebounceFire` | source/auto_profile_controller.cpp:114-142 | apply only past cooldown and backoff, else re-arm for the rest |
| `Controller.AutoProfileController.OnApplied` | source/auto_profile_controller.cpp:144-150 | a success clears the failure record |
| `Controller.AutoProfileController.OnHotkey` | source/auto_profile_controller.cpp:152-183 | pin, re-pin or release, with the resulting action |
| `Controller.AutoProfileController.EnterManualCustom` | source/auto_profile_controller.cpp:185-190 | manual without a pin |
| `Controller.AutoProfileController.SetEnabled` | source/auto_profile_controller.cpp:192-213 | enabling resumes, disabling reverts to the default slot |
| `Controller.AutoProfileController.ApplyConfigChange` | source/auto_profile_controller.cpp:215-226 | a changed switch acts, any other change only clears failures |
| `Controller.WaitIsCappedDoubling` | source/auto_profile_controller.cpp:54-62 | the wait is min(300000, interval * 2^(k-1)) |
| `Controller.WaitSaturates` | source/auto_profile_controller.cpp:48-61 | counting past 30 failures would not change it |
| `Controller.AppliedExactlyWhenDue` | source/auto_profile_controller.cpp:97-142 | resolve and at most two timely firings end exactly at the due moment |
| `Backoff.KthFailureWaits` | source/auto_profile_controller.cpp:46-67 | the k-th consecutive failure waits exactly the capped doubling, for every k |
| `Backoff.AttemptWaitsOutBackoff` | source/auto_profile_controller.cpp:135-139 | no automatic attempt comes before the last failure's wait is over |
| `Backoff.AttemptsSpanTheWaits` | source/auto_profile_controller.cpp:46-67 | k failing attempts span at least the first k-1 waits |
| `Driver.AutoProfileDriver.StartApply` | source/auto_profile_win32.cpp:104-184 | skipped while in flight, else queued, already applied or refused |
| `Driver.AutoProfileDriver.Attempt` | source/auto_profile_win32.cpp:206-251 | an attempt that was not queued is charged and consumes the deferred pick |
| `Driver.AutoProfileDriver.Execute` | source/auto_profile_win32.cpp:206-251 | dispatch, terminating by the deferred pick and the action's rank |
| `Driver.AutoProfileDriver.Converge` | source/auto_profile_win32.cpp:443-447 | re-resolve and dispatch |
| `Driver.AutoProfileDriver.OnDetect` | source/auto_profile_win32.cpp:301-327 | detection acts only while driving |
| `Driver.AutoProfileDriver.OnTimer` | source/auto_profile_win32.cpp:311-316 | a firing kills the timer, re-resolves and dispatches what the controller answers |
| `Driver.AutoProfileDriver.OnPick` | source/auto_profile_win32.cpp:329-356 | a pick is deferred while in flight, else dispatched |
| `Driver.AutoProfileDriver.OnCompleted` | source/auto_profile_win32.cpp:253-291 | a completion drains the deferred pick or re-resolves |
| `Driver.AutoProfileDriver.OnSuperseded` | source/auto_profile_win32.cpp:293-297 | only the in-flight flag is cleared |
| `Driver.AutoProfileDriver.OnReload` | source/auto_profile_win32.cpp:489-521 | a reload adopts the configuration, acts on a changed switch and otherwise re-resolves |
| `Driver.AutoProfileDriver.OnToggle` | source/auto_profile_win32.cpp:523-542 | the toggle flips the switch through the same transition and dispatches its action |
| `Driver.StepKeepsGood` | source/auto_profile_win32.cpp:206-356 | every event keeps the driver invariant |
| `Driver.EveryRunIsGood` | source/auto_profile_win32.cpp:206-356 | in every run at most one request is in flight, a pin implies enabled manual mode, and no timer attempt is made while pinned |
| `DriverTiming.ExecuteExtends` | source/auto_profile_win32.cpp:206-251 | dispatch never rewrites the history of attempts |
| `DriverTiming.DetectionArms` | source/auto_profile_win32.cpp:301-309 | detection arms the timer no later than due and issues nothing |
| `DriverTiming.DetectedTargetIsAppliedWhenDue` | source/auto_profile_controller.cpp:97-142 | from any reachable state the attempt comes exactly at max(t+debounce, last apply+interval, backoff end), after at most two firings |
| `DriverRate.RunsStayInBudget` | source/auto_profile_controller.cpp:114-150 | in every run the timer attempts of a window fit the time they took, one free for each superseded request |
| `DriverRate.AtMostOneAttemptPerInterval` | source/auto_profile_controller.cpp:114-150 | in every run at most 1 + L/interval timer attempts in any window of length L, plus one per request superseded in it |
| `DriverRate.CloseAttemptsWereSuperseded` | source/auto_profile_win32.cpp:293-297 | two timer attempts less than an interval apart have a superseded request between them |
| `DriverRate.SupersedeEscapesTheCooldown` | source/auto_profile_win32.cpp:293-297 | the extra attempt is real: two attempts 2 ms apart under a 4000 ms interval |
| `DriverPicks.EventWhileInFlight` | source/auto_profile_win32.cpp:206-234 | while a request is in flight nothing is issued; the deferred pick is replaced by a newer one, dropped by a revert, else kept |
| `DriverPicks.PickSurvivesExactlyWhen` | source/auto_profile_win32.cpp:489-542 | a deferred pick survives an event exactly when that does not turn automatic switching off with another slot than the default applied |
| `DriverPicks.RevertDropsThePick` | source/auto_profile_win32.cpp:523-542 | a run in which a toggle drops the pick and nothing is ever issued for it |
| `DriverPicks.LatestPickIsDeferred` | source/auto_profile_win32.cpp:329-356 | whatever happens while in flight, the latest pick not dropped waits and nothing is issued |
| `DriverPicks.PickIssues` | source/auto_profile_win32.cpp:206-251 | a dispatched pick issues exactly its slot, or nothing when it releases its pin; unless queued it also drains a pick left behind |
| `DriverPicks.CompletionExecutesLatestPick` | source/auto_profile_win32.cpp:253-291 | a completion issues exactly the latest deferred pick not dropped, if it differs from the completed slot and does not release its own pin |
| `DriverPicks.IdleStepKeepsUnlessConsumed` | source/auto_profile_win32.cpp:206-251 | in an idle driver a pick left behind stays exactly until an attempt that is not queued |
| `DriverPicks.RunsDeferTheDuePick` | source/auto_profile_win32.cpp:206-356 | in every run the deferred pick is the one waiting behind the request in flight, or failing that one left behind by a superseded request |
| `DriverPicks.WithoutSupersedeAnIdleDriverDefersNothing` | source/auto_profile_win32.cpp:253-297 | in every run without a superseded request only a request in flight has a pick behind it |
| `DriverPicks.LeftBehindMeans` | source/auto_profile_win32.cpp:253-297 | what is left behind is the pick that waited behind a superseded request, exactly as long as no attempt, completion, newer pick or revert settled it |
| `DriverPicks.EveryCompletionExecutesTheDuePick` | source/auto_profile_win32.cpp:253-297 | in every run every completion executes exactly the waiting pick, or failing that the one left behind |
| `DriverPicks.StalePickOverridesNewerPick` | source/auto_profile_win32.cpp:293-297 | after a supersede an older pick can displace a newer one |
| `DriverBackoff.QuietStep` | source/auto_profile_win32.cpp:206-291 | between picks, configuration changes and successes only a failure touches the failure record |
| `DriverBackoff.KthFailureWaits` | source/auto_profile_controller.cpp:46-67 | in every driver run the k-th consecutive failure waits exactly the wait that `WaitIsCappedDoubling` puts in closed form |
| `DriverBackoff.AttemptIsIssued` | source/auto_profile_win32.cpp:206-251 | a timer attempt is exactly what the history records of that firing |
| `DriverBackoff.AttemptWaitsOutBackoff` | source/auto_profile_controller.cpp:135-139 | in every driver run no timer attempt comes before the last failure plus its wait |
| `DriverBackoff.AttemptsSpanTheWaits` | source/auto_profile_controller.cpp:46-67 | in every driver run k timer attempts of a failing slot span at least the first k-1 waits |
| `DriverMeaning.RunsAdoptTheLatestConfig` | source/auto_profile_controller.cpp:69-91 | in every run the controller works with the last configuration loaded, with the built-in values for invalid ones and the switch as last set |
| `DriverMeaning.TurningOffReverts` | source/auto_profile_controller.cpp:192-226 | turning switching off while idle attempts exactly the configured default slot unless it is applied, apart from a pick left behind |
| `DriverMeaning.TurningOffRevertsInRuns` | source/auto_profile_win32.cpp:489-542 | the same at any moment of any run |
| `DriverMeaning.TurningOnArms` | source/auto_profile_controller.cpp:192-226 | turning it on attempts nothing and arms for a wanted target after the configured debounce |
| `DriverMeaning.ReloadRearms` | source/auto_profile_win32.cpp:489-521 | a reload that leaves the switch alone attempts nothing, re-arms while on and stops the timer while off |
| `DriverMeaning.PickPins` | source/auto_profile_controller.cpp:152-183 | a pick pins its slot, or nothing with switching off, and is attempted at once; found in force it is applied, refused it is charged |
| `DriverMeaning.PickAgainReleases` | source/auto_profile_controller.cpp:152-183 | picking the pinned slot again releases it, attempts nothing and resumes switching |
| `DriverMeaning.PendingTargetsAreTimed` | source/auto_profile_controller.cpp:93-142 | in every run a pending target is a slot automatic switching waits for, with the timer running |
| `DriverMeaning.CustomApplyHolds` | source/auto_profile_controller.cpp:185-190 | a custom apply holds switching without a pin |
| `DriverMeaning.NothingWhileHeld` | source/auto_profile_controller.cpp:93-142 | while off, held, suppressed or busy detection changes nothing and the timer attempts nothing |
| `DriverMeaning.DrainedPickKeepsItsOrigin` | source/auto_profile_win32.cpp:275-284 | a deferred pick is attempted with its own origin if that is explicit, else as from the tray |
| `DriverMeaning.CompletionSettles` | source/auto_profile_win32.cpp:253-291 | a success makes the slot the applied one and forgets failures, a failure leaves it; the cooldown starts and a wanted target is armed for |
| `DriverMeaning.FiringAttemptsExactlyWhenDue` | source/auto_profile_win32.cpp:104-184 | a firing attempts a wanted target exactly when cooldown and backoff are over, and the attempt is queued, applied at once or charged |
| `Text.IntRoundTrip` | source/config_text_utils.cpp:59-72 | every printed int parses back to itself |
| `Text.HexRoundTrip` | source/config_utils.cpp:379-399 | every 32-bit value printed as eight hex digits parses back |
| `GpuSelection.PrintedSelectionParsesBack` | source/config_utils.cpp:430-570 | a printed selection parses, and equals the original exactly when a role comes with a location |
| `GpuSelection.SelectionReadsBack` | source/config_utils.cpp:379-428 | every printed field reads back as itself |
| `GpuSelection.DecodedIsSame` | source/config_profiles_machine.cpp:96-110 | the decoded selection compares equal exactly for a well-formed one |
| `TextMeaning.TrimMeans` | source/config_text_utils.cpp:29-47 | trimming leaves what lies between the outermost characters above a blank |
| `TextMeaning.ParseIntMeans` | source/config_text_utils.cpp:59-71 | a text is a number exactly when it is blanks, an optional sign and digits to its end, in the range of an int |
| `TextMeaning.ParseHexMeans` | source/config_utils.cpp:379-399 | a hexadecimal id is one to eight digits and nothing else |
| `TextMeaning.SameIgnoringCaseMeans` | source/config_text_utils.cpp:49-57 | two texts are the same up to case exactly when their lower-case forms are equal |
| `TextMeaning.ReadIntMeans` | source/config_profiles.cpp:98-108 | a key is absent when blank, malformed when it holds anything but one number |
| `TextMeaning.ConfigReadersMean` | source/config_utils.cpp:125-140 | what the plain readers of settings take, and when they fall back |
| `TextMeaning.SameSelectionMeans` | source/config_profiles_machine.cpp:96-110 | two selections are the same exactly when index, model, location and role agree |
| `TextMeaning.SelectionValuesMean` | source/config_utils.cpp:379-428 | which values of a selection are refused, and that a blank number reads as 0 |
| `TextMeaning.ParsesExactlyWhen` | source/config_utils.cpp:430-496 | exactly which sections are taken as a selection |
| `TextMeaning.ParsedFields` | source/config_utils.cpp:445-488 | and which index and ids they give |
| `TextMeaning.ParsedLocation` | source/config_utils.cpp:465-488 | and which location and role |
| `TextMeaning.RoleNames` | source/config_utils.cpp:416-428 | the role names |
| `ProfileCurve.ReadPoint` | source/main_gpu_state.cpp:703-768 | a point is taken exactly when its frequency is positive, its mark readable and it is not hidden; what cannot be read refuses the section and names the key |
| `ProfileCurve.LoadPoints` | source/main_gpu_state.cpp:703-768 | the points read, or the first malformed key |
| `ProfileCurve.RestoreOrigins` | source/profile_curve_origin_io.h:51-75 | a point counts as projected exactly when it is present and flagged |
| `ProfileCurve.RestoreFromBase` | source/config_profile_repair.cpp:45-64 | base values become absolute ones, points at or below zero go |
| `ProfileCurve.CountFlatTail` | source/config_profile_repair.cpp:98-112 | whether the visible tail is flat at the lock, and its size |
| `ProfileCurve.ClearScaffold` | source/config_profile_repair.cpp:150-159 | exactly the visible zero-offset points below the first intent point go |
| `ProfileCurve.Repair` | source/config_profile_repair.cpp:114-183 | the in-place repair computes its staged description |
| `ProfileCurve.CheckMonotone` | source/config_profiles.cpp:295-302 | neighbouring points never fall |
| `ProfileCurve.CheckPreTail` | source/config_profiles.cpp:307-324 | some point below the anchor exceeds a complete lock |
| `ProfileCurve.CollectShown` | source/config_profiles_ui.cpp:500-506 | all shown points, in order |
| `ProfileCurve.FlatAtMeans` | source/config_profiles_ui.cpp:509-529 | flatness over the collected indices is flatness of the curve |
| `ProfileCurve.InferLock` | source/config_profiles_ui.cpp:495-530 | the nested scan finds the least index from which every shown point matches, if one does |
| `ProfileLoad.FilterHidden` | source/vf_point_visibility_policy.h:32-46 | the editor drops exactly the points it cannot show |
| `ProfileLoad.ScanShownTail` | source/config_profiles.cpp:358-377 | whether the shown tail is flat at the lock |
| `ProfileLoad.Finish` | source/config_profiles.cpp:326-397 | inference, legacy strip and editor projections |
| `ProfileLoad.LoadProfile` | source/config_profiles.cpp:34-400 | the record, or the first error in reading order |
| `ProfileMeaning.ControlsReadExactlyWhen` | source/config_profiles.cpp:98-262 | exactly when the controls of a record can be read |
| `ProfileMeaning.OffsetFromKeys` | source/config_profiles.cpp:98-131 | the GPU offset and its exclusion count from their keys |
| `ProfileMeaning.LockFromKeys` | source/config_profiles.cpp:132-185 | the lock unit from its four keys |
| `ProfileMeaning.LimitsFromKeys` | source/config_profiles.cpp:186-212 | memory offset and power limit from their keys |
| `ProfileMeaning.FanFromKeys` | source/config_profiles.cpp:214-261 | the fan from its three keys, with their precedence |
| `ProfileMeaning.FanModeNames` | source/config_profiles.cpp:214-226 | the names of a fan mode |
| `ProfileMeaning.LoadedSettings` | source/config_profiles.cpp:34-400 | the settings that come out are those of the keys |
| `ProfileMeaning.RecordFromSections` | source/config_profiles.cpp:60-85 | which sections a slot reads, and that only slot 1 falls back |
| `ProfileMeaning.PointsWithOrigin` | source/profile_curve_origin_io.h:51-75 | a section with origins stands for exactly the points that can be taken from it |
| `ProfileMeaning.PointsPlusOffset` | source/config_profile_repair.cpp:45-64 | a relative section stands for its values plus the offset, but for the excluded points |
| `ProfileMeaning.UnmarkedPoints` | source/config_profile_repair.cpp:18-44 | an unmarked section is relative exactly when only that puts its lock point on the lock |
| `ProfileMeaning.AbsolutePoints` | source/config_profiles.cpp:262-292 | any other section stands for the points that can be taken from it, as far as the repair keeps them |
| `ProfileMeaning.VisibilityFromKeys` | source/config_profile_repair.cpp:67-89 | which points the repair takes as visible, for the editor and for the comparison |
| `ProfileMeaning.RepairedExactlyWhen` | source/config_profile_repair.cpp:98-125 | exactly which curves are repaired |
| `ProfileMeaning.RepairRemovesExactly` | source/config_profile_repair.cpp:114-183 | exactly which points the repair removes |
| `ProfileMeaning.RefusedExactlyWhen` | source/config_profiles.cpp:98-324 | exactly which records are refused, in which order, naming the first unreadable point |
| `ProfileMeaning.ShapeChecksMean` | source/config_profiles.cpp:294-324 | the two shape checks refuse neighbouring points that fall and points above a complete lock before its anchor |
| `ProfileMeaning.LoadedLock` | source/config_profiles.cpp:326-377 | the lock that comes out: stored, inferred as the first flat shown point, or none |
| `ProfileMeaning.FlatMeans` | source/config_profiles_ui.cpp:495-531 | a flat end is a shown point of nonzero frequency with others behind it that all agree |
| `ProfileMeaning.ShownTailMeans` | source/config_profiles.cpp:357-376 | the tail is shown flat exactly when some of it is shown, all at the lock |
| `ProfileMeaning.LoadedPoints` | source/config_profiles.cpp:338-392 | every prepared point comes out, but for a stripped record and, in the editor over a loaded curve, exactly the points it does not show |
| `ProfileSafety.RepairOnlyRemoves` | source/config_profile_repair.cpp:114-183 | the repair only ever removes points |
| `ProfileSafety.LoadedRecordIsSafe` | source/config_profiles.cpp:276-397 | whatever the file holds, a successful read has settings in range, positive locally rising points, and unless the lock was inferred none below the anchor above it |
| `ProfileSafety.InferenceIsSafeExactlyWhen` | source/config_profiles.cpp:307-336 | in either mode an inferred lock stays above the earlier points under every voltage reading exactly when no earlier point exceeds an equal pair |
| `ProfileSafety.OwnershipReadsAreSafeExactlyWhen` | source/config_profiles.cpp:307-336 | the same of the whole ownership read, over all GPU states with these populated points |
| `ProfileSafety.EditorShowsOnlyVisible` | source/config_profiles.cpp:379-392 | over a loaded curve the editor is left with visible points only |
| `ProfileOwnership.PreparedByMask` | source/config_profiles.cpp:281-324 | up to the shape checks an ownership read sees only the file and the populated points |
| `ProfileOwnership.PairShownIsInferred` | source/config_profiles_ui.cpp:495-530 | with exactly one equal pair shown, that pair is inferred as the lock |
| `ProfileOwnership.UnsettledReadsDiffer` | source/config_profiles.cpp:326-336 | an unsettled lock reads differently under different voltages |
| `ProfileOwnership.OwnershipReadIsDriftFree` | source/config_profiles.cpp:293-392 | the read depends on file and populated points alone exactly when the lock is settled |
| `ProfileOwnership.ExplicitLockIsSettled` | source/config_profiles.cpp:132-157 | explicit lock keys settle it |
| `ProfileOwnership.ReadsAgreeOnAnyCurve` | source/config_profiles.cpp:281-336 | a record whose points need no curve and whose lock is settled on a full one reads the same under every GPU state |
| `ProfileOwnership.ShiftedPoint` | source/config_profile_repair.cpp:45-64 | a point relative to an offset that excludes low points reads differently with and without itself populated |
| `ProfileOwnership.StrippedReads` | source/config_profiles.cpp:338-356 | a stripped record reads as its settings without points and lock, on every curve that lets it be read |
| `ProfileOwnership.ReadUsesOwnSections` | source/config_profiles.cpp:60-85 | the read uses no other slot's sections |
| `ProfileSave.WriteCurve` | source/config_profiles.cpp:584-602 | the curve section, point by point |
| `ProfileSave.CopyOthers` | source/config_profiles.cpp:613-648 | every section but the rewritten ones |
| `ProfileSave.SaveProfile` | source/config_profiles.cpp:418-741 | the whole new file, or the old one when the write fails |
| `ProfileSave.SavedSection` | source/config_profiles.cpp:613-648 | exactly the slot's and the shared sections change |
| `ProfileSave.SaveKeepsOtherSlots` | source/config_profiles.cpp:613-648 | every other slot keeps record, binding and marker |
| `ProfileSave.SaveAndLegacySections` | source/config_profiles.cpp:650-721 | the legacy sections mirror slot 1 and nothing else |
| `ProfileSave.PreferenceSurvives` | source/config_profiles.cpp:468-481 | applied, launch and both logon slots survive a save |
| `ProfileSave.SelectionMoves` | source/config_profiles.cpp:523-530 | the saved slot becomes the selected one |
| `ProfileRoundTrip.SettingsReadBack` | source/config_profiles.cpp:539-582 | every scalar of a storable record reads back |
| `ProfileRoundTrip.CurveTextAt` | source/config_profile_curve_format.cpp:34-66 | which keys a point writes and what they hold |
| `ProfileRoundTrip.CurveReadsBack` | source/main_gpu_state.cpp:703-768 | the points read back with their provenance, minus those written hidden |
| `ProfileRoundTrip.SavedRecordReadsBack` | source/config_profiles.cpp:418-741 | a saved request reads back as itself, filled from the running state where it owned nothing, under any later GPU state |
| `ProfileRoundTrip.SavedEditorReadsBack` | source/config_profiles.cpp:326-397 | read back in the editor a saved request keeps its survivors, over a loaded curve exactly those it shows, each with frequency and origin |
| `ProfileRoundTrip.SavedSettingsMean` | source/config_profiles.cpp:539-582 | owned settings are stored as requested, the rest as they run |
| `ProfileRoundTrip.StoredFields` | source/config_profile_curve_format.cpp:34-66 | voltage, offset and visibility of a written point, and the GPU offset next to the curve |
| `ProfileRoundTrip.SharedSectionsAfterASave` | source/config_profiles.cpp:474-724 | the startup section keeps the logon start and says whether a logon slot is chosen |
| `ProfileRoundTrip.FullRecordRoundTrip` | source/config_profiles.cpp:34-400 | the round trip is exact if and only if nothing was hidden at the save and no unused fan percentage was carried |
| `ProfileExamples.HiddenPointIsLost` | source/config_profile_curve_format.cpp:55-66 | a requested point below 700 mV is lost |
| `ProfileExamples.UnlockedReadDrifts` | source/config_profiles.cpp:326-336 | two equal points without lock keys make the ownership read drift |
| `ProfileExamples.LeftoverCurveChangesTheVerdict` | source/config_profile_sync_cache.cpp:82-87 | two GPU states without a loaded curve share a key and differ in verdict |
| `ProfileExamples.InferredLockEscapesThePreTailCheck` | source/config_profiles.cpp:307-336 | three stored points from which a lock below the first is inferred |
| `IndicatorSync.PopulatedMask` | source/config_profile_sync_cache.cpp:82-87 | the mask loop computes the populated points of a loaded curve |
| `IndicatorSync.CurrentKey` | source/config_profile_sync_cache.cpp:66-90 | the cache key of the current inputs |
| `IndicatorSync.Judge` | source/config_profiles_ui.cpp:598-624 | the verdict, recomputed from scratch |
| `IndicatorSync.MatchesExactlyWhen` | source/desired_settings_helpers.cpp:51-213 | a profile matches what is in force exactly when they agree in owned settings, lock, fan and points |
| `IndicatorSync.TickedExactlyWhen` | source/config_profiles_ui.cpp:598-624 | a slot is ticked exactly when the service vouches for an intent from it and it still loads as that intent |
| `IndicatorSync.VerdictByKey` | source/config_profile_sync_cache.cpp:44-60 | equal keys give equal verdicts where the key decides |
| `IndicatorSync.KeyDecidesExactlyWhenSettled` | source/config_profile_sync_cache.cpp:8-60 | while a curve is loaded the key decides the verdict exactly when the lock is settled |
| `IndicatorSync.EmptyKeyDecidesExactlyWhenSettled` | source/config_profile_sync_cache.cpp:82-87 | while none is, it decides the verdict of a record that needs no curve exactly when the lock is settled on a full one |
| `IndicatorSync.EmptyKeyAndRelativeRecords` | source/config_profile_sync_cache.cpp:82-87 | and of any other record exactly when no curve makes it readable, or every curve does and it is stripped |
| `IndicatorSync.DriftChangesTheVerdict` | source/config_profiles_ui.cpp:587-624 | otherwise two GPU states with one key have different verdicts |
| `IndicatorSync.AppliedKeepsRecords` | source/config_utils.cpp:142-165 | persisting the verdict does not disturb what it is computed from |
| `IndicatorSync.WrittenVerdictIsSound` | source/config_profiles_ui.cpp:641-662 | after the write the persisted slot is the verdict under the new stamp |
| `IndicatorSync.Indicator.Sync` | source/config_profiles_ui.cpp:587-663 | unless the write fails, the persisted slot is the verdict of a state with the current key, of the current state itself when recomputed or when the key decides; a hit changes nothing |
| `IndicatorSync.Indicator.FileReplaced` | source/config_profile_sync_cache.cpp:32-42 | a foreign write keeps the cache sound |
| `Publication.UnmarkedSlotIsNeverOffered` | source/config_profiles_machine.cpp:53-94 | the legacy state is unreachable and an unmarked slot is unavailable |
| `Publication.ReplacedImage` | source/config_profiles_machine.cpp:19-44 | replacing a slot's sections leaves at most a marker and every other slot as it was |
| `Publication.MarkerReadsBack` | source/config_profiles_machine.cpp:53-69 | the two markers read back as their states |
| `Publication.OwnSlotSuffices` | source/config_profiles_machine.cpp:19-44 | a write to one slot keeps the bank consistent as soon as that slot is |
| `Publication.OfferedOnceCommitted` | source/config_profiles_machine.cpp:71-94 | a staged and committed edition is offered, and is that edition |
| `Publication.ParsedSelectionIsPrintable` | source/config_utils.cpp:430-570 | a selection read from a file can always be printed and reads back equal |
| `Publication.JobMeans` | source/config_profiles_machine.cpp:155-200 | when nothing can be published, and what is published otherwise |
| `Publication.BoundToTheSelectedGpu` | source/config_profiles_machine.cpp:230-254 | a slot that holds a publication is bound to the GPU its source selects |
| `Publication.OfferedExactlyWhen` | source/config_profiles_machine.cpp:53-94 | a slot is offered exactly when it holds a record, a committed marker and a selection |
| `Publication.Bank.Write` | source/main_secure_write.cpp:502-520 | an atomic write takes effect or not, and a crash may follow either |
| `Publication.Bank.Begin` | source/config_profiles_machine.cpp:203-212 | the slot is withdrawn behind a durable marker |
| `Publication.Bank.StageRecord` | source/config_profiles_machine.cpp:228-229 | settings are written behind the marker |
| `Publication.Bank.StageBinding` | source/config_profiles_machine.cpp:230-254 | the binding is written behind the marker; a printable one always reads back equal |
| `Publication.Bank.CommitEdition` | source/config_profiles_machine.cpp:255-276 | the commit offers exactly the staged edition |
| `Publication.Bank.Remove` | source/config_profiles_machine.cpp:277-288 | a removed slot is unavailable |
| `Publication.Bank.PublishSlot` | source/config_profiles_machine.cpp:155-295 | every durable state on the way is consistent and leaves other slots alone; it is not possible exactly for an empty or unreadable slot or without a selected GPU; on success the slot holds the loaded profile bound to that GPU; a failed one leaves the slot unavailable or the file untouched |
| `Publication.Bank.ClearSlot` | source/config_profiles_machine.cpp:297-329 | a cleared slot is unavailable, others untouched |
| `PublishedProfile.OfferedProfileReadsBack` | source/config_profiles_machine.cpp:155-295 | in every consistent state an offered slot reads back as the profile its latest publication stored, under any GPU state |
| `PublishedProfile.OfferedProfileIsBound` | source/config_profiles_machine.cpp:230-254 | and is bound to the GPU selected in the file it was published from |
| `PublishedProfile.NothingIsHidden` | source/vf_point_visibility_policy.h:32-46 | published over a loaded curve no point is written hidden |
| `PublishedProfile.PublishedProfileIsExact` | source/config_profiles_machine.cpp:155-295 | such a profile that owns every setting comes back exactly, if and only if it carries no unused fan percentage |
| `PublishedProfile.LoadedIsStorableExactlyWhen` | source/config_profiles.cpp:418-741 | exactly when a loaded profile lies in the ranges a stored one must |
| `Logon.EntryHasKey` | source/config_utils.cpp:191-202 | the line's key, trimmed of blanks and tabs, matches up to case |
| `Logon.HasKeyMeans` | source/config_utils.cpp:191-202 | a line has a key exactly when the text before its first equals sign is the key between blanks and tabs |
| `Logon.OthersMean` | source/config_utils.cpp:258-264 | the kept lines are exactly those with neither logon key, in order |
| `Logon.ValueOfMeans` | source/config_utils.cpp:290-302 | a value is the rest of the first line with its key |
| `Logon.CountKeyMeans` | source/config_utils.cpp:257-268 | the count of a key is the number of its lines |
| `Logon.Buffer.Append` | source/config_utils.cpp:247-255 | text is appended exactly when it fits with its terminator |
| `Logon.AppendOthers` | source/config_utils.cpp:258-264 | all other lines in order; none is refused when there is room for them |
| `Logon.BuildSection` | source/config_utils.cpp:237-268 | a buffer of 2*length+256 is never too small |
| `Logon.OutputReadsBack` | source/config_utils.cpp:257-268 | the committed text splits back into the kept lines and the two new ones |
| `Logon.UpdateKeepsOtherLines` | source/config_utils.cpp:257-268 | every other line is kept in order, each logon key occurs exactly once |
| `Logon.UpdateReadsBack` | source/config_utils.cpp:290-302 | the two values read back as chosen |
| `Logon.UpdateSelection` | source/config_utils.cpp:204-310 | it succeeds exactly for a valid selection, a section below the limit and a successful commit, and the readback then never fails |

## Left out

- Driver calls, NVML and NVAPI, timers, windows, mutexes and logging: nondeterministic results, parameters or atomic steps.
- Message texts, per-point correction reports and the boost tally of source/apply_correction_policy.h:386-440: diagnostics that decide nothing.
- XBAR, SYS and VIDEO clock keys and the body of the fan-curve section: repetitive fields, the latter an opaque text here; neither their read errors nor their comparison appear.
- Section and key names as text: the file is a map of sections to keys, so name matching and the order of sections are not modelled, and a section is copied whole although the program cuts values at 4095 characters.
- Buffer, memory and lock failures of a save: one `writes` result stands for all of them.
- The text-level section rewriter in source/main_secure_write.cpp:319-480: an atomic replacement of whole sections.
- Utilisation, power and temperature statistics of the clock witness: they do not enter the verdict.
- The memory, power, fan and advanced-clock steps of an apply, a reset and a rollback: they touch no clock cap; their failure sends an apply into recovery at any point behind its writes.
- `ApplyProgram.WriteClocks`: each write has an arbitrary verification result, and the correction passes may end at any time; which offsets they carry and when the passes end is the subject of `Correction`.
- Several clock readings within one auto-profile handler: each handler sees one moment.
- The starting of the auto-profile hooks and hotkey registration: window-system calls.
- `DriverRate.AtMostOneAttemptPerInterval`: `interval` is any lower bound of the intervals configured in the run.
- `IndicatorSync.Indicator.Sync`: assumes that equal stamps mean equal contents.
- Readers outside the storage lock: a reader decides on one durable state.
- `ProfileRoundTrip.SavedRecordReadsBack`: for records within the ranges the program accepts on load; outside them a load clamps or refuses.
- The ordinal of a populated point is computed from the curve, where the program keeps it in an array it refreshes with the curve.
- Clearing a personal slot, sharing policy, the tray and the editor: small decisions and window controls.
