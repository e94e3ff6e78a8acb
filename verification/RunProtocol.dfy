/** What every interleaving of a run keeps. */
module RunProtocol {
  import opened Outcomes
  import opened RunModel

  // ---- Vocabulary --------------------------------------------------------------------

  function Rank(phase: Phase): nat {
    match phase
    case Preloading => 0
    case Closing => 1
    case Capturing => 2
    case Draining => 3
    case Exporting => 4
    case Ready | Measuring | Disposing | Verifying | Completed | Retained | Failed => 5
  }

  /** Producers start in lifecycle order, and only probes and exports may start more than once. */
  predicate Ordered(starts: seq<Phase>) {
    && (forall i :: 0 <= i < |starts| ==> Rank(starts[i]) <= 4)
    && (forall i, j :: 0 <= i < j < |starts| ==>
          Rank(starts[i]) <= Rank(starts[j]) && (starts[i] == starts[j] ==> starts[i] in {Preloading, Exporting}))
  }

  const FULL_LIFECYCLE: seq<Observation> := [
    Pass(Preloading), Pass(Ready), Pass(Measuring), Pass(Closing), Pass(Capturing), Pass(Draining),
    Pass(Exporting), Pass(Disposing), Pass(Verifying), Pass(Completed)]

  const PRODUCERS := [Closing, Capturing, Draining, Exporting]

  /** The last k producers started are the first k of the lifecycle. */
  predicate EndsWith(starts: seq<Phase>, k: nat)
    requires k <= 4
  {
    |starts| >= k && starts[|starts| - k..] == PRODUCERS[..k]
  }

  predicate Precedes(a: Logs, b: Logs) {
    a.phases <= b.phases && a.evidence <= b.evidence && a.errors <= b.errors
  }

  predicate IsRetained(report: Report) {
    report.logs.phases != [] && report.logs.phases[|report.logs.phases| - 1].phase == Retained
  }

  predicate IsErrorFree(outcomes: seq<Outcome>) {
    forall o :: o in outcomes ==> o.cleanupError.None?
  }

  /** The lifecycle ran in full on first attempt: every phase passed, and every resource is released without an error. */
  predicate Exemplary(report: Report, starts: seq<Phase>) {
    && report.logs.errors == [] && report.logs.phases == FULL_LIFECYCLE
    && CleanupPassed(report.outcomes) && IsErrorFree(report.outcomes) && EndsWith(starts, 4)
  }

  // ---- The invariant ---------------------------------------------------------------------

  /** Where the run is suspended, what it shows, and how far its completion has come. */
  predicate FlowHolds(await: Await, phase: Phase, finished: bool, stages: seq<bool>, next: nat, admitted: bool, errors: seq<Diagnostic>) {
    match await
    case Starting | Probing => phase == Preloading && !finished && stages == [] && next == 0 && !admitted
    case AtStage => finished && |stages| == 3 && 1 <= next <= 3 && phase == StagePhase(next - 1) && !admitted
    case AtExport => finished && |stages| == 3 && next == 3 && phase == Exporting && !admitted
    case AtDisposal => finished && next == 3 && phase == Disposing && admitted
    case AtVerification(_, _) => finished && next == 3 && phase == Verifying && admitted
    case AtLogStop(_, _) => finished && next == 3 && phase == Verifying && admitted
    case Idle =>
      if phase in {Ready, Measuring} then !finished && stages == [] && next == 0 && !admitted
      else if phase == Retained then finished && |stages| == 3 && next <= 3 && !admitted && errors != []
      else phase in {Completed, Failed} && finished && next == 3 && admitted
  }

  predicate FlowIsSound(r: Run) {
    FlowHolds(r.await, r.phase, r.finished, r.stages, r.next, r.admitted, r.logs.errors)
  }

  predicate Awaits(r: Run) {
    r.await in {Probing, AtStage, AtExport}
  }

  /** A live producer is awaited, or was interrupted and the run is retained. */
  predicate ProducerIsSound(r: Run) {
    && (Awaits(r) && r.race == Open ==> r.producer.Some?)
    && (r.producer.Some? ==>
          && (if r.producer.value.interrupted then r.race.Threw? else r.race == Open && Awaits(r))
          && (Awaits(r) || r.phase == Retained)
          && (r.await == AtStage ==> r.producer.value.phase == r.phase))
  }

  predicate StartsAreSound(r: Run) {
    && Ordered(r.history.starts)
    && (forall p :: p in r.history.starts ==> Rank(p) <= r.next || (p == Exporting && r.next == 3 && r.finished))
  }

  /** Without an error, the run is exactly where the lifecycle has it. */
  predicate OnTrack(await: Await, phase: Phase, next: nat, logs: Logs, starts: seq<Phase>) {
    logs.errors == [] ==>
      match await
      case Starting | Probing => logs.phases == []
      case AtStage => 1 <= next <= 3 && logs.phases == FULL_LIFECYCLE[..next + 2] && EndsWith(starts, next)
      case AtExport => logs.phases == FULL_LIFECYCLE[..6] && EndsWith(starts, 4)
      case AtDisposal => logs.phases == FULL_LIFECYCLE[..7] && EndsWith(starts, 4)
      case AtVerification(disposed, _) => disposed && logs.phases == FULL_LIFECYCLE[..8] && EndsWith(starts, 4)
      case AtLogStop(_, outcomes) =>
        outcomes != [] ==> CleanupPassed(outcomes) && logs.phases == FULL_LIFECYCLE[..9] && EndsWith(starts, 4)
      case Idle =>
        && (phase == Ready ==> logs.phases == FULL_LIFECYCLE[..2])
        && (phase == Measuring ==> logs.phases == FULL_LIFECYCLE[..3])
  }

  predicate CleanIsOnTrack(r: Run) {
    OnTrack(r.await, r.phase, r.next, r.logs, r.history.starts)
  }

  /**
   A cleanup that threw is known: by an error, by a captured message that will
   become one, or by the disposal that is bound to reject.
   */
  predicate FailuresSurface(
      await: Await, phase: Phase, resources: seq<Resource>, errors: seq<Diagnostic>, captured: seq<string>, rejects: bool)
  {
    && (errors == [] && captured == [] ==>
          && (rejects ==> await == AtDisposal)
          && (rejects || phase in {Completed, Failed} || forall x :: x in resources ==> x.cleanupError.None?)
          && (await.AtVerification? ==> forall o :: o in await.observed && o.Some? ==> o.value.cleanupError.None?))
    && (errors == [] && await.AtLogStop? ==> IsErrorFree(await.outcomes))
  }

  predicate AdmissionIsSound(r: Run) {
    && FailuresSurface(r.await, r.phase, r.resources, r.logs.errors, r.captured, r.rejects) && |r.captured| <= CAPTURED_LIMIT
    && (r.admitted ==> r.producer.None? && Pass(Exporting) in r.logs.phases && r.logs.evidence != [])
    && (r.race.Won? && r.race.refs != [] ==> r.logs.evidence != [])
    && (!r.admitted ==> r.history.cleanups == [] && forall x :: x in r.resources ==> !x.attempted)
    && (r.await.AtVerification? && r.await.disposed ==> Pass(Disposing) in r.logs.phases)
    && (r.await.AtLogStop? && r.await.disposed ==> Pass(Disposing) in r.logs.phases)
  }

  predicate ReportsAreSound(r: Run) {
    && (forall i :: 0 <= i < |r.history.reports| ==> Precedes(r.history.reports[i].logs, r.logs))
    && (forall i, j :: 0 <= i < j < |r.history.reports| ==> Precedes(r.history.reports[i].logs, r.history.reports[j].logs))
    && (forall i :: 0 <= i < |r.history.reports| && IsRetained(r.history.reports[i]) ==>
          r.history.reports[i].status == IncompleteStatus && r.history.reports[i].logs.errors != [])
    && (forall i :: 0 <= i < |r.history.reports| && !IsRetained(r.history.reports[i]) ==> i == |r.history.reports| - 1 && Terminal(r))
    && (forall i :: 0 <= i < |r.history.reports| && r.history.reports[i].status == PassedStatus ==> Exemplary(r.history.reports[i], r.history.starts))
  }

  predicate ReleaseIsSound(r: Run) {
    && r.history.releases <= 1
    && (r.history.releases == 1 ==>
          && Terminal(r) && Pass(Disposing) in r.logs.phases && r.history.reports != []
          && r.history.reports[|r.history.reports| - 1].outcomes != [] && AllReleased(r.history.reports[|r.history.reports| - 1].outcomes))
  }

  predicate Invariant(r: Run) {
    && FlowIsSound(r) && ProducerIsSound(r) && StartsAreSound(r) && CleanIsOnTrack(r)
    && AdmissionIsSound(r) && ReportsAreSound(r) && ReleaseIsSound(r)
  }

  /** What one step may do to the histories. */
  predicate Progresses(r: Run, t: Run) {
    && Precedes(r.logs, t.logs) && r.history.reports <= t.history.reports && r.history.starts <= t.history.starts && r.history.cleanups <= t.history.cleanups
    && r.history.releases <= t.history.releases
    && (r.admitted ==> t.admitted && t.history.starts == r.history.starts)
    && (t.history.cleanups != r.history.cleanups ==> t.admitted)
    && (t.history.starts != r.history.starts ==> !r.admitted)
  }

  lemma ProgressComposes(r: Run, t: Run, v: Run)
    requires Progresses(r, t) && Progresses(t, v)
    ensures Progresses(r, v)
  {
  }

  // ---- Reports and starts --------------------------------------------------------------

  lemma ReportsFollow(r: Run, t: Run)
    requires ReportsAreSound(r) && t.history.reports == r.history.reports && Precedes(r.logs, t.logs)
    requires Terminal(r) ==> Terminal(t) && t.history.starts == r.history.starts
    ensures ReportsAreSound(t)
  {
    hide Exemplary;
  }

  lemma ReportAdded(r: Run, t: Run, report: Report)
    requires ReportsAreSound(r) && !Terminal(r) && t.history.reports == r.history.reports + [report]
    requires Precedes(r.logs, t.logs) && report.logs == t.logs
    requires if IsRetained(report) then report.status == IncompleteStatus && t.logs.errors != [] else Terminal(t)
    requires report.status == PassedStatus ==> Exemplary(report, t.history.starts)
    ensures ReportsAreSound(t)
  {
    hide Exemplary, IsRetained;
  }

  lemma StartAdded(starts: seq<Phase>, phase: Phase)
    requires Ordered(starts) && Rank(phase) <= 4
    requires forall p :: p in starts ==> Rank(p) < Rank(phase) || (p == phase && phase in {Preloading, Exporting})
    ensures Ordered(starts + [phase])
  {
    var later := starts + [phase];
    forall i, j | 0 <= i < j < |later|
      ensures Rank(later[i]) <= Rank(later[j]) && (later[i] == later[j] ==> later[i] in {Preloading, Exporting})
    {
      if j == |starts| {
        assert later[i] in starts;
      }
    }
  }

  lemma EndExtended(starts: seq<Phase>, k: nat, phase: Phase)
    requires k < 4 && EndsWith(starts, k) && phase == PRODUCERS[k]
    ensures EndsWith(starts + [phase], k + 1)
  {
    assert PRODUCERS[..k + 1] == PRODUCERS[..k] + [phase];
    assert (starts + [phase])[|starts| + 1 - (k + 1)..] == starts[|starts| - k..] + [phase];
  }

  // ---- Resuming ------------------------------------------------------------------------

  /** A resume between two stages: nothing is live, and every earlier stage has been entered. */
  predicate MidResume(r: Run) {
    && r.finished && |r.stages| == 3 && r.next <= 3 && !r.admitted && r.producer.None? && !Terminal(r) && r.history.releases == 0
    && r.await in {Idle, AtStage} && StartsAreSound(r) && AdmissionIsSound(r) && ReportsAreSound(r)
    && (r.logs.errors == [] ==> r.logs.phases == FULL_LIFECYCLE[..r.next + 3] && EndsWith(r.history.starts, r.next))
  }

  lemma RetainKeeps(r: Run, cause: Diagnostic)
    requires r.finished && |r.stages| == 3 && r.next <= 3 && !r.admitted && r.logs.errors != [] && !Terminal(r) && r.history.releases == 0
    requires r.producer.Some? ==> r.producer.value.interrupted && r.race.Threw?
    requires StartsAreSound(r) && AdmissionIsSound(r) && ReportsAreSound(r)
    ensures var t := Retain(r, cause); Invariant(t) && Progresses(r, t) && t.history.starts == r.history.starts && t.history.cleanups == r.history.cleanups
  {
    var t := Retain(r, cause);
    ReportAdded(r, t, t.history.reports[|r.history.reports|]);
    hide ReportsAreSound, Ordered;
  }

  lemma BeginExportKeeps(r: Run)
    requires MidResume(r) && r.next == 3
    ensures var t := BeginExport(r);
            Invariant(t) && Progresses(r, t) && t.history.cleanups == r.history.cleanups && t.history.starts in {r.history.starts, r.history.starts + [Exporting]}
  {
    var t := BeginExport(r);
    if r.exports {
      hide Exemplary;
      ReportsFollow(r, t);
      hide ReportsAreSound;
      StartAdded(r.history.starts, Exporting);
      if r.logs.errors == [] {
        EndExtended(r.history.starts, 3, Exporting);
      }
    } else {
      var failed := r.(phase := Exporting, logs := Faulted(r.logs, Exporting, ExportMissing));
      ReportsFollow(r, failed);
      hide ReportsAreSound, EndsWith, Retain;
      RetainKeeps(failed, Deferred(Exporting));
    }
  }

  lemma EnterStageKeeps(r: Run)
    requires MidResume(r) && r.next < 3
    ensures var t := EnteredStage(r);
            && Invariant(t) && Progresses(r, t) && t.history.cleanups == r.history.cleanups
            && t.history.starts == r.history.starts + [StagePhase(r.next)]
  {
    hide Ordered, Exemplary;
    var phase, t := StagePhase(r.next), EnteredStage(r);
    ReportsFollow(r, t);
    hide ReportsAreSound;
    StartAdded(r.history.starts, phase);
    if r.logs.errors == [] {
      EndExtended(r.history.starts, r.next, phase);
      hide EndsWith;
      assert FULL_LIFECYCLE[..t.next + 2] == r.logs.phases;
    }
  }

  lemma SkipStageKeeps(r: Run)
    requires MidResume(r) && r.next < 3
    ensures var t := SkippedStage(r); MidResume(t) && Progresses(r, t)
  {
    hide Ordered, Exemplary, EndsWith;
    ReportsFollow(r, SkippedStage(r));
    hide ReportsAreSound;
  }

  /** A resume starts at most one producer before it is suspended, and ends up in a sound state. */
  lemma {:induction false} RunStagesKeeps(r: Run)
    requires MidResume(r)
    ensures var t := RunStages(r);
            && Invariant(t) && Progresses(r, t) && t.history.cleanups == r.history.cleanups
            && StartsAlone(r, t)
    decreases |r.stages| - r.next
  {
    assert r.next <= 3 && |r.stages| == 3;
    hide MidResume, Invariant, Progresses, BeginExport, EnteredStage;
    if r.next == 3 {
      BeginExportKeeps(r);
    } else if r.stages[r.next] {
      EnterStageKeeps(r);
    } else {
      SkipStageKeeps(r);
      var skipped := SkippedStage(r);
      RunStagesKeeps(skipped);
      ProgressComposes(r, skipped, RunStages(skipped));
    }
  }

  // ---- Each event ------------------------------------------------------------------------

  /** A step starts at most one producer, and only when none is live. */
  predicate StartsAlone(r: Run, t: Run) {
    t.history.starts == r.history.starts || (r.producer.None? && |t.history.starts| == |r.history.starts| + 1)
  }

  /** Cleanup is called only after admission and with nothing live. */
  predicate CleansAlone(r: Run, t: Run) {
    t.history.cleanups == r.history.cleanups || (r.admitted && r.producer.None?)
  }

  predicate Sound(r: Run, t: Run) {
    Invariant(t) && Progresses(r, t) && StartsAlone(r, t) && CleansAlone(r, t)
  }

  lemma ResumeKeeps(r: Run)
    requires MidResume(r.(producer := None))
    requires r.producer.Some? ==> r.logs.errors != [] && r.producer.value.interrupted && r.race.Threw?
    ensures var t := Resume(r);
            Sound(r, t) && t.history.cleanups == r.history.cleanups
  {
    hide Ordered, Exemplary, EndsWith;
    if r.producer.Some? {
      ReportsFollow(r.(producer := None), r);
      hide ReportsAreSound;
      RetainKeeps(r, Deferred(r.producer.value.phase));
    } else {
      assert r.(producer := None) == r;
      hide MidResume, Invariant, Progresses, RunStages;
      RunStagesKeeps(r);
    }
  }

  /** A run that has not been finished enters completion with all three stages ahead. */
  lemma FinishKeeps(r: Run, stages: seq<bool>, exports: bool)
    requires |stages| == 3 && !r.finished && r.await == Idle && !Terminal(r) && r.next == 0 && !r.admitted && r.history.releases == 0
    requires r.producer.Some? ==> r.logs.errors != [] && r.producer.value.interrupted && r.race.Threw?
    requires StartsAreSound(r) && AdmissionIsSound(r) && ReportsAreSound(r)
    requires r.logs.errors == [] && r.phase == Measuring ==> r.logs.phases == FULL_LIFECYCLE[..3]
    ensures var t := Finish(r, stages, exports);
            Sound(r, t) && t.history.cleanups == r.history.cleanups
  {
    hide Ordered, Exemplary;
    var logs := if r.phase != Measuring then r.logs.(errors := r.logs.errors + [NotMeasured]) else r.logs;
    var entered := r.(finished := true, stages := stages, exports := exports, logs := logs);
    ReportsFollow(r, entered.(producer := None));
    assert EndsWith(r.history.starts, 0);
    hide ReportsAreSound, EndsWith;
    ResumeKeeps(entered);
    hide Invariant, Resume;
    ProgressComposes(r, entered, Resume(entered));
  }

  lemma FinishesKeeps(r: Run, stages: seq<bool>, exports: bool)
    requires Invariant(r) && |stages| == 3 && !r.await.Starting? && !r.await.Probing?
    ensures Sound(r, Finish(r, stages, exports))
  {
    hide Ordered, Exemplary, EndsWith, ReportsAreSound;
    if r.finished {
      SameIsSound(r);
    } else {
      hide Finish;
      FinishKeeps(r, stages, exports);
    }
  }

  lemma RetryExportKeeps(r: Run, exports: bool)
    requires Invariant(r)
    ensures var t := RetryExport(r, exports);
            Sound(r, t) && t.history.cleanups == r.history.cleanups
  {
    hide Ordered, Exemplary, EndsWith;
    if r.phase == Retained {
      assert FlowIsSound(r);
      var entered := r.(finished := true, exports := exports);
      assert r.await == Idle && r.logs.errors != [];
      ReportsFollow(r, entered.(producer := None));
      hide ReportsAreSound;
      assert MidResume(entered.(producer := None));
      ResumeKeeps(entered);
      hide Invariant, Resume, MidResume;
      ProgressComposes(r, entered, Resume(entered));
    }
  }

  lemma StartFailsKeeps(r: Run, cause: Diagnostic)
    requires Invariant(r) && (r.await == Starting || (r.await == Probing && r.race.Threw?) || (r.await == Probing && r.producer.None?))
    ensures var t := StartFails(r, cause);
            Sound(r, t) && t.history.cleanups == r.history.cleanups
  {
    hide Ordered, Exemplary, EndsWith;
    var failed := r.(await := Idle, logs := Faulted(r.logs, Preloading, cause));
    ReportsFollow(r, failed);
    hide ReportsAreSound;
    assert failed.producer.Some? ==> failed.producer.value.interrupted;
    FinishKeeps(failed, [false, false, false], false);
    hide Invariant, Finish;
    ProgressComposes(r, failed, Finish(failed, [false, false, false], false));
  }

  lemma ProbeReturnsKeeps(r: Run, ready: bool)
    requires Invariant(r)
    ensures var t := ProbeReturns(r, ready);
            Sound(r, t) && t.history.cleanups == r.history.cleanups
  {
    hide Ordered, Exemplary, EndsWith;
    var t := ProbeReturns(r, ready);
    if r.await == Probing && r.race != Open {
      if r.race.Threw? {
        StartFailsKeeps(r, r.race.cause);
      } else if !ready || r.race.refs == [] {
        assert r.producer.None?;
        StartFailsKeeps(r, NotReady);
      } else {
        ReportsFollow(r, t);
        hide ReportsAreSound;
      }
    }
  }

  lemma StagePassesKeeps(r: Run)
    requires Invariant(r) && r.await == AtStage && r.race.Won?
    ensures var noted := r.(logs := Noted(r.logs, r.phase, true, None)); MidResume(noted) && Progresses(r, noted)
  {
    hide Ordered, Exemplary, EndsWith;
    var noted := r.(logs := Noted(r.logs, r.phase, true, None));
    ReportsFollow(r, noted);
    hide ReportsAreSound;
    assert r.logs.errors == [] ==> noted.logs.phases == FULL_LIFECYCLE[..r.next + 3];
  }

  lemma StageFailsKeeps(r: Run)
    requires Invariant(r) && r.await == AtStage && r.race.Threw?
    ensures var noted := r.(logs := Faulted(r.logs, r.phase, r.race.cause));
            && MidResume(noted.(producer := None)) && Progresses(r, noted)
            && (r.producer.Some? ==>
                  noted.logs.errors != [] && r.producer.value.interrupted && r.producer.value.phase == r.phase)
  {
    hide Ordered, Exemplary, EndsWith;
    var noted := r.(logs := Faulted(r.logs, r.phase, r.race.cause));
    ReportsFollow(r, noted.(producer := None));
    hide ReportsAreSound;
  }

  lemma StageReturnsKeeps(r: Run)
    requires Invariant(r)
    ensures var t := StageReturns(r); Sound(r, t) && t.history.cleanups == r.history.cleanups
  {
    hide MidResume, Invariant, RunStages, Progresses, Retain;
    SameIsSound(r);
    if r.await == AtStage && r.race.Won? {
      StagePassesKeeps(r);
      var noted := r.(logs := Noted(r.logs, r.phase, true, None));
      RunStagesKeeps(noted);
      ProgressComposes(r, noted, RunStages(noted));
    } else if r.await == AtStage && r.race.Threw? {
      StageFailsKeeps(r);
      var noted := r.(logs := Faulted(r.logs, r.phase, r.race.cause));
      ResumeKeeps(noted);
      StageResumes(r, noted);
      ProgressComposes(r, noted, Resume(noted));
    }
  }

  /** After a failed stage the run goes on, or is retained, just as a resume would have it. */
  lemma StageResumes(r: Run, noted: Run)
    requires r.await == AtStage && r.race.Threw? && noted == r.(logs := Faulted(r.logs, r.phase, r.race.cause))
    requires r.producer.Some? ==> r.producer.value.phase == r.phase
    ensures StageReturns(r) == Resume(noted)
  {
    hide RunStages;
  }

  lemma ExportAdmits(r: Run)
    requires Invariant(r) && r.await == AtExport && r.race.Won? && r.race.refs != []
    ensures var t := ExportReturns(r); Sound(r, t) && t.history.cleanups == r.history.cleanups && t.history.starts == r.history.starts && t.admitted
  {
    hide Ordered, Exemplary, EndsWith;
    ReportsFollow(r, ExportReturns(r));
    hide ReportsAreSound;
  }

  lemma ExportFailsKeeps(r: Run, cause: Diagnostic)
    requires Invariant(r) && r.await == AtExport && r.race != Open
    ensures var t := ExportFails(r, cause); Sound(r, t) && t.history.cleanups == r.history.cleanups && t.history.starts == r.history.starts && !t.admitted && t.phase == Retained
  {
    hide Ordered, Exemplary, EndsWith;
    var failed := r.(logs := Faulted(r.logs, Exporting, cause));
    ReportsFollow(r, failed);
    hide ReportsAreSound;
    RetainKeeps(failed, Deferred(Exporting));
  }

  lemma SameIsSound(r: Run)
    requires Invariant(r)
    ensures Sound(r, r)
  {
    hide Invariant;
  }

  /** The only step that admits cleanup; every other outcome of an export retains the run. */
  lemma ExportReturnsKeeps(r: Run)
    requires Invariant(r)
    ensures var t := ExportReturns(r);
            && Sound(r, t) && t.history.cleanups == r.history.cleanups && t.history.starts == r.history.starts
            && (t.admitted && !r.admitted ==> r.await == AtExport && r.race.Won? && r.race.refs != [])
            && (r.await == AtExport && r.race != Open ==> if r.race.Won? && r.race.refs != [] then t.admitted else !t.admitted && t.phase == Retained)
  {
    hide Invariant, Sound, ExportFails;
    if r.await != AtExport || r.race == Open {
      SameIsSound(r);
    } else if r.race.Won? && r.race.refs != [] {
      ExportAdmits(r);
    } else {
      ExportFailsKeeps(r, if r.race.Threw? then r.race.cause else ExportEmpty);
    }
  }

  // ---- Settlements and deadlines ---------------------------------------------------------

  /** Errors and evidence may grow anywhere; the phases are what tells where the run is. */
  lemma FlowFollows(r: Run, t: Run)
    requires FlowIsSound(r) && CleanIsOnTrack(r) && Precedes(r.logs, t.logs) && t.logs.phases == r.logs.phases
    requires t.await == r.await && t.phase == r.phase && t.finished == r.finished && t.stages == r.stages && t.next == r.next
    requires t.admitted == r.admitted && t.history.starts == r.history.starts
    ensures FlowIsSound(t) && CleanIsOnTrack(t)
  {
    hide EndsWith, CleanupPassed;
  }

  lemma InterruptKeeps(r: Run, cause: Diagnostic)
    requires Invariant(r)
    ensures Sound(r, Interrupt(r, cause))
  {
    hide Ordered, Exemplary, EndsWith, FlowHolds, OnTrack, FailuresSurface;
    if r.producer.None? || r.race != Open {
      SameIsSound(r);
    } else {
      ReportsFollow(r, Interrupt(r, cause));
      hide ReportsAreSound;
    }
  }

  lemma SettleWithRefsKeeps(r: Run, refs: seq<Ref>)
    requires Invariant(r)
    ensures Sound(r, SettleWithRefs(r, refs))
  {
    hide Ordered, Exemplary, EndsWith, FlowHolds, OnTrack, FailuresSurface;
    var t := SettleWithRefs(r, refs);
    ReportsFollow(r, t);
    FlowFollows(r, t);
    hide ReportsAreSound, FlowIsSound, CleanIsOnTrack;
  }

  /** A failure that comes late is reported, unless it is the interruption's own reason. */
  lemma SettleWithErrorKeeps(r: Run, cause: Diagnostic, isReason: bool)
    requires Invariant(r)
    ensures Sound(r, SettleWithError(r, cause, isReason))
    ensures SettleWithError(r, cause, isReason).logs.errors ==
              if r.producer.Some? && r.producer.value.interrupted && !isReason
              then r.logs.errors + [LateSettlement(r.producer.value.phase, cause)] else r.logs.errors
    ensures var t := SettleWithError(r, cause, isReason);
            && t.producer.None? && t.await == r.await && t.phase == r.phase && t.next == r.next && t.admitted == r.admitted
            && t.history == r.history && t.logs.phases == r.logs.phases && t.logs.evidence == r.logs.evidence
  {
    hide Ordered, Exemplary, EndsWith, FlowHolds, OnTrack;
    if r.producer.None? {
      SameIsSound(r);
    } else {
      var t := SettleWithError(r, cause, isReason);
      ReportsFollow(r, t);
      FlowFollows(r, t);
      hide ReportsAreSound, FlowIsSound, CleanIsOnTrack;
    }
  }

  // ---- Disposal and verification ------------------------------------------------------------

  lemma DisposalReturnsKeeps(r: Run, failure: Option<Diagnostic>, observed: bool)
    requires Invariant(r)
    ensures Sound(r, DisposalReturns(r, failure, observed))
  {
    hide Ordered, Exemplary, EndsWith;
    ReportsFollow(r, DisposalReturns(r, failure, observed));
    hide ReportsAreSound;
  }

  lemma VerifyKeeps(r: Run, i: nat, released: bool, refs: seq<Ref>)
    requires Invariant(r)
    ensures Sound(r, Verify(r, i, released, refs))
  {
    hide Ordered, Exemplary, EndsWith;
    ReportsFollow(r, Verify(r, i, released, refs));
    hide ReportsAreSound;
  }

  lemma {:induction false} NoCleanupErrors(outcomes: seq<Outcome>)
    ensures CleanupErrors(outcomes) == [] <==> forall o :: o in outcomes ==> !Truthy(o.cleanupError)
  {
    if outcomes != [] {
      NoCleanupErrors(outcomes[1..]);
      assert forall o :: o in outcomes <==> o == outcomes[0] || o in outcomes[1..];
    }
  }

  /** Without an error, verification found every resource released and no cleanup that threw. */
  lemma VerificationIsClean(r: Run)
    requires r.await.AtVerification? && AllObserved(r.await.observed)
    requires FailuresSurface(r.await, r.phase, r.resources, r.logs.errors, r.captured, r.rejects)
    requires VerificationReturns(r).logs.errors == []
    ensures r.logs.errors == [] && r.captured == []
    ensures var outcomes := Values(r.await.observed); IsErrorFree(outcomes) && (outcomes != [] ==> CleanupPassed(outcomes))
  {
    hide AllRefs, CleanupErrors, CapturedErrors, Truthy, Released;
    assert r.logs.errors == [] && CapturedErrors(r.captured) == [];
    NothingCaptured(r.captured);
  }

  lemma VerifiedKeeps(r: Run, logs: Logs, outcomes: seq<Outcome>)
    requires Invariant(r) && r.await.AtVerification? && Precedes(r.logs, logs)
    requires logs.errors == [] ==> IsErrorFree(outcomes)
    requires logs.errors == [] && outcomes != [] ==> CleanupPassed(outcomes) && logs.phases == r.logs.phases + [Pass(Verifying)]
    ensures Sound(r, r.(logs := logs, await := AtLogStop(r.await.disposed, outcomes)))
  {
    hide Ordered, Exemplary, EndsWith, CleanupPassed, IsErrorFree;
    ReportsFollow(r, r.(logs := logs, await := AtLogStop(r.await.disposed, outcomes)));
    hide ReportsAreSound;
  }

  lemma VerificationReturnsKeeps(r: Run)
    requires Invariant(r)
    ensures Sound(r, VerificationReturns(r))
  {
    hide Invariant, Sound, AllRefs, CleanupErrors, CapturedErrors, CleanupPassed, IsErrorFree, AllObserved, Values, FailuresSurface;
    var t := VerificationReturns(r);
    if r.await.AtVerification? && AllObserved(r.await.observed) {
      FailuresAreKnown(r);
      if t.logs.errors == [] {
        VerificationIsClean(r);
      }
      VerifiedKeeps(r, t.logs, Values(r.await.observed));
    } else {
      SameIsSound(r);
    }
  }

  lemma NothingCaptured(captured: seq<string>)
    ensures CapturedErrors(captured) == [] <==> captured == []
  {
    assert |CapturedErrors(captured)| == |captured|;
  }

  lemma FinalIsNotRetained(r: Run)
    requires r.await.AtLogStop?
    ensures var t := LogStopReturns(r);
            |t.history.reports| == |r.history.reports| + 1 && !IsRetained(t.history.reports[|r.history.reports|])
  {
    hide AllReleased;
  }

  lemma LogStopReturnsKeeps(r: Run)
    requires Invariant(r)
    ensures Sound(r, LogStopReturns(r))
  {
    hide Ordered, EndsWith, CleanupPassed, AllReleased, IsRetained;
    var t := LogStopReturns(r);
    if r.await.AtLogStop? {
      FinalIsNotRetained(r);
      var report := t.history.reports[|r.history.reports|];
      if report.status == PassedStatus {
        assert t.logs.phases == FULL_LIFECYCLE;
      }
      ReportAdded(r, t, report);
      hide ReportsAreSound, Exemplary, StartsAreSound;
    }
  }

  // ---- The rest of start, resources and logging -----------------------------------------------

  lemma ProbeKeeps(r: Run)
    requires Invariant(r) && r.await == Starting
    ensures var t := Produce(r.(await := Probing), Preloading);
            Sound(r, t)
  {
    hide Ordered, Exemplary, EndsWith;
    var t := Produce(r.(await := Probing), Preloading);
    ReportsFollow(r, t);
    hide ReportsAreSound;
    assert r.producer.None?;
    StartAdded(r.history.starts, Preloading);
  }

  lemma ProbeRefusedKeeps(r: Run, cause: Diagnostic)
    requires Invariant(r) && r.await == Starting
    ensures Sound(r, r.(await := Probing, race := Threw(cause)))
  {
    hide Ordered, Exemplary, EndsWith;
    ReportsFollow(r, r.(await := Probing, race := Threw(cause)));
    hide ReportsAreSound;
  }

  lemma StartDoneKeeps(r: Run)
    requires Invariant(r) && r.await == Starting
    ensures Sound(r, Step(r, StartDone))
  {
    hide Ordered, Exemplary, EndsWith;
    ReportsFollow(r, Step(r, StartDone));
    hide ReportsAreSound;
  }

  lemma MeasurementBeginsKeeps(r: Run)
    requires Invariant(r) && r.phase == Ready
    ensures Sound(r, r.(phase := Measuring, logs := Noted(r.logs, Measuring, true, None)))
  {
    hide Ordered, Exemplary, EndsWith;
    ReportsFollow(r, r.(phase := Measuring, logs := Noted(r.logs, Measuring, true, None)));
    hide ReportsAreSound;
  }

  /** Whatever leaves flow, producers and phases alone is harmless. */
  lemma QuietKeeps(r: Run, logs: Logs, resources: seq<Resource>, captured: seq<string>, rejects: bool)
    requires Invariant(r) && Precedes(r.logs, logs) && logs.phases == r.logs.phases
    requires !r.admitted ==> forall x :: x in resources ==> !x.attempted
    requires FailuresSurface(r.await, r.phase, resources, logs.errors, captured, rejects) && |captured| <= CAPTURED_LIMIT
    ensures var t := r.(logs := logs, resources := resources, captured := captured, rejects := rejects); Sound(r, t)
  {
    hide Ordered, Exemplary, EndsWith, FlowHolds, OnTrack, FailuresSurface;
    var t := r.(logs := logs, resources := resources, captured := captured, rejects := rejects);
    ReportsFollow(r, t);
    FlowFollows(r, t);
    hide ReportsAreSound, FlowIsSound, CleanIsOnTrack;
  }

  lemma FailuresAreKnown(r: Run)
    requires Invariant(r)
    ensures FailuresSurface(r.await, r.phase, r.resources, r.logs.errors, r.captured, r.rejects) && |r.captured| <= CAPTURED_LIMIT
    ensures r.await.AtVerification? || r.await.AtLogStop? || r.await == AtDisposal ==> !Terminal(r)
  {
    hide ProducerIsSound, StartsAreSound, CleanIsOnTrack, ReportsAreSound, ReleaseIsSound, FailuresSurface;
  }

  lemma NotAttempted(r: Run)
    requires Invariant(r) && !r.admitted
    ensures forall x :: x in r.resources ==> !x.attempted
    ensures r.history.cleanups == []
  {
    hide FlowIsSound, ProducerIsSound, StartsAreSound, CleanIsOnTrack, ReportsAreSound, ReleaseIsSound;
  }

  lemma TrackKeeps(r: Run, id: string)
    requires Invariant(r)
    ensures Sound(r, Track(r, id))
  {
    hide Invariant, Sound;
    var t := Track(r, id);
    FailuresAreKnown(r);
    if !r.admitted {
      NotAttempted(r);
    }
    QuietKeeps(r, r.logs, t.resources, r.captured, r.rejects);
  }

  /** The error of a cleanup that threw does not get lost. */
  lemma CleanupFailsKeeps(r: Run, i: nat, text: string, logged: bool)
    requires Invariant(r)
    ensures Sound(r, CleanupFails(r, i, text, logged))
  {
    hide Invariant, Sound;
    var t := CleanupFails(r, i, text, logged);
    FailuresAreKnown(r);
    if !r.admitted {
      NotAttempted(r);
    }
    QuietKeeps(r, t.logs, t.resources, t.captured, t.rejects);
  }

  lemma LogKeeps(r: Run, text: string)
    requires Invariant(r)
    ensures Sound(r, Log(r, text))
  {
    hide Invariant, Sound;
    var t := Log(r, text);
    FailuresAreKnown(r);
    if !r.admitted {
      NotAttempted(r);
    }
    QuietKeeps(r, t.logs, r.resources, t.captured, r.rejects);
  }

  lemma AttemptKeeps(r: Run, i: nat)
    requires Invariant(r) && r.admitted && i < |r.resources|
    ensures var resources := r.resources[i := r.resources[i].(attempted := true)];
            Sound(r, r.(resources := resources, history := r.history.(cleanups := r.history.cleanups + [i])))
  {
    hide Ordered, Exemplary, EndsWith, FlowHolds, OnTrack;
    var t := r.(resources := r.resources[i := r.resources[i].(attempted := true)],
                history := r.history.(cleanups := r.history.cleanups + [i]));
    ReportsFollow(r, t);
    hide ReportsAreSound;
  }

  /** A cleanup is called only once it is admitted and while nothing is live; otherwise its refusal is recorded. */
  lemma CleanUpKeeps(r: Run, i: nat)
    requires Invariant(r)
    ensures var t := CleanUp(r, i);
            Sound(r, t) && t.history.starts == r.history.starts
    ensures var t := CleanUp(r, i);
            i < |r.resources| && (r.producer.Some? || !r.admitted) ==>
              && t.history.cleanups == r.history.cleanups && t.resources[i].attempted == r.resources[i].attempted
              && t.resources[i].cleanupError.Some? && t.logs.errors == r.logs.errors + [t.resources[i].cleanupError.value]
  {
    hide Invariant, Sound;
    var t := CleanUp(r, i);
    FailuresAreKnown(r);
    if !r.admitted {
      NotAttempted(r);
    }
    if i < |r.resources| && r.producer.None? && r.admitted {
      AttemptKeeps(r, i);
    } else {
      QuietKeeps(r, t.logs, t.resources, r.captured, r.rejects);
    }
  }

  // ---- Every event -------------------------------------------------------------------------------

  /** Only an awaited export that settled with references admits cleanup. */
  predicate AdmitsOnExport(r: Run, e: Event, t: Run) {
    t.admitted == r.admitted || (e.ExportDone? && r.await == AtExport && r.race.Won? && r.race.refs != [])
  }

  lemma StepKeeps(r: Run, e: Event)
    requires Invariant(r)
    ensures Sound(r, Step(r, e))
  {
    hide Sound, Invariant, Progresses, Finish, RetryExport, StartFails, ProbeReturns, StageReturns, ExportReturns, Interrupt, SettleWithRefs,
      SettleWithError, DisposalReturns, Verify, VerificationReturns, LogStopReturns, Track, CleanUp, CleanupFails, Log, Produce;
    SameIsSound(r);
    match e
    case Probes => if r.await == Starting { ProbeKeeps(r); }
    case ProbeRefused(cause) => if r.await == Starting { ProbeRefusedKeeps(r, cause); }
    case ProbeDone(ready) => ProbeReturnsKeeps(r, ready);
    case StartFailed(cause) => if r.await == Starting { StartFailsKeeps(r, cause); }
    case StartDone => if r.await == Starting { StartDoneKeeps(r); }
    case MeasurementBegins => if r.phase == Ready { MeasurementBeginsKeeps(r); }
    case Finishes(stages, exports) =>
      if !r.await.Starting? && !r.await.Probing? {
        FinishesKeeps(r, [stages.0, stages.1, stages.2], exports);
      }
    case Retries(exports) => RetryExportKeeps(r, exports);
    case Interrupted(cause) => InterruptKeeps(r, cause);
    case Settles(refs) => SettleWithRefsKeeps(r, refs);
    case Fails(cause, isReason) => SettleWithErrorKeeps(r, cause, isReason);
    case StageDone => StageReturnsKeeps(r);
    case ExportDone => ExportReturnsKeeps(r);
    case DisposalDone(failure, observed) => DisposalReturnsKeeps(r, failure, observed);
    case ResourceVerified(i, released, refs) => VerifyKeeps(r, i, released, refs);
    case VerificationDone => VerificationReturnsKeeps(r);
    case LogStopped => LogStopReturnsKeeps(r);
    case Tracks(id) => TrackKeeps(r, id);
    case CleansUp(i) => CleanUpKeeps(r, i);
    case CleanupFailed(i, text, logged) => CleanupFailsKeeps(r, i, text, logged);
    case Logged(text) => LogKeeps(r, text);
  }
}
