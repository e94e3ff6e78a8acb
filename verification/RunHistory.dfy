/** Consequences for every run, under every interleaving of its events. */
module RunHistory {
  import opened Outcomes
  import opened RunModel
  import opened RunProtocol

  lemma InitiallySound()
    ensures Invariant(NewRun())
  {
  }

  lemma {:induction false} RunKeeps(trace: seq<Event>)
    ensures Invariant(After(trace))
    decreases |trace|
  {
    hide Invariant, Step;
    if trace == [] {
      InitiallySound();
    } else {
      RunKeeps(trace[..|trace| - 1]);
      StepKeeps(After(trace[..|trace| - 1]), trace[|trace| - 1]);
    }
  }

  lemma NextIsStep(trace: seq<Event>, i: nat)
    requires i < |trace|
    ensures After(trace[..i + 1]) == Step(After(trace[..i]), trace[i])
  {
    hide Step;
    assert trace[..i + 1][..i] == trace[..i];
  }

  /** Histories only grow along a run. */
  lemma {:induction false} HistoryGrows(trace: seq<Event>, i: nat, j: nat)
    requires i <= j <= |trace|
    ensures Progresses(After(trace[..i]), After(trace[..j]))
    decreases j - i
  {
    hide Invariant, Step, Progresses, StartsAlone, CleansAlone;
    RunKeeps(trace[..i]);
    if i == j {
      SameIsSound(After(trace[..i]));
    } else {
      HistoryGrows(trace, i, j - 1);
      RunKeeps(trace[..j - 1]);
      NextIsStep(trace, j - 1);
      StepKeeps(After(trace[..j - 1]), trace[j - 1]);
      ProgressComposes(After(trace[..i]), After(trace[..j - 1]), After(trace[..j]));
    }
  }

  // ---- Destructive cleanup ------------------------------------------------------------------

  lemma {:induction false} RunStagesAdmitNothing(r: Run)
    ensures RunStages(r).admitted == r.admitted
    decreases |r.stages| - r.next
  {
    if r.next < |r.stages| && !r.stages[r.next] {
      RunStagesAdmitNothing(SkippedStage(r));
    }
  }

  lemma ResumeAdmitsNothing(r: Run)
    ensures Resume(r).admitted == r.admitted
  {
    hide RunStages;
    RunStagesAdmitNothing(r);
  }

  lemma FinishAdmitsNothing(r: Run, stages: seq<bool>, exports: bool)
    ensures Finish(r, stages, exports).admitted == r.admitted
  {
    hide Resume;
    ResumeAdmitsNothing(r.(finished := true, stages := stages, exports := exports,
                           logs := if r.phase != Measuring then r.logs.(errors := r.logs.errors + [NotMeasured]) else r.logs));
  }

  predicate IsAside(e: Event) {
    e.ResourceVerified? || e.Tracks? || e.CleansUp? || e.CleanupFailed? || e.Logged?
  }

  lemma LogOnlyAdds(r: Run, text: string)
    ensures var t := Log(r, text);
            && t.phase == r.phase && t.await == r.await && t.rejects == r.rejects && t.admitted == r.admitted
            && |t.captured| >= |r.captured| && |t.logs.errors| >= |r.logs.errors|
  {
  }

  /** Resources and messages neither move a run on nor admit anything. */
  lemma AsideStaysPut(r: Run, e: Event)
    requires IsAside(e)
    ensures Step(r, e).phase == r.phase && Step(r, e).admitted == r.admitted
  {
    hide Finish, RetryExport, StageReturns, ExportReturns, DisposalReturns, LogStopReturns, ProbeReturns, StartFails, VerificationReturns,
      Produce, Interrupt, SettleWithRefs, SettleWithError, Log;
    if e.Logged? {
      LogOnlyAdds(r, e.text);
    } else if e.CleanupFailed? && e.i < |r.resources| {
      LogOnlyAdds(r.(resources := r.resources[e.i := r.resources[e.i].(cleanupError := Some(Message(e.text)))]), e.text);
    }
  }

  lemma StepAdmitsOnExport(r: Run, e: Event)
    ensures AdmitsOnExport(r, e, Step(r, e))
  {
    hide RunStages, Resume, Finish, AllObserved, AllReleased, CleanupPassed, AllRefs, CleanupErrors, CapturedErrors, Values,
      Verify, Track, CleanUp, CleanupFails, Log;
    if IsAside(e) {
      hide Step;
      AsideStaysPut(r, e);
    } else if e.Retries? {
      ResumeAdmitsNothing(r.(finished := true, exports := e.exports));
    } else if e.StageDone? && r.race.Won? {
      RunStagesAdmitNothing(r.(logs := Noted(r.logs, r.phase, true, None)));
    } else if e.StageDone? && r.race.Threw? {
      RunStagesAdmitNothing(r.(logs := Faulted(r.logs, r.phase, r.race.cause)));
    } else if e.Finishes? {
      FinishAdmitsNothing(r, [e.stages.0, e.stages.1, e.stages.2], e.exports);
    } else if e.StartFailed? {
      FinishAdmitsNothing(r.(await := Idle, logs := Faulted(r.logs, Preloading, e.cause)), [false, false, false], false);
    } else if e.ProbeDone? && r.race != Open {
      var cause := if r.race.Threw? then r.race.cause else NotReady;
      FinishAdmitsNothing(r.(await := Idle, logs := Faulted(r.logs, Preloading, cause)), [false, false, false], false);
    }
  }

  /** At k an export that was awaited and had settled with references returned. */
  predicate ExportSucceeds(trace: seq<Event>, k: nat)
    requires k < |trace|
  {
    var r := After(trace[..k]);
    trace[k].ExportDone? && r.await == AtExport && r.race.Won? && r.race.refs != []
  }

  lemma {:induction false} AdmissionHasACause(trace: seq<Event>, i: nat)
    requires i <= |trace| && After(trace[..i]).admitted
    ensures exists k :: 0 <= k < i && ExportSucceeds(trace, k)
  {
    hide Step;
    if i > 0 {
      NextIsStep(trace, i - 1);
      StepAdmitsOnExport(After(trace[..i - 1]), trace[i - 1]);
      if After(trace[..i - 1]).admitted {
        AdmissionHasACause(trace, i - 1);
      } else {
        assert ExportSucceeds(trace, i - 1);
      }
    }
  }

  /**
   A resource's cleanup is called only after an export that settled with
   references, and while no producer of the run is live.
   */
  lemma CleanupFollowsExport(trace: seq<Event>, i: nat)
    requires i < |trace| && After(trace[..i + 1]).history.cleanups != After(trace[..i]).history.cleanups
    ensures After(trace[..i]).producer.None?
    ensures exists k :: 0 <= k < i && ExportSucceeds(trace, k)
  {
    hide Step, Invariant, Progresses, StartsAlone;
    RunKeeps(trace[..i]);
    NextIsStep(trace, i);
    StepKeeps(After(trace[..i]), trace[i]);
    AdmissionHasACause(trace, i);
  }

  /** Once cleanup is admitted no producer is live, and none ever starts again. */
  lemma NothingStartsAfterAdmission(trace: seq<Event>, i: nat, j: nat)
    requires i <= j <= |trace| && After(trace[..i]).admitted
    ensures After(trace[..j]).history.starts == After(trace[..i]).history.starts && After(trace[..j]).producer.None?
  {
    hide FlowIsSound, ProducerIsSound, StartsAreSound, CleanIsOnTrack, ReportsAreSound, ReleaseIsSound, After;
    HistoryGrows(trace, i, j);
    RunKeeps(trace[..j]);
  }

  // ---- Stages ------------------------------------------------------------------------------------

  /** However often export is retried: every stage starts at most once, in order, and never beside a live producer. */
  lemma StagesStartOnceInOrder(trace: seq<Event>, i: nat)
    requires i < |trace|
    ensures Ordered(After(trace[..i + 1]).history.starts)
    ensures After(trace[..i + 1]).history.starts != After(trace[..i]).history.starts ==>
              After(trace[..i]).producer.None? && |After(trace[..i + 1]).history.starts| == |After(trace[..i]).history.starts| + 1
  {
    hide Step, FlowIsSound, ProducerIsSound, CleanIsOnTrack, AdmissionIsSound, ReportsAreSound, ReleaseIsSound, Progresses, CleansAlone, Ordered;
    RunKeeps(trace[..i]);
    RunKeeps(trace[..i + 1]);
    NextIsStep(trace, i);
    StepKeeps(After(trace[..i]), trace[i]);
  }

  /** A retry takes effect only while no resume is in flight, and not after the run has ended. */
  lemma OneResumeAtATime(trace: seq<Event>, exports: bool)
    ensures var r := After(trace);
            RetryExport(r, exports) != r ==> r.await == Idle && r.finished && !r.admitted && !Terminal(r)
  {
    hide ProducerIsSound, StartsAreSound, CleanIsOnTrack, AdmissionIsSound, ReportsAreSound, ReleaseIsSound, Resume;
    RunKeeps(trace);
  }

  // ---- Reports -----------------------------------------------------------------------------------

  lemma EarlierStartsAreProbes(starts: seq<Phase>, i: nat)
    requires Ordered(starts) && EndsWith(starts, 4) && i < |starts| - 4
    ensures starts[i] == Preloading
  {
    var first := |starts| - 4;
    assert starts[first] == starts[first..][0] && starts[first] == Closing;
  }

  /**
   A passed report shows the whole lifecycle, each phase passed once, no error,
   and at least one resource, each attempted, released, evidenced and without a
   cleanup error; apart from probes, exactly the four producers of the lifecycle
   ever started.
   */
  lemma PassedIsExemplary(trace: seq<Event>, k: nat)
    requires var r := After(trace); k < |r.history.reports| && r.history.reports[k].status == PassedStatus
    ensures var r := After(trace);
            && k == |r.history.reports| - 1 && Terminal(r) && Exemplary(r.history.reports[k], r.history.starts)
            && forall i :: 0 <= i < |r.history.starts| - 4 ==> r.history.starts[i] == Preloading
  {
    RunKeeps(trace);
    var r := After(trace);
    hide FlowIsSound, ProducerIsSound, CleanIsOnTrack, AdmissionIsSound, ReleaseIsSound, After, CleanupPassed, IsErrorFree, Ordered;
    forall i | 0 <= i < |r.history.starts| - 4 ensures r.history.starts[i] == Preloading {
      EarlierStartsAreProbes(r.history.starts, i);
    }
  }

  /** Earlier reports are prefixes of later ones, and a run once reported retained never passes. */
  lemma ReportsOnlyExtend(trace: seq<Event>, i: nat, j: nat)
    requires i < j < |After(trace).history.reports|
    ensures var reports := After(trace).history.reports;
            && Precedes(reports[i].logs, reports[j].logs)
            && IsRetained(reports[i]) && reports[i].status == IncompleteStatus
            && reports[j].status != PassedStatus
  {
    RunKeeps(trace);
    hide FlowIsSound, ProducerIsSound, StartsAreSound, CleanIsOnTrack, AdmissionIsSound, ReleaseIsSound, After;
  }

  /** A report stays as it is, and whatever a run has logged when it reports is still there later. */
  lemma ReportsAreFinal(trace: seq<Event>, i: nat, k: nat)
    requires i <= |trace| && k < |After(trace[..i]).history.reports|
    ensures k < |After(trace).history.reports| && After(trace).history.reports[k] == After(trace[..i]).history.reports[k]
    ensures Precedes(After(trace).history.reports[k].logs, After(trace).logs)
  {
    assert trace[..|trace|] == trace;
    HistoryGrows(trace, i, |trace|);
    RunKeeps(trace);
    hide FlowIsSound, ProducerIsSound, StartsAreSound, CleanIsOnTrack, AdmissionIsSound, ReleaseIsSound, After;
  }

  /** The owner is released at most once, after an observed disposal and a report that shows every resource released. */
  lemma ReleasedOnce(trace: seq<Event>)
    ensures var r := After(trace);
            && r.history.releases <= 1
            && (r.history.releases == 1 ==>
                  && Terminal(r) && Pass(Disposing) in r.logs.phases && r.history.reports != []
                  && r.history.reports[|r.history.reports| - 1].outcomes != [] && AllReleased(r.history.reports[|r.history.reports| - 1].outcomes))
  {
    RunKeeps(trace);
    hide FlowIsSound, ProducerIsSound, StartsAreSound, CleanIsOnTrack, AdmissionIsSound, ReportsAreSound, After, AllReleased;
  }

  // ---- When a run passes ----------------------------------------------------------------------------

  /** Attempted, released with evidence, and without a cleanup error that has a message. */
  predicate IsCleared(o: Outcome) {
    o.attempted && o.released && |o.refs| > 0 && (o.cleanupError.None? || o.cleanupError == Some(Message("")))
  }

  /** From verification on: a run passes exactly when nothing went wrong before or is found now. */
  lemma PassesExactly(r: Run)
    requires Invariant(r) && r.await.AtVerification? && AllObserved(r.await.observed)
    ensures var t := LogStopReturns(VerificationReturns(r));
            && t.history.reports != [] && Terminal(t)
            && (t.history.reports[|t.history.reports| - 1].status == PassedStatus <==>
                  r.logs.errors == [] && r.captured == [] && r.await.observed != [] && forall o :: o in Values(r.await.observed) ==> IsCleared(o))
            && t.logs.phases == r.logs.phases + t.logs.phases[|r.logs.phases|..]
            && |t.logs.phases| == |r.logs.phases| + 2 && t.logs.phases[|r.logs.phases|].phase == Verifying
            && (t.logs.phases[|r.logs.phases|].passed <==>
                  r.captured == [] && r.await.observed != [] && forall o :: o in Values(r.await.observed) ==> IsCleared(o))
            && (t.history.releases == 1 <==>
                  r.await.disposed && r.await.observed != [] && AllReleased(Values(r.await.observed)))
  {
    hide FlowIsSound, ProducerIsSound, StartsAreSound, CleanIsOnTrack, AdmissionIsSound, ReportsAreSound, AllRefs, CleanupErrors,
      CapturedErrors, AllReleased;
    var outcomes := Values(r.await.observed);
    NoCleanupErrors(outcomes);
    NothingCaptured(r.captured);
    assert r.history.releases == 0 by {
      assert ReleaseIsSound(r) && FlowIsSound(r);
      VerificationIsNotTheEnd(r);
    }
  }

  lemma VerificationIsNotTheEnd(r: Run)
    requires FlowIsSound(r) && r.await.AtVerification?
    ensures !Terminal(r)
  {
  }

  // ---- A cleanup that throws -------------------------------------------------------------------------

  /** Something went wrong that the status is still going to show. */
  predicate IsDoomed(r: Run) {
    || r.logs.errors != []
    || (!r.await.AtLogStop? && !Terminal(r) && (r.captured != [] || (r.rejects && r.await == AtDisposal)))
  }

  /** A resume leaves what was captured alone and does not end the run. */
  predicate StaysOpen(r: Run, t: Run) {
    && t.captured == r.captured && t.rejects == r.rejects && r.logs.errors <= t.logs.errors
    && !t.await.AtLogStop? && !Terminal(t)
  }

  lemma BeginExportStaysOpen(r: Run)
    ensures StaysOpen(r, BeginExport(r))
  {
  }

  lemma {:induction false} RunStagesStayOpen(r: Run)
    ensures StaysOpen(r, RunStages(r))
    decreases |r.stages| - r.next
  {
    hide BeginExport;
    BeginExportStaysOpen(r);
    if r.next < |r.stages| && !r.stages[r.next] {
      RunStagesStayOpen(SkippedStage(r));
    }
  }

  lemma ResumeStaysOpen(r: Run)
    ensures StaysOpen(r, Resume(r))
  {
    hide RunStages;
    RunStagesStayOpen(r);
  }

  lemma FinishStaysOpen(r: Run, stages: seq<bool>, exports: bool)
    requires !r.finished
    ensures StaysOpen(r, Finish(r, stages, exports))
  {
    hide Resume;
    ResumeStaysOpen(r.(finished := true, stages := stages, exports := exports,
                       logs := if r.phase != Measuring then r.logs.(errors := r.logs.errors + [NotMeasured]) else r.logs));
  }

  /** The steps that start, finish, retry or go on with a run. */
  predicate GoesOn(e: Event) {
    e.ProbeDone? || e.StartFailed? || e.Finishes? || e.Retries? || e.StageDone?
  }

  lemma FlowStaysOpen(r: Run, e: Event)
    requires FlowIsSound(r) && GoesOn(e)
    ensures Step(r, e) == r || (StaysOpen(r, Step(r, e)) && r.await != AtDisposal)
  {
    hide RunStages, Resume, Finish;
    if e.Retries? {
      ResumeStaysOpen(r.(finished := true, exports := e.exports));
    } else if e.StageDone? && r.race.Won? {
      RunStagesStayOpen(r.(logs := Noted(r.logs, r.phase, true, None)));
    } else if e.StageDone? && r.race.Threw? {
      RunStagesStayOpen(r.(logs := Faulted(r.logs, r.phase, r.race.cause)));
    } else if e.Finishes? {
      FinishedIsFinal(r, [e.stages.0, e.stages.1, e.stages.2], e.exports);
    } else if e.StartFailed? {
      FinishedIsFinal(r.(await := Idle, logs := Faulted(r.logs, Preloading, e.cause)), [false, false, false], false);
    } else if e.ProbeDone? && r.race != Open {
      var cause := if r.race.Threw? then r.race.cause else NotReady;
      FinishedIsFinal(r.(await := Idle, logs := Faulted(r.logs, Preloading, cause)), [false, false, false], false);
    }
  }

  lemma FinishedIsFinal(r: Run, stages: seq<bool>, exports: bool)
    ensures if r.finished then Finish(r, stages, exports) == r else StaysOpen(r, Finish(r, stages, exports))
  {
    if !r.finished {
      FinishStaysOpen(r, stages, exports);
    }
  }

  lemma DoomOutlivesVerification(r: Run)
    requires IsDoomed(r) && FlowIsSound(r)
    ensures IsDoomed(VerificationReturns(r))
  {
    hide AllRefs, CleanupErrors, CleanupPassed, Values, CapturedErrors, AllObserved;
    NothingCaptured(r.captured);
  }

  /** A logged message is captured, or the overflow is an error. */
  lemma LogRemembers(r: Run, text: string)
    requires IsDoomed(r)
    ensures IsDoomed(Log(r, text))
  {
    LogOnlyAdds(r, text);
    hide Log;
  }

  lemma DoomOutlivesAside(r: Run, e: Event)
    requires IsDoomed(r) && r.logs.errors == [] && IsAside(e)
    ensures IsDoomed(Step(r, e))
  {
    hide Finish, RetryExport, StageReturns, ExportReturns, DisposalReturns, LogStopReturns, ProbeReturns, StartFails, VerificationReturns,
      Produce, Interrupt, SettleWithRefs, SettleWithError, Log;
    if e.Logged? {
      hide IsDoomed;
      LogRemembers(r, e.text);
    } else if e.CleanupFailed? && e.i < |r.resources| {
      var failed := r.(resources := r.resources[e.i := r.resources[e.i].(cleanupError := Some(Message(e.text)))]);
      LogRemembers(failed, e.text);
    }
  }

  lemma DoomOutlivesEvent(r: Run, e: Event)
    requires IsDoomed(r) && FlowIsSound(r) && r.logs.errors == [] && !e.VerificationDone? && !GoesOn(e) && !IsAside(e)
    ensures IsDoomed(Step(r, e))
  {
    hide Finish, RetryExport, StageReturns, ProbeReturns, StartFails, VerificationReturns, AllReleased,
      Verify, Track, CleanUp, CleanupFails, Log, RunStages;
  }

  /** What has gone wrong stays known, whatever happens next. */
  lemma DoomStays(r: Run, e: Event)
    requires Invariant(r) && IsDoomed(r)
    ensures IsDoomed(Step(r, e))
  {
    assert FlowIsSound(r);
    hide Invariant;
    if r.logs.errors != [] {
      StepKeeps(r, e);
      hide Step;
    } else if GoesOn(e) {
      hide Step;
      FlowStaysOpen(r, e);
    } else if e.VerificationDone? {
      hide VerificationReturns, IsDoomed;
      DoomOutlivesVerification(r);
    } else if IsAside(e) {
      hide Step, IsDoomed;
      DoomOutlivesAside(r, e);
    } else {
      hide Step, IsDoomed;
      DoomOutlivesEvent(r, e);
    }
  }

  lemma VerificationStaysOpen(r: Run)
    ensures VerificationReturns(r).phase == r.phase
  {
    hide AllRefs, CleanupErrors, CleanupPassed, Values, CapturedErrors, AllObserved;
  }

  /** Only the last step of a run can report it as passed, and only without an error. */
  lemma OnlyLogStopEnds(r: Run, e: Event)
    requires Invariant(r) && !Terminal(r) && Terminal(Step(r, e))
    ensures e.LogStopped? && r.await.AtLogStop?
  {
    assert FlowIsSound(r);
    hide Invariant, VerificationReturns, Verify, CleanUp, CleanupFails, Log, ProbeReturns, StartFails, Finish, RetryExport, StageReturns;
    if GoesOn(e) {
      FlowStaysOpen(r, e);
    } else if IsAside(e) {
      hide Step;
      AsideStaysPut(r, e);
    } else if e.VerificationDone? {
      VerificationStaysOpen(r);
    }
  }

  predicate HasPassed(r: Run) {
    exists k :: 0 <= k < |r.history.reports| && r.history.reports[k].status == PassedStatus
  }

  lemma PassedHasEnded(r: Run)
    requires Invariant(r) && HasPassed(r)
    ensures Terminal(r) && r.history.reports[|r.history.reports| - 1].status == PassedStatus
  {
    hide FlowIsSound, ProducerIsSound, StartsAreSound, CleanIsOnTrack, AdmissionIsSound, ReleaseIsSound, Exemplary;
  }

  lemma EndedRunsReportNothing(r: Run, e: Event)
    requires FlowIsSound(r) && Terminal(r)
    ensures Step(r, e).history.reports == r.history.reports
  {
    hide RunStages, Resume;
  }

  lemma ErrorsDoNotPass(r: Run)
    requires r.await.AtLogStop? && r.logs.errors != []
    ensures var reports := LogStopReturns(r).history.reports; reports != [] && reports[|reports| - 1].status == ErrorStatus
  {
    hide AllReleased;
  }

  lemma DoomedStepDoesNotPass(r: Run, e: Event)
    requires Invariant(r) && IsDoomed(r) && !HasPassed(r)
    ensures !HasPassed(Step(r, e))
  {
    var t := Step(r, e);
    StepKeeps(r, e);
    if HasPassed(t) {
      hide Progresses, StartsAlone, CleansAlone;
      PassedHasEnded(t);
      if Terminal(r) {
        EndedRunsReportNothing(r, e);
      } else {
        OnlyLogStopEnds(r, e);
        ErrorsDoNotPass(r);
      }
    }
  }

  lemma {:induction false} DoomedRunsNeverPass(trace: seq<Event>, i: nat, j: nat)
    requires i <= j <= |trace| && IsDoomed(After(trace[..i])) && !HasPassed(After(trace[..i]))
    ensures IsDoomed(After(trace[..j])) && !HasPassed(After(trace[..j]))
    decreases j - i
  {
    hide Invariant, Step, IsDoomed, HasPassed;
    if i < j {
      DoomedRunsNeverPass(trace, i, j - 1);
      RunKeeps(trace[..j - 1]);
      NextIsStep(trace, j - 1);
      DoomStays(After(trace[..j - 1]), trace[j - 1]);
      DoomedStepDoesNotPass(After(trace[..j - 1]), trace[j - 1]);
    }
  }

  /** The step at which a called cleanup throws, before verification has been concluded. */
  lemma ThrowingDooms(r: Run, e: Event)
    requires Invariant(r) && e.CleanupFailed? && e.i < |r.resources| && r.resources[e.i].attempted
    requires r.await == AtDisposal || r.await.AtVerification?
    ensures IsDoomed(Step(r, e)) && !HasPassed(Step(r, e))
  {
    FailuresAreKnown(r);
    if HasPassed(r) {
      PassedHasEnded(r);
    }
    hide Invariant;
  }

  /** A run one of whose cleanups threw before the verification was concluded never passes, whatever the error says. */
  lemma ThrowingCleanupNeverPasses(trace: seq<Event>, i: nat)
    requires i < |trace| && trace[i].CleanupFailed?
    requires var r := After(trace[..i]);
             && trace[i].i < |r.resources| && r.resources[trace[i].i].attempted
             && (r.await == AtDisposal || r.await.AtVerification?)
    ensures !HasPassed(After(trace))
  {
    hide Invariant, Step, IsDoomed, HasPassed;
    RunKeeps(trace[..i]);
    NextIsStep(trace, i);
    ThrowingDooms(After(trace[..i]), trace[i]);
    DoomedRunsNeverPass(trace, i + 1, |trace|);
    assert trace[..|trace|] == trace;
  }

  // ---- Captured messages -----------------------------------------------------------------------------

  /** At i a message beyond the limit adds the overflow to the errors. */
  predicate LogOverflows(trace: seq<Event>, i: nat)
    requires i < |trace|
  {
    (trace[i].Logged? || trace[i].CleanupFailed?) && After(trace[..i + 1]).logs.errors != After(trace[..i]).logs.errors
  }

  lemma OverflowIsNew(r: Run, e: Event)
    requires e.Logged? || e.CleanupFailed?
    ensures var t := Step(r, e);
            t.logs.errors == r.logs.errors ||
            (LogOverflow !in r.logs.errors && |r.captured| >= CAPTURED_LIMIT && t.logs.errors == r.logs.errors + [LogOverflow])
  {
    hide RunStages, Finish, RetryExport, StageReturns, ExportReturns, DisposalReturns, LogStopReturns, ProbeReturns, StartFails,
      VerificationReturns;
  }

  /** At most one thousand messages are ever captured, and however many come after them, the overflow is added once. */
  lemma OverflowIsLoggedOnce(trace: seq<Event>, i: nat)
    requires i < |trace|
    ensures |After(trace[..i]).captured| <= 1000
    ensures LogOverflows(trace, i) ==>
              && |After(trace[..i]).captured| == 1000
              && After(trace[..i + 1]).logs.errors == After(trace[..i]).logs.errors + [LogOverflow]
              && forall j :: i < j < |trace| ==> !LogOverflows(trace, j)
  {
    hide Invariant, Step, After, Progresses;
    RunKeeps(trace[..i]);
    FailuresAreKnown(After(trace[..i]));
    NextIsStep(trace, i);
    if LogOverflows(trace, i) {
      OverflowIsNew(After(trace[..i]), trace[i]);
      forall j | i < j < |trace| ensures !LogOverflows(trace, j) {
        OverflowStays(trace, i + 1, j);
        NextIsStep(trace, j);
        if trace[j].Logged? || trace[j].CleanupFailed? {
          OverflowIsNew(After(trace[..j]), trace[j]);
        }
      }
    }
  }

  lemma OverflowStays(trace: seq<Event>, i: nat, j: nat)
    requires i <= j <= |trace| && LogOverflow in After(trace[..i]).logs.errors
    ensures LogOverflow in After(trace[..j]).logs.errors
  {
    hide After;
    HistoryGrows(trace, i, j);
    var before, after := After(trace[..i]).logs.errors, After(trace[..j]).logs.errors;
    assert before <= after;
    var k :| 0 <= k < |before| && before[k] == LogOverflow;
    assert after[k] == LogOverflow;
  }

  // ---- Retrying --------------------------------------------------------------------------------------

  /** The state after further events. */
  function Play(r: Run, events: seq<Event>): Run
    decreases |events|
  {
    if events == [] then r else Step(Play(r, events[..|events| - 1]), events[|events| - 1])
  }

  lemma PlayedOn(r: Run, events: seq<Event>, e: Event)
    ensures Play(r, events + [e]) == Step(Play(r, events), e)
  {
    hide Step;
    assert (events + [e])[..|events|] == events;
  }

  lemma {:induction false} PlayedTogether(r: Run, first: seq<Event>, second: seq<Event>)
    ensures Play(r, first + second) == Play(Play(r, first), second)
    decreases |second|
  {
    hide Step;
    if second == [] {
      assert first + second == first;
    } else {
      hide Play;
      var earlier, e := second[..|second| - 1], second[|second| - 1];
      PlayedTogether(r, first, earlier);
      PlayedOn(r, first + earlier, e);
      PlayedOn(Play(r, first), earlier, e);
      assert second == earlier + [e] && first + second == first + earlier + [e];
    }
  }

  /** The stages from the next one on that have a hook. */
  function Unattempted(stages: seq<bool>, next: nat): seq<Phase>
    decreases |stages| - next
  {
    if next >= |stages| then []
    else (if stages[next] then [StagePhase(next)] else []) + Unattempted(stages, next + 1)
  }

  /** Waiting for a producer that is still to settle, in a run whose export has a hook. */
  predicate IsWaiting(r: Run) {
    (r.await == AtStage || r.await == AtExport) && r.race == Open && r.producer.Some? && r.exports && !r.admitted
  }

  /** A resume waits for the next unattempted stage, or for the export when none is left. */
  lemma {:induction false} ResumeWaits(r: Run)
    requires r.producer.None? && r.exports && |r.stages| == 3 && !r.admitted
    ensures var t := RunStages(r);
            && IsWaiting(t) && t.stages == r.stages && t.logs.evidence == r.logs.evidence
            && if Unattempted(r.stages, r.next) == [] then
                 t.await == AtExport && t.history.starts == r.history.starts + [Exporting]
               else
                 && t.await == AtStage && r.next < t.next <= 3
                 && t.history.starts == r.history.starts + Unattempted(r.stages, r.next)[..1]
                 && Unattempted(t.stages, t.next) == Unattempted(r.stages, r.next)[1..]
    decreases |r.stages| - r.next
  {
    hide BeginExport, EnteredStage, IsWaiting;
    if r.next >= 3 {
      ExportWaits(r);
    } else if r.stages[r.next] {
      StageWaits(r);
    } else {
      ResumeWaits(SkippedStage(r));
    }
  }

  lemma ExportWaits(r: Run)
    requires r.producer.None? && r.exports && !r.admitted
    ensures var t := BeginExport(r);
            && IsWaiting(t) && t.await == AtExport && t.stages == r.stages && t.logs.evidence == r.logs.evidence
            && t.history.starts == r.history.starts + [Exporting]
  {
  }

  lemma StageWaits(r: Run)
    requires r.producer.None? && r.exports && !r.admitted && r.next < |r.stages|
    ensures var t := EnteredStage(r);
            && IsWaiting(t) && t.await == AtStage && t.stages == r.stages && t.logs.evidence == r.logs.evidence
            && t.next == r.next + 1 && t.history.starts == r.history.starts + [StagePhase(r.next)]
  {
  }

  /** References a stage hook may return. */
  type Returned = Phase -> seq<Ref>

  function AllReturned(phases: seq<Phase>, refs: Returned): seq<Ref>
    decreases |phases|
  {
    if phases == [] then [] else refs(phases[0]) + AllReturned(phases[1..], refs)
  }

  /** A stage that settles in time is followed by the next unattempted one, or by the export. */
  lemma WaitingStageSettles(r: Run, refs: seq<Ref>)
    requires IsWaiting(r) && r.await == AtStage && |r.stages| == 3
    ensures var t, left := Step(Step(r, Settles(refs)), StageDone), Unattempted(r.stages, r.next);
            && IsWaiting(t) && t.stages == r.stages && t.logs.evidence == r.logs.evidence + refs
            && if left == [] then t.await == AtExport && t.history.starts == r.history.starts + [Exporting]
               else
                 && t.await == AtStage && r.next < t.next <= 3 && t.history.starts == r.history.starts + left[..1]
                 && Unattempted(t.stages, t.next) == left[1..]
  {
    hide RunStages, Unattempted;
    var settled := SettleWithRefs(r, refs);
    ResumeWaits(settled.(logs := Noted(settled.logs, settled.phase, true, None)));
  }

  /** Each of the phases settles in time and its await returns. */
  function SettlingOf(phases: seq<Phase>, refs: Returned): seq<Event>
    decreases |phases|
  {
    if phases == [] then [] else [Settles(refs(phases[0])), StageDone] + SettlingOf(phases[1..], refs)
  }

  /** One stage: it settles, and the resume goes on. */
  lemma SettlingPlayed(r: Run, refs: seq<Ref>)
    ensures Play(r, [Settles(refs), StageDone]) == Step(Step(r, Settles(refs)), StageDone)
  {
    hide Step;
    assert [Settles(refs), StageDone] == [] + [Settles(refs)] + [StageDone];
    PlayedOn(r, [], Settles(refs));
    PlayedOn(r, [] + [Settles(refs)], StageDone);
  }

  /** The run awaits the first of the phases, and the others are the stages it has still to attempt. */
  predicate AwaitsAll(r: Run, phases: seq<Phase>) {
    if phases == [] then r.await == AtExport else r.await == AtStage && Unattempted(r.stages, r.next) == phases[1..]
  }

  /**
   A run in which nothing is live but the first of the given phases, or the
   export when there is none: the phases settle in turn, and then the run waits
   for its export.
   */
  lemma {:induction false} WaitingStagesSettle(r: Run, phases: seq<Phase>, refs: Returned)
    requires IsWaiting(r) && |r.stages| == 3 && AwaitsAll(r, phases)
    ensures var t := Play(r, SettlingOf(phases, refs));
            && IsWaiting(t) && t.await == AtExport
            && t.history.starts == r.history.starts + (if phases == [] then [] else phases[1..] + [Exporting])
            && t.logs.evidence == r.logs.evidence + AllReturned(phases, refs)
    decreases |phases|
  {
    hide IsWaiting, Step, Unattempted, AllReturned, SettlingOf;
    FirstSettles(phases, refs);
    if phases != [] {
      var first, rest := [Settles(refs(phases[0])), StageDone], phases[1..];
      SettlingPlayed(r, refs(phases[0]));
      WaitingStageSettles(r, refs(phases[0]));
      var t := Play(r, first);
      FirstSettles(rest, refs);
      WaitingStagesSettle(t, rest, refs);
      PlayedTogether(r, first, SettlingOf(rest, refs));
      hide Play;
    }
  }

  lemma FirstSettles(phases: seq<Phase>, refs: Returned)
    ensures phases == [] ==> SettlingOf(phases, refs) == [] && AllReturned(phases, refs) == []
    ensures phases != [] ==>
              && phases == phases[..1] + phases[1..]
              && SettlingOf(phases, refs) == [Settles(refs(phases[0])), StageDone] + SettlingOf(phases[1..], refs)
              && AllReturned(phases, refs) == refs(phases[0]) + AllReturned(phases[1..], refs)
  {
  }

  /**
   A retained run with nothing live, whatever stages were left: a retry whose
   remaining stages settle starts each of them once, in order, and after an
   export that returns references cleanup is admitted and all evidence is kept.
   */
  lemma RetryAdmitsCleanup(r: Run, refs: Returned, last: seq<Ref>)
    requires Invariant(r) && r.phase == Retained && r.producer.None? && last != []
    ensures var left := Unattempted(r.stages, r.next);
            var t := Play(r, [Retries(true)] + SettlingOf(left, refs) + [Settles(last), ExportDone]);
            && t.admitted && t.await == AtDisposal
            && t.history.starts == r.history.starts + left + [Exporting]
            && t.logs.evidence == r.logs.evidence + AllReturned(left, refs) + last
  {
    hide Invariant, Step, Unattempted, IsWaiting, AllReturned, SettlingOf;
    var left := Unattempted(r.stages, r.next);
    var settling := SettlingOf(left, refs);
    RetryWaits(r);
    PlayedOn(r, [], Retries(true));
    assert [] + [Retries(true)] == [Retries(true)];
    WaitingStagesSettle(Play(r, [Retries(true)]), left, refs);
    assert left == [] || left == left[..1] + left[1..];
    PlayedTogether(r, [Retries(true)], settling);
    hide Play;
    ExportPlayed(r, [Retries(true)] + settling, last);
  }

  lemma ExportPlayed(r: Run, events: seq<Event>, last: seq<Ref>)
    requires IsWaiting(Play(r, events)) && Play(r, events).await == AtExport && last != []
    ensures var ready, t := Play(r, events), Play(r, events + [Settles(last), ExportDone]);
            && t.admitted && t.await == AtDisposal && t.history.starts == ready.history.starts
            && t.logs.evidence == ready.logs.evidence + last
  {
    hide Step, IsWaiting;
    PlayedOn(r, events, Settles(last));
    PlayedOn(r, events + [Settles(last)], ExportDone);
    assert events + [Settles(last), ExportDone] == events + [Settles(last)] + [ExportDone];
    WaitingExportAdmits(Play(r, events), last);
  }

  lemma RetryWaits(r: Run)
    requires Invariant(r) && r.phase == Retained && r.producer.None?
    ensures var t, left := Step(r, Retries(true)), Unattempted(r.stages, r.next);
            && IsWaiting(t) && |t.stages| == 3 && t.logs.evidence == r.logs.evidence
            && if left == [] then t.await == AtExport && t.history.starts == r.history.starts + [Exporting]
               else
                 && t.await == AtStage && t.history.starts == r.history.starts + left[..1]
                 && Unattempted(t.stages, t.next) == left[1..]
  {
    assert FlowIsSound(r);
    hide ProducerIsSound, StartsAreSound, CleanIsOnTrack, AdmissionIsSound, ReportsAreSound, ReleaseIsSound, RunStages, Unattempted;
    ResumeWaits(r.(finished := true, exports := true));
  }

  lemma WaitingExportAdmits(r: Run, refs: seq<Ref>)
    requires IsWaiting(r) && r.await == AtExport && refs != []
    ensures var t := Step(Step(r, Settles(refs)), ExportDone);
            && t.admitted && t.await == AtDisposal && t.history.starts == r.history.starts
            && t.logs.evidence == r.logs.evidence + refs
  {
  }

  // ---- A run that passes ---------------------------------------------------------------------------

  lemma Extended(trace: seq<Event>, e: Event)
    ensures After(trace + [e]) == Step(After(trace), e)
  {
    hide Step;
    assert (trace + [e])[..|trace|] == trace;
  }

  /** A run with all hooks and one resource in which nothing has gone wrong, waiting for a stage or for the export. */
  predicate IsFlawless(r: Run) {
    && r.race == Open && r.producer.Some? && r.stages == [true, true, true] && r.exports && r.next <= 3
    && r.logs.errors == [] && r.captured == [] && !r.rejects && r.resources == [Resource("r", false, None)]
  }

  lemma FlawlessMeasurement() returns (trace: seq<Event>)
    ensures var r := After(trace);
            && r.phase == Measuring && r.await == Idle && r.producer.None? && !r.finished && r.next == 0
            && r.logs.errors == [] && r.captured == [] && !r.rejects && r.resources == [Resource("r", false, None)]
  {
    hide After, FULL_LIFECYCLE;
    StartsNew();
    Extended([], Tracks("r"));
    Extended([] + [Tracks("r")], StartDone);
    Extended([] + [Tracks("r")] + [StartDone], MeasurementBegins);
    trace := [] + [Tracks("r")] + [StartDone] + [MeasurementBegins];
  }

  lemma FlawlessStart() returns (trace: seq<Event>)
    ensures var r := After(trace); IsFlawless(r) && r.await == AtStage && r.next == 1
  {
    hide After;
    trace := FlawlessMeasurement();
    Extended(trace, Finishes((true, true, true), true));
    trace := trace + [Finishes((true, true, true), true)];
  }

  lemma StartsNew()
    ensures After([]) == NewRun()
  {
  }

  /** A stage whose hook settles in time is followed by the next producer. */
  lemma FlawlessStage(before: seq<Event>) returns (trace: seq<Event>)
    requires IsFlawless(After(before)) && After(before).await == AtStage
    ensures var r, t := After(before), After(trace);
            IsFlawless(t) && if r.next == 3 then t.await == AtExport else t.await == AtStage && t.next == r.next + 1
  {
    hide After;
    Extended(before, Settles([]));
    Extended(before + [Settles([])], StageDone);
    trace := before + [Settles([])] + [StageDone];
  }

  lemma FlawlessExport(before: seq<Event>) returns (trace: seq<Event>)
    requires IsFlawless(After(before)) && After(before).await == AtExport
    ensures var t := After(trace);
            && t.await == AtDisposal && t.admitted && t.producer.None? && t.logs.errors == [] && t.captured == [] && !t.rejects
            && t.resources == [Resource("r", false, None)]
  {
    hide After;
    Extended(before, Settles([1]));
    Extended(before + [Settles([1])], ExportDone);
    trace := before + [Settles([1])] + [ExportDone];
  }

  lemma CleanupSucceeds(before: seq<Event>)
    requires var t := After(before);
             && t.await == AtDisposal && t.admitted && t.producer.None? && t.logs.errors == [] && t.captured == [] && !t.rejects
             && t.resources == [Resource("r", false, None)]
    ensures var t := After(before + [CleansUp(0)]);
            && t.await == AtDisposal && t.logs.errors == [] && t.captured == [] && !t.rejects
            && |t.resources| == 1 && t.resources[0] == Resource("r", true, None)
  {
    hide After;
    Extended(before, CleansUp(0));
  }

  lemma VerificationSucceeds(before: seq<Event>, x: Resource) returns (trace: seq<Event>)
    requires var t := After(before);
             t.await == AtDisposal && t.logs.errors == [] && t.captured == [] && !t.rejects && |t.resources| == 1 && t.resources[0] == x
    ensures var t := After(trace);
            && t.await.AtVerification? && t.await.disposed && t.await.observed == [Some(Outcome(x.id, x.attempted, true, [2], x.cleanupError))]
            && t.logs.errors == [] && t.captured == []
  {
    hide After;
    Extended(before, DisposalDone(None, true));
    Extended(before + [DisposalDone(None, true)], ResourceVerified(0, true, [2]));
    trace := before + [DisposalDone(None, true)] + [ResourceVerified(0, true, [2])];
  }

  /** A run does pass, and is released, when every hook settles in time and its one cleanup does its work. */
  lemma FlawlessRunPasses() returns (trace: seq<Event>)
    ensures HasPassed(After(trace)) && After(trace).history.releases == 1
  {
    hide After, Step, Invariant, IsFlawless;
    trace := FlawlessStart();
    trace := FlawlessStage(trace);
    trace := FlawlessStage(trace);
    trace := FlawlessStage(trace);
    trace := FlawlessExport(trace);
    CleanupSucceeds(trace);
    trace := VerificationSucceeds(trace + [CleansUp(0)], Resource("r", true, None));
    RunKeeps(trace);
    var r := After(trace);
    OneOutcome(r.await.observed, Outcome("r", true, true, [2], None));
    PassesExactly(r);
    Extended(trace, VerificationDone);
    Extended(trace + [VerificationDone], LogStopped);
    trace := trace + [VerificationDone] + [LogStopped];
    LastTwoSteps(r);
  }

  lemma OneOutcome(observed: seq<Option<Outcome>>, o: Outcome)
    requires observed == [Some(o)]
    ensures AllObserved(observed) && Values(observed) == [o]
    ensures CleanupPassed(Values(observed)) <==> Released(o) && !Truthy(o.cleanupError)
  {
    var outcomes := Values(observed);
    assert outcomes == [o];
    assert outcomes[0] in outcomes;
  }

  lemma LastTwoSteps(r: Run)
    requires r.await.AtVerification? && AllObserved(r.await.observed)
    ensures var t := Step(Step(r, VerificationDone), LogStopped);
            && t == LogStopReturns(VerificationReturns(r)) && t.history.reports != []
            && t.history.reports[|t.history.reports| - 1].outcomes == Values(r.await.observed)
  {
  }
}
