/** Which hooks a run calls: those it was given, each of them, and no others. */
module RunHooks {
  import opened Outcomes
  import opened RunModel
  import opened RunProtocol
  import opened RunHistory

  /** The stages for which the caller gave a hook. */
  function HookedStages(stages: (bool, bool, bool)): seq<Phase> {
    (if stages.0 then [Closing] else []) + (if stages.1 then [Capturing] else []) + (if stages.2 then [Draining] else [])
  }

  /**
   A measured run that is finished starts exactly the stages that have a hook,
   in order, and then its export; when all of them settle, cleanup is admitted
   with all evidence kept.
   */
  lemma FinishRunsEveryHook(r: Run, stages: (bool, bool, bool), refs: Returned, last: seq<Ref>)
    requires Invariant(r) && r.phase == Measuring && last != []
    ensures var hooked := HookedStages(stages);
            var t := Play(r, [Finishes(stages, true)] + SettlingOf(hooked, refs) + [Settles(last), ExportDone]);
            && t.admitted && t.await == AtDisposal
            && t.history.starts == r.history.starts + hooked + [Exporting]
            && t.logs.evidence == r.logs.evidence + AllReturned(hooked, refs) + last
  {
    hide Invariant, Step, IsWaiting, AllReturned, SettlingOf, HookedStages;
    var hooked, finish := HookedStages(stages), Finishes(stages, true);
    var settling := SettlingOf(hooked, refs);
    FinishWaits(r, stages);
    PlayedOn(r, [], finish);
    assert [] + [finish] == [finish];
    WaitingStagesSettle(Play(r, [finish]), hooked, refs);
    assert hooked == [] || hooked == hooked[..1] + hooked[1..];
    PlayedTogether(r, [finish], settling);
    hide Play;
    ExportPlayed(r, [finish] + settling, last);
  }

  lemma FinishWaits(r: Run, stages: (bool, bool, bool))
    requires Invariant(r) && r.phase == Measuring
    ensures var t, hooked := Step(r, Finishes(stages, true)), HookedStages(stages);
            && IsWaiting(t) && |t.stages| == 3 && t.logs.evidence == r.logs.evidence && AwaitsAll(t, hooked)
            && t.history.starts == r.history.starts + if hooked == [] then [Exporting] else hooked[..1]
  {
    assert FlowIsSound(r) && ProducerIsSound(r);
    hide StartsAreSound, CleanIsOnTrack, AdmissionIsSound, ReportsAreSound, ReleaseIsSound, RunStages, Unattempted;
    var list := [stages.0, stages.1, stages.2];
    HookedAreUnattempted(stages);
    ResumeWaits(r.(finished := true, stages := list, exports := true));
  }

  lemma HookedAreUnattempted(stages: (bool, bool, bool))
    ensures Unattempted([stages.0, stages.1, stages.2], 0) == HookedStages(stages)
  {
    var list := [stages.0, stages.1, stages.2];
    assert Unattempted(list, 3) == [];
    assert Unattempted(list, 2) == if stages.2 then [Draining] else [];
    assert Unattempted(list, 1) == (if stages.1 then [Capturing] else []) + Unattempted(list, 2);
  }

  predicate TakesHooks(r: Run, e: Event, t: Run) {
    if e.Finishes? && !r.finished && !r.await.Starting? && !r.await.Probing? then
      t.stages == [e.stages.0, e.stages.1, e.stages.2] && t.exports == e.exports
    else if e.Retries? && r.phase == Retained then t.stages == r.stages && t.exports == e.exports
    else
      || (t.stages == r.stages && t.exports == r.exports)
      || ((e.StartFailed? || e.ProbeDone?) && t.stages == [false, false, false] && !t.exports)
  }

  /** The hooks a run has are those of the call that finished it, and of the last retry. */
  lemma HooksAreGiven(r: Run, e: Event)
    ensures TakesHooks(r, e, Step(r, e))
  {
    if IsAside(e) {
      hide Step;
      AsideKeepsHooks(r, e);
    } else if GoesOn(e) {
      hide Step;
      FlowKeepsHooks(r, e);
    } else {
      hide RunStages, Resume, Finish, RetryExport, StageReturns, ProbeReturns, StartFails, Track, CleanUp, CleanupFails, Log, Verify,
        AllReleased, AllObserved, AllRefs, CleanupErrors, CapturedErrors, CleanupPassed, Values, PendingOutcomes;
    }
  }

  lemma AsideKeepsHooks(r: Run, e: Event)
    requires IsAside(e)
    ensures Step(r, e).stages == r.stages && Step(r, e).exports == r.exports
  {
    hide Finish, RetryExport, StageReturns, ExportReturns, DisposalReturns, LogStopReturns, ProbeReturns, StartFails, VerificationReturns,
      Produce, Interrupt, SettleWithRefs, SettleWithError;
  }

  lemma {:induction false} RunStagesKeepHooks(r: Run)
    ensures var t := RunStages(r); t.stages == r.stages && t.exports == r.exports
    decreases |r.stages| - r.next
  {
    if r.next < |r.stages| && !r.stages[r.next] {
      RunStagesKeepHooks(SkippedStage(r));
    }
  }

  lemma ResumeKeepsHooks(r: Run)
    ensures var t := Resume(r); t.stages == r.stages && t.exports == r.exports
  {
    hide RunStages;
    RunStagesKeepHooks(r);
  }

  lemma FinishTakesHooks(r: Run, stages: seq<bool>, exports: bool)
    ensures var t := Finish(r, stages, exports); if r.finished then t == r else t.stages == stages && t.exports == exports
  {
    hide Resume;
    ResumeKeepsHooks(r.(finished := true, stages := stages, exports := exports,
                        logs := if r.phase != Measuring then r.logs.(errors := r.logs.errors + [NotMeasured]) else r.logs));
  }

  lemma FlowKeepsHooks(r: Run, e: Event)
    requires GoesOn(e)
    ensures TakesHooks(r, e, Step(r, e))
  {
    hide RunStages, Resume, Finish, Faulted;
    if e.Retries? {
      ResumeKeepsHooks(r.(finished := true, exports := e.exports));
    } else if e.StageDone? && r.race.Won? {
      RunStagesKeepHooks(r.(logs := Noted(r.logs, r.phase, true, None)));
    } else if e.StageDone? && r.race.Threw? {
      RunStagesKeepHooks(r.(logs := Faulted(r.logs, r.phase, r.race.cause)));
    } else if e.Finishes? {
      FinishTakesHooks(r, [e.stages.0, e.stages.1, e.stages.2], e.exports);
    } else if e.StartFailed? {
      FinishTakesHooks(r.(await := Idle, logs := Faulted(r.logs, Preloading, e.cause)), [false, false, false], false);
    } else if e.ProbeDone? && r.race != Open {
      var cause := if r.race.Threw? then r.race.cause else NotReady;
      FinishTakesHooks(r.(await := Idle, logs := Faulted(r.logs, Preloading, cause)), [false, false, false], false);
    }
  }

  /** A stage and the export start only with a hook. */
  lemma NothingStartsWithoutHook(r: Run, e: Event)
    ensures var t := Step(r, e);
            t.history.starts == r.history.starts || StartsHooked(r, t) || (e.Probes? && t.history.starts == r.history.starts + [Preloading])
  {
    if IsAside(e) {
      hide Step;
      AsideStartsNothing(r, e);
    } else if GoesOn(e) {
      hide Step;
      FlowStartsHooked(r, e);
    } else {
      hide RunStages, Resume, Finish, RetryExport, StageReturns, ProbeReturns, StartFails, Track, CleanUp, CleanupFails, Log, Verify,
        AllReleased, AllObserved, AllRefs, CleanupErrors, CapturedErrors, CleanupPassed, Values, PendingOutcomes;
    }
  }

  /** One producer was started, for which there is a hook. */
  predicate StartsHooked(r: Run, t: Run) {
    || (t.exports && t.history.starts == r.history.starts + [Exporting])
    || (exists i :: 0 <= i < |t.stages| && t.stages[i] && t.history.starts == r.history.starts + [StagePhase(i)])
  }

  lemma AsideStartsNothing(r: Run, e: Event)
    requires IsAside(e)
    ensures Step(r, e).history.starts == r.history.starts
  {
    hide Finish, RetryExport, StageReturns, ExportReturns, DisposalReturns, LogStopReturns, ProbeReturns, StartFails, VerificationReturns,
      Produce, Interrupt, SettleWithRefs, SettleWithError;
  }

  lemma {:induction false} RunStagesStartHooked(r: Run)
    ensures var t := RunStages(r); t.history.starts == r.history.starts || StartsHooked(r, t)
    decreases |r.stages| - r.next
  {
    if r.next < |r.stages| && !r.stages[r.next] {
      RunStagesStartHooked(SkippedStage(r));
    } else if r.next < |r.stages| {
      assert EnteredStage(r).stages[r.next];
    }
  }

  lemma ResumeStartsHooked(r: Run)
    ensures var t := Resume(r); t.history.starts == r.history.starts || StartsHooked(r, t)
  {
    hide RunStages, StartsHooked;
    RunStagesStartHooked(r);
  }

  lemma FinishStartsHooked(r: Run, stages: seq<bool>, exports: bool)
    ensures var t := Finish(r, stages, exports); t.history.starts == r.history.starts || StartsHooked(r, t)
  {
    hide Resume;
    ResumeStartsHooked(r.(finished := true, stages := stages, exports := exports,
                          logs := if r.phase != Measuring then r.logs.(errors := r.logs.errors + [NotMeasured]) else r.logs));
  }

  lemma FlowStartsHooked(r: Run, e: Event)
    requires GoesOn(e)
    ensures var t := Step(r, e); t.history.starts == r.history.starts || StartsHooked(r, t)
  {
    hide RunStages, Resume, Finish, Faulted;
    if e.Retries? {
      ResumeStartsHooked(r.(finished := true, exports := e.exports));
    } else if e.StageDone? && r.race.Won? {
      RunStagesStartHooked(r.(logs := Noted(r.logs, r.phase, true, None)));
    } else if e.StageDone? && r.race.Threw? {
      RunStagesStartHooked(r.(logs := Faulted(r.logs, r.phase, r.race.cause)));
    } else if e.Finishes? {
      FinishStartsHooked(r, [e.stages.0, e.stages.1, e.stages.2], e.exports);
    } else if e.StartFailed? {
      FinishStartsHooked(r.(await := Idle, logs := Faulted(r.logs, Preloading, e.cause)), [false, false, false], false);
    } else if e.ProbeDone? && r.race != Open {
      var cause := if r.race.Threw? then r.race.cause else NotReady;
      FinishStartsHooked(r.(await := Idle, logs := Faulted(r.logs, Preloading, cause)), [false, false, false], false);
    }
  }

  // ---- Failures ----------------------------------------------------------------------------------

  /** A stage that fails, or whose deadline passes, leaves its cause among the errors and its phase failed. */
  lemma StageFailureIsRecorded(r: Run, e: Event, cause: Diagnostic)
    requires Invariant(r) && r.await == AtStage && r.race == Open && (e == Interrupted(cause) || (e.Fails? && e.cause == cause))
    ensures var t := Step(Step(r, e), StageDone);
            && cause in t.logs.errors && Observation(r.phase, false, Some(cause)) in t.logs.phases
            && (e.Interrupted? ==> t.phase == Retained && t.producer.Some?)
  {
    StepKeeps(r, e);
    FailureDecides(r, e, cause);
    var s := Step(r, e);
    hide Step;
    StageFailsKeeps(s);
    var noted := s.(logs := Faulted(s.logs, s.phase, cause));
    ResumeKeeps(noted);
    StageResumes(s, noted);
    var t := Resume(noted);
    StageDoneStep(s);
    hide Invariant, MidResume, StartsAlone, CleansAlone, RunStages;
    assert noted.logs.errors[|s.logs.errors|] == cause;
    assert noted.logs.phases[|s.logs.phases|] == Observation(s.phase, false, Some(cause));
    PrefixKeeps(noted.logs.errors, t.logs.errors, |s.logs.errors|);
    PrefixKeeps(noted.logs.phases, t.logs.phases, |s.logs.phases|);
  }

  lemma PrefixKeeps<T>(a: seq<T>, b: seq<T>, i: nat)
    requires a <= b && i < |a|
    ensures a[i] in b
  {
    assert b[i] == a[i];
  }

  lemma StageDoneStep(r: Run)
    ensures Step(r, StageDone) == StageReturns(r)
  {
    hide StageReturns;
  }

  /** What decides the race of an awaited producer: a failure ends it, a deadline does not. */
  lemma FailureDecides(r: Run, e: Event, cause: Diagnostic)
    requires Invariant(r) && Awaits(r) && r.race == Open && (e == Interrupted(cause) || (e.Fails? && e.cause == cause))
    ensures var t := Step(r, e);
            && t.race == Threw(cause) && t.await == r.await && t.phase == r.phase && t.stages == r.stages
            && (t.producer.Some? <==> e.Interrupted?)
  {
    assert ProducerIsSound(r);
    hide FlowIsSound, StartsAreSound, CleanIsOnTrack, AdmissionIsSound, ReportsAreSound, ReleaseIsSound;
  }

  lemma ThrownExportIsRecorded(r: Run, cause: Diagnostic)
    requires r.await == AtExport && r.race == Threw(cause)
    ensures var t := ExportReturns(r);
            && t.phase == Retained && t.admitted == r.admitted && t.producer == r.producer && cause in t.logs.errors
            && Observation(Exporting, false, Some(cause)) in t.logs.phases
  {
    var t := ExportReturns(r);
    assert t.logs.errors[|r.logs.errors|] == cause;
    assert t.logs.phases[|r.logs.phases|] == Observation(Exporting, false, Some(cause));
  }

  /** The same for an export: the run is retained with the cause. */
  lemma ExportFailureIsRecorded(r: Run, e: Event, cause: Diagnostic)
    requires Invariant(r) && r.await == AtExport && r.race == Open && (e == Interrupted(cause) || (e.Fails? && e.cause == cause))
    ensures var t := Step(Step(r, e), ExportDone);
            && t.phase == Retained && !t.admitted && cause in t.logs.errors
            && Observation(Exporting, false, Some(cause)) in t.logs.phases
            && (t.producer.Some? <==> e.Interrupted?)
  {
    hide Invariant, Sound, ExportReturns, Step;
    StepKeeps(r, e);
    FailureDecides(r, e, cause);
    SoundIsInvariant(r, Step(r, e));
    ExportReturnsKeeps(Step(r, e));
    ThrownExportIsRecorded(Step(r, e), cause);
    ExportDoneStep(Step(r, e));
  }

  lemma SoundIsInvariant(r: Run, t: Run)
    requires Sound(r, t)
    ensures Invariant(t)
  {
    hide Invariant;
  }

  lemma ExportDoneStep(r: Run)
    ensures Step(r, ExportDone) == ExportReturns(r)
  {
    hide ExportReturns;
  }

  /** A disposal that fails, or resolves without the disposed state, is an error of the run and of its phase. */
  lemma DisposalFailureIsRecorded(r: Run, failure: Option<Diagnostic>, observed: bool)
    requires r.await == AtDisposal && (failure.Some? || (!observed && !r.rejects))
    ensures var t, cause := Step(r, DisposalDone(failure, observed)), if failure.Some? then failure.value else NotDisposed;
            && t.await.AtVerification? && !t.await.disposed && |t.await.observed| == |r.resources|
            && t.logs.errors == r.logs.errors + [cause] && t.logs.phases == r.logs.phases + [Observation(Disposing, false, Some(cause))]
  {
  }

  /** A composition that is not ready, or whose probe has no evidence, never becomes ready: its run is retained and starts nothing. */
  lemma UnreadyRunIsRetained(r: Run, ready: bool)
    requires Invariant(r) && r.await == Probing && r.race.Won? && (!ready || r.race.refs == [])
    ensures var t := Step(r, ProbeDone(ready));
            t.phase == Retained && NotReady in t.logs.errors && t.history.starts == r.history.starts
  {
    assert r.producer.None? by {
      SettledIsOver(r);
    }
    hide Invariant;
    var failed := r.(await := Idle, logs := Faulted(r.logs, Preloading, NotReady));
    FailedStartIsRetained(failed);
    assert failed.logs.errors[|r.logs.errors|] == NotReady;
    hide Finish;
    PrefixKeeps(failed.logs.errors, Finish(failed, [false, false, false], false).logs.errors, |r.logs.errors|);
  }

  lemma SettledIsOver(r: Run)
    requires Invariant(r) && r.await == Probing && r.race.Won?
    ensures r.producer.None? && !r.finished && r.next == 0
  {
    hide StartsAreSound, CleanIsOnTrack, AdmissionIsSound, ReportsAreSound, ReleaseIsSound;
  }

  /** Without hooks a completion notes what is missing and retains the run. */
  lemma FailedStartIsRetained(r: Run)
    requires !r.finished && r.producer.None? && r.next == 0
    ensures var t := Finish(r, [false, false, false], false);
            t.phase == Retained && r.logs.errors <= t.logs.errors && t.history.starts == r.history.starts
  {
    var entered := r.(finished := true, stages := [false, false, false], exports := false,
                      logs := if r.phase != Measuring then r.logs.(errors := r.logs.errors + [NotMeasured]) else r.logs);
    UnhookedIsRetained(entered);
    hide RunStages;
  }

  lemma {:induction false} UnhookedIsRetained(r: Run)
    requires !r.exports && forall i :: r.next <= i < |r.stages| ==> !r.stages[i]
    ensures var t := RunStages(r);
            t.phase == Retained && r.logs.errors <= t.logs.errors && t.history.starts == r.history.starts
    decreases |r.stages| - r.next
  {
    if r.next < |r.stages| {
      UnhookedIsRetained(SkippedStage(r));
    }
  }

  /** A composition whose probe is ready and has evidence becomes ready: the probe was started, and its evidence is kept. */
  lemma ReadyRunStarts(r: Run, refs: seq<Ref>)
    requires Invariant(r) && r.await == Starting && refs != []
    ensures var t := Step(Step(Step(Step(r, Probes), Settles(refs)), ProbeDone(true)), StartDone);
            && t.phase == Ready && t.await == Idle && t.history.starts == r.history.starts + [Preloading]
            && t.logs.evidence == r.logs.evidence + refs && t.logs.errors == r.logs.errors
            && t.logs.phases == r.logs.phases + [Pass(Preloading)] + [Pass(Ready)]
  {
    assert r.producer.None? by {
      NothingIsLiveAtStart(r);
    }
    hide Invariant;
    var probed := Step(Step(r, Probes), Settles(refs));
    assert probed.await == Probing && probed.race == Won(refs) && probed.logs == r.logs.(evidence := r.logs.evidence + refs);
    assert probed.history.starts == r.history.starts + [Preloading];
  }

  lemma NothingIsLiveAtStart(r: Run)
    requires Invariant(r) && r.await == Starting
    ensures r.producer.None?
  {
    hide StartsAreSound, CleanIsOnTrack, AdmissionIsSound, ReportsAreSound, ReleaseIsSound;
  }
}
