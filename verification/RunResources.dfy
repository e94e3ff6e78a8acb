/** What becomes of the resources of a run: each is recorded once, and the final report answers for all of them. */
module RunResources {
  import opened Outcomes
  import opened RunModel
  import opened RunProtocol
  import opened RunHistory

  // ---- Names ---------------------------------------------------------------------------

  predicate AreDistinct(resources: seq<Resource>) {
    forall i, j :: 0 <= i < j < |resources| ==> resources[i].id != resources[j].id
  }

  /** The outcomes are those of the first resources, in order. */
  predicate Names(outcomes: seq<Outcome>, resources: seq<Resource>) {
    |outcomes| <= |resources| && forall i :: 0 <= i < |outcomes| ==> outcomes[i].id == resources[i].id
  }

  predicate NamesObserved(observed: seq<Option<Outcome>>, resources: seq<Resource>) {
    |observed| <= |resources| && forall i :: 0 <= i < |observed| && observed[i].Some? ==> observed[i].value.id == resources[i].id
  }

  /** What is found of a resource is also in the logs. */
  predicate IsLogged(o: Outcome, logs: Logs) {
    && (forall ref :: ref in o.refs ==> ref in logs.evidence)
    && (Truthy(o.cleanupError) ==> o.cleanupError.value in logs.errors)
    && (!Released(o) ==> CleanupUnverified in logs.errors)
  }

  predicate AreLogged(outcomes: seq<Outcome>, logs: Logs) {
    forall o :: o in outcomes ==> IsLogged(o, logs)
  }

  predicate StatusFits(report: Report) {
    && (report.status == ErrorStatus <==> report.logs.errors != [])
    && (report.status == PassedStatus <==> report.logs.errors == [] && report.outcomes != [])
  }

  predicate ReportFits(report: Report, resources: seq<Resource>) {
    && Names(report.outcomes, resources)
    && if IsRetained(report) then forall o :: o in report.outcomes ==> !o.released && o.refs == []
       else AreLogged(report.outcomes, report.logs) && StatusFits(report)
  }

  ghost predicate ResourcesAreSound(r: Run) {
    && AreDistinct(r.resources)
    && (forall i :: 0 <= i < |r.resources| ==> (r.resources[i].attempted <==> i in r.history.cleanups))
    && (forall i :: i in r.history.cleanups ==> i < |r.resources|)
    && (r.await.AtVerification? ==> NamesObserved(r.await.observed, r.resources))
    && (r.await.AtLogStop? ==> Names(r.await.outcomes, r.resources) && AreLogged(r.await.outcomes, r.logs))
    && forall k :: 0 <= k < |r.history.reports| ==> ReportFits(r.history.reports[k], r.resources)
  }

  // ---- Steps that leave the resources alone ----------------------------------------------

  /** Nothing happens to the resources, except that they may be reported as pending. */
  ghost predicate LeavesResources(r: Run, t: Run) {
    && t.resources == r.resources && t.history.cleanups == r.history.cleanups
    && (t.await == r.await || !(t.await.AtVerification? || t.await.AtLogStop?))
    && (t.history.reports == r.history.reports || DefersResources(r, t))
    && r.logs.errors <= t.logs.errors && r.logs.evidence <= t.logs.evidence && t.history.releases == r.history.releases
  }

  predicate DefersResources(r: Run, t: Run) {
    && |t.history.reports| == |r.history.reports| + 1 && t.history.reports[..|r.history.reports|] == r.history.reports
    && var report := t.history.reports[|r.history.reports|];
       report.outcomes == PendingOutcomes(r.resources) && IsRetained(report)
  }

  lemma RetainDefers(r: Run, cause: Diagnostic)
    ensures LeavesResources(r, Retain(r, cause))
  {
  }

  lemma BeginExportLeaves(r: Run)
    ensures LeavesResources(r, BeginExport(r))
  {
    hide Retain, PendingOutcomes;
    if !r.exports {
      var failed := r.(phase := Exporting, logs := Faulted(r.logs, Exporting, ExportMissing));
      RetainDefers(failed, Deferred(Exporting));
    }
  }

  lemma {:induction false} RunStagesLeave(r: Run)
    ensures LeavesResources(r, RunStages(r))
    decreases |r.stages| - r.next
  {
    hide BeginExport, IsRetained, PendingOutcomes;
    BeginExportLeaves(r);
    if r.next < |r.stages| && !r.stages[r.next] {
      RunStagesLeave(SkippedStage(r));
    }
  }

  lemma ResumeLeaves(r: Run)
    ensures LeavesResources(r, Resume(r))
  {
    hide RunStages, Retain, IsRetained, PendingOutcomes;
    RunStagesLeave(r);
    if r.producer.Some? {
      RetainDefers(r, Deferred(r.producer.value.phase));
    }
  }

  lemma FinishLeaves(r: Run, stages: seq<bool>, exports: bool)
    ensures LeavesResources(r, Finish(r, stages, exports))
  {
    hide Resume, IsRetained, PendingOutcomes;
    ResumeLeaves(r.(finished := true, stages := stages, exports := exports,
                    logs := if r.phase != Measuring then r.logs.(errors := r.logs.errors + [NotMeasured]) else r.logs));
  }

  lemma StartFailsLeaves(r: Run, cause: Diagnostic)
    ensures LeavesResources(r, StartFails(r, cause))
  {
    hide Finish, IsRetained, PendingOutcomes;
    FinishLeaves(r.(await := Idle, logs := Faulted(r.logs, Preloading, cause)), [false, false, false], false);
  }

  lemma StageReturnsLeaves(r: Run)
    ensures LeavesResources(r, StageReturns(r))
  {
    hide RunStages, Retain, IsRetained, PendingOutcomes;
    if r.race.Won? {
      RunStagesLeave(r.(logs := Noted(r.logs, r.phase, true, None)));
    } else if r.race.Threw? {
      RunStagesLeave(r.(logs := Faulted(r.logs, r.phase, r.race.cause)));
      RetainDefers(r.(logs := Faulted(r.logs, r.phase, r.race.cause)), Deferred(r.phase));
    }
  }

  lemma ExportReturnsLeaves(r: Run)
    ensures LeavesResources(r, ExportReturns(r))
  {
    hide Retain, IsRetained, PendingOutcomes;
    if r.race.Threw? || r.race.Won? {
      var cause := if r.race.Threw? then r.race.cause else ExportEmpty;
      RetainDefers(r.(logs := Faulted(r.logs, Exporting, cause)), Deferred(Exporting));
    }
  }

  lemma GoingOnLeaves(r: Run, e: Event)
    requires GoesOn(e) || e.ExportDone?
    ensures LeavesResources(r, Step(r, e))
  {
    hide Finish, Resume, StageReturns, ExportReturns, StartFails, IsRetained, PendingOutcomes;
    match e
    case Finishes(stages, exports) => FinishLeaves(r, [stages.0, stages.1, stages.2], exports);
    case Retries(exports) => ResumeLeaves(r.(finished := true, exports := exports));
    case StageDone => StageReturnsLeaves(r);
    case ExportDone => ExportReturnsLeaves(r);
    case StartFailed(cause) => StartFailsLeaves(r, cause);
    case ProbeDone(ready) =>
      StartFailsLeaves(r, if r.race.Threw? then r.race.cause else NotReady);
    case _ =>
  }

  /** Ends a run, or concerns its resources. */
  predicate IsConcluding(e: Event) {
    e.DisposalDone? || e.VerificationDone? || e.LogStopped?
  }

  lemma SettlingLeaves(r: Run, e: Event)
    requires e.Interrupted? || e.Settles? || e.Fails?
    ensures LeavesResources(r, Step(r, e))
  {
    hide IsRetained, PendingOutcomes, Finish, RetryExport, StageReturns, ExportReturns, ProbeReturns, StartFails, DisposalReturns,
      VerificationReturns, LogStopReturns, Verify, Track, CleanUp, CleanupFails, Log, Produce;
  }

  lemma StartingLeaves(r: Run, e: Event)
    requires e.Probes? || e.ProbeRefused? || e.StartDone? || e.MeasurementBegins?
    ensures LeavesResources(r, Step(r, e))
  {
    hide IsRetained, PendingOutcomes, Finish, RetryExport, StageReturns, ExportReturns, ProbeReturns, StartFails, DisposalReturns,
      VerificationReturns, LogStopReturns, Verify, Track, CleanUp, CleanupFails, Log, Interrupt, SettleWithRefs, SettleWithError;
  }

  lemma OthersLeave(r: Run, e: Event)
    requires !IsAside(e) && !IsConcluding(e)
    ensures LeavesResources(r, Step(r, e))
  {
    hide Step, LeavesResources;
    if GoesOn(e) || e.ExportDone? {
      GoingOnLeaves(r, e);
    } else if e.Interrupted? || e.Settles? || e.Fails? {
      SettlingLeaves(r, e);
    } else {
      StartingLeaves(r, e);
    }
  }

  lemma PendingFits(r: Run, report: Report)
    requires report.outcomes == PendingOutcomes(r.resources) && IsRetained(report)
    ensures ReportFits(report, r.resources)
  {
    hide IsRetained;
  }

  lemma LoggedStays(outcomes: seq<Outcome>, before: Logs, after: Logs)
    requires AreLogged(outcomes, before) && before.errors <= after.errors && before.evidence <= after.evidence
    ensures AreLogged(outcomes, after)
  {
  }

  lemma LeavingKeeps(r: Run, t: Run)
    requires ResourcesAreSound(r) && LeavesResources(r, t)
    ensures ResourcesAreSound(t)
  {
    hide AreDistinct, NamesObserved, Names, AreLogged, ReportFits, IsRetained, PendingOutcomes;
    if r.await.AtLogStop? && t.await == r.await {
      LoggedStays(r.await.outcomes, r.logs, t.logs);
    }
    if t.history.reports != r.history.reports {
      PendingFits(r, t.history.reports[|r.history.reports|]);
    }
  }

  // ---- Steps that concern the resources ----------------------------------------------------

  /** The resources keep their names; there may be more of them. */
  predicate NamesStay(before: seq<Resource>, after: seq<Resource>) {
    |before| <= |after| && forall i :: 0 <= i < |before| ==> after[i].id == before[i].id
  }

  lemma NamedStays(r: Run, t: Run)
    requires ResourcesAreSound(r) && NamesStay(r.resources, t.resources)
    requires t.history.reports == r.history.reports && r.logs.errors <= t.logs.errors && r.logs.evidence <= t.logs.evidence
    ensures forall k :: 0 <= k < |t.history.reports| ==> ReportFits(t.history.reports[k], t.resources)
    ensures r.await.AtVerification? ==> NamesObserved(r.await.observed, t.resources)
    ensures r.await.AtLogStop? ==> Names(r.await.outcomes, t.resources) && AreLogged(r.await.outcomes, t.logs)
  {
    hide AreDistinct, AreLogged, IsRetained;
    if r.await.AtLogStop? {
      LoggedStays(r.await.outcomes, r.logs, t.logs);
    }
  }

  lemma LogLeaves(r: Run, text: string)
    ensures var t := Log(r, text);
            t.resources == r.resources && t.history == r.history && t.await == r.await && r.logs.errors <= t.logs.errors &&
            r.logs.evidence == t.logs.evidence
  {
    hide Terminal;
    var t := Log(r, text);
    if t != r && |r.captured| >= CAPTURED_LIMIT {
      assert t.logs.errors == r.logs.errors + [LogOverflow];
    }
  }

  lemma AsideNames(r: Run, e: Event)
    requires IsAside(e)
    ensures var t := Step(r, e);
            && NamesStay(r.resources, t.resources) && t.history.reports == r.history.reports
            && r.logs.errors <= t.logs.errors && r.logs.evidence == t.logs.evidence && t.history.releases == r.history.releases
            && (!e.ResourceVerified? ==> t.await == r.await)
  {
    hide Finish, RetryExport, StageReturns, ExportReturns, ProbeReturns, StartFails, DisposalReturns, VerificationReturns, LogStopReturns,
      Produce, Interrupt, SettleWithRefs, SettleWithError, Log, Track, CleanUp, CleanupFails, Verify;
    match e
    case Tracks(id) => TrackNames(r, id);
    case CleansUp(i) => CleanUpNames(r, i);
    case CleanupFailed(i, text, logged) => FailureNames(r, i, text, logged);
    case Logged(text) => LogLeaves(r, text);
    case ResourceVerified(i, released, refs) => VerifyLeaves(r, i, released, refs);
    case _ =>
  }

  lemma TrackNames(r: Run, id: string)
    ensures var t := Track(r, id);
            && NamesStay(r.resources, t.resources) && t.history == r.history && t.await == r.await && t.logs == r.logs
  {
  }

  lemma CleanUpNames(r: Run, i: nat)
    ensures var t := CleanUp(r, i);
            && NamesStay(r.resources, t.resources) && t.history.reports == r.history.reports && t.await == r.await
            && t.history.releases == r.history.releases
            && r.logs.errors <= t.logs.errors && r.logs.evidence == t.logs.evidence
  {
  }

  lemma FailureNames(r: Run, i: nat, text: string, logged: bool)
    ensures var t := CleanupFails(r, i, text, logged);
            && NamesStay(r.resources, t.resources) && t.history == r.history && t.await == r.await
            && r.logs.errors <= t.logs.errors && r.logs.evidence == t.logs.evidence
  {
    hide Log;
    if i < |r.resources| {
      LogLeaves(r.(resources := r.resources[i := r.resources[i].(cleanupError := Some(Message(text)))]), text);
    }
  }

  lemma VerifyLeaves(r: Run, i: nat, released: bool, refs: seq<Ref>)
    ensures var t := Verify(r, i, released, refs);
            t.resources == r.resources && t.history == r.history && t.logs == r.logs
  {
  }

  /** A resource that is tracked under a new name is recorded, and its cleanup has not been called. */
  lemma TrackRecords(r: Run, id: string)
    requires ResourcesAreSound(r)
    ensures var t := Track(r, id);
            && AreDistinct(t.resources)
            && (forall i :: 0 <= i < |t.resources| ==> (t.resources[i].attempted <==> i in t.history.cleanups))
            && (exists i :: 0 <= i < |t.resources| && t.resources[i].id == id)
  {
    hide NamesObserved, Names, AreLogged, ReportFits;
    if forall i :: 0 <= i < |r.resources| ==> r.resources[i].id != id {
      assert Track(r, id).resources[|r.resources|].id == id;
    }
  }

  lemma CleanUpIsCounted(r: Run, i: nat)
    requires ResourcesAreSound(r)
    ensures var t := CleanUp(r, i);
            && AreDistinct(t.resources)
            && (forall j :: 0 <= j < |t.resources| ==> (t.resources[j].attempted <==> j in t.history.cleanups))
            && (forall j :: j in t.history.cleanups ==> j < |t.resources|)
  {
    hide NamesObserved, Names, AreLogged, ReportFits;
  }

  lemma FailureChangesNoCount(r: Run, i: nat, text: string, logged: bool)
    requires ResourcesAreSound(r)
    ensures var t := CleanupFails(r, i, text, logged);
            && AreDistinct(t.resources) && t.history == r.history
            && (forall j :: 0 <= j < |t.resources| ==> (t.resources[j].attempted <==> j in t.history.cleanups))
  {
    hide NamesObserved, Names, AreLogged, ReportFits, Log;
    if i < |r.resources| {
      LogLeaves(r.(resources := r.resources[i := r.resources[i].(cleanupError := Some(Message(text)))]), text);
    }
  }

  lemma VerifyNames(r: Run, i: nat, released: bool, refs: seq<Ref>)
    requires ResourcesAreSound(r)
    ensures ResourcesAreSound(Verify(r, i, released, refs))
  {
    hide AreDistinct, Names, AreLogged, ReportFits;
  }

  lemma AsideKeeps(r: Run, e: Event)
    requires ResourcesAreSound(r) && IsAside(e)
    ensures ResourcesAreSound(Step(r, e))
  {
    AsideNames(r, e);
    if e.ResourceVerified? {
      VerifyNames(r, e.i, e.released, e.refs);
    } else {
      NamedStays(r, Step(r, e));
      hide AreDistinct, NamesObserved, Names, AreLogged, ReportFits, Verify, Finish, RetryExport, StageReturns, ExportReturns, ProbeReturns,
        StartFails, DisposalReturns, VerificationReturns, LogStopReturns, Produce, Interrupt, SettleWithRefs, SettleWithError;
      match e
      case Tracks(id) => hide CleanUp, CleanupFails, Log; TrackRecords(r, id);
      case CleansUp(i) => hide Track, CleanupFails, Log; CleanUpIsCounted(r, i);
      case CleanupFailed(i, text, logged) => hide Track, CleanUp, CleanupFails; FailureChangesNoCount(r, i, text, logged);
      case Logged(text) => hide Track, CleanUp, CleanupFails, Log; LogLeaves(r, text);
      case _ =>
    }
  }

  // ---- The end of a run ----------------------------------------------------------------------

  lemma DisposalNames(r: Run, failure: Option<Diagnostic>, observed: bool)
    requires ResourcesAreSound(r)
    ensures ResourcesAreSound(DisposalReturns(r, failure, observed))
  {
    hide AreDistinct, Names, AreLogged, ReportFits;
  }

  lemma {:induction false} AllRefsAreThere(outcomes: seq<Outcome>)
    ensures forall o, ref :: o in outcomes && ref in o.refs ==> ref in AllRefs(outcomes)
  {
    if outcomes != [] {
      AllRefsAreThere(outcomes[1..]);
      assert forall o :: o in outcomes ==> o == outcomes[0] || o in outcomes[1..];
    }
  }

  lemma {:induction false} CleanupErrorsAreThere(outcomes: seq<Outcome>)
    ensures forall o :: o in outcomes && Truthy(o.cleanupError) ==> o.cleanupError.value in CleanupErrors(outcomes)
  {
    if outcomes != [] {
      CleanupErrorsAreThere(outcomes[1..]);
      assert forall o :: o in outcomes ==> o == outcomes[0] || o in outcomes[1..];
    }
  }

  /** Verification puts into the logs whatever was found of the resources. */
  lemma VerificationIsLogged(r: Run)
    requires r.await.AtVerification? && AllObserved(r.await.observed)
    ensures var t := VerificationReturns(r);
            && t.await.AtLogStop? && t.await.outcomes == Values(r.await.observed) && AreLogged(t.await.outcomes, t.logs)
            && r.logs.errors <= t.logs.errors && r.logs.evidence <= t.logs.evidence && t.history == r.history
            && t.resources == r.resources
            && forall text :: text in r.captured ==> Captured(text) in t.logs.errors
  {
    hide AllRefs, CleanupErrors, Truthy, Released, Values, CapturedErrors;
    var outcomes := Values(r.await.observed);
    AllRefsAreThere(outcomes);
    CleanupErrorsAreThere(outcomes);
    CapturedAreErrors(r.captured);
  }

  lemma CapturedAreErrors(captured: seq<string>)
    ensures forall text :: text in captured ==> Captured(text) in CapturedErrors(captured)
  {
    forall text | text in captured ensures Captured(text) in CapturedErrors(captured) {
      var i :| 0 <= i < |captured| && captured[i] == text;
      assert CapturedErrors(captured)[i] == Captured(text);
    }
  }

  lemma ValuesAreNamed(observed: seq<Option<Outcome>>, resources: seq<Resource>)
    requires AllObserved(observed) && NamesObserved(observed, resources)
    ensures Names(Values(observed), resources)
  {
  }

  lemma VerificationNames(r: Run)
    requires ResourcesAreSound(r)
    ensures ResourcesAreSound(VerificationReturns(r))
  {
    hide AreDistinct, NamesObserved, Names, AreLogged, ReportFits, Values, AllRefs, CleanupErrors, CapturedErrors, CleanupPassed;
    if r.await.AtVerification? && AllObserved(r.await.observed) {
      VerificationIsLogged(r);
      ValuesAreNamed(r.await.observed, r.resources);
      hide VerificationReturns;
    }
  }

  lemma LogStopFits(r: Run)
    requires r.await.AtLogStop? && Names(r.await.outcomes, r.resources) && AreLogged(r.await.outcomes, r.logs)
    ensures var t := LogStopReturns(r);
            && |t.history.reports| == |r.history.reports| + 1 && t.history.reports[..|r.history.reports|] == r.history.reports
            && ReportFits(t.history.reports[|r.history.reports|], t.resources)
            && t.history.reports[|r.history.reports|].outcomes == r.await.outcomes
  {
    FinalIsNotRetained(r);
    hide Names, IsLogged, AllReleased, IsRetained;
  }

  lemma LogStopNames(r: Run)
    requires ResourcesAreSound(r)
    ensures ResourcesAreSound(LogStopReturns(r))
  {
    hide AreDistinct, NamesObserved, Names, AreLogged, ReportFits, AllReleased;
    if r.await.AtLogStop? {
      LogStopFits(r);
    }
  }

  lemma StepKeepsResources(r: Run, e: Event)
    requires ResourcesAreSound(r)
    ensures ResourcesAreSound(Step(r, e))
  {
    hide ResourcesAreSound, LeavesResources;
    if IsAside(e) {
      hide Step;
      AsideKeeps(r, e);
    } else if e.DisposalDone? {
      hide DisposalReturns;
      DisposalNames(r, e.failure, e.observed);
    } else if e.VerificationDone? {
      hide VerificationReturns;
      VerificationNames(r);
    } else if e.LogStopped? {
      hide LogStopReturns;
      LogStopNames(r);
    } else {
      hide Step;
      OthersLeave(r, e);
      LeavingKeeps(r, Step(r, e));
    }
  }

  lemma NothingYet()
    ensures ResourcesAreSound(NewRun())
  {
  }

  /**
   In every run: no two resources share a name, exactly those were attempted
   whose cleanup was called, and each report names the first resources in order;
   a final one has all that was found in its logs, and the status that fits.
   */
  lemma {:induction false} RunKeepsResources(trace: seq<Event>)
    ensures ResourcesAreSound(After(trace))
    decreases |trace|
  {
    hide ResourcesAreSound, Step;
    if trace == [] {
      NothingYet();
    } else {
      RunKeepsResources(trace[..|trace| - 1]);
      StepKeepsResources(After(trace[..|trace| - 1]), trace[|trace| - 1]);
    }
  }

  // ---- Every tracked resource -------------------------------------------------------------------

  predicate HasResource(r: Run, id: string) {
    exists i :: 0 <= i < |r.resources| && r.resources[i].id == id
  }

  lemma StepNames(r: Run, e: Event)
    ensures NamesStay(r.resources, Step(r, e).resources)
  {
    hide Step;
    if IsAside(e) {
      AsideNames(r, e);
    } else if !IsConcluding(e) {
      OthersLeave(r, e);
    } else {
      ConcludingLeaves(r, e);
    }
  }

  lemma ConcludingLeaves(r: Run, e: Event)
    requires IsConcluding(e)
    ensures Step(r, e).resources == r.resources
  {
    hide AllReleased, AllRefs, CleanupErrors, CapturedErrors, Values, AllObserved, CleanupPassed;
  }

  /** Resources are never dropped and never change their names. */
  lemma {:induction false} NamesStayAlong(trace: seq<Event>, i: nat, j: nat)
    requires i <= j <= |trace|
    ensures NamesStay(After(trace[..i]).resources, After(trace[..j]).resources)
    decreases j - i
  {
    hide Step, After;
    if i < j {
      NamesStayAlong(trace, i, j - 1);
      NextIsStep(trace, j - 1);
      StepNames(After(trace[..j - 1]), trace[j - 1]);
    }
  }

  /** From then on, a tracked name is the name of exactly one resource. */
  lemma TrackedIsRecordedOnce(trace: seq<Event>, i: nat, j: nat)
    requires i < j <= |trace| && trace[i].Tracks?
    ensures exists k :: 0 <= k < |After(trace[..j]).resources| && After(trace[..j]).resources[k].id == trace[i].id
    ensures AreDistinct(After(trace[..j]).resources)
  {
    hide After, Track, Names, NamesObserved, AreLogged, ReportFits;
    RunKeepsResources(trace[..i]);
    RunKeepsResources(trace[..j]);
    NextIsStep(trace, i);
    TrackRecords(After(trace[..i]), trace[i].id);
    NamesStayAlong(trace, i + 1, j);
    var k :| 0 <= k < |After(trace[..i + 1]).resources| && After(trace[..i + 1]).resources[k].id == trace[i].id;
    assert After(trace[..j]).resources[k].id == trace[i].id;
  }

  // ---- The final report ---------------------------------------------------------------------------

  /** Verification, what follows it, or the final report is about n resources. */
  predicate Concludes(r: Run, n: nat) {
    if r.await.AtVerification? then |r.await.observed| == n
    else if r.await.AtLogStop? then |r.await.outcomes| == n
    else Terminal(r) && r.history.reports != [] && |r.history.reports[|r.history.reports| - 1].outcomes| == n
  }

  /** Once disposal has returned, nothing but the end of the run moves it. */
  lemma ConcludedIsSettled(r: Run, e: Event)
    requires FlowIsSound(r) && (r.await.AtVerification? || r.await.AtLogStop? || Terminal(r))
    requires !e.ResourceVerified? && !e.VerificationDone? && !e.LogStopped?
    ensures var t := Step(r, e);
            t.await == r.await && t.phase == r.phase && t.history.reports == r.history.reports
  {
    if IsAside(e) {
      hide Step, FlowIsSound;
      AsideNames(r, e);
      AsideStaysPut(r, e);
    } else {
      hide RunStages, Resume, Retain, ExportFails, BeginExport, Track, CleanUp, CleanupFails, Log, Verify, VerificationReturns, LogStopReturns,
        PendingOutcomes;
    }
  }

  lemma ConclusionStays(r: Run, e: Event, n: nat)
    requires FlowIsSound(r) && Concludes(r, n)
    ensures Concludes(Step(r, e), n)
  {
    if e.VerificationDone? {
      if r.await.AtVerification? && AllObserved(r.await.observed) {
        VerificationIsLogged(r);
      }
      hide VerificationReturns, FlowHolds;
    } else if e.LogStopped? {
      LogStopOutcomes(r);
      hide LogStopReturns;
    } else if e.ResourceVerified? {
      hide FlowHolds;
    } else {
      hide Step;
      ConcludedIsSettled(r, e);
    }
  }

  lemma LogStopOutcomes(r: Run)
    ensures var t := LogStopReturns(r);
            if r.await.AtLogStop? then
              && Terminal(t) && t.await == Idle && |t.history.reports| == |r.history.reports| + 1
              && t.history.reports[|r.history.reports|].outcomes == r.await.outcomes
            else t == r
  {
    hide AllReleased;
  }

  /** At d the disposal of the run returned. */
  predicate DisposalReturnsAt(trace: seq<Event>, d: nat)
    requires d < |trace|
  {
    After(trace[..d]).await == AtDisposal && After(trace[..d + 1]).await.AtVerification?
  }

  lemma DisposalConcludes(r: Run, e: Event)
    requires r.await == AtDisposal && Step(r, e).await.AtVerification?
    ensures Concludes(Step(r, e), |r.resources|)
  {
    hide RunStages, Resume, Finish, Retain, ExportFails, BeginExport, Track, CleanUp, CleanupFails, Log, AllObserved, AllReleased, AllRefs,
      CleanupErrors, CapturedErrors, CleanupPassed, Values, PendingOutcomes;
    if IsAside(e) && !e.ResourceVerified? {
      hide Step;
      AsideNames(r, e);
    } else if !IsAside(e) && !IsConcluding(e) {
      hide Step;
      OthersLeave(r, e);
    }
  }

  lemma {:induction false} ConclusionStaysAlong(trace: seq<Event>, d: nat, j: nat)
    requires d < j <= |trace| && DisposalReturnsAt(trace, d)
    ensures Concludes(After(trace[..j]), |After(trace[..d]).resources|)
    decreases j
  {
    hide Step, After, Concludes, Invariant;
    NextIsStep(trace, j - 1);
    if j == d + 1 {
      DisposalConcludes(After(trace[..d]), trace[d]);
    } else {
      ConclusionStaysAlong(trace, d, j - 1);
      RunKeeps(trace[..j - 1]);
      InvariantIsFlow(After(trace[..j - 1]));
      ConclusionStays(After(trace[..j - 1]), trace[j - 1], |After(trace[..d]).resources|);
    }
  }

  lemma InvariantIsFlow(r: Run)
    requires Invariant(r)
    ensures FlowIsSound(r)
  {
    hide FlowIsSound, ProducerIsSound, StartsAreSound, CleanIsOnTrack, AdmissionIsSound, ReportsAreSound, ReleaseIsSound;
  }

  lemma FinalReportIsLast(r: Run, k: nat)
    requires Invariant(r) && k < |r.history.reports| && !IsRetained(r.history.reports[k])
    ensures k == |r.history.reports| - 1 && Terminal(r) && r.await == Idle
  {
    hide ProducerIsSound, StartsAreSound, CleanIsOnTrack, AdmissionIsSound, ReleaseIsSound, Exemplary;
  }

  /** The final report answers, in order, for exactly the resources there were when disposal returned. */
  lemma FinalReportNamesAll(trace: seq<Event>, d: nat, k: nat)
    requires d < |trace| && DisposalReturnsAt(trace, d)
    requires k < |After(trace).history.reports| && !IsRetained(After(trace).history.reports[k])
    ensures var outcomes, resources := After(trace).history.reports[k].outcomes, After(trace[..d]).resources;
            |outcomes| == |resources| && forall i :: 0 <= i < |outcomes| ==> outcomes[i].id == resources[i].id
  {
    hide After, Invariant, AreDistinct, NamesObserved, AreLogged, IsRetained;
    assert trace[..|trace|] == trace;
    RunKeeps(trace);
    RunKeepsResources(trace);
    FinalReportIsLast(After(trace), k);
    ConclusionStaysAlong(trace, d, |trace|);
    NamesStayAlong(trace, d, |trace|);
  }

  /** Every resource tracked before the disposal returned has exactly one outcome in the final report. */
  lemma TrackedIsAnsweredFor(trace: seq<Event>, i: nat, d: nat, k: nat)
    requires i < d < |trace| && trace[i].Tracks? && DisposalReturnsAt(trace, d)
    requires k < |After(trace).history.reports| && !IsRetained(After(trace).history.reports[k])
    ensures var outcomes := After(trace).history.reports[k].outcomes;
            exists n :: 0 <= n < |outcomes| && outcomes[n].id == trace[i].id &&
                        forall m :: 0 <= m < |outcomes| && outcomes[m].id == trace[i].id ==> m == n
  {
    hide After, IsRetained, DisposalReturnsAt;
    TrackedIsRecordedOnce(trace, i, d);
    FinalReportNamesAll(trace, d, k);
    var outcomes, resources := After(trace).history.reports[k].outcomes, After(trace[..d]).resources;
    var n :| 0 <= n < |resources| && resources[n].id == trace[i].id;
    assert outcomes[n].id == trace[i].id;
  }

  /** The final report has in its logs whatever was found of its resources, and the status that fits. */
  lemma FinalReportIsComplete(trace: seq<Event>, k: nat)
    requires k < |After(trace).history.reports| && !IsRetained(After(trace).history.reports[k])
    ensures var report := After(trace).history.reports[k];
            && (forall o, ref :: o in report.outcomes && ref in o.refs ==> ref in report.logs.evidence)
            && (forall o :: o in report.outcomes && Truthy(o.cleanupError) ==> o.cleanupError.value in report.logs.errors)
            && ((exists o :: o in report.outcomes && !Released(o)) ==> CleanupUnverified in report.logs.errors)
            && (report.status == ErrorStatus <==> report.logs.errors != [])
            && (report.status == PassedStatus <==> report.logs.errors == [] && report.outcomes != [])
  {
    RunKeepsResources(trace);
    hide After, AreDistinct, NamesObserved, Names, IsRetained;
    var report := After(trace).history.reports[k];
    assert ReportFits(report, After(trace).resources);
    assert forall o :: o in report.outcomes ==> IsLogged(o, report.logs);
  }

  // ---- Where outcomes come from ----------------------------------------------------------------------

  /** At k the verification of the n-th resource found what the outcome says, and the outcome says what was recorded of its cleanup. */
  predicate FoundAt(trace: seq<Event>, k: nat, n: nat, o: Outcome)
    requires k < |trace|
  {
    && trace[k] == ResourceVerified(n, o.released, o.refs)
    && var r := After(trace[..k]);
       && r.await.AtVerification? && n < |r.resources|
       && o == Outcome(r.resources[n].id, r.resources[n].attempted, o.released, o.refs, r.resources[n].cleanupError)
  }

  ghost predicate WasFound(trace: seq<Event>, n: nat, o: Outcome) {
    exists k :: 0 <= k < |trace| && FoundAt(trace, k, n, o)
  }

  ghost predicate OutcomesWereFound(trace: seq<Event>) {
    var r := After(trace);
    && (r.await.AtVerification? ==>
          forall n :: 0 <= n < |r.await.observed| && r.await.observed[n].Some? ==> WasFound(trace, n, r.await.observed[n].value))
    && (r.await.AtLogStop? ==> forall n :: 0 <= n < |r.await.outcomes| ==> WasFound(trace, n, r.await.outcomes[n]))
    && (forall k :: 0 <= k < |r.history.reports| && !IsRetained(r.history.reports[k]) ==>
          forall n :: 0 <= n < |r.history.reports[k].outcomes| ==> WasFound(trace, n, r.history.reports[k].outcomes[n]))
  }

  lemma FoundStays(trace: seq<Event>, n: nat, o: Outcome)
    requires trace != [] && WasFound(trace[..|trace| - 1], n, o)
    ensures WasFound(trace, n, o)
  {
    hide After;
    var earlier := trace[..|trace| - 1];
    var k :| 0 <= k < |earlier| && FoundAt(earlier, k, n, o);
    assert earlier[..k] == trace[..k];
    assert FoundAt(trace, k, n, o);
  }

  /** What a verification step adds is what its event says. */
  lemma VerifiedFromEvent(r: Run, i: nat, released: bool, refs: seq<Ref>, n: nat)
    requires var t := Verify(r, i, released, refs); t.await.AtVerification? && n < |t.await.observed| && t.await.observed[n].Some?
    ensures var t := Verify(r, i, released, refs);
            && r.await.AtVerification? && |r.await.observed| == |t.await.observed|
            && (t.await.observed[n] == r.await.observed[n] ||
                (n == i && n < |r.resources| && t.await.observed[n] ==
                   Some(Outcome(r.resources[n].id, r.resources[n].attempted, released, refs, r.resources[n].cleanupError))))
  {
  }

  /** Steps other than verification add no observation, and only the last step adds a final report. */
  lemma NoOtherSource(r: Run, e: Event)
    requires !e.ResourceVerified? && !e.DisposalDone? && !e.VerificationDone? && !e.LogStopped?
    ensures var t := Step(r, e);
            && (t.await == r.await || !(t.await.AtVerification? || t.await.AtLogStop?))
            && (t.history.reports == r.history.reports || DefersResources(r, t)) && t.history.releases == r.history.releases
  {
    hide Step;
    if IsAside(e) {
      AsideNames(r, e);
    } else {
      OthersLeave(r, e);
    }
  }

  lemma FoundAlongStep(trace: seq<Event>, e: Event)
    requires OutcomesWereFound(trace)
    requires !e.ResourceVerified? && !e.DisposalDone? && !e.VerificationDone? && !e.LogStopped?
    ensures OutcomesWereFound(trace + [e])
  {
    hide After, Step, WasFound, IsRetained;
    var later := trace + [e];
    assert later[..|trace|] == trace && later[..|later|] == later;
    NextIsStep(later, |trace|);
    NoOtherSource(After(trace), e);
    EarlierFindings(trace, e);
  }

  lemma EarlierFindings(trace: seq<Event>, e: Event)
    ensures forall n, o :: WasFound(trace, n, o) ==> WasFound(trace + [e], n, o)
  {
    hide WasFound;
    assert (trace + [e])[..|trace|] == trace;
    forall n, o | WasFound(trace, n, o) ensures WasFound(trace + [e], n, o) {
      FoundStays(trace + [e], n, o);
    }
  }

  lemma FoundByVerification(trace: seq<Event>, e: Event)
    requires OutcomesWereFound(trace) && e.ResourceVerified?
    ensures OutcomesWereFound(trace + [e])
  {
    hide After, WasFound, IsRetained;
    var later := trace + [e];
    assert later[..|trace|] == trace && later[..|later|] == later;
    NextIsStep(later, |trace|);
    EarlierFindings(trace, e);
    var r, t := After(trace), After(later);
    VerifyLeaves(r, e.i, e.released, e.refs);
    forall n: nat | t.await.AtVerification? && n < |t.await.observed| && t.await.observed[n].Some?
      ensures WasFound(later, n, t.await.observed[n].value)
    {
      VerifiedFromEvent(r, e.i, e.released, e.refs, n);
      if t.await.observed[n] != r.await.observed[n] {
        assert FoundAt(later, |trace|, n, t.await.observed[n].value);
        FoundHere(later, |trace|, n, t.await.observed[n].value);
      }
    }
  }

  lemma FoundHere(trace: seq<Event>, k: nat, n: nat, o: Outcome)
    requires k < |trace| && FoundAt(trace, k, n, o)
    ensures WasFound(trace, n, o)
  {
    hide FoundAt;
  }

  lemma FoundToTheEnd(trace: seq<Event>, e: Event)
    requires OutcomesWereFound(trace) && (e.DisposalDone? || e.VerificationDone? || e.LogStopped?)
    ensures OutcomesWereFound(trace + [e])
  {
    hide After, WasFound, IsRetained;
    var later := trace + [e];
    assert later[..|trace|] == trace && later[..|later|] == later;
    NextIsStep(later, |trace|);
    EarlierFindings(trace, e);
    var r := After(trace);
    if e.VerificationDone? && r.await.AtVerification? && AllObserved(r.await.observed) {
      VerificationIsLogged(r);
      hide VerificationReturns, DisposalReturns, LogStopReturns, AreLogged;
    } else if e.LogStopped? {
      LogStopAdds(r);
      hide VerificationReturns, DisposalReturns, LogStopReturns;
    } else {
      hide LogStopReturns, Values;
    }
  }

  lemma LogStopAdds(r: Run)
    ensures var t := LogStopReturns(r);
            if r.await.AtLogStop? then
              && t.await == Idle && |t.history.reports| == |r.history.reports| + 1
              && t.history.reports[..|r.history.reports|] == r.history.reports
              && t.history.reports[|r.history.reports|].outcomes == r.await.outcomes
            else t == r
  {
    hide AllReleased;
  }

  lemma {:induction false} EveryOutcomeWasFound(trace: seq<Event>)
    ensures OutcomesWereFound(trace)
    decreases |trace|
  {
    hide After, WasFound, OutcomesWereFound;
    if trace == [] {
      NothingFoundYet();
    } else {
      var earlier, e := trace[..|trace| - 1], trace[|trace| - 1];
      EveryOutcomeWasFound(earlier);
      assert trace == earlier + [e];
      if e.ResourceVerified? {
        FoundByVerification(earlier, e);
      } else if e.DisposalDone? || e.VerificationDone? || e.LogStopped? {
        FoundToTheEnd(earlier, e);
      } else {
        FoundAlongStep(earlier, e);
      }
    }
  }

  lemma NothingFoundYet()
    ensures OutcomesWereFound([])
  {
    StartsNew();
  }

  /** Each outcome of a final report is what one verification of that resource found, beside what was recorded of its cleanup. */
  lemma OutcomeHasACause(trace: seq<Event>, k: nat, n: nat)
    requires k < |After(trace).history.reports| && !IsRetained(After(trace).history.reports[k])
    requires n < |After(trace).history.reports[k].outcomes|
    ensures var o := After(trace).history.reports[k].outcomes[n];
            exists l :: 0 <= l < |trace| && FoundAt(trace, l, n, o)
  {
    hide After, FoundAt, IsRetained;
    EveryOutcomeWasFound(trace);
    assert WasFound(trace, n, After(trace).history.reports[k].outcomes[n]);
  }

  /** What was found first of a resource stays. */
  lemma FoundIsFinal(r: Run, e: Event, n: nat)
    requires r.await.AtVerification? && Step(r, e).await.AtVerification? && e.ResourceVerified?
    requires n < |r.await.observed| && r.await.observed[n].Some?
    ensures n < |Step(r, e).await.observed| && Step(r, e).await.observed[n] == r.await.observed[n]
  {
  }

  /** A report of a retained run shows every resource as it is recorded: nothing released, nothing verified. */
  lemma RetainedReportDefers(r: Run, e: Event)
    requires |Step(r, e).history.reports| > |r.history.reports| && !e.LogStopped?
    ensures var report := Step(r, e).history.reports[|r.history.reports|];
            && |report.outcomes| == |r.resources|
            && forall i :: 0 <= i < |r.resources| ==>
                 report.outcomes[i] == Outcome(r.resources[i].id, r.resources[i].attempted, false, [], r.resources[i].cleanupError)
  {
    hide Step;
    if IsAside(e) {
      AsideNames(r, e);
    } else if IsConcluding(e) {
      ConcludingReportsNothing(r, e);
    } else {
      OthersLeave(r, e);
    }
  }

  lemma ConcludingReportsNothing(r: Run, e: Event)
    requires e.DisposalDone? || e.VerificationDone?
    ensures Step(r, e).history == r.history
  {
    hide AllRefs, CleanupErrors, CapturedErrors, Values, AllObserved, CleanupPassed;
  }

  // ---- Release -----------------------------------------------------------------------------------------

  /** Some disposal that the run awaited resolved, in the disposed state. */
  ghost predicate WasDisposed(trace: seq<Event>) {
    exists k :: 0 <= k < |trace| && trace[k] == DisposalDone(None, true) && After(trace[..k]).await == AtDisposal
  }

  predicate CountsOnDisposal(r: Run) {
    (r.await.AtVerification? && r.await.disposed) || (r.await.AtLogStop? && r.await.disposed) || r.history.releases > 0
  }

  lemma DisposalStays(trace: seq<Event>)
    requires trace != [] && WasDisposed(trace[..|trace| - 1])
    ensures WasDisposed(trace)
  {
    hide After;
    var earlier := trace[..|trace| - 1];
    var k :| 0 <= k < |earlier| && earlier[k] == DisposalDone(None, true) && After(earlier[..k]).await == AtDisposal;
    assert earlier[..k] == trace[..k];
  }

  lemma CountsFromDisposal(r: Run, e: Event)
    requires CountsOnDisposal(Step(r, e)) && !CountsOnDisposal(r)
    ensures e == DisposalDone(None, true) && r.await == AtDisposal
  {
    if !IsConcluding(e) {
      hide Step;
      NothingElseCounts(r, e);
    } else {
      hide AllReleased, AllRefs, CleanupErrors, CapturedErrors, Values, AllObserved, CleanupPassed;
    }
  }

  lemma NothingElseCounts(r: Run, e: Event)
    requires !IsConcluding(e)
    ensures CountsOnDisposal(Step(r, e)) ==> CountsOnDisposal(r)
  {
    if e.ResourceVerified? {
      VerifyLeaves(r, e.i, e.released, e.refs);
    } else {
      hide Step;
      NoOtherSource(r, e);
    }
  }

  /** The owner is released only after a disposal of the run that resolved in the disposed state. */
  lemma {:induction false} ReleaseFollowsDisposal(trace: seq<Event>)
    ensures CountsOnDisposal(After(trace)) ==> WasDisposed(trace)
    decreases |trace|
  {
    hide Step, WasDisposed, CountsOnDisposal;
    if trace == [] {
      NothingCountsYet();
    } else if CountsOnDisposal(After(trace)) {
      var earlier, e := trace[..|trace| - 1], trace[|trace| - 1];
      if CountsOnDisposal(After(earlier)) {
        ReleaseFollowsDisposal(earlier);
        DisposalStays(trace);
      } else {
        CountsFromDisposal(After(earlier), e);
        DisposedHere(trace);
      }
    }
  }

  lemma NothingCountsYet()
    ensures !CountsOnDisposal(After([]))
  {
    StartsNew();
  }

  lemma DisposedHere(trace: seq<Event>)
    requires trace != [] && trace[|trace| - 1] == DisposalDone(None, true) && After(trace[..|trace| - 1]).await == AtDisposal
    ensures WasDisposed(trace)
  {
    hide After;
  }

  // ---- Messages ----------------------------------------------------------------------------------------

  /** The message is captured or reported, or so many were that the overflow is reported. */
  predicate Remembers(r: Run, text: string) {
    || LogOverflow in r.logs.errors || Captured(text) in r.logs.errors
    || (text in r.captured && !r.await.AtLogStop? && !Terminal(r))
  }

  lemma LoggedIsRemembered(r: Run, text: string)
    requires !r.await.AtLogStop? && !Terminal(r)
    ensures Remembers(Step(r, Logged(text)), text)
  {
    hide Terminal;
    var t := Log(r, text);
    assert t.phase == r.phase && t.await == r.await;
    assert Terminal(t) == Terminal(r) by {
      PhaseTells(r, t);
    }
    if |r.captured| < CAPTURED_LIMIT {
      assert t.captured[|r.captured|] == text;
    } else if t != r {
      assert t.logs.errors[|r.logs.errors|] == LogOverflow;
    }
  }

  lemma PhaseTells(r: Run, t: Run)
    requires t.phase == r.phase
    ensures Terminal(t) == Terminal(r)
  {
  }

  lemma LogCaptures(r: Run, text: string)
    ensures var t := Log(r, text);
            r.captured <= t.captured && t.await == r.await && t.phase == r.phase
  {
    hide Terminal;
  }

  lemma AsideCaptures(r: Run, e: Event)
    requires IsAside(e)
    ensures var t := Step(r, e);
            r.captured <= t.captured && (t.await.AtLogStop? <==> r.await.AtLogStop?) && t.phase == r.phase
  {
    AsideStaysPut(r, e);
    hide Finish, RetryExport, StageReturns, ExportReturns, ProbeReturns, StartFails, DisposalReturns, VerificationReturns, LogStopReturns,
      Produce, Interrupt, SettleWithRefs, SettleWithError, Log;
    match e
    case CleanupFailed(i, text, logged) =>
      if i < |r.resources| {
        LogCaptures(r.(resources := r.resources[i := r.resources[i].(cleanupError := Some(Message(text)))]), text);
      }
    case Logged(text) => LogCaptures(r, text);
    case _ =>
  }

  /** Steps that neither go on with the run nor conclude it leave what was captured. */
  lemma OthersCapture(r: Run, e: Event)
    requires FlowIsSound(r) && !IsAside(e) && !GoesOn(e) && !e.VerificationDone? && !r.await.AtLogStop? && !Terminal(r)
    ensures var t := Step(r, e);
            t.captured == r.captured && !t.await.AtLogStop? && !Terminal(t)
  {
    hide Finish, RetryExport, StageReturns, ProbeReturns, StartFails, VerificationReturns, AllReleased, Verify, Track, CleanUp, CleanupFails,
      Log, RunStages;
  }

  lemma CapturedIsRemembered(r: Run, e: Event, text: string)
    requires FlowIsSound(r) && text in r.captured && !r.await.AtLogStop? && !Terminal(r)
    ensures Remembers(Step(r, e), text)
  {
    if IsAside(e) {
      hide Step;
      AsideCaptures(r, e);
      PhaseTells(r, Step(r, e));
    } else if GoesOn(e) {
      hide Step;
      FlowStaysOpen(r, e);
    } else if e.VerificationDone? {
      if r.await.AtVerification? && AllObserved(r.await.observed) {
        VerificationIsLogged(r);
      }
      hide AllObserved, AllRefs, CleanupErrors, CapturedErrors, CleanupPassed, Values;
    } else {
      OthersCapture(r, e);
      hide Step;
    }
  }

  lemma MemoryStays(r: Run, e: Event, text: string)
    requires Invariant(r) && Remembers(r, text)
    ensures Remembers(Step(r, e), text)
  {
    InvariantIsFlow(r);
    StepKeeps(r, e);
    var t := Step(r, e);
    assert r.logs.errors <= t.logs.errors;
    if LogOverflow !in r.logs.errors && Captured(text) !in r.logs.errors {
      CapturedIsRemembered(r, e, text);
    }
    hide Invariant, Step, Progresses, StartsAlone, CleansAlone;
  }

  lemma {:induction false} MessageIsRemembered(trace: seq<Event>, i: nat, j: nat)
    requires i < j <= |trace| && trace[i].Logged?
    requires !After(trace[..i]).await.AtLogStop? && !Terminal(After(trace[..i]))
    ensures Remembers(After(trace[..j]), trace[i].text)
    decreases j
  {
    hide Step, After, Remembers, Invariant;
    NextIsStep(trace, j - 1);
    if j == i + 1 {
      LoggedIsRemembered(After(trace[..i]), trace[i].text);
      assert trace[i] == Logged(trace[i].text);
    } else {
      MessageIsRemembered(trace, i, j - 1);
      RunKeeps(trace[..j - 1]);
      MemoryStays(After(trace[..j - 1]), trace[j - 1], trace[i].text);
    }
  }

  /** A message logged before the verification was concluded is in the errors of the final report, or the overflow is. */
  lemma LoggedIsReported(trace: seq<Event>, i: nat)
    requires i < |trace| && trace[i].Logged? && !After(trace[..i]).await.AtLogStop? && !Terminal(After(trace[..i]))
    requires Terminal(After(trace))
    ensures Captured(trace[i].text) in After(trace).logs.errors || LogOverflow in After(trace).logs.errors
  {
    hide After;
    assert trace[..|trace|] == trace;
    MessageIsRemembered(trace, i, |trace|);
  }
}
