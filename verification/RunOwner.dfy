/**
 The run object and the owner of all runs, as they change in place. The methods
 of OwnedRun are the code between two awaits; Resume is the loop over the stages
 not yet entered.
 */
module RunOwnership {
  import opened Outcomes
  import opened RunModel
  import opened RunProtocol
  import opened RunHistory

  lemma StagesUnfold(r: Run)
    ensures r.next >= |r.stages| ==> RunStages(r) == BeginExport(r)
    ensures r.next < |r.stages| && r.stages[r.next] ==> RunStages(r) == EnteredStage(r)
    ensures r.next < |r.stages| && !r.stages[r.next] ==> RunStages(r) == RunStages(SkippedStage(r))
  {
    hide Produce, BeginExport, Faulted;
  }

  /** A final report that says passed, or comes with the release of the owner, has earned it. */
  ghost predicate IsEarned(r: Run) {
    && r.history.reports != []
    && var report := r.history.reports[|r.history.reports| - 1];
       && (report.status == PassedStatus ==> Exemplary(report, r.history.starts))
       && (r.history.releases == 1 ==> AllReleased(report.outcomes) && Pass(Disposing) in r.logs.phases)
  }

  lemma FinalReportIsEarned(r: Run)
    requires Invariant(r) && r.await.AtLogStop?
    ensures Sound(r, LogStopReturns(r)) && IsEarned(LogStopReturns(r))
  {
    LogStopReturnsKeeps(r);
    var t := LogStopReturns(r);
    assert t.history.reports != [] by {
      hide Invariant, Sound, AllReleased;
    }
    hide FlowIsSound, ProducerIsSound, StartsAreSound, CleanIsOnTrack, AdmissionIsSound, Exemplary, AllReleased, Progresses,
      LogStopReturns;
  }

  /** A verification that leaves no error found no cleanup that threw. */
  lemma VerificationIsEarned(r: Run)
    requires Invariant(r) && r.await.AtVerification? && AllObserved(r.await.observed)
    ensures var t := VerificationReturns(r);
            Sound(r, t) && t.await.AtLogStop? && (t.logs.errors == [] ==> IsErrorFree(t.await.outcomes))
  {
    hide AllRefs, CleanupErrors, CapturedErrors, Values, CleanupPassed, IsErrorFree;
    VerificationReturnsKeeps(r);
    hide FlowIsSound, ProducerIsSound, StartsAreSound, CleanIsOnTrack, ReportsAreSound, ReleaseIsSound, Progresses;
  }

  lemma StagesAreSound(r: Run)
    ensures MidResume(r) ==> Sound(r, RunStages(r))
  {
    hide MidResume, Invariant, Progresses, RunStages;
    if MidResume(r) {
      RunStagesKeeps(r);
    }
  }

  lemma RetainedIsIdle(r: Run)
    requires Invariant(r) && r.phase == Retained
    ensures r.await == Idle && !r.admitted
  {
    hide ProducerIsSound, StartsAreSound, CleanIsOnTrack, AdmissionIsSound, ReportsAreSound, ReleaseIsSound;
  }

  lemma AdmittedHasEvidence(r: Run)
    requires Invariant(r) && r.admitted
    ensures r.producer.None? && Pass(Exporting) in r.logs.phases && r.logs.evidence != []
  {
    hide FlowIsSound, ProducerIsSound, StartsAreSound, CleanIsOnTrack, ReportsAreSound, ReleaseIsSound, FailuresSurface;
  }

  class OwnedRun {
    var phase: Phase
    var await: Await
    var phases: seq<Observation>
    var evidence: seq<Ref>
    var errors: seq<Diagnostic>
    var captured: seq<string>
    var stages: seq<bool>
    var nextStage: nat
    var exports: bool
    var finished: bool
    var producer: Option<Producer>
    var race: Race
    var cleanupAdmitted: bool
    var resources: seq<Resource>
    ghost var rejects: bool
    ghost var history: History

    ghost function State(): Run
      reads this
    {
      Run(phase, await, Logs(phases, evidence, errors), captured, stages, nextStage, exports, finished,
          producer, race, cleanupAdmitted, resources, rejects, history)
    }

    constructor ()
      ensures State() == NewRun() && Invariant(State())
    {
      phase, await, phases, evidence, errors, captured := Preloading, Starting, [], [], [], [];
      stages, nextStage, exports, finished, producer, race, cleanupAdmitted, resources := [], 0, false, false, None, Open, false, [];
      rejects, history := false, History([], [], [], 0);
      new;
      InitiallySound();
    }

    // ---- Producers -----------------------------------------------------------------------

    method StartProducer(phase: Phase)
      modifies this`producer, this`race, this`history
      ensures State() == Produce(old(State()), phase)
    {
      if producer.Some? {
        race := Threw(StillActive);
      } else {
        producer, race := Some(Producer(phase, false)), Open;
        history := history.(starts := history.starts + [phase]);
      }
    }

    method Interrupt(cause: Diagnostic)
      requires Invariant(State())
      modifies this`producer, this`race
      ensures State() == RunModel.Interrupt(old(State()), cause)
      ensures Sound(old(State()), State())
      ensures producer.Some? <==> old(producer).Some?
    {
      hide Invariant, Sound;
      InterruptKeeps(State(), cause);
      if producer.Some? && race == Open {
        race, producer := Threw(cause), Some(producer.value.(interrupted := true));
      }
    }

    method Settle(refs: seq<Ref>)
      requires Invariant(State())
      modifies this`producer, this`race, this`evidence
      ensures State() == SettleWithRefs(old(State()), refs)
      ensures Sound(old(State()), State())
      ensures producer.None?
    {
      hide Invariant, Sound;
      SettleWithRefsKeeps(State(), refs);
      if producer.Some? {
        evidence := evidence + refs;
        producer := None;
        if race == Open {
          race := Won(refs);
        }
      }
    }

    method Fail(cause: Diagnostic, isReason: bool)
      requires Invariant(State())
      modifies this`producer, this`race, this`errors
      ensures State() == SettleWithError(old(State()), cause, isReason)
      ensures Sound(old(State()), State())
      ensures producer.None?
    {
      hide Invariant, Sound;
      SettleWithErrorKeeps(State(), cause, isReason);
      if producer.Some? {
        var current := producer.value;
        producer := None;
        if current.interrupted && !isReason {
          errors := errors + [LateSettlement(current.phase, cause)];
        }
        if race == Open {
          race := Threw(cause);
        }
      }
    }

    // ---- Completion ------------------------------------------------------------------------

    method BeginMeasurement() returns (begun: bool)
      requires Invariant(State())
      modifies this`phase, this`phases
      ensures State() == Step(old(State()), MeasurementBegins)
      ensures Sound(old(State()), State())
      ensures (begun <==> old(phase) == Ready) && (!begun ==> State() == old(State()))
    {
      hide Invariant, Sound;
      ghost var entry := State();
      SameIsSound(entry);
      StepKeeps(entry, MeasurementBegins);
      if phase != Ready {
        return false;
      }
      phase, phases := Measuring, phases + [Pass(Measuring)];
      return true;
    }

    method Retain(cause: Diagnostic)
      modifies this`phase, this`await, this`phases, this`history
      ensures State() == RunModel.Retain(old(State()), cause)
    {
      phase, await := Retained, Idle;
      phases := phases + [Observation(Retained, false, Some(cause))];
      history := history.(reports := history.reports + [Report(IncompleteStatus, Logs(phases, evidence, errors), PendingOutcomes(resources))]);
    }

    method FailExport(cause: Diagnostic)
      modifies this`phase, this`await, this`phases, this`errors, this`history
      ensures State() == ExportFails(old(State()), cause)
    {
      errors := errors + [cause];
      phases := phases + [Observation(Exporting, false, Some(cause))];
      Retain(Deferred(Exporting));
    }

    method BeginExport()
      modifies this
      ensures State() == RunModel.BeginExport(old(State()))
    {
      hide ExportFails, Produce;
      phase := Exporting;
      if !exports {
        FailExport(ExportMissing);
      } else {
        await := AtExport;
        StartProducer(Exporting);
      }
    }

    /** Enters the next stage with its hook. */
    method EnterStage()
      requires nextStage < |stages|
      modifies this`nextStage, this`phase, this`await, this`producer, this`race, this`history
      ensures State() == EnteredStage(old(State()))
    {
      hide Produce;
      phase := StagePhase(nextStage);
      nextStage := nextStage + 1;
      await := AtStage;
      StartProducer(phase);
    }

    /** A stage without a hook is noted and passed over. */
    method SkipStage()
      requires nextStage < |stages|
      modifies this`nextStage, this`phase, this`errors, this`phases
      ensures State() == SkippedStage(old(State())) && nextStage == old(nextStage) + 1
    {
      phase := StagePhase(nextStage);
      nextStage := nextStage + 1;
      errors := errors + [NoEvidenceProducer(phase)];
      phases := phases + [Observation(phase, false, Some(NoEvidenceProducer(phase)))];
    }

    /** The stages not yet entered, up to the first that has a hook; the export when none is left. */
    method EnterStages()
      modifies this
      ensures State() == RunStages(old(State()))
      ensures MidResume(old(State())) ==> Sound(old(State()), State())
    {
      hide RunModel.BeginExport, RunStages, EnteredStage, SkippedStage, MidResume, Sound;
      ghost var entry := State();
      StagesAreSound(entry);
      while nextStage < |stages|
        invariant RunStages(State()) == RunStages(entry)
        decreases |stages| - nextStage
      {
        StagesUnfold(State());
        if stages[nextStage] {
          EnterStage();
          return;
        }
        SkipStage();
      }
      StagesUnfold(State());
      BeginExport();
    }

    method Resume()
      modifies this
      ensures State() == RunModel.Resume(old(State()))
    {
      hide RunStages;
      if producer.Some? {
        Retain(Deferred(producer.value.phase));
      } else {
        EnterStages();
      }
    }

    method Finish(close: bool, capture: bool, drain: bool, hasExport: bool)
      requires Invariant(State()) && !await.Starting? && !await.Probing?
      modifies this
      ensures State() == RunModel.Finish(old(State()), [close, capture, drain], hasExport)
      ensures Sound(old(State()), State())
      ensures old(finished) ==> State() == old(State())
    {
      hide Invariant, Sound, RunModel.Resume;
      FinishesKeeps(State(), [close, capture, drain], hasExport);
      if finished {
        return;
      }
      finished := true;
      if phase != Measuring {
        errors := errors + [NotMeasured];
      }
      stages, exports := [close, capture, drain], hasExport;
      Resume();
    }

    method RetryExport(hasExport: bool) returns (accepted: bool)
      requires Invariant(State())
      modifies this
      ensures State() == RunModel.RetryExport(old(State()), hasExport)
      ensures accepted == (old(phase) == Retained)
      ensures Sound(old(State()), State())
      ensures history.cleanups == old(history.cleanups)
      ensures accepted ==> old(await) == Idle && !old(cleanupAdmitted)
      ensures !accepted ==> State() == old(State())
    {
      hide Invariant, Sound, RunModel.Resume;
      RetryExportKeeps(State(), hasExport);
      if phase != Retained {
        return false;
      }
      RetainedIsIdle(State());
      finished, exports := true, hasExport;
      Resume();
      return true;
    }

    method StageReturns()
      requires Invariant(State())
      requires await == AtStage && race != Open
      modifies this
      ensures State() == RunModel.StageReturns(old(State()))
      ensures Sound(old(State()), State())
      ensures history.cleanups == old(history.cleanups)
    {
      hide Invariant, Sound, RunStages;
      StageReturnsKeeps(State());
      if race.Won? {
        phases := phases + [Observation(phase, true, None)];
        EnterStages();
      } else {
        errors := errors + [race.cause];
        phases := phases + [Observation(phase, false, Some(race.cause))];
        if producer.Some? {
          Retain(Deferred(phase));
        } else {
          EnterStages();
        }
      }
    }

    method ExportReturns()
      requires Invariant(State())
      requires await == AtExport && race != Open
      modifies this
      ensures State() == RunModel.ExportReturns(old(State()))
      ensures Sound(old(State()), State())
      ensures if old(race).Won? && old(race).refs != [] then cleanupAdmitted else !cleanupAdmitted && phase == Retained
    {
      hide Invariant, Sound;
      ExportReturnsKeeps(State());
      if race.Threw? {
        FailExport(race.cause);
      } else if race.refs == [] {
        FailExport(ExportEmpty);
      } else {
        cleanupAdmitted := true;
        phases := phases + [Observation(Exporting, true, None)];
        phase, await := Disposing, AtDisposal;
      }
    }

    method DisposalReturns(failure: Option<Diagnostic>, observed: bool)
      requires Invariant(State()) && (rejects ==> failure.Some?)
      requires await == AtDisposal
      modifies this`phase, this`await, this`phases, this`errors
      ensures State() == RunModel.DisposalReturns(old(State()), failure, observed)
      ensures Sound(old(State()), State())
      ensures await.AtVerification? && (await.disposed <==> failure.None? && observed)
    {
      hide Invariant, Sound;
      DisposalReturnsKeeps(State(), failure, observed);
      var disposed := failure.None? && observed;
      if disposed {
        phases := phases + [Observation(Disposing, true, None)];
      } else {
        var cause := if failure.Some? then failure.value else NotDisposed;
        errors := errors + [cause];
        phases := phases + [Observation(Disposing, false, Some(cause))];
      }
      phase, await := Verifying, AtVerification(disposed, seq(|resources|, _ => None));
    }

    method VerificationReturns()
      requires Invariant(State()) && await.AtVerification? && AllObserved(await.observed)
      modifies this`await, this`phases, this`evidence, this`errors
      ensures State() == RunModel.VerificationReturns(old(State()))
      ensures Sound(old(State()), State()) && await.AtLogStop? && (errors == [] ==> IsErrorFree(await.outcomes))
    {
      hide Invariant, Sound, RunModel.VerificationReturns, IsErrorFree;
      VerificationIsEarned(State());
      Collect();
    }

    /** Evidence and errors of the verified resources, in the order of the outcomes. */
    method Collect()
      requires await.AtVerification? && AllObserved(await.observed)
      modifies this`await, this`phases, this`evidence, this`errors
      ensures State() == RunModel.VerificationReturns(old(State()))
    {
      hide AllRefs, CleanupErrors, CapturedErrors, Values, CleanupPassed;
      var outcomes := Values(await.observed);
      evidence := evidence + AllRefs(outcomes);
      var cleanupObserved := outcomes != [];
      var cleanupPassed := CleanupPassed(outcomes);
      if cleanupObserved && !cleanupPassed {
        errors := errors + [CleanupUnverified];
      }
      errors := errors + CleanupErrors(outcomes);
      errors := errors + CapturedErrors(captured);
      phases := phases + [Observation(Verifying, cleanupPassed && captured == [], if cleanupObserved then None else Some(NoObservations))];
      await := AtLogStop(await.disposed, outcomes);
    }

    method LogStopReturns()
      requires Invariant(State()) && await.AtLogStop?
      modifies this`phase, this`await, this`phases, this`history
      ensures State() == RunModel.LogStopReturns(old(State()))
      ensures Sound(old(State()), State()) && IsEarned(State())
    {
      hide Invariant, Sound, RunModel.LogStopReturns, IsEarned;
      FinalReportIsEarned(State());
      Conclude();
    }

    /** The status, the final phase and report, and the release of the owner. */
    method Conclude()
      requires await.AtLogStop?
      modifies this`phase, this`await, this`phases, this`history
      ensures State() == RunModel.LogStopReturns(old(State()))
    {
      hide AllReleased;
      var outcomes := await.outcomes;
      var status := if errors != [] then ErrorStatus else if outcomes != [] then PassedStatus else IncompleteStatus;
      phase := if status == PassedStatus then Completed else Failed;
      phases := phases + [Observation(phase, status == PassedStatus, None)];
      var released := await.disposed && outcomes != [] && AllReleased(outcomes);
      history := history.(reports := history.reports + [Report(status, Logs(phases, evidence, errors), outcomes)],
                          releases := if released then history.releases + 1 else history.releases);
      await := Idle;
    }

    // ---- Resources and logging ----------------------------------------------------------------

    /** Records a resource, unless one of that name is recorded. */
    method Track(id: string) returns (accepted: bool)
      requires Invariant(State())
      modifies this`resources
      ensures State() == RunModel.Track(old(State()), id)
      ensures Sound(old(State()), State())
      ensures accepted <==> forall i :: 0 <= i < |old(resources)| ==> old(resources)[i].id != id
      ensures resources == if accepted then old(resources) + [Resource(id, false, None)] else old(resources)
    {
      hide Invariant, Sound;
      TrackKeeps(State(), id);
      if exists i :: 0 <= i < |resources| && resources[i].id == id {
        return false;
      }
      resources := resources + [Resource(id, false, None)];
      return true;
    }

    /** What the verification of one resource found, beside what was recorded of its cleanup. */
    method Observe(i: nat, released: bool, refs: seq<Ref>)
      requires Invariant(State()) && await.AtVerification? && i < |await.observed| && await.observed[i].None? && i < |resources|
      modifies this`await
      ensures State() == Verify(old(State()), i, released, refs)
      ensures Sound(old(State()), State())
    {
      hide Invariant, Sound;
      VerifyKeeps(State(), i, released, refs);
      var outcome := Outcome(resources[i].id, resources[i].attempted, released, refs, resources[i].cleanupError);
      await := AtVerification(await.disposed, await.observed[i := Some(outcome)]);
    }

    method CleanUp(i: nat) returns (attempted: bool)
      requires Invariant(State()) && i < |resources|
      modifies this`resources, this`errors, this`history
      ensures State() == RunModel.CleanUp(old(State()), i)
      ensures attempted <==> old(cleanupAdmitted) && old(producer).None?
      ensures Sound(old(State()), State())
      ensures attempted ==> Pass(Exporting) in phases && evidence != []
    {
      hide Invariant, Sound;
      CleanUpKeeps(State(), i);
      if cleanupAdmitted {
        AdmittedHasEvidence(State());
      }
      var id := resources[i].id;
      if producer.Some? || !cleanupAdmitted {
        var cause := if producer.Some? then RefusedWhileLive(id, producer.value.phase) else RefusedBeforeExport(id);
        resources := resources[i := resources[i].(cleanupError := Some(cause))];
        errors := errors + [cause];
        return false;
      }
      resources := resources[i := resources[i].(attempted := true)];
      history := history.(cleanups := history.cleanups + [i]);
      return true;
    }

    /** What the disposer throws on, Cordis logs or lets reject the disposal. */
    method CleanupFails(i: nat, text: string, logged: bool)
      requires Invariant(State()) && i < |resources| && resources[i].attempted
      modifies this`resources, this`captured, this`errors, this`rejects
      ensures State() == RunModel.CleanupFails(old(State()), i, text, logged)
      ensures Sound(old(State()), State())
      ensures resources[i].cleanupError == Some(Message(text))
      ensures phase !in {Completed, Failed} ==> rejects || errors != [] || captured != []
    {
      hide Invariant, Sound;
      CleanupFailsKeeps(State(), i, text, logged);
      resources := resources[i := resources[i].(cleanupError := Some(Message(text)))];
      if logged || (await != AtDisposal && errors == []) {
        Capture(text);
      } else {
        rejects := true;
      }
    }

    method Capture(text: string)
      modifies this`captured, this`errors
      ensures State() == RunModel.Log(old(State()), text)
      ensures phase !in {Completed, Failed} ==> errors != [] || captured != []
    {
      if phase == Completed || phase == Failed {
        return;
      }
      if |captured| < CAPTURED_LIMIT {
        captured := captured + [text];
      } else if LogOverflow !in errors {
        errors := errors + [LogOverflow];
      }
    }

    method Log(text: string)
      requires Invariant(State())
      modifies this`captured, this`errors
      ensures State() == RunModel.Log(old(State()), text)
      ensures Sound(old(State()), State()) && |captured| <= CAPTURED_LIMIT
    {
      hide Invariant, Sound;
      LogKeeps(State(), text);
      FailuresAreKnown(State());
      Capture(text);
    }
  }
}

/** The owner of all runs: it reserves an ID from the start of a run until the run releases it. */
module HostRuns {
  import opened RunModel
  import opened RunProtocol
  import opened RunHistory

  /** A start that awaits admission, one that was refused, or a run with everything that has happened to it. */
  datatype Entry = Admitting(id: string) | Refused(id: string) | Owned(id: string, trace: seq<Event>)

  datatype Host = Host(active: set<string>, entries: seq<Entry>)

  datatype HostEvent =
    | Starts(id: string)
    | AdmissionFails(k: nat)
    | AdmissionPasses(k: nat)
    | Acts(k: nat, event: Event)

  function Releases(trace: seq<Event>): nat {
    After(trace).history.releases
  }

  function HostStep(h: Host, e: HostEvent): Host {
    match e
    case Starts(id) => if id in h.active then h else Host(h.active + {id}, h.entries + [Admitting(id)])
    case AdmissionFails(k) =>
      if k < |h.entries| && h.entries[k].Admitting? then
        Host(h.active - {h.entries[k].id}, h.entries[k := Refused(h.entries[k].id)])
      else h
    case AdmissionPasses(k) =>
      if k < |h.entries| && h.entries[k].Admitting? then h.(entries := h.entries[k := Owned(h.entries[k].id, [])]) else h
    case Acts(k, event) =>
      if k < |h.entries| && h.entries[k].Owned? then
        var before := h.entries[k].trace;
        var after := before + [event];
        Host(if Releases(after) > Releases(before) then h.active - {h.entries[k].id} else h.active,
             h.entries[k := Owned(h.entries[k].id, after)])
      else h
  }

  function HostAfter(events: seq<HostEvent>): Host
    decreases |events|
  {
    if events == [] then Host({}, []) else HostStep(HostAfter(events[..|events| - 1]), events[|events| - 1])
  }

  /** A start holds its ID until it is refused or its run releases it. */
  ghost predicate Holds(entry: Entry) {
    entry.Admitting? || (entry.Owned? && Releases(entry.trace) == 0)
  }

  ghost predicate IdsAreReserved(h: Host) {
    && (forall k :: 0 <= k < |h.entries| && Holds(h.entries[k]) ==> h.entries[k].id in h.active)
    && (forall k, l :: 0 <= k < l < |h.entries| && Holds(h.entries[k]) && Holds(h.entries[l]) ==> h.entries[k].id != h.entries[l].id)
    && (forall id :: id in h.active ==> exists k :: 0 <= k < |h.entries| && Holds(h.entries[k]) && h.entries[k].id == id)
  }

  /** An entry that stops holding its ID gives up exactly that ID. */
  lemma Replaced(h: Host, k: nat, entry: Entry, active: set<string>)
    requires IdsAreReserved(h) && k < |h.entries| && entry.id == h.entries[k].id
    requires Holds(entry) ==> Holds(h.entries[k])
    requires active == if Holds(h.entries[k]) && !Holds(entry) then h.active - {entry.id} else h.active
    ensures IdsAreReserved(Host(active, h.entries[k := entry]))
  {
    hide Holds;
    var later := h.entries[k := entry];
    forall id | id in active ensures exists l :: 0 <= l < |later| && Holds(later[l]) && later[l].id == id {
      var l :| 0 <= l < |h.entries| && Holds(h.entries[l]) && h.entries[l].id == id;
      assert Holds(later[l]) && later[l].id == id;
    }
  }

  /** No step of a run releases it a second time. */
  lemma ReleasesStepOnce(trace: seq<Event>, e: Event)
    ensures Releases(trace) <= Releases(trace + [e]) <= 1
  {
    hide Progresses, After;
    var later := trace + [e];
    assert later[..|trace|] == trace && later[..|later|] == later;
    HistoryGrows(later, |trace|, |later|);
    GrownReleases(After(trace), After(later));
    ReleasedOnce(later);
  }

  lemma GrownReleases(r: Run, t: Run)
    requires Progresses(r, t)
    ensures r.history.releases <= t.history.releases
  {
  }

  lemma HostStepKeeps(h: Host, e: HostEvent)
    requires IdsAreReserved(h)
    ensures IdsAreReserved(HostStep(h, e))
  {
    hide After;
    match e
    case Starts(id) =>
      if id !in h.active {
        Reserved(h, id);
      }
    case AdmissionFails(k) =>
      if k < |h.entries| && h.entries[k].Admitting? {
        Replaced(h, k, Refused(h.entries[k].id), h.active - {h.entries[k].id});
      }
    case AdmissionPasses(k) =>
      if k < |h.entries| && h.entries[k].Admitting? {
        StartsNew();
        Replaced(h, k, Owned(h.entries[k].id, []), h.active);
      }
    case Acts(k, event) =>
      if k < |h.entries| && h.entries[k].Owned? {
        var after := h.entries[k].trace + [event];
        ReleasesStepOnce(h.entries[k].trace, event);
        Replaced(h, k, Owned(h.entries[k].id, after), HostStep(h, e).active);
      }
  }

  lemma Reserved(h: Host, id: string)
    requires IdsAreReserved(h) && id !in h.active
    ensures IdsAreReserved(Host(h.active + {id}, h.entries + [Admitting(id)]))
  {
    hide Releases;
    var later := h.entries + [Admitting(id)];
    forall other | other in h.active + {id} ensures exists l :: 0 <= l < |later| && Holds(later[l]) && later[l].id == other {
      if other == id {
        assert Holds(later[|h.entries|]);
      } else {
        var l :| 0 <= l < |h.entries| && Holds(h.entries[l]) && h.entries[l].id == other;
        assert later[l] == h.entries[l];
      }
    }
  }

  /** Whatever the runs of a host do, no two starts that hold an ID share it, and only held IDs are reserved. */
  lemma {:induction false} UnreleasedRunsNeverShareAnId(events: seq<HostEvent>)
    ensures IdsAreReserved(HostAfter(events))
    decreases |events|
  {
    hide HostStep;
    if events != [] {
      UnreleasedRunsNeverShareAnId(events[..|events| - 1]);
      HostStepKeeps(HostAfter(events[..|events| - 1]), events[|events| - 1]);
    }
  }

  class RunOwner {
    var active: set<string>
    ghost var entries: seq<Entry>

    ghost function State(): Host
      reads this
    {
      Host(active, entries)
    }

    constructor ()
      ensures State() == HostAfter([]) && IdsAreReserved(State())
    {
      active, entries := {}, [];
      new;
      UnreleasedRunsNeverShareAnId([]);
    }

    method Start(id: string) returns (accepted: bool)
      requires IdsAreReserved(State())
      modifies this
      ensures IdsAreReserved(State()) && State() == HostStep(old(State()), Starts(id))
      ensures accepted <==> !exists k :: 0 <= k < |old(entries)| && Holds(old(entries)[k]) && old(entries)[k].id == id
      ensures if accepted then entries == old(entries) + [Admitting(id)] && active == old(active) + {id}
              else entries == old(entries) && active == old(active)
    {
      HostStepKeeps(State(), Starts(id));
      if id in active {
        return false;
      }
      active, entries := active + {id}, entries + [Admitting(id)];
      return true;
    }

    method AdmissionFails(id: string, ghost k: nat)
      requires IdsAreReserved(State()) && k < |entries| && entries[k] == Admitting(id)
      modifies this
      ensures IdsAreReserved(State()) && State() == HostStep(old(State()), HostEvent.AdmissionFails(k))
    {
      HostStepKeeps(State(), HostEvent.AdmissionFails(k));
      active, entries := active - {id}, entries[k := Refused(id)];
    }

    /** The callback a run calls when it releases its owner. */
    method Release(id: string, ghost k: nat, ghost e: Event)
      requires IdsAreReserved(State()) && k < |entries| && entries[k].Owned? && entries[k].id == id
      requires Releases(entries[k].trace + [e]) > Releases(entries[k].trace)
      modifies this
      ensures IdsAreReserved(State()) && State() == HostStep(old(State()), Acts(k, e)) && id !in active
    {
      hide IdsAreReserved, Releases;
      HostStepKeeps(State(), Acts(k, e));
      active, entries := active - {id}, entries[k := Owned(id, entries[k].trace + [e])];
    }
  }
}
