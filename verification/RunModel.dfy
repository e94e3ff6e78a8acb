/**
 One run of the host as a state machine. Everything the event loop can
 interleave is an event: a producer settles, its deadline passes, a caller
 retries, the enclosing host disposes a resource, a message is logged. The code
 between two awaits is one step.
 */
module RunModel {
  import opened Outcomes

  type Ref = nat

  datatype Phase =
    | Preloading | Ready | Measuring
    | Closing | Capturing | Draining | Exporting
    | Disposing | Verifying | Completed | Retained | Failed

  datatype Diagnostic =
    | Message(text: string)
    | NotMeasured
    | NoEvidenceProducer(phase: Phase)
    | StillActive
    | LateSettlement(phase: Phase, cause: Diagnostic)
    | RefusedWhileLive(resource: string, phase: Phase)
    | RefusedBeforeExport(resource: string)
    | ExportMissing
    | ExportEmpty
    | NotReady
    | NotDisposed
    | CleanupUnverified
    | NoObservations
    | LogOverflow
    | Captured(text: string)
    | Deferred(phase: Phase)

  datatype Observation = Observation(phase: Phase, passed: bool, diagnostic: Option<Diagnostic>)

  function Pass(phase: Phase): Observation {
    Observation(phase, true, None)
  }

  /** The logs of a run, which only grow. */
  datatype Logs = Logs(phases: seq<Observation>, evidence: seq<Ref>, errors: seq<Diagnostic>)

  datatype Producer = Producer(phase: Phase, interrupted: bool)

  /** The awaited producer against its deadline: undecided, the references it returned, or what was thrown. */
  datatype Race = Open | Won(refs: seq<Ref>) | Threw(cause: Diagnostic)

  datatype Resource = Resource(id: string, attempted: bool, cleanupError: Option<Diagnostic>)

  datatype Outcome = Outcome(id: string, attempted: bool, released: bool, refs: seq<Ref>, cleanupError: Option<Diagnostic>)

  datatype Status = PassedStatus | ErrorStatus | IncompleteStatus

  datatype Report = Report(status: Status, logs: Logs, outcomes: seq<Outcome>)

  /** Where start, or the resume in flight, is suspended. */
  datatype Await =
    | Starting | Probing
    | Idle
    | AtStage | AtExport | AtDisposal
    | AtVerification(disposed: bool, observed: seq<Option<Outcome>>)
    | AtLogStop(disposed: bool, outcomes: seq<Outcome>)

  /** The calls made so far into producers, cleanups and the owner, and the reports handed out. */
  datatype History = History(starts: seq<Phase>, cleanups: seq<nat>, reports: seq<Report>, releases: nat)

  /** rejects: a cleanup has thrown into the disposal of the run. */
  datatype Run = Run(
    phase: Phase, await: Await, logs: Logs, captured: seq<string>,
    stages: seq<bool>, next: nat, exports: bool, finished: bool,
    producer: Option<Producer>, race: Race, admitted: bool, resources: seq<Resource>,
    rejects: bool, history: History)

  const CAPTURED_LIMIT := 1000

  function NewRun(): Run {
    Run(Preloading, Starting, Logs([], [], []), [], [], 0, false, false, None, Open, false, [], false, History([], [], [], 0))
  }

  function StagePhase(i: nat): Phase {
    if i == 0 then Closing else if i == 1 then Capturing else Draining
  }

  function Noted(l: Logs, phase: Phase, passed: bool, diagnostic: Option<Diagnostic>): Logs {
    l.(phases := l.phases + [Observation(phase, passed, diagnostic)])
  }

  function Faulted(l: Logs, phase: Phase, cause: Diagnostic): Logs {
    Noted(l.(errors := l.errors + [cause]), phase, false, Some(cause))
  }

  function PendingOutcomes(resources: seq<Resource>): seq<Outcome> {
    seq(|resources|, i requires 0 <= i < |resources| =>
      Outcome(resources[i].id, resources[i].attempted, false, [], resources[i].cleanupError))
  }

  // ---- Producers -------------------------------------------------------------------

  function Produce(r: Run, phase: Phase): Run {
    if r.producer.Some? then r.(race := Threw(StillActive))
    else r.(producer := Some(Producer(phase, false)), race := Open,
            history := r.history.(starts := r.history.starts + [phase]))
  }

  /** A deadline, or a cancellation, rejects the caller; the producer goes on. */
  function Interrupt(r: Run, cause: Diagnostic): Run {
    if r.producer.None? || r.race != Open then r
    else r.(race := Threw(cause), producer := Some(r.producer.value.(interrupted := true)))
  }

  function SettleWithRefs(r: Run, refs: seq<Ref>): Run {
    if r.producer.None? then r
    else
      r.(producer := None, logs := r.logs.(evidence := r.logs.evidence + refs),
         race := if r.race == Open then Won(refs) else r.race)
  }

  /** A failure that is not the interruption's own reason is reported when it comes late. */
  function SettleWithError(r: Run, cause: Diagnostic, isReason: bool): Run {
    if r.producer.None? then r
    else
      var late := r.producer.value.interrupted && !isReason;
      r.(producer := None,
         logs := if late then r.logs.(errors := r.logs.errors + [LateSettlement(r.producer.value.phase, cause)]) else r.logs,
         race := if r.race == Open then Threw(cause) else r.race)
  }

  // ---- Completion --------------------------------------------------------------------

  function Retain(r: Run, cause: Diagnostic): Run {
    var logs := Noted(r.logs, Retained, false, Some(cause));
    r.(phase := Retained, await := Idle, logs := logs,
       history := r.history.(reports := r.history.reports + [Report(IncompleteStatus, logs, PendingOutcomes(r.resources))]))
  }

  function ExportFails(r: Run, cause: Diagnostic): Run {
    Retain(r.(logs := Faulted(r.logs, Exporting, cause)), Deferred(Exporting))
  }

  function BeginExport(r: Run): Run {
    var entered := r.(phase := Exporting);
    if !r.exports then ExportFails(entered, ExportMissing) else Produce(entered.(await := AtExport), Exporting)
  }

  /** The next stage, entered with its hook. */
  function EnteredStage(r: Run): Run
    requires r.next < |r.stages|
  {
    Produce(r.(phase := StagePhase(r.next), next := r.next + 1, await := AtStage), StagePhase(r.next))
  }

  /** The next stage, which has no hook. */
  function SkippedStage(r: Run): Run
    requires r.next < |r.stages|
  {
    var phase := StagePhase(r.next);
    r.(phase := phase, next := r.next + 1, logs := Faulted(r.logs, phase, NoEvidenceProducer(phase)))
  }

  /** The stages not yet entered: each is entered once; one without a hook is an error. */
  function RunStages(r: Run): Run
    decreases |r.stages| - r.next
  {
    if r.next >= |r.stages| then BeginExport(r)
    else if r.stages[r.next] then EnteredStage(r)
    else RunStages(SkippedStage(r))
  }

  function Resume(r: Run): Run {
    if r.producer.Some? then Retain(r, Deferred(r.producer.value.phase)) else RunStages(r)
  }

  function Finish(r: Run, stages: seq<bool>, exports: bool): Run {
    if r.finished then r
    else
      Resume(r.(finished := true, stages := stages, exports := exports,
                logs := if r.phase != Measuring then r.logs.(errors := r.logs.errors + [NotMeasured]) else r.logs))
  }

  function RetryExport(r: Run, exports: bool): Run {
    if r.phase != Retained then r else Resume(r.(finished := true, exports := exports))
  }

  function StageReturns(r: Run): Run {
    if r.await != AtStage || r.race == Open then r
    else if r.race.Won? then RunStages(r.(logs := Noted(r.logs, r.phase, true, None)))
    else
      var failed := r.(logs := Faulted(r.logs, r.phase, r.race.cause));
      if r.producer.Some? then Retain(failed, Deferred(r.phase)) else RunStages(failed)
  }

  /** Only an export that returned references admits cleanup. */
  function ExportReturns(r: Run): Run {
    if r.await != AtExport || r.race == Open then r
    else if r.race.Threw? then ExportFails(r, r.race.cause)
    else if r.race.refs == [] then ExportFails(r, ExportEmpty)
    else r.(admitted := true, logs := Noted(r.logs, Exporting, true, None), phase := Disposing, await := AtDisposal)
  }

  /** A disposal that a cleanup has thrown into can only reject. */
  function DisposalReturns(r: Run, failure: Option<Diagnostic>, observed: bool): Run {
    if r.await != AtDisposal || (r.rejects && failure.None?) then r
    else
      var disposed := failure.None? && observed;
      var cause := if failure.Some? then failure.value else NotDisposed;
      r.(logs := if disposed then Noted(r.logs, Disposing, true, None) else Faulted(r.logs, Disposing, cause),
         phase := Verifying, await := AtVerification(disposed, seq(|r.resources|, _ => None)))
  }

  /** One resource is verified; a verification that throws or is too late reports nothing released. */
  function Verify(r: Run, i: nat, released: bool, refs: seq<Ref>): Run {
    if !r.await.AtVerification? || i >= |r.await.observed| || i >= |r.resources| || r.await.observed[i].Some? then r
    else
      var outcome := Outcome(r.resources[i].id, r.resources[i].attempted, released, refs, r.resources[i].cleanupError);
      r.(await := r.await.(observed := r.await.observed[i := Some(outcome)]))
  }

  /** An error with an empty message is as good as none where the code tests its message. */
  predicate Truthy(error: Option<Diagnostic>) {
    error.Some? && error.value != Message("")
  }

  predicate Released(o: Outcome) {
    o.attempted && o.released && o.refs != []
  }

  predicate AllReleased(outcomes: seq<Outcome>) {
    forall o :: o in outcomes ==> Released(o)
  }

  predicate CleanupPassed(outcomes: seq<Outcome>) {
    outcomes != [] && forall o :: o in outcomes ==> Released(o) && !Truthy(o.cleanupError)
  }

  function AllRefs(outcomes: seq<Outcome>): seq<Ref> {
    if outcomes == [] then [] else outcomes[0].refs + AllRefs(outcomes[1..])
  }

  function CleanupErrors(outcomes: seq<Outcome>): seq<Diagnostic> {
    if outcomes == [] then []
    else (if Truthy(outcomes[0].cleanupError) then [outcomes[0].cleanupError.value] else []) + CleanupErrors(outcomes[1..])
  }

  predicate AllObserved(observed: seq<Option<Outcome>>) {
    forall i :: 0 <= i < |observed| ==> observed[i].Some?
  }

  function Values(observed: seq<Option<Outcome>>): seq<Outcome>
    requires AllObserved(observed)
  {
    seq(|observed|, i requires 0 <= i < |observed| => observed[i].value)
  }

  function CapturedErrors(captured: seq<string>): seq<Diagnostic> {
    seq(|captured|, i requires 0 <= i < |captured| => Captured(captured[i]))
  }

  function VerificationReturns(r: Run): Run {
    if !r.await.AtVerification? || !AllObserved(r.await.observed) then r
    else
      var outcomes := Values(r.await.observed);
      var observed := outcomes != [];
      var passed := CleanupPassed(outcomes);
      var errors := r.logs.errors + (if observed && !passed then [CleanupUnverified] else [])
                    + CleanupErrors(outcomes) + CapturedErrors(r.captured);
      var logs := Logs(r.logs.phases, r.logs.evidence + AllRefs(outcomes), errors);
      r.(logs := Noted(logs, Verifying, passed && r.captured == [], if observed then None else Some(NoObservations)),
         await := AtLogStop(r.await.disposed, outcomes))
  }

  function LogStopReturns(r: Run): Run {
    if !r.await.AtLogStop? then r
    else
      var outcomes := r.await.outcomes;
      var status := if r.logs.errors != [] then ErrorStatus else if outcomes != [] then PassedStatus else IncompleteStatus;
      var phase := if status == PassedStatus then Completed else Failed;
      var logs := Noted(r.logs, phase, status == PassedStatus, None);
      r.(phase := phase, await := Idle, logs := logs,
         history := r.history.(
           reports := r.history.reports + [Report(status, logs, outcomes)],
           releases := if r.await.disposed && outcomes != [] && AllReleased(outcomes) then r.history.releases + 1 else r.history.releases))
  }

  // ---- Start ---------------------------------------------------------------------------

  function StartFails(r: Run, cause: Diagnostic): Run {
    Finish(r.(await := Idle, logs := Faulted(r.logs, Preloading, cause)), [false, false, false], false)
  }

  function ProbeReturns(r: Run, ready: bool): Run {
    if r.await != Probing || r.race == Open then r
    else if r.race.Threw? then StartFails(r, r.race.cause)
    else if !ready || r.race.refs == [] then StartFails(r, NotReady)
    else r.(await := Starting)
  }

  // ---- Resources and logging -------------------------------------------------------------

  function Track(r: Run, id: string): Run {
    if exists i :: 0 <= i < |r.resources| && r.resources[i].id == id then r
    else r.(resources := r.resources + [Resource(id, false, None)])
  }

  /** The disposer of a resource, called by the run's own disposal or by that of the enclosing host. */
  function CleanUp(r: Run, i: nat): Run {
    if i >= |r.resources| then r
    else if r.producer.Some? || !r.admitted then
      var id := r.resources[i].id;
      var cause := if r.producer.Some? then RefusedWhileLive(id, r.producer.value.phase) else RefusedBeforeExport(id);
      r.(resources := r.resources[i := r.resources[i].(cleanupError := Some(cause))],
         logs := r.logs.(errors := r.logs.errors + [cause]))
    else
      r.(resources := r.resources[i := r.resources[i].(attempted := true)], history := r.history.(cleanups := r.history.cleanups + [i]))
  }

  predicate Terminal(r: Run) {
    r.phase == Completed || r.phase == Failed
  }

  function Log(r: Run, text: string): Run {
    if Terminal(r) then r
    else if |r.captured| < CAPTURED_LIMIT then r.(captured := r.captured + [text])
    else if LogOverflow in r.logs.errors then r
    else r.(logs := r.logs.(errors := r.logs.errors + [LogOverflow]))
  }

  /**
   A cleanup throws, and the disposer throws its error on. Cordis logs such an
   error or rejects the disposal with it; only a disposal that is awaited, or
   whose deadline is among the errors already, can reject.
   */
  function CleanupFails(r: Run, i: nat, text: string, logged: bool): Run {
    if i >= |r.resources| || !r.resources[i].attempted then r
    else
      var failed := r.(resources := r.resources[i := r.resources[i].(cleanupError := Some(Message(text)))]);
      if logged || (r.await != AtDisposal && r.logs.errors == []) then Log(failed, text) else failed.(rejects := true)
  }

  // ---- Runs ----------------------------------------------------------------------------------

  datatype Event =
    | Probes
    | ProbeRefused(cause: Diagnostic)
    | ProbeDone(ready: bool)
    | StartFailed(cause: Diagnostic)
    | StartDone
    | MeasurementBegins
    | Finishes(stages: (bool, bool, bool), exports: bool)
    | Retries(exports: bool)
    | Interrupted(cause: Diagnostic)
    | Settles(refs: seq<Ref>)
    | Fails(cause: Diagnostic, isReason: bool)
    | StageDone
    | ExportDone
    | DisposalDone(failure: Option<Diagnostic>, observed: bool)
    | ResourceVerified(i: nat, released: bool, refs: seq<Ref>)
    | VerificationDone
    | LogStopped
    | Tracks(id: string)
    | CleansUp(i: nat)
    | CleanupFailed(i: nat, text: string, logged: bool)
    | Logged(text: string)

  /** The reaction to an event; one that is not possible in the state has no effect. */
  function Step(r: Run, e: Event): Run {
    match e
    case Probes => if r.await == Starting then Produce(r.(await := Probing), Preloading) else r
    case ProbeRefused(cause) => if r.await == Starting then r.(await := Probing, race := Threw(cause)) else r
    case ProbeDone(ready) => ProbeReturns(r, ready)
    case StartFailed(cause) => if r.await == Starting then StartFails(r, cause) else r
    case StartDone =>
      if r.await == Starting then
        r.(phase := Ready, await := Idle, logs := Noted(Noted(r.logs, Preloading, true, None), Ready, true, None))
      else r
    case MeasurementBegins =>
      if r.phase == Ready then r.(phase := Measuring, logs := Noted(r.logs, Measuring, true, None)) else r
    case Finishes(stages, exports) =>
      if r.await.Starting? || r.await.Probing? then r else Finish(r, [stages.0, stages.1, stages.2], exports)
    case Retries(exports) => RetryExport(r, exports)
    case Interrupted(cause) => Interrupt(r, cause)
    case Settles(refs) => SettleWithRefs(r, refs)
    case Fails(cause, isReason) => SettleWithError(r, cause, isReason)
    case StageDone => StageReturns(r)
    case ExportDone => ExportReturns(r)
    case DisposalDone(failure, observed) => DisposalReturns(r, failure, observed)
    case ResourceVerified(i, released, refs) => Verify(r, i, released, refs)
    case VerificationDone => VerificationReturns(r)
    case LogStopped => LogStopReturns(r)
    case Tracks(id) => Track(r, id)
    case CleansUp(i) => CleanUp(r, i)
    case CleanupFailed(i, text, logged) => CleanupFails(r, i, text, logged)
    case Logged(text) => Log(r, text)
  }

  function After(trace: seq<Event>): Run
    decreases |trace|
  {
    if trace == [] then NewRun() else Step(After(trace[..|trace| - 1]), trace[|trace| - 1])
  }
}
