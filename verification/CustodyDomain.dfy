/**
 The API object and the tables it updates. Each transaction method makes one
 step of the protocol; CloseJob strings its transactions together as one call
 does when no other call interferes, and shows that a close can be retried
 until it succeeds.
 */
module CustodyDomain {
  import opened Outcomes
  import opened CustodyModel
  import opened CustodyProtocol
  import opened CustodyRuns

  // ---- The ids of a set in ascending order --------------------------------------------

  lemma {:induction false} LeastExists(ids: set<nat>)
    requires ids != {}
    ensures exists u :: u in ids && forall v :: v in ids ==> u <= v
    decreases |ids|
  {
    var x :| x in ids;
    if y :| y in ids && y < x {
      var rest := ids - {x};
      assert y in rest;
      LeastExists(rest);
      var least :| least in rest && forall v :: v in rest ==> least <= v;
      assert forall v :: v in ids ==> v == x || v in rest;
      assert least in ids && forall v :: v in ids ==> least <= v;
    }
  }

  predicate IsAscending(order: seq<nat>) {
    forall i, j :: 0 <= i < j < |order| ==> order[i] < order[j]
  }

  predicate AllBelow(order: seq<nat>, rest: set<nat>) {
    forall i :: 0 <= i < |order| ==> forall v :: v in rest ==> order[i] < v
  }

  /** What is listed so far, in order, and what is still to be listed. */
  ghost predicate ListedSoFar(ids: set<nat>, order: seq<nat>, rest: set<nat>) {
    && IsAscending(order) && AllBelow(order, rest)
    && Members(order) + rest == ids && |order| + |rest| == |ids|
  }

  lemma LeastIsInOrder(order: seq<nat>, rest: set<nat>, u: nat)
    requires IsAscending(order) && AllBelow(order, rest) && u in rest && forall v :: v in rest ==> u <= v
    ensures IsAscending(order + [u]) && AllBelow(order + [u], rest - {u})
  {
  }

  lemma MembersOfAppended(order: seq<nat>, u: nat)
    ensures Members(order + [u]) == Members(order) + {u}
  {
  }

  lemma LeastListed(ids: set<nat>, order: seq<nat>, rest: set<nat>, u: nat)
    requires ListedSoFar(ids, order, rest) && u in rest && forall v :: v in rest ==> u <= v
    ensures ListedSoFar(ids, order + [u], rest - {u})
  {
    hide IsAscending, AllBelow, Members;
    LeastIsInOrder(order, rest, u);
    MembersOfAppended(order, u);
  }

  method Least(ids: set<nat>) returns (u: nat)
    requires ids != {}
    ensures u in ids && forall v :: v in ids ==> u <= v
  {
    LeastExists(ids);
    u :| u in ids && forall v :: v in ids ==> u <= v;
  }

  method Ascending(ids: set<nat>) returns (order: seq<nat>)
    ensures Members(order) == ids && |order| == |ids| && IsAscending(order)
  {
    hide IsAscending, AllBelow, Members;
    order := [];
    var rest := ids;
    NothingListed(ids);
    while rest != {}
      invariant ListedSoFar(ids, order, rest)
      decreases |rest|
    {
      var u := Least(rest);
      LeastListed(ids, order, rest, u);
      order, rest := order + [u], rest - {u};
    }
  }

  lemma NothingListed(ids: set<nat>)
    ensures ListedSoFar(ids, [], ids)
  {
  }

  /** Nobody else works on the job's uploads, and the claim agrees with what the job records. */
  ghost predicate Undisturbed(s: System, call: CallId, batch: BatchId, job: JobId, claim: Claim) {
    && call !in s.calls && HasJob(s, batch, job) && (claim.succeeded ==> claim.error.None?)
    && Kept(s.jobs[job].claim, Some(claim))
    && forall u :: u in UploadsOf(s, job) ==> u !in s.locks
  }

  /** What the object storage and the retention service answer; None is a failure. */
  type Storage = UploadId -> Option<string>
  type Retention = (UploadId, string) -> Option<map<Role, string>>

  predicate StorageKnows(u: UploadId, storage: Storage) {
    storage(u).Some? && IsObjectVersion(storage(u).value)
  }

  /** Storage reports a version of every upload, and retention of any version succeeds. */
  ghost predicate ExternalsSucceed(ids: set<UploadId>, storage: Storage, retention: Retention) {
    && (forall u :: u in ids ==> StorageKnows(u, storage))
    && (forall u, version :: u in ids ==> retention(u, version).Some?)
  }

  /** Retention fails or delivers every proof. */
  ghost predicate RetentionIsComplete(retention: Retention) {
    forall u, version :: retention(u, version).Some? ==> retention(u, version).value.Keys == ALL_ROLES
  }

  const ALL_ROLES := {Receipt, Verification, Statement, TrustPolicy, Signature}

  // ---- What one call does when no other interferes ----------------------------------------

  function EnsuredVersion(s: System, call: CallId, storage: Storage): (System, Response) {
    if call !in s.calls || !s.calls[call].Versioning? then (s, Done)
    else
      var version := storage(s.calls[call].id);
      if version.None? then Fail(s, call, 500) else BindVersion(s, call, version.value)
  }

  function RetainedUpload(s: System, call: CallId, retention: Retention): (System, Response) {
    if call !in s.calls || !s.calls[call].Retaining? then (s, Done)
    else
      var evidence := retention(s.calls[call].id, s.calls[call].version);
      if evidence.None? then Fail(s, call, 500) else CommitRetention(s, call, evidence.value)
  }

  /** One upload: lock, read, bind the version, retain, as far as there is something left to do. */
  function Visited(s: System, call: CallId, storage: Storage, retention: Retention): (System, Response) {
    var (locked, lock) := TryLock(s, call);
    if lock != Done then (locked, lock)
    else
      var (observed, read) := ReadUpload(locked, call);
      if read != Done then (observed, read)
      else
        var (bound, bind) := EnsuredVersion(observed, call, storage);
        if bind != Done then (bound, bind) else RetainedUpload(bound, call, retention)
  }

  function VisitedAll(s: System, call: CallId, remaining: nat, storage: Storage, retention: Retention, patience: nat): (System, Response)
    decreases remaining
  {
    if remaining == 0 then (s, Done)
    else if patience == 0 then Fail(s, call, 500)
    else
      var (t, r) := Visited(s, call, storage, retention);
      if r != Done then (t, r) else VisitedAll(t, call, remaining - 1, storage, retention, patience - 1)
  }

  function Remaining(s: System, call: CallId): nat {
    if call in s.calls then |s.calls[call].todo| else 0
  }

  function Closed(s: System, call: CallId, batch: BatchId, job: JobId, claim: Claim, order: seq<UploadId>,
                  storage: Storage, retention: Retention, patience: nat): (System, Response)
  {
    var (begun, begin) := BeginClose(s, call, batch, job, claim, order);
    if begin != Done then (begun, begin)
    else
      var (visited, visit) := VisitedAll(begun, call, Remaining(begun, call), storage, retention, patience);
      if visit != Done then (visited, visit) else FinishClose(visited, call)
  }

  predicate IsListing(s: System, job: JobId, order: seq<UploadId>) {
    Members(order) == UploadsOf(s, job) && |order| == |UploadsOf(s, job)|
  }

  // ---- An undisturbed call makes progress ------------------------------------------------

  /** The call is between uploads, and nobody holds a lock on any upload of its job. */
  ghost predicate Ready(s: System, call: CallId, job: JobId, claim: Claim, todo: seq<UploadId>, ids: set<UploadId>) {
    && Invariant(s) && call in s.calls && s.calls[call] == Between(job, claim, todo)
    && UploadsOf(s, job) == ids && forall v :: v in ids ==> v !in s.locks
  }

  /** The call works on one upload, and holds the only lock on an upload of its job. */
  ghost predicate AtWork(s: System, call: CallId, job: JobId, claim: Claim, todo: seq<UploadId>, u: UploadId, ids: set<UploadId>) {
    && Invariant(s) && call in s.calls && !s.calls[call].Between?
    && s.calls[call].job == job && s.calls[call].claim == claim && s.calls[call].todo == todo && s.calls[call].id == u
    && UploadsOf(s, job) == ids && u in ids && forall v :: v in ids && v in s.locks ==> v == u
  }

  lemma LockSucceeds(s: System, call: CallId, job: JobId, claim: Claim, todo: seq<UploadId>, ids: set<UploadId>)
    requires Ready(s, call, job, claim, todo, ids) && todo != []
    ensures var (t, r) := TryLock(s, call);
            r == Done && t.calls[call].Holding? && AtWork(t, call, job, claim, todo[1..], todo[0], ids)
  {
    hide Invariant, Progresses, EndCall;
    CallFacts(s, call);
    assert todo[0] in todo;
    TryLockKeeps(s, call);
    assert UploadsOf(TryLock(s, call).0, job) == UploadsOf(s, job);
  }

  lemma ReadShape(s: System, call: CallId)
    requires call in s.calls && s.calls[call].Holding? && s.calls[call].id in s.uploads
    ensures var (t, r) := ReadUpload(s, call);
            var c := s.calls[call];
            r == Done &&
            if s.uploads[c.id].retained then t == s.(locks := s.locks - {c.id}, calls := s.calls[call := Between(c.job, c.claim, c.todo)])
            else if s.uploads[c.id].version.Some? then
              t == s.(calls := s.calls[call := Retaining(c.job, c.claim, c.todo, c.id, s.uploads[c.id].version.value)])
            else t == s.(calls := s.calls[call := Versioning(c.job, c.claim, c.todo, c.id)])
  {
    hide EndCall;
  }

  lemma ReadReleases(s: System, call: CallId, job: JobId, claim: Claim, todo: seq<UploadId>, u: UploadId, ids: set<UploadId>)
    requires AtWork(s, call, job, claim, todo, u, ids) && s.calls[call].Holding? && u in s.uploads && s.uploads[u].retained
    ensures var (t, r) := ReadUpload(s, call);
            r == Done && t.uploads == s.uploads && Ready(t, call, job, claim, todo, ids)
  {
    hide Invariant, Progresses, ReadUpload;
    ReadUploadKeeps(s, call);
    ReadShape(s, call);
    SameUploads(s, ReadUpload(s, call).0, job);
    hide UploadsOf;
  }

  lemma ReadProceeds(s: System, call: CallId, job: JobId, claim: Claim, todo: seq<UploadId>, u: UploadId, ids: set<UploadId>)
    requires AtWork(s, call, job, claim, todo, u, ids) && s.calls[call].Holding? && u in s.uploads && !s.uploads[u].retained
    ensures var (t, r) := ReadUpload(s, call);
            && r == Done && AtWork(t, call, job, claim, todo, u, ids)
            && (t.calls[call].Versioning? || t.calls[call].Retaining?)
  {
    hide Invariant, Progresses, ReadUpload;
    ReadUploadKeeps(s, call);
    ReadShape(s, call);
    SameUploads(s, ReadUpload(s, call).0, job);
    hide UploadsOf;
  }

  lemma SameUploads(s: System, t: System, job: JobId)
    requires t.uploads == s.uploads
    ensures UploadsOf(t, job) == UploadsOf(s, job)
  {
  }

  lemma BindSucceeds(s: System, call: CallId, job: JobId, claim: Claim, todo: seq<UploadId>, u: UploadId, ids: set<UploadId>, version: string)
    requires AtWork(s, call, job, claim, todo, u, ids) && s.calls[call].Versioning? && IsObjectVersion(version)
    ensures var (t, r) := BindVersion(s, call, version);
            r == Done && t.calls[call].Retaining? && AtWork(t, call, job, claim, todo, u, ids)
  {
    hide Invariant;
    CallFacts(s, call);
    BindVersionKeeps(s, call, version);
    hide CallIsSound, Progresses;
    assert UploadsOf(BindVersion(s, call, version).0, job) == UploadsOf(s, job);
  }

  /** Nothing attests an upload that is not retained, so the insertion of its proofs cannot conflict. */
  lemma RetainerIsReady(s: System, call: CallId)
    requires Invariant(s) && call in s.calls && s.calls[call].Retaining?
    ensures var u := s.calls[call].id;
            u in s.uploads && s.uploads[u].version == Some(s.calls[call].version) && !s.uploads[u].retained &&
            forall role :: (u, role) !in s.proofs
  {
    hide ClosedBatchesAreComplete, ClosedJobsAreComplete, NamesAgree, BatchKeysAgree, JobKeysAgree, UploadsAreBounded, CallsAreSound, HasAllProofs;
    CallFacts(s, call);
  }

  lemma CommitSucceeds(s: System, call: CallId, job: JobId, claim: Claim, todo: seq<UploadId>, u: UploadId, ids: set<UploadId>, evidence: map<Role, string>)
    requires AtWork(s, call, job, claim, todo, u, ids) && s.calls[call].Retaining? && evidence.Keys == ALL_ROLES
    ensures var (t, r) := CommitRetention(s, call, evidence);
            r == Done && u in t.uploads && t.uploads[u].retained && Ready(t, call, job, claim, todo, ids)
  {
    hide Invariant, Progresses, ProofsFor, EndCall;
    RetainerIsReady(s, call);
    CommitRetentionKeeps(s, call, evidence);
    assert UploadsOf(CommitRetention(s, call, evidence).0, job) == UploadsOf(s, job);
    hide UploadsOf;
  }

  lemma FinishSucceeds(s: System, call: CallId, job: JobId, claim: Claim, ids: set<UploadId>)
    requires Ready(s, call, job, claim, [], ids) && forall u :: u in ids ==> u in s.uploads && s.uploads[u].retained
    ensures var (t, r) := FinishClose(s, call);
            r == Done && job in t.jobs && t.jobs[job].closed && t.jobs[job].claim == Some(claim)
  {
    hide Invariant;
    CallFacts(s, call);
  }

  lemma VisitSucceeds(s: System, call: CallId, job: JobId, claim: Claim, todo: seq<UploadId>, ids: set<UploadId>,
                      storage: Storage, retention: Retention)
    requires Ready(s, call, job, claim, todo, ids) && todo != []
    requires ExternalsSucceed(ids, storage, retention) && RetentionIsComplete(retention)
    ensures var (t, r) := Visited(s, call, storage, retention);
            && r == Done && Ready(t, call, job, claim, todo[1..], ids)
            && todo[0] in t.uploads && t.uploads[todo[0]].retained
  {
    hide TryLock, ReadUpload, BindVersion, CommitRetention, Ready, AtWork, IsObjectVersion;
    var u, rest := todo[0], todo[1..];
    LockSucceeds(s, call, job, claim, todo, ids);
    var locked := TryLock(s, call).0;
    InvolvedUpload(locked, call, job, claim, rest, u, ids);
    var observed := ReadUpload(locked, call).0;
    if locked.uploads[u].retained {
      ReadReleases(locked, call, job, claim, rest, u, ids);
      ReadyIsBetween(observed, call, job, claim, rest, ids);
    } else {
      ReadProceeds(locked, call, job, claim, rest, u, ids);
      InvolvedUpload(observed, call, job, claim, rest, u, ids);
      if observed.calls[call].Versioning? {
        BindSucceeds(observed, call, job, claim, rest, u, ids, storage(u).value);
      }
      var bound := EnsuredVersion(observed, call, storage).0;
      InvolvedUpload(bound, call, job, claim, rest, u, ids);
      var evidence := retention(u, bound.calls[call].version);
      CommitSucceeds(bound, call, job, claim, rest, u, ids, evidence.value);
    }
  }

  lemma InvolvedUpload(s: System, call: CallId, job: JobId, claim: Claim, todo: seq<UploadId>, u: UploadId, ids: set<UploadId>)
    requires AtWork(s, call, job, claim, todo, u, ids)
    ensures u in ids && u in s.uploads && call in s.calls && !s.calls[call].Between? && s.calls[call].id == u
  {
    hide Invariant;
    assert u in UploadsOf(s, job);
  }

  lemma ReadyIsBetween(s: System, call: CallId, job: JobId, claim: Claim, todo: seq<UploadId>, ids: set<UploadId>)
    requires Ready(s, call, job, claim, todo, ids)
    ensures call in s.calls && s.calls[call] == Between(job, claim, todo)
  {
    hide Invariant;
  }

  // ---- A call is a run of the protocol -----------------------------------------------------

  lemma Chained(s: System, first: seq<Event>, second: seq<Event>)
    requires IsTrace(s, first) && IsTrace(Run(s, first), second)
    ensures IsTrace(s, first + second) && Run(s, first + second) == Run(Run(s, first), second)
    decreases |second|
  {
    hide Step, Admissible;
    if second == [] {
      assert first + second == first;
    } else {
      var earlier := second[..|second| - 1];
      Chained(s, first, earlier);
      assert (first + second)[..|first + second| - 1] == first + earlier;
    }
  }

  lemma SingleStep(s: System, e: Event)
    requires Admissible(s, e)
    ensures IsTrace(s, [e]) && Run(s, [e]) == Perform(s, e).0
  {
    hide Perform, Admissible;
    assert [e][..0] == [];
  }

  lemma VisitIsATrace(s: System, call: CallId, storage: Storage, retention: Retention) returns (trace: seq<Event>)
    requires RetentionIsComplete(retention)
    ensures IsTrace(s, trace) && Run(s, trace) == Visited(s, call, storage, retention).0
  {
    hide TryLock, ReadUpload, BindVersion, CommitRetention, EndCall, IsTrace, Run;
    var (locked, lock) := TryLock(s, call);
    trace := [Locks(call)];
    SingleStep(s, Locks(call));
    if lock == Done {
      var (observed, read) := ReadUpload(locked, call);
      SingleStep(locked, Reads(call));
      Chained(s, trace, [Reads(call)]);
      trace := trace + [Reads(call)];
      if read == Done {
        var binding := BindingIsATrace(observed, call, storage);
        Chained(s, trace, binding);
        trace := trace + binding;
        var (bound, bind) := EnsuredVersion(observed, call, storage);
        if bind == Done {
          var retaining := RetainingIsATrace(bound, call, retention);
          Chained(s, trace, retaining);
          trace := trace + retaining;
        }
      }
    }
  }

  lemma BindingIsATrace(s: System, call: CallId, storage: Storage) returns (trace: seq<Event>)
    ensures IsTrace(s, trace) && Run(s, trace) == EnsuredVersion(s, call, storage).0
  {
    hide BindVersion, EndCall;
    trace := [];
    if call in s.calls && s.calls[call].Versioning? {
      var version := storage(s.calls[call].id);
      var e := if version.None? then Crashes(call) else Binds(call, version.value);
      SingleStep(s, e);
      trace := [e];
    }
  }

  lemma RetainingIsATrace(s: System, call: CallId, retention: Retention) returns (trace: seq<Event>)
    requires RetentionIsComplete(retention)
    ensures IsTrace(s, trace) && Run(s, trace) == RetainedUpload(s, call, retention).0
  {
    hide CommitRetention, EndCall;
    trace := [];
    if call in s.calls && s.calls[call].Retaining? {
      var evidence := retention(s.calls[call].id, s.calls[call].version);
      var e := if evidence.None? then Crashes(call) else Commits(call, evidence.value);
      SingleStep(s, e);
      trace := [e];
    }
  }

  lemma {:induction false} VisitsAreATrace(s: System, call: CallId, remaining: nat, storage: Storage, retention: Retention, patience: nat)
    returns (trace: seq<Event>)
    requires RetentionIsComplete(retention)
    ensures IsTrace(s, trace) && Run(s, trace) == VisitedAll(s, call, remaining, storage, retention, patience).0
    decreases remaining
  {
    hide Visited, EndCall, RetentionIsComplete;
    trace := [];
    if remaining > 0 && patience == 0 {
      SingleStep(s, Crashes(call));
      trace := [Crashes(call)];
    } else if remaining > 0 {
      var (t, r) := Visited(s, call, storage, retention);
      trace := VisitIsATrace(s, call, storage, retention);
      if r == Done {
        var rest := VisitsAreATrace(t, call, remaining - 1, storage, retention, patience - 1);
        Chained(s, trace, rest);
        trace := trace + rest;
      }
    }
  }

  /** Whatever a close call does, alone and however it ends, is a run of the protocol. */
  lemma CloseIsATrace(s: System, call: CallId, batch: BatchId, job: JobId, claim: Claim, order: seq<UploadId>,
                      storage: Storage, retention: Retention, patience: nat) returns (trace: seq<Event>)
    requires IsListing(s, job, order) && RetentionIsComplete(retention)
    ensures IsTrace(s, trace)
    ensures Run(s, trace) == Closed(s, call, batch, job, claim, order, storage, retention, patience).0
  {
    hide BeginClose, VisitedAll, FinishClose, RetentionIsComplete, IsTrace, Run, Remaining;
    var begins := Begins(call, batch, job, claim, order);
    SingleStep(s, begins);
    trace := [begins];
    var (begun, begin) := BeginClose(s, call, batch, job, claim, order);
    if begin == Done {
      var visits := VisitsAreATrace(begun, call, Remaining(begun, call), storage, retention, patience);
      Chained(s, trace, visits);
      trace := trace + visits;
      var (visited, visit) := VisitedAll(begun, call, Remaining(begun, call), storage, retention, patience);
      if visit == Done {
        SingleStep(visited, Finishes(call));
        Chained(s, trace, [Finishes(call)]);
        trace := trace + [Finishes(call)];
      }
    }
  }

  // ---- Closing and retrying ------------------------------------------------------------------

  predicate AllRetained(s: System, ids: set<UploadId>) {
    forall u :: u in ids ==> u in s.uploads && s.uploads[u].retained
  }

  lemma VisitKeepsRetention(s: System, call: CallId, storage: Storage, retention: Retention, done: set<UploadId>)
    requires Invariant(s) && RetentionIsComplete(retention) && AllRetained(s, done)
    ensures AllRetained(Visited(s, call, storage, retention).0, done)
  {
    hide Invariant, Visited, RetentionIsComplete, Run, IsTrace;
    var trace := VisitIsATrace(s, call, storage, retention);
    RunKeeps(s, trace);
  }

  lemma {:induction false} VisitsSucceed(s: System, call: CallId, job: JobId, claim: Claim, todo: seq<UploadId>, ids: set<UploadId>,
                      done: set<UploadId>, storage: Storage, retention: Retention, patience: nat)
    requires Ready(s, call, job, claim, todo, ids) && ids == done + Members(todo) && AllRetained(s, done)
    requires ExternalsSucceed(ids, storage, retention) && RetentionIsComplete(retention) && patience >= |todo|
    ensures var (t, r) := VisitedAll(s, call, |todo|, storage, retention, patience);
            r == Done && Ready(t, call, job, claim, [], ids) && AllRetained(t, ids)
    decreases |todo|
  {
    hide Ready, Visited, ExternalsSucceed, RetentionIsComplete, Invariant, Members, AllRetained;
    FirstMember(todo);
    if todo == [] {
      assert ids == done && todo == [];
    } else {
      VisitSucceeds(s, call, job, claim, todo, ids, storage, retention);
      ReadyIsInvariant(s, call, job, claim, todo, ids);
      VisitKeepsRetention(s, call, storage, retention, done);
      var t := Visited(s, call, storage, retention).0;
      OneMoreRetained(t, done, todo[0]);
      VisitsSucceed(t, call, job, claim, todo[1..], ids, done + {todo[0]}, storage, retention, patience - 1);
    }
  }

  lemma FirstMember(order: seq<UploadId>)
    ensures Members(order) == if order == [] then {} else {order[0]} + Members(order[1..])
  {
    if order != [] {
      assert order == [order[0]] + order[1..];
    }
  }

  lemma OneMoreRetained(s: System, done: set<UploadId>, u: UploadId)
    requires AllRetained(s, done) && u in s.uploads && s.uploads[u].retained
    ensures AllRetained(s, done + {u})
  {
  }

  lemma ReadyIsInvariant(s: System, call: CallId, job: JobId, claim: Claim, todo: seq<UploadId>, ids: set<UploadId>)
    requires Ready(s, call, job, claim, todo, ids)
    ensures Invariant(s)
  {
    hide Invariant;
  }

  /** The first transaction of an undisturbed close lists everything that is not yet in custody. */
  lemma BeginSucceeds(s: System, call: CallId, batch: BatchId, job: JobId, claim: Claim, order: seq<UploadId>)
    requires Invariant(s) && Undisturbed(s, call, batch, job, claim) && IsListing(s, job, order)
    ensures var (t, r) := BeginClose(s, call, batch, job, claim, order);
            var todo := if s.jobs[job].closed then [] else order;
            r == Done && Ready(t, call, job, claim, todo, UploadsOf(s, job)) && t.uploads == s.uploads
    ensures s.jobs[job].closed ==> AllRetained(s, UploadsOf(s, job))
  {
    hide Invariant, Progresses;
    BeginCloseKeeps(s, call, batch, job, claim, order);
    ClaimIsSafe(s, job);
    SameUploads(s, BeginClose(s, call, batch, job, claim, order).0, job);
  }

  /** An undisturbed call that is ready to visit whatever is not yet retained finishes. */
  lemma ReadyCallCloses(s: System, call: CallId, job: JobId, claim: Claim, todo: seq<UploadId>, ids: set<UploadId>, done: set<UploadId>,
                        storage: Storage, retention: Retention, patience: nat)
    requires Ready(s, call, job, claim, todo, ids) && ids == done + Members(todo) && AllRetained(s, done)
    requires ExternalsSucceed(ids, storage, retention) && RetentionIsComplete(retention) && patience >= |todo|
    ensures var (v, visit) := VisitedAll(s, call, Remaining(s, call), storage, retention, patience);
            var (t, r) := FinishClose(v, call);
            visit == Done && r == Done && job in t.jobs && t.jobs[job].closed && t.jobs[job].claim == Some(claim)
  {
    hide Invariant, Ready, VisitedAll, FinishClose, ExternalsSucceed, RetentionIsComplete;
    ReadyIsBetween(s, call, job, claim, todo, ids);
    VisitsSucceed(s, call, job, claim, todo, ids, done, storage, retention, patience);
    FinishSucceeds(VisitedAll(s, call, |todo|, storage, retention, patience).0, call, job, claim, ids);
  }

  /**
   Recoverability: from any reachable state, however the earlier calls ended, a
   close that agrees with the claim, meets no lock and whose external calls
   succeed closes the job and answers with success.
   */
  lemma RetryCloses(branches: set<nat>, maximumUploads: nat, trace: seq<Event>, call: CallId, batch: BatchId, job: JobId, claim: Claim,
                    order: seq<UploadId>, storage: Storage, retention: Retention, patience: nat)
    requires IsRun(branches, maximumUploads, trace)
    requires var s := After(branches, maximumUploads, trace);
             && Undisturbed(s, call, batch, job, claim) && IsListing(s, job, order)
             && ExternalsSucceed(UploadsOf(s, job), storage, retention) && RetentionIsComplete(retention)
             && patience >= |UploadsOf(s, job)|
    ensures var (t, r) := Closed(After(branches, maximumUploads, trace), call, batch, job, claim, order, storage, retention, patience);
            r == Done && job in t.jobs && t.jobs[job].closed && t.jobs[job].claim == Some(claim)
  {
    InitiallySound(branches, maximumUploads);
    RunKeeps(Initial(branches, maximumUploads), trace);
    UndisturbedCloses(After(branches, maximumUploads, trace), call, batch, job, claim, order, storage, retention, patience);
  }

  /** What is retained or still to be visited when an undisturbed close begins. */
  lemma NothingIsForgotten(s: System, t: System, job: JobId, order: seq<UploadId>)
    requires job in s.jobs && IsListing(s, job, order) && t.uploads == s.uploads
    requires s.jobs[job].closed ==> AllRetained(s, UploadsOf(s, job))
    ensures var todo := if s.jobs[job].closed then [] else order;
            var done := if s.jobs[job].closed then UploadsOf(s, job) else {};
            UploadsOf(s, job) == done + Members(todo) && AllRetained(t, done) && |todo| <= |UploadsOf(s, job)|
  {
    hide UploadsOf;
    assert Members([]) == {};
  }

  lemma UndisturbedCloses(s: System, call: CallId, batch: BatchId, job: JobId, claim: Claim,
                          order: seq<UploadId>, storage: Storage, retention: Retention, patience: nat)
    requires Invariant(s) && Undisturbed(s, call, batch, job, claim) && IsListing(s, job, order)
    requires ExternalsSucceed(UploadsOf(s, job), storage, retention) && RetentionIsComplete(retention)
    requires patience >= |UploadsOf(s, job)|
    ensures var (t, r) := Closed(s, call, batch, job, claim, order, storage, retention, patience);
            r == Done && job in t.jobs && t.jobs[job].closed && t.jobs[job].claim == Some(claim)
  {
    assert HasJob(s, batch, job);
    hide Invariant, Ready, VisitedAll, FinishClose, BeginClose, ExternalsSucceed, RetentionIsComplete, Undisturbed, UploadsOf;
    var ids := UploadsOf(s, job);
    BeginSucceeds(s, call, batch, job, claim, order);
    var todo := if s.jobs[job].closed then [] else order;
    var done := if s.jobs[job].closed then ids else {};
    NothingIsForgotten(s, BeginClose(s, call, batch, job, claim, order).0, job, order);
    hide IsListing, Members, AllRetained;
    ReadyCallCloses(BeginClose(s, call, batch, job, claim, order).0, call, job, claim, todo, ids, done, storage, retention, patience);
  }

  ghost predicate SameJob(s: System, t: System, r: Response, call: CallId) {
    r == Done && call in s.calls ==> call in t.calls && t.calls[call].job == s.calls[call].job
  }

  lemma LockKeepsJob(s: System, call: CallId)
    ensures SameJob(s, TryLock(s, call).0, TryLock(s, call).1, call)
  {
    hide EndCall;
  }

  lemma ReadKeepsJob(s: System, call: CallId)
    ensures SameJob(s, ReadUpload(s, call).0, ReadUpload(s, call).1, call)
  {
    hide EndCall;
  }

  lemma BindingKeepsJob(s: System, call: CallId, storage: Storage)
    ensures SameJob(s, EnsuredVersion(s, call, storage).0, EnsuredVersion(s, call, storage).1, call)
  {
    hide EndCall;
  }

  lemma RetentionKeepsJob(s: System, call: CallId, retention: Retention)
    ensures SameJob(s, RetainedUpload(s, call, retention).0, RetainedUpload(s, call, retention).1, call)
  {
    hide EndCall, ProofsFor;
  }

  lemma VisitKeepsJob(s: System, call: CallId, storage: Storage, retention: Retention)
    ensures SameJob(s, Visited(s, call, storage, retention).0, Visited(s, call, storage, retention).1, call)
  {
    hide TryLock, ReadUpload, EnsuredVersion, RetainedUpload;
    var (locked, lock) := TryLock(s, call);
    var (observed, read) := ReadUpload(locked, call);
    var (bound, bind) := EnsuredVersion(observed, call, storage);
    LockKeepsJob(s, call);
    ReadKeepsJob(locked, call);
    BindingKeepsJob(observed, call, storage);
    RetentionKeepsJob(bound, call, retention);
  }

  lemma {:induction false} VisitsKeepJob(s: System, call: CallId, remaining: nat, storage: Storage, retention: Retention, patience: nat)
    requires call in s.calls
    ensures var (t, r) := VisitedAll(s, call, remaining, storage, retention, patience);
            SameJob(s, t, r, call)
    decreases remaining
  {
    hide Visited;
    if remaining > 0 && patience > 0 {
      VisitKeepsJob(s, call, storage, retention);
      var (t, r) := Visited(s, call, storage, retention);
      if r == Done {
        VisitsKeepJob(t, call, remaining - 1, storage, retention, patience - 1);
      }
    }
  }

  /** A close that answers with success has closed its job, with every upload in custody. */
  lemma SuccessIsCustody(s: System, call: CallId, batch: BatchId, job: JobId, claim: Claim, order: seq<UploadId>,
                         storage: Storage, retention: Retention, patience: nat)
    requires Invariant(s) && IsListing(s, job, order) && RetentionIsComplete(retention)
    requires Closed(s, call, batch, job, claim, order, storage, retention, patience).1 == Done
    ensures var t := Closed(s, call, batch, job, claim, order, storage, retention, patience).0;
            && Invariant(t) && Progresses(s, t)
            && job in t.jobs && t.jobs[job].closed && t.jobs[job].claim == Some(claim) && IsInCustody(t, job)
  {
    hide Invariant, Progresses, VisitedAll, RetentionIsComplete, IsTrace, Run, EndCall, Members, UploadsOf, IsInCustody;
    var (begun, begin) := BeginClose(s, call, batch, job, claim, order);
    VisitsKeepJob(begun, call, Remaining(begun, call), storage, retention, patience);
    var (visited, visit) := VisitedAll(begun, call, Remaining(begun, call), storage, retention, patience);
    FinishedIsClosed(visited, call);
    hide FinishClose;
    var trace := CloseIsATrace(s, call, batch, job, claim, order, storage, retention, patience);
    RunKeeps(s, trace);
    var t := Closed(s, call, batch, job, claim, order, storage, retention, patience).0;
    ClosedIsInCustody(t, job);
    var visits := VisitsAreATrace(begun, call, Remaining(begun, call), storage, retention, patience);
    hide BeginClose;
    BegunIsClaimed(s, call, batch, job, claim, order);
    RunKeeps(begun, visits);
    FinishCloseKeeps(visited, call);
    ProgressComposes(begun, visited, t);
    ClaimStays(begun, t, job);
  }

  lemma BegunIsClaimed(s: System, call: CallId, batch: BatchId, job: JobId, claim: Claim, order: seq<UploadId>)
    requires Invariant(s) && IsListing(s, job, order) && BeginClose(s, call, batch, job, claim, order).1 == Done
    ensures var t := BeginClose(s, call, batch, job, claim, order).0;
            Invariant(t) && job in t.jobs && t.jobs[job].claim == Some(claim)
  {
    hide Invariant, Progresses, BeginClose, Members, UploadSet;
    BeginCloseKeeps(s, call, batch, job, claim, order);
  }

  lemma ClaimStays(s: System, t: System, job: JobId)
    requires Progresses(s, t) && job in s.jobs && s.jobs[job].claim.Some?
    ensures job in t.jobs && t.jobs[job].claim == s.jobs[job].claim
  {
  }

  lemma FinishedIsClosed(s: System, call: CallId)
    ensures var (t, r) := FinishClose(s, call);
            r == Done ==> call in s.calls && s.calls[call].job in t.jobs && t.jobs[s.calls[call].job].closed
  {
  }

  lemma ClosedIsInCustody(s: System, job: JobId)
    requires Invariant(s) && job in s.jobs && s.jobs[job].closed
    ensures IsInCustody(s, job)
  {
    hide ClosedBatchesAreComplete, NamesAgree, BatchKeysAgree, JobKeysAgree, UploadsAreBounded, CallsAreSound, HasAllProofs;
  }

  lemma AlreadyClaimed(jobs: map<JobId, Job>, job: JobId, claim: Claim)
    requires job in jobs && jobs[job].claim == Some(claim)
    ensures jobs[job := jobs[job].(claim := Some(claim))] == jobs
  {
  }

  // ---- What a caller of each transaction may rely on ----------------------------------------

  /** The invariant holds, and nothing that was recorded is undone. */
  ghost predicate Advances(s: System, t: System) {
    Invariant(t) && Progresses(s, t)
  }

  predicate GrantsBatch(t: System, r: Response, owner: Principal, key: Option<string>, fingerprint: string) {
    r.Row? ==>
      && r.id in t.batches && t.batches[r.id].owner == owner && t.batches[r.id].key == key
      && t.batches[r.id].fingerprint == fingerprint
  }

  predicate GrantsJob(t: System, r: Response, batch: BatchId, owner: Principal, key: Option<string>, fingerprint: string) {
    r.Row? ==>
      && r.id in t.jobs && t.jobs[r.id].batch == batch && t.jobs[r.id].owner == owner && t.jobs[r.id].key == key
      && t.jobs[r.id].fingerprint == fingerprint
  }

  /** The claim is recorded, and unless the job is closed the call has all its uploads to visit. */
  predicate ClaimsAndLists(t: System, r: Response, call: CallId, job: JobId, claim: Claim) {
    r == Done ==>
      && job in t.jobs && t.jobs[job].claim == Some(claim) && call in t.calls
      && (t.jobs[job].closed || Members(t.calls[call].todo) == UploadsOf(t, job))
  }

  /** The call is done with the upload exactly when it was retained. */
  predicate SkipsRetained(s: System, t: System, r: Response, call: CallId) {
    r == Done ==>
      && call in t.calls && call in s.calls && s.calls[call].Holding? && s.calls[call].id in s.uploads
      && (t.calls[call].Between? <==> s.uploads[s.calls[call].id].retained)
  }

  /** The upload is in custody, and the proof of each role is what the evidence has for that role. */
  ghost predicate TakesIntoCustody(s: System, t: System, r: Response, call: CallId, evidence: map<Role, string>) {
    r == Done ==>
      && call in s.calls && s.calls[call].Retaining? && InCustody(t, s.calls[call].id)
      && forall role: Role :: role in evidence && (s.calls[call].id, role) in t.proofs &&
           t.proofs[(s.calls[call].id, role)] == Proof(s.calls[call].version, evidence[role])
  }

  lemma AdvancedIsInvariant(s: System, t: System)
    requires Advances(s, t)
    ensures Invariant(t)
  {
    hide Invariant, Progresses;
  }

  /** The lookup of the key, and then the insertion. */
  function CreatedBatch(s: System, owner: Principal, branch: nat, key: Option<string>, fingerprint: string, id: BatchId): (System, Response) {
    if key.Some? && PreviousBatch(s, owner, key.value, fingerprint).Some? then (s, PreviousBatch(s, owner, key.value, fingerprint).value)
    else InsertBatch(s, owner, branch, key, fingerprint, id)
  }

  lemma CreatedBatchIsAsked(s: System, owner: Principal, branch: nat, key: Option<string>, fingerprint: string, id: BatchId)
    requires Invariant(s)
    ensures var (t, r) := CreatedBatch(s, owner, branch, key, fingerprint, id);
            Advances(s, t) && GrantsBatch(t, r, owner, key, fingerprint)
  {
    hide Invariant, Progresses;
    NothingChanged(s);
    InsertBatchKeeps(s, owner, branch, key, fingerprint, id);
    if key.Some? && (owner, key.value) in s.batchKeys {
      KeyLeadsToOwner(s, owner, key.value);
    }
  }

  lemma KeyLeadsToOwner(s: System, owner: Principal, key: string)
    requires Invariant(s) && (owner, key) in s.batchKeys
    ensures var id := s.batchKeys[(owner, key)];
            id in s.batches && s.batches[id].owner == owner && s.batches[id].key == Some(key)
  {
    hide ClosedBatchesAreComplete, ClosedJobsAreComplete, RetainedIsProved, NamesAgree, JobKeysAgree, UploadsAreBounded, CallsAreSound;
  }

  lemma CreatedJobIsAsked(s: System, batch: BatchId, owner: Principal, name: string, key: Option<string>, fingerprint: string, id: JobId)
    requires Invariant(s)
    ensures var (t, r) := CreateJob(s, batch, owner, name, key, fingerprint, id);
            Advances(s, t) && GrantsJob(t, r, batch, owner, key, fingerprint)
  {
    hide ClosedBatchesAreComplete, ClosedJobsAreComplete, RetainedIsProved, NamesAgree, BatchKeysAgree, UploadsAreBounded, CallsAreSound, Progresses;
    if key.None? {
      FreshJob(s, batch, owner, name, fingerprint, id);
    }
    CreateJobKeeps(s, batch, owner, name, key, fingerprint, id);
  }

  lemma FreshJob(s: System, batch: BatchId, owner: Principal, name: string, fingerprint: string, id: JobId)
    ensures var (t, r) := CreateJob(s, batch, owner, name, None, fingerprint, id);
            r.Row? ==> r.id in t.jobs && t.jobs[r.id] == Job(batch, owner, name, None, fingerprint, None, false)
  {
  }

  lemma RegisteredLogIsAsked(s: System, batch: BatchId, job: JobId, name: string, identity: Identity, id: UploadId)
    requires Invariant(s)
    ensures var (t, r) := RegisterLog(s, batch, job, name, identity, id);
            && Advances(s, t)
            && (r.Row? ==> r.id in t.uploads && t.uploads[r.id] == Upload(job, name, identity, None, false))
            && (job in s.jobs && s.jobs[job].claim.Some? ==> t == s)
  {
    hide Invariant, Progresses, RegisterLog;
    var e := Registers(batch, job, name, identity, id);
    RegisterLogKeeps(s, batch, job, name, identity, id);
    if RegisterLog(s, batch, job, name, identity, id).1.Row? {
      RegisteredIsUnbound(s, e, job, name, identity);
    }
    if job in s.jobs && s.jobs[job].claim.Some? {
      ClaimStopsRegistration(s, e, job, name, identity);
    }
  }

  lemma ClosedBatchIsComplete(s: System, batch: BatchId)
    requires Invariant(s)
    ensures var (t, r) := CloseBatch(s, batch);
            && Advances(s, t)
            && (r == Done ==>
                  && batch in t.batches && t.batches[batch].closed
                  && forall j :: j in JobsOf(t, batch) ==> t.jobs[j].closed && IsInCustody(t, j))
  {
    hide Invariant, Progresses, IsInCustody, CloseBatch;
    CloseBatchKeeps(s, batch);
    var (t, r) := CloseBatch(s, batch);
    if r == Done {
      ClosedBatchIsClosed(s, batch);
      forall j | j in JobsOf(t, batch) ensures t.jobs[j].closed && IsInCustody(t, j) {
        JobOfClosedBatch(t, j);
        ClosedIsInCustody(t, j);
      }
    }
  }

  lemma ClosedBatchIsClosed(s: System, batch: BatchId)
    requires CloseBatch(s, batch).1 == Done
    ensures var t := CloseBatch(s, batch).0; batch in t.batches && t.batches[batch].closed
  {
    hide JobsOf;
  }

  lemma JobOfClosedBatch(s: System, j: JobId)
    requires Invariant(s) && j in s.jobs
    ensures s.jobs[j].batch in s.batches && (s.batches[s.jobs[j].batch].closed ==> s.jobs[j].closed)
  {
    hide ClosedJobsAreComplete, RetainedIsProved, NamesAgree, BatchKeysAgree, JobKeysAgree, UploadsAreBounded, CallsAreSound;
  }

  lemma BegunIsListed(s: System, call: CallId, batch: BatchId, job: JobId, claim: Claim, order: seq<UploadId>)
    requires Invariant(s) && IsListing(s, job, order)
    ensures var (t, r) := BeginClose(s, call, batch, job, claim, order);
            Advances(s, t) && ClaimsAndLists(t, r, call, job, claim)
  {
    hide Invariant, Progresses, BeginClose, Members, UploadSet;
    BeginCloseKeeps(s, call, batch, job, claim, order);
  }

  /** A call that works on an upload holds its lock. */
  ghost predicate HoldsItsLock(s: System, call: CallId) {
    call in s.calls && !s.calls[call].Between? ==> s.calls[call].id in s.locks && s.locks[s.calls[call].id] == call
  }

  lemma WorkerHoldsItsLock(s: System, call: CallId)
    requires Invariant(s)
    ensures HoldsItsLock(s, call)
  {
    hide Invariant;
    if call in s.calls {
      CallFacts(s, call);
    }
  }

  lemma LockedIsHeld(s: System, call: CallId)
    requires Invariant(s)
    ensures var (t, r) := TryLock(s, call);
            Advances(s, t) && HoldsItsLock(t, call) && (r == Done ==> call in t.calls && t.calls[call].Holding?)
  {
    hide Invariant, Progresses, HoldsItsLock, EndCall;
    TryLockKeeps(s, call);
    WorkerHoldsItsLock(TryLock(s, call).0, call);
  }

  lemma ReadIsHeld(s: System, call: CallId)
    requires Invariant(s)
    ensures var (t, r) := ReadUpload(s, call);
            Advances(s, t) && HoldsItsLock(t, call) && SkipsRetained(s, t, r, call)
  {
    hide Invariant, Progresses, HoldsItsLock, ReadUpload;
    ReadUploadKeeps(s, call);
    WorkerHoldsItsLock(ReadUpload(s, call).0, call);
    if ReadUpload(s, call).1 == Done {
      ReadNeedsRow(s, call);
      ReadShape(s, call);
    }
  }

  lemma BoundIsNew(s: System, call: CallId, version: string)
    requires Invariant(s)
    ensures var (t, r) := BindVersion(s, call, version);
            && Advances(s, t) && HoldsItsLock(t, call)
            && (r == Done ==>
                  && call in s.calls && s.calls[call].Versioning? && s.calls[call].id in s.uploads
                  && s.uploads[s.calls[call].id].version.None?
                  && t.uploads == s.uploads[s.calls[call].id := s.uploads[s.calls[call].id].(version := Some(version))])
  {
    hide Invariant, Progresses, HoldsItsLock, BindVersion;
    BindVersionKeeps(s, call, version);
    WorkerHoldsItsLock(BindVersion(s, call, version).0, call);
    if BindVersion(s, call, version).1 == Done {
      BinderHoldsTheLock(s, call, version);
    }
  }

  lemma CommittedIsInCustody(s: System, call: CallId, evidence: map<Role, string>)
    requires Invariant(s) && evidence.Keys == ALL_ROLES
    ensures var (t, r) := CommitRetention(s, call, evidence);
            Advances(s, t) && TakesIntoCustody(s, t, r, call, evidence)
  {
    hide Invariant, Progresses, CommitRetention, InCustody, ProofsFor;
    CommitRetentionKeeps(s, call, evidence);
    if CommitRetention(s, call, evidence).1 == Done {
      CommitRetentionSplits(s, call, evidence);
      RetainedIsInCustody(CommitRetention(s, call, evidence).0, s.calls[call].id);
    }
  }

  lemma RetainedIsInCustody(s: System, u: UploadId)
    requires Invariant(s) && u in s.uploads && s.uploads[u].retained
    ensures InCustody(s, u)
  {
    hide ClosedBatchesAreComplete, ClosedJobsAreComplete, NamesAgree, BatchKeysAgree, JobKeysAgree, UploadsAreBounded, CallsAreSound, HasAllProofs;
  }

  lemma FinishedIsInCustody(s: System, call: CallId)
    requires Invariant(s)
    ensures var (t, r) := FinishClose(s, call);
            && Advances(s, t)
            && (r == Done ==>
                  && call in s.calls && s.calls[call].job in t.jobs && t.jobs[s.calls[call].job].closed
                  && IsInCustody(t, s.calls[call].job))
  {
    hide Invariant, Progresses, FinishClose, IsInCustody;
    FinishCloseKeeps(s, call);
    FinishedIsClosed(s, call);
    if FinishClose(s, call).1 == Done {
      ClosedIsInCustody(FinishClose(s, call).0, s.calls[call].job);
    }
  }

  lemma VisitAdvances(s: System, call: CallId, storage: Storage, retention: Retention)
    requires Invariant(s) && RetentionIsComplete(retention)
    ensures Advances(s, Visited(s, call, storage, retention).0)
  {
    hide Invariant, Progresses, Visited, RetentionIsComplete, Run, IsTrace;
    var trace := VisitIsATrace(s, call, storage, retention);
    RunKeeps(s, trace);
  }

  /** A visit that succeeds leaves its upload retained, whoever retained it. */
  lemma VisitRetains(s: System, call: CallId, storage: Storage, retention: Retention)
    requires Visited(s, call, storage, retention).1 == Done
    ensures var t := Visited(s, call, storage, retention).0;
            && call in s.calls && s.calls[call].todo != []
            && s.calls[call].todo[0] in t.uploads && t.uploads[s.calls[call].todo[0]].retained
  {
    hide TryLock, ReadUpload, EnsuredVersion, RetainedUpload;
    var (locked, lock) := TryLock(s, call);
    var (observed, read) := ReadUpload(locked, call);
    var (bound, bind) := EnsuredVersion(observed, call, storage);
    LockTakesNext(s, call);
    ReadLeadsOn(locked, call);
    BindingLeadsOn(observed, call, storage);
    RetentionRetains(bound, call, retention);
  }

  lemma VisitDelivers(s: System, call: CallId, storage: Storage, retention: Retention)
    requires Invariant(s) && RetentionIsComplete(retention)
    ensures var (t, r) := Visited(s, call, storage, retention);
            && Advances(s, t)
            && (r == Done ==>
                  && call in s.calls && s.calls[call].todo != []
                  && s.calls[call].todo[0] in t.uploads && t.uploads[s.calls[call].todo[0]].retained)
  {
    hide Invariant, Advances, Visited, RetentionIsComplete;
    VisitAdvances(s, call, storage, retention);
    if Visited(s, call, storage, retention).1 == Done {
      VisitRetains(s, call, storage, retention);
    }
  }

  lemma LockTakesNext(s: System, call: CallId)
    requires TryLock(s, call).1 == Done
    ensures call in s.calls && s.calls[call].todo != []
    ensures var t := TryLock(s, call).0; call in t.calls && t.calls[call].Holding? && t.calls[call].id == s.calls[call].todo[0]
  {
    hide EndCall;
  }

  /** The upload is retained already, or the call goes on with it. */
  ghost predicate IsUnderway(s: System, call: CallId, u: UploadId) {
    && call in s.calls && u in s.uploads
    && if s.calls[call].Between? then s.uploads[u].retained else !s.calls[call].Holding? && s.calls[call].id == u
  }

  lemma ReadLeadsOn(s: System, call: CallId)
    requires call in s.calls && s.calls[call].Holding? && ReadUpload(s, call).1 == Done
    ensures IsUnderway(ReadUpload(s, call).0, call, s.calls[call].id)
  {
    ReadNeedsRow(s, call);
    hide ReadUpload;
    ReadShape(s, call);
  }

  lemma ReadNeedsRow(s: System, call: CallId)
    requires ReadUpload(s, call).1 == Done
    ensures call in s.calls && s.calls[call].Holding? && s.calls[call].id in s.uploads
  {
    hide EndCall;
  }

  lemma BindingLeadsOn(s: System, call: CallId, storage: Storage)
    requires EnsuredVersion(s, call, storage).1 == Done
    ensures forall u :: IsUnderway(s, call, u) ==>
              var t := EnsuredVersion(s, call, storage).0;
              IsUnderway(t, call, u) && !t.calls[call].Versioning?
  {
    hide EndCall;
  }

  lemma RetentionRetains(s: System, call: CallId, retention: Retention)
    requires RetainedUpload(s, call, retention).1 == Done
    ensures forall u :: IsUnderway(s, call, u) && !s.calls[call].Versioning? ==>
              var t := RetainedUpload(s, call, retention).0;
              u in t.uploads && t.uploads[u].retained
  {
    hide EndCall, ProofsFor;
  }

  lemma EnsuringAdvances(s: System, call: CallId, storage: Storage)
    requires Invariant(s)
    ensures Advances(s, EnsuredVersion(s, call, storage).0)
  {
    hide Invariant, Progresses, EnsuredVersion, Run, IsTrace;
    var trace := BindingIsATrace(s, call, storage);
    RunKeeps(s, trace);
  }

  lemma RetainingAdvances(s: System, call: CallId, retention: Retention)
    requires Invariant(s) && RetentionIsComplete(retention)
    ensures Advances(s, RetainedUpload(s, call, retention).0)
  {
    hide Invariant, Progresses, RetainedUpload, Run, IsTrace, RetentionIsComplete;
    var trace := RetainingIsATrace(s, call, retention);
    RunKeeps(s, trace);
  }

  lemma CloseAdvances(s: System, call: CallId, batch: BatchId, job: JobId, claim: Claim, order: seq<UploadId>,
                      storage: Storage, retention: Retention, patience: nat)
    requires Invariant(s) && IsListing(s, job, order) && RetentionIsComplete(retention)
    ensures Advances(s, Closed(s, call, batch, job, claim, order, storage, retention, patience).0)
  {
    hide Invariant, Progresses, Closed, Run, IsTrace, RetentionIsComplete, IsListing;
    var trace := CloseIsATrace(s, call, batch, job, claim, order, storage, retention, patience);
    RunKeeps(s, trace);
  }

  // ---- Where versions and proofs come from -------------------------------------------------

  /** A version or a proof that is new is what the storage, or the retention of that version, answered for it. */
  ghost predicate Draws(s: System, t: System, storage: Storage, retention: Retention) {
    && (forall u :: u in t.uploads && t.uploads[u].version.Some? ==>
          (u in s.uploads && s.uploads[u].version == t.uploads[u].version) || storage(u) == t.uploads[u].version)
    && (forall p :: p in t.proofs ==>
          (p in s.proofs && s.proofs[p] == t.proofs[p]) || IsAnswer(t.uploads, p, t.proofs[p], retention))
  }

  ghost predicate IsAnswer(uploads: map<UploadId, Upload>, p: (UploadId, Role), proof: Proof, retention: Retention) {
    && p.0 in uploads && uploads[p.0].version.Some?
    && var answer := retention(p.0, uploads[p.0].version.value);
       answer.Some? && p.1 in answer.value && proof == Proof(uploads[p.0].version.value, answer.value[p.1])
  }

  lemma DrawsCompose(s: System, t: System, v: System, storage: Storage, retention: Retention)
    requires Draws(s, t, storage, retention) && Draws(t, v, storage, retention) && Progresses(t, v)
    ensures Draws(s, v, storage, retention)
  {
    forall p | p in v.proofs && !(p in s.proofs && s.proofs[p] == v.proofs[p]) ensures IsAnswer(v.uploads, p, v.proofs[p], retention) {
      if p in t.proofs && t.proofs[p] == v.proofs[p] {
        assert IsAnswer(t.uploads, p, t.proofs[p], retention);
        assert UploadProgresses(t.uploads[p.0], v.uploads[p.0]);
      }
    }
  }

  lemma SameRowsDraw(s: System, t: System, storage: Storage, retention: Retention)
    requires SameRows(s, t)
    ensures Draws(s, t, storage, retention)
  {
  }

  lemma EnsuringDraws(s: System, call: CallId, storage: Storage, retention: Retention)
    ensures Draws(s, EnsuredVersion(s, call, storage).0, storage, retention)
  {
    EndKeepsRows(s);
    Unmoved(s, storage, retention);
    hide EndCall, BindVersion, Draws, SameRows;
    SameRowsDraw(s, EndCall(s, call), storage, retention);
    if call in s.calls && s.calls[call].Versioning? && storage(s.calls[call].id).Some? {
      BindingDraws(s, call, storage(s.calls[call].id).value, storage, retention);
    }
  }

  lemma BindingDraws(s: System, call: CallId, version: string, storage: Storage, retention: Retention)
    requires call in s.calls && s.calls[call].Versioning? && storage(s.calls[call].id) == Some(version)
    ensures Draws(s, BindVersion(s, call, version).0, storage, retention)
  {
    EndKeepsRows(s);
    Unmoved(s, storage, retention);
    SameRowsDraw(s, EndCall(s, call), storage, retention);
    hide EndCall, SameRows, IsAnswer;
    if BindVersion(s, call, version).1 == Done {
      assert BindVersion(s, call, version).0.proofs == s.proofs;
    } else {
      hide Draws;
    }
  }

  lemma RetainingDraws(s: System, call: CallId, storage: Storage, retention: Retention)
    requires Invariant(s) && RetentionIsComplete(retention)
    ensures Draws(s, RetainedUpload(s, call, retention).0, storage, retention)
  {
    EndKeepsRows(s);
    hide EndCall, CommitRetention, Invariant, IsAnswer;
    if call in s.calls && s.calls[call].Retaining? {
      var u, version := s.calls[call].id, s.calls[call].version;
      var answer := retention(u, version);
      if answer.Some? {
        CommitmentDraws(s, call, u, version, answer.value, storage, retention);
      } else {
        SameRowsDraw(s, EndCall(s, call), storage, retention);
      }
    }
  }

  lemma CommitmentDraws(s: System, call: CallId, u: UploadId, version: string, evidence: map<Role, string>, storage: Storage, retention: Retention)
    requires Invariant(s) && evidence.Keys == ALL_ROLES && retention(u, version) == Some(evidence)
    requires call in s.calls && s.calls[call].Retaining? && s.calls[call].id == u && s.calls[call].version == version
    ensures Draws(s, CommitRetention(s, call, evidence).0, storage, retention)
  {
    hide Invariant, Progresses;
    var t := CommitRetention(s, call, evidence).0;
    if CommitRetention(s, call, evidence).1 == Done {
      CommitRetentionKeeps(s, call, evidence);
      CommitRetentionSplits(s, call, evidence);
      hide CommitRetention;
      forall p | p in t.proofs && !(p in s.proofs && s.proofs[p] == t.proofs[p]) ensures IsAnswer(t.uploads, p, t.proofs[p], retention) {
        assert p in ProofsFor(u, version, evidence);
      }
    } else {
      CommitRetentionRefuses(s, call, evidence);
      EndKeepsRows(s);
      hide CommitRetention, EndCall;
    }
  }

  lemma VisitDraws(s: System, call: CallId, storage: Storage, retention: Retention)
    requires Invariant(s) && RetentionIsComplete(retention)
    ensures Draws(s, Visited(s, call, storage, retention).0, storage, retention)
  {
    hide Invariant, Progresses, RetentionIsComplete, TryLock, ReadUpload, EnsuredVersion, RetainedUpload, Draws, SameRows;
    var (locked, lock) := TryLock(s, call);
    var (observed, read) := ReadUpload(locked, call);
    var (bound, bind) := EnsuredVersion(observed, call, storage);
    LockKeepsRows(s, call);
    ReadKeepsRows(locked, call);
    SameRowsDraw(s, locked, storage, retention);
    SameRowsDraw(locked, observed, storage, retention);
    TryLockKeeps(s, call);
    ReadUploadKeeps(locked, call);
    DrawsCompose(s, locked, observed, storage, retention);
    EnsuringDraws(observed, call, storage, retention);
    EnsuringAdvances(observed, call, storage);
    DrawsCompose(s, observed, bound, storage, retention);
    RetainingDraws(bound, call, storage, retention);
    RetainingAdvances(bound, call, retention);
    DrawsCompose(s, bound, RetainedUpload(bound, call, retention).0, storage, retention);
  }

  lemma {:induction false} VisitsDraw(s: System, call: CallId, remaining: nat, storage: Storage, retention: Retention, patience: nat)
    requires Invariant(s) && RetentionIsComplete(retention)
    ensures var t := VisitedAll(s, call, remaining, storage, retention, patience).0;
            Draws(s, t, storage, retention) && Advances(s, t)
    decreases remaining
  {
    hide Invariant, Progresses, RetentionIsComplete, Visited, Draws, SameRows, EndCall;
    NothingChanged(s);
    EndKeepsRows(s);
    EndCallKeeps(s, call);
    SameRowsDraw(s, EndCall(s, call), storage, retention);
    Unmoved(s, storage, retention);
    if remaining > 0 && patience > 0 {
      VisitDraws(s, call, storage, retention);
      VisitAdvances(s, call, storage, retention);
      var t := Visited(s, call, storage, retention).0;
      if Visited(s, call, storage, retention).1 == Done {
        VisitsDraw(t, call, remaining - 1, storage, retention, patience - 1);
        var v := VisitedAll(t, call, remaining - 1, storage, retention, patience - 1).0;
        DrawsCompose(s, t, v, storage, retention);
        ProgressComposes(s, t, v);
      }
    }
  }

  lemma Unmoved(s: System, storage: Storage, retention: Retention)
    ensures Draws(s, s, storage, retention)
  {
  }

  /** Whatever a close stores, the storage and the retention answered for that very upload, version and role. */
  lemma CloseDraws(s: System, call: CallId, batch: BatchId, job: JobId, claim: Claim, order: seq<UploadId>,
                   storage: Storage, retention: Retention, patience: nat)
    requires Invariant(s) && IsListing(s, job, order) && RetentionIsComplete(retention)
    ensures Draws(s, Closed(s, call, batch, job, claim, order, storage, retention, patience).0, storage, retention)
  {
    hide Invariant, Progresses, RetentionIsComplete, BeginClose, VisitedAll, FinishClose, Draws, SameRows, Members, UploadSet;
    var begun := BeginClose(s, call, batch, job, claim, order).0;
    var visited := VisitedAll(begun, call, Remaining(begun, call), storage, retention, patience).0;
    BeginKeepsRows(s, call, batch, job, claim, order);
    SameRowsDraw(s, begun, storage, retention);
    BegunIsListed(s, call, batch, job, claim, order);
    VisitsDraw(begun, call, Remaining(begun, call), storage, retention, patience);
    DrawsCompose(s, begun, visited, storage, retention);
    FinishKeepsRows(visited, call);
    SameRowsDraw(visited, FinishClose(visited, call).0, storage, retention);
    FinishCloseKeeps(visited, call);
    DrawsCompose(s, visited, FinishClose(visited, call).0, storage, retention);
  }

  /** A caller that gives up before every upload has been visited does not get a success. */
  lemma {:induction false} ImpatienceIsRefused(s: System, call: CallId, remaining: nat, storage: Storage, retention: Retention, patience: nat)
    requires patience < remaining
    ensures VisitedAll(s, call, remaining, storage, retention, patience).1 != Done
    decreases remaining
  {
    hide Visited, EndCall;
    if patience > 0 && Visited(s, call, storage, retention).1 == Done {
      ImpatienceIsRefused(Visited(s, call, storage, retention).0, call, remaining - 1, storage, retention, patience - 1);
    }
  }

  /** When a close of the job is bound to succeed. */
  ghost predicate WillSucceed(s: System, call: CallId, batch: BatchId, job: JobId, claim: Claim,
                              storage: Storage, retention: Retention, patience: nat) {
    && Undisturbed(s, call, batch, job, claim) && ExternalsSucceed(UploadsOf(s, job), storage, retention)
    && patience >= |UploadsOf(s, job)|
  }

  lemma CloseDelivers(s: System, call: CallId, batch: BatchId, job: JobId, claim: Claim, order: seq<UploadId>,
                      storage: Storage, retention: Retention, patience: nat)
    requires Invariant(s) && IsListing(s, job, order) && RetentionIsComplete(retention)
    ensures var (t, r) := Closed(s, call, batch, job, claim, order, storage, retention, patience);
            && Advances(s, t) && Draws(s, t, storage, retention)
            && (r == Done ==> job in t.jobs && t.jobs[job].closed && t.jobs[job].claim == Some(claim) && IsInCustody(t, job))
            && (WillSucceed(s, call, batch, job, claim, storage, retention, patience) ==> r == Done)
  {
    hide Invariant, Progresses, Closed, RetentionIsComplete, IsListing, IsInCustody, Undisturbed, ExternalsSucceed, UploadsOf, Draws;
    CloseAdvances(s, call, batch, job, claim, order, storage, retention, patience);
    CloseDraws(s, call, batch, job, claim, order, storage, retention, patience);
    if Closed(s, call, batch, job, claim, order, storage, retention, patience).1 == Done {
      SuccessIsCustody(s, call, batch, job, claim, order, storage, retention, patience);
    }
    if WillSucceed(s, call, batch, job, claim, storage, retention, patience) {
      UndisturbedCloses(s, call, batch, job, claim, order, storage, retention, patience);
    }
  }

  class Domain {
    const maximumUploads: nat
    var branches: set<nat>
    var batches: map<BatchId, Batch>
    var batchKeys: map<(Principal, string), BatchId>
    var jobs: map<JobId, Job>
    var jobKeys: map<(BatchId, Principal, string), JobId>
    var uploads: map<UploadId, Upload>
    var names: map<(JobId, string), UploadId>
    var proofs: map<(UploadId, Role), Proof>
    var locks: map<UploadId, CallId>
    var calls: map<CallId, Call>

    function State(): System
      reads this
    {
      System(branches, batches, batchKeys, jobs, jobKeys, uploads, names, proofs, locks, calls, maximumUploads)
    }

    constructor (branches: set<nat>, maximumUploads: nat)
      ensures State() == Initial(branches, maximumUploads) && Invariant(State())
    {
      this.branches, this.maximumUploads := branches, maximumUploads;
      batches, batchKeys, jobs, jobKeys := map[], map[], map[], map[];
      uploads, names, proofs, locks, calls := map[], map[], map[], map[], map[];
      new;
      InitiallySound(branches, maximumUploads);
    }

    /** Looks the key up first, then inserts unless a concurrent request has taken it. */
    method CreateBatch(owner: Principal, branch: nat, key: Option<string>, fingerprint: string, id: BatchId)
      returns (response: Response)
      requires Invariant(State())
      modifies this`batches, this`batchKeys
      ensures (State(), response) == CreatedBatch(old(State()), owner, branch, key, fingerprint, id)
      ensures Advances(old(State()), State()) && GrantsBatch(State(), response, owner, key, fingerprint)
    {
      hide Invariant, Advances, GrantsBatch, CustodyModel.InsertBatch;
      CreatedBatchIsAsked(State(), owner, branch, key, fingerprint, id);
      if key.Some? && (owner, key.value) in batchKeys && batchKeys[(owner, key.value)] in batches {
        var previous := batchKeys[(owner, key.value)];
        return if batches[previous].fingerprint == fingerprint then Row(previous) else Refused(409);
      }
      response := InsertBatch(owner, branch, key, fingerprint, id);
    }

    /** The insertion looks the key up once more, for a concurrent request that has committed it. */
    method InsertBatch(owner: Principal, branch: nat, key: Option<string>, fingerprint: string, id: BatchId)
      returns (response: Response)
      modifies this`batches, this`batchKeys
      ensures (State(), response) == CustodyModel.InsertBatch(old(State()), owner, branch, key, fingerprint, id)
    {
      if branch !in branches {
        return Refused(404);
      }
      if key.Some? && (owner, key.value) in batchKeys && batchKeys[(owner, key.value)] in batches {
        var previous := batchKeys[(owner, key.value)];
        return if batches[previous].fingerprint == fingerprint then Row(previous) else Refused(409);
      }
      if id in batches {
        return Refused(500);
      }
      batches := batches[id := Batch(owner, branch, key, fingerprint, false)];
      if key.Some? {
        batchKeys := batchKeys[(owner, key.value) := id];
      }
      return Row(id);
    }

    method CreateJob(batch: BatchId, owner: Principal, name: string, key: Option<string>, fingerprint: string, id: JobId)
      returns (response: Response)
      requires Invariant(State())
      modifies this`jobs, this`jobKeys
      ensures (State(), response) == CustodyModel.CreateJob(old(State()), batch, owner, name, key, fingerprint, id)
      ensures Advances(old(State()), State()) && GrantsJob(State(), response, batch, owner, key, fingerprint)
    {
      hide Invariant, Advances, GrantsJob;
      CreatedJobIsAsked(State(), batch, owner, name, key, fingerprint, id);
      if batch !in batches {
        return Refused(404);
      }
      if key.Some? && (batch, owner, key.value) in jobKeys && jobKeys[(batch, owner, key.value)] in jobs {
        var previous := jobKeys[(batch, owner, key.value)];
        return if jobs[previous].fingerprint == fingerprint then Row(previous) else Refused(409);
      }
      if batches[batch].closed {
        return Refused(400);
      }
      if id in jobs {
        return Refused(500);
      }
      jobs := jobs[id := Job(batch, owner, name, key, fingerprint, None, false)];
      if key.Some? {
        jobKeys := jobKeys[(batch, owner, key.value) := id];
      }
      return Row(id);
    }

    method RegisterLog(batch: BatchId, job: JobId, name: string, identity: Identity, id: UploadId)
      returns (response: Response)
      requires Invariant(State())
      modifies this`uploads, this`names
      ensures (State(), response) == CustodyModel.RegisterLog(old(State()), batch, job, name, identity, id)
      ensures Advances(old(State()), State())
      ensures response.Row? ==> response.id in uploads && uploads[response.id] == Upload(job, name, identity, None, false)
      ensures old(job in jobs && jobs[job].claim.Some?) ==> State() == old(State())
    {
      hide Invariant, Advances;
      RegisteredLogIsAsked(State(), batch, job, name, identity, id);
      if !HasJob(State(), batch, job) {
        return Refused(404);
      }
      var claimed := jobs[job].claim.Some?;
      if (job, name) in names && names[(job, name)] in uploads {
        var row := uploads[names[(job, name)]];
        if row.identity != identity {
          return Refused(409);
        }
        if claimed && (jobs[job].closed || row.version.Some? || row.retained) {
          return Refused(400);
        }
        return Row(names[(job, name)]);
      }
      if claimed {
        return Refused(400);
      }
      if |UploadsOf(State(), job)| >= maximumUploads {
        return Refused(400);
      }
      if id in uploads {
        return Refused(500);
      }
      uploads, names := uploads[id := Upload(job, name, identity, None, false)], names[(job, name) := id];
      return Row(id);
    }

    method CloseBatch(batch: BatchId) returns (response: Response)
      requires Invariant(State())
      modifies this`batches
      ensures (State(), response) == CustodyModel.CloseBatch(old(State()), batch)
      ensures Advances(old(State()), State())
      ensures response == Done ==>
                && batch in batches && batches[batch].closed
                && forall j :: j in JobsOf(State(), batch) ==> jobs[j].closed && IsInCustody(State(), j)
    {
      hide Invariant, Advances, IsInCustody;
      ClosedBatchIsComplete(State(), batch);
      if batch !in batches {
        return Refused(404);
      }
      if batches[batch].closed {
        return Done;
      }
      if exists j :: j in JobsOf(State(), batch) && !jobs[j].closed {
        return Refused(409);
      }
      batches := batches[batch := batches[batch].(closed := true)];
      return Done;
    }

    // ---- The transactions of a close ---------------------------------------------------

    /** The listing of the job's uploads is part of the transaction; it is handed in here. */
    method BeginClose(call: CallId, batch: BatchId, job: JobId, claim: Claim, order: seq<UploadId>) returns (response: Response)
      requires Invariant(State()) && IsListing(State(), job, order)
      modifies this`jobs, this`calls
      ensures (State(), response) == CustodyModel.BeginClose(old(State()), call, batch, job, claim, order)
      ensures Advances(old(State()), State()) && ClaimsAndLists(State(), response, call, job, claim)
    {
      hide Invariant, Advances, IsListing, ClaimsAndLists, CustodyModel.BeginClose;
      BegunIsListed(State(), call, batch, job, claim, order);
      response := ClaimJob(call, batch, job, claim, order);
    }

    /** Refusals in order; otherwise the job is claimed and the call starts on its uploads. */
    method ClaimJob(call: CallId, batch: BatchId, job: JobId, claim: Claim, order: seq<UploadId>) returns (response: Response)
      modifies this`jobs, this`calls
      ensures (State(), response) == CustodyModel.BeginClose(old(State()), call, batch, job, claim, order)
    {
      if call in calls {
        return Refused(500);
      }
      if claim.succeeded && claim.error.Some? {
        return Refused(400);
      }
      if !HasJob(State(), batch, job) {
        return Refused(404);
      }
      if jobs[job].claim.Some? && jobs[job].claim != Some(claim) {
        return Refused(409);
      }
      calls := calls[call := Between(job, claim, if jobs[job].closed then [] else order)];
      if jobs[job].claim.None? {
        jobs := jobs[job := jobs[job].(claim := Some(claim))];
      } else {
        AlreadyClaimed(jobs, job, claim);
      }
      return Done;
    }

    method End(call: CallId)
      modifies this`calls, this`locks
      ensures State() == EndCall(old(State()), call)
    {
      locks := map id | id in locks && locks[id] != call :: locks[id];
      calls := calls - {call};
    }

    method TryLock(call: CallId) returns (response: Response)
      requires Invariant(State())
      modifies this`calls, this`locks
      ensures (State(), response) == CustodyModel.TryLock(old(State()), call)
      ensures Advances(old(State()), State()) && HoldsItsLock(State(), call)
      ensures response == Done ==> call in calls && calls[call].Holding?
    {
      hide Invariant, Advances, HoldsItsLock, EndCall;
      LockedIsHeld(State(), call);
      if call !in calls || !calls[call].Between? || calls[call].todo == [] {
        return Refused(500);
      }
      var Between(job, claim, todo) := calls[call];
      if todo[0] in locks {
        End(call);
        return Refused(503);
      }
      locks := locks[todo[0] := call];
      calls := calls[call := Holding(job, claim, todo[1..], todo[0])];
      return Done;
    }

    method ReadUpload(call: CallId) returns (response: Response)
      requires Invariant(State())
      modifies this`calls, this`locks
      ensures (State(), response) == CustodyModel.ReadUpload(old(State()), call)
      ensures Advances(old(State()), State()) && HoldsItsLock(State(), call) && SkipsRetained(old(State()), State(), response, call)
    {
      hide Invariant, Advances, HoldsItsLock, SkipsRetained, CustodyModel.ReadUpload;
      ReadIsHeld(State(), call);
      response := DecideUnderLock(call);
    }

    /** The row as it is under the lock decides whether anything is left to do. */
    method DecideUnderLock(call: CallId) returns (response: Response)
      modifies this`calls, this`locks
      ensures (State(), response) == CustodyModel.ReadUpload(old(State()), call)
    {
      hide EndCall;
      if call !in calls || !calls[call].Holding? {
        return Refused(500);
      }
      var Holding(job, claim, todo, id) := calls[call];
      if id !in uploads {
        End(call);
        return Refused(404);
      }
      if uploads[id].retained {
        locks := locks - {id};
        calls := calls[call := Between(job, claim, todo)];
      } else if uploads[id].version.Some? {
        calls := calls[call := Retaining(job, claim, todo, id, uploads[id].version.value)];
      } else {
        calls := calls[call := Versioning(job, claim, todo, id)];
      }
      return Done;
    }

    method BindVersion(call: CallId, version: string) returns (response: Response)
      requires Invariant(State())
      modifies this`calls, this`locks, this`uploads
      ensures (State(), response) == CustodyModel.BindVersion(old(State()), call, version)
      ensures Advances(old(State()), State()) && HoldsItsLock(State(), call)
      ensures response == Done ==>
                var u := old(calls)[call].id;
                uploads == old(uploads)[u := old(uploads)[u].(version := Some(version))] && old(uploads)[u].version.None?
    {
      hide Invariant, Advances, HoldsItsLock, EndCall;
      BoundIsNew(State(), call, version);
      if call !in calls || !calls[call].Versioning? {
        return Refused(500);
      }
      var Versioning(job, claim, todo, id) := calls[call];
      if id !in uploads || uploads[id].version.Some? {
        End(call);
        return Refused(409);
      }
      if !IsObjectVersion(version) {
        End(call);
        return Refused(500);
      }
      uploads := uploads[id := uploads[id].(version := Some(version))];
      calls := calls[call := Retaining(job, claim, todo, id, version)];
      return Done;
    }

    method CommitRetention(call: CallId, evidence: map<Role, string>) returns (response: Response)
      requires Invariant(State()) && evidence.Keys == ALL_ROLES
      modifies this`calls, this`locks, this`uploads, this`proofs
      ensures (State(), response) == CustodyModel.CommitRetention(old(State()), call, evidence)
      ensures Advances(old(State()), State()) && TakesIntoCustody(old(State()), State(), response, call, evidence)
    {
      hide Invariant, Advances, TakesIntoCustody, ALL_ROLES, CustodyModel.CommitRetention;
      CommittedIsInCustody(State(), call, evidence);
      response := StoreProofs(call, evidence);
    }

    /** Proofs and retention change together, or not at all. */
    method StoreProofs(call: CallId, evidence: map<Role, string>) returns (response: Response)
      modifies this`calls, this`locks, this`uploads, this`proofs
      ensures (State(), response) == CustodyModel.CommitRetention(old(State()), call, evidence)
    {
      hide ProofsFor, EndCall;
      if call !in calls || !calls[call].Retaining? {
        return Refused(500);
      }
      var Retaining(job, claim, todo, id, version) := calls[call];
      if id !in uploads || uploads[id].version != Some(version) || uploads[id].retained {
        End(call);
        return Refused(409);
      }
      if exists role :: role in evidence && (id, role) in proofs {
        End(call);
        return Refused(500);
      }
      proofs := proofs + ProofsFor(id, version, evidence);
      uploads := uploads[id := uploads[id].(retained := true)];
      locks := locks - {id};
      calls := calls[call := Between(job, claim, todo)];
      return Done;
    }

    method FinishClose(call: CallId) returns (response: Response)
      requires Invariant(State())
      modifies this`calls, this`locks, this`jobs
      ensures (State(), response) == CustodyModel.FinishClose(old(State()), call)
      ensures Advances(old(State()), State())
      ensures response == Done ==>
                && old(calls)[call].job in jobs && jobs[old(calls)[call].job].closed && IsInCustody(State(), old(calls)[call].job)
    {
      hide Invariant, Advances, IsInCustody, EndCall;
      FinishedIsInCustody(State(), call);
      if call !in calls || !calls[call].Between? || calls[call].todo != [] {
        return Refused(500);
      }
      var job := calls[call].job;
      if job !in jobs {
        End(call);
        return Refused(404);
      }
      if !jobs[job].closed && exists u :: u in UploadsOf(State(), job) && !uploads[u].retained {
        End(call);
        return Refused(503);
      }
      End(call);
      if !jobs[job].closed {
        jobs := jobs[job := jobs[job].(closed := true)];
      }
      return Done;
    }

    // ---- A whole close -------------------------------------------------------------------

    /** Asks the storage for the version and binds it, unless one is bound. */
    method EnsureVersion(call: CallId, storage: Storage) returns (response: Response)
      requires Invariant(State())
      modifies this`calls, this`locks, this`uploads
      ensures (State(), response) == EnsuredVersion(old(State()), call, storage)
      ensures Advances(old(State()), State())
    {
      hide Invariant, Advances;
      EnsuringAdvances(State(), call, storage);
      hide CustodyModel.BindVersion, EndCall;
      if call !in calls || !calls[call].Versioning? {
        return Done;
      }
      var version := storage(calls[call].id);
      if version.None? {
        End(call);
        return Refused(500);
      }
      response := BindVersion(call, version.value);
    }

    /** Has the upload retained and commits its proofs. */
    method Retain(call: CallId, retention: Retention) returns (response: Response)
      requires Invariant(State()) && RetentionIsComplete(retention)
      modifies this`calls, this`locks, this`uploads, this`proofs
      ensures (State(), response) == RetainedUpload(old(State()), call, retention)
      ensures Advances(old(State()), State())
    {
      hide Invariant, Advances;
      RetainingAdvances(State(), call, retention);
      hide CustodyModel.CommitRetention, EndCall;
      if call !in calls || !calls[call].Retaining? {
        return Done;
      }
      var evidence := retention(calls[call].id, calls[call].version);
      if evidence.None? {
        End(call);
        return Refused(500);
      }
      response := CommitRetention(call, evidence.value);
    }

    method Visit(call: CallId, storage: Storage, retention: Retention) returns (response: Response)
      requires Invariant(State()) && RetentionIsComplete(retention)
      modifies this`calls, this`locks, this`uploads, this`proofs
      ensures (State(), response) == Visited(old(State()), call, storage, retention)
      ensures Advances(old(State()), State())
      ensures response == Done ==>
                && call in old(calls) && old(calls)[call].todo != []
                && old(calls)[call].todo[0] in uploads && uploads[old(calls)[call].todo[0]].retained
    {
      hide Invariant, Progresses, HoldsItsLock, SkipsRetained, RetentionIsComplete,
        CustodyModel.TryLock, CustodyModel.ReadUpload, EnsuredVersion, RetainedUpload;
      VisitDelivers(State(), call, storage, retention);
      response := TryLock(call);
      if response == Done {
        response := ReadUpload(call);
      }
      if response == Done {
        response := EnsureVersion(call, storage);
      }
      if response == Done {
        response := Retain(call, retention);
      }
    }

    /** A close whose first transaction lists the uploads in the given order. */
    method CloseListed(call: CallId, batch: BatchId, job: JobId, claim: Claim, order: seq<UploadId>,
                       storage: Storage, retention: Retention, patience: nat)
      returns (response: Response)
      requires Invariant(State()) && IsListing(State(), job, order) && RetentionIsComplete(retention)
      modifies this`jobs, this`calls, this`locks, this`uploads, this`proofs
      ensures (State(), response) == Closed(old(State()), call, batch, job, claim, order, storage, retention, patience)
    {
      hide Invariant, Advances, Progresses, RetentionIsComplete, Visited, CustodyModel.BeginClose, CustodyModel.FinishClose, EndCall, Members,
        UploadsOf, IsAscending, IsInCustody;
      response := BeginClose(call, batch, job, claim, order);
      if response != Done {
        return;
      }
      AdvancedIsInvariant(old(State()), State());
      var remaining := Remaining(State(), call);
      ghost var begun, total := State(), remaining;
      var visits := 0;
      while remaining > 0 && response == Done
        invariant visits <= patience && (response == Done ==> Invariant(State()) && visits + remaining == total)
        invariant VisitedAll(begun, call, total, storage, retention, patience) ==
                    if response == Done then VisitedAll(State(), call, remaining, storage, retention, patience - visits)
                    else (State(), response)
        decreases remaining, response == Done
      {
        if visits == patience {
          End(call);
          response := Refused(500);
        } else {
          ghost var before := State();
          response := Visit(call, storage, retention);
          AdvancedIsInvariant(before, State());
          visits, remaining := visits + 1, remaining - 1;
        }
      }
      if response == Done {
        response := FinishClose(call);
      }
    }

    /** A close of one job: patience is how many uploads it visits before its caller gives up. */
    method CloseJob(call: CallId, batch: BatchId, job: JobId, claim: Claim, storage: Storage, retention: Retention, patience: nat)
      returns (response: Response)
      requires Invariant(State()) && RetentionIsComplete(retention)
      modifies this`jobs, this`calls, this`locks, this`uploads, this`proofs
      ensures exists order :: IsListing(old(State()), job, order) &&
                (State(), response) == Closed(old(State()), call, batch, job, claim, order, storage, retention, patience)
      ensures Advances(old(State()), State()) && Draws(old(State()), State(), storage, retention)
      ensures response == Done ==> job in jobs && jobs[job].closed && jobs[job].claim == Some(claim) && IsInCustody(State(), job)
      ensures WillSucceed(old(State()), call, batch, job, claim, storage, retention, patience) ==> response == Done
    {
      hide Invariant, Advances, RetentionIsComplete, Closed, Members, UploadsOf, IsAscending, IsInCustody, WillSucceed, Draws;
      var order := Ascending(UploadsOf(State(), job));
      assert IsListing(old(State()), job, order);
      CloseDelivers(State(), call, batch, job, claim, order, storage, retention, patience);
      response := CloseListed(call, batch, job, claim, order, storage, retention, patience);
    }
  }
}
