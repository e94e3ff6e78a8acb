/**
 The custody tables and the transactions over them. A transaction is one
 atomic step on the whole state: the row locks of the original serialize the
 transactions of one job and one batch, and unique indexes are maps.
 */
module CustodyModel {
  import opened Outcomes

  type BatchId = nat
  type JobId = nat
  type UploadId = nat
  type CallId = nat
  type Principal = nat

  datatype Role = Receipt | Verification | Statement | TrustPolicy | Signature

  datatype Claim = Claim(succeeded: bool, error: Option<string>)

  datatype Identity = Identity(checksum: string, size: nat, logType: string, mediaType: string)

  datatype Batch = Batch(owner: Principal, branch: nat, key: Option<string>, fingerprint: string, closed: bool)

  datatype Job = Job(
    batch: BatchId, owner: Principal, name: string, key: Option<string>, fingerprint: string,
    claim: Option<Claim>, closed: bool)

  datatype Upload = Upload(job: JobId, name: string, identity: Identity, version: Option<string>, retained: bool)

  /** A retained proof and the object version it attests. */
  datatype Proof = Proof(subject: string, raw: string)

  /** Where a close call stands between its transactions; todo are the uploads it has still to visit. */
  datatype Call =
    | Between(job: JobId, claim: Claim, todo: seq<UploadId>)
    | Holding(job: JobId, claim: Claim, todo: seq<UploadId>, id: UploadId)
    | Versioning(job: JobId, claim: Claim, todo: seq<UploadId>, id: UploadId)
    | Retaining(job: JobId, claim: Claim, todo: seq<UploadId>, id: UploadId, version: string)

  datatype System = System(
    branches: set<nat>,
    batches: map<BatchId, Batch>, batchKeys: map<(Principal, string), BatchId>,
    jobs: map<JobId, Job>, jobKeys: map<(BatchId, Principal, string), JobId>,
    uploads: map<UploadId, Upload>, names: map<(JobId, string), UploadId>,
    proofs: map<(UploadId, Role), Proof>,
    locks: map<UploadId, CallId>, calls: map<CallId, Call>,
    maximumUploads: nat)

  /** What a request gets back: nothing, a row, or a refusal with its HTTP status. */
  datatype Response = Done | Row(id: nat) | Refused(status: nat)

  function UploadSet(uploads: map<UploadId, Upload>, job: JobId): set<UploadId> {
    set u | u in uploads && uploads[u].job == job
  }

  function UploadsOf(s: System, job: JobId): set<UploadId> {
    UploadSet(s.uploads, job)
  }

  function JobsOf(s: System, batch: BatchId): set<JobId> {
    set j | j in s.jobs && s.jobs[j].batch == batch
  }

  function Members(order: seq<UploadId>): set<UploadId> {
    set u | u in order
  }

  predicate HasJob(s: System, batch: BatchId, job: JobId) {
    batch in s.batches && job in s.jobs && s.jobs[job].batch == batch
  }

  // ---- Creation --------------------------------------------------------------------

  /** The committed row of an idempotency key, or a conflict with another request. */
  function PreviousBatch(s: System, owner: Principal, key: string, fingerprint: string): Option<Response> {
    if (owner, key) in s.batchKeys && s.batchKeys[(owner, key)] in s.batches then
      var id := s.batchKeys[(owner, key)];
      Some(if s.batches[id].fingerprint == fingerprint then Row(id) else Refused(409))
    else None
  }

  /** The insertion of a batch; a concurrent creation may have committed the key since it was looked up. */
  function InsertBatch(s: System, owner: Principal, branch: nat, key: Option<string>, fingerprint: string, id: BatchId): (System, Response) {
    var previous := if key.Some? then PreviousBatch(s, owner, key.value, fingerprint) else None;
    if branch !in s.branches then (s, Refused(404))
    else if previous.Some? then (s, previous.value)
    else if id in s.batches then (s, Refused(500))
    else
      (s.(batches := s.batches[id := Batch(owner, branch, key, fingerprint, false)],
          batchKeys := if key.Some? then s.batchKeys[(owner, key.value) := id] else s.batchKeys),
       Row(id))
  }

  function PreviousJob(s: System, batch: BatchId, owner: Principal, key: string, fingerprint: string): Option<Response> {
    if (batch, owner, key) in s.jobKeys && s.jobKeys[(batch, owner, key)] in s.jobs then
      var id := s.jobKeys[(batch, owner, key)];
      Some(if s.jobs[id].fingerprint == fingerprint then Row(id) else Refused(409))
    else None
  }

  /** The batch row is locked throughout, so the lookup and the insertion of a job are one step. */
  function CreateJob(s: System, batch: BatchId, owner: Principal, name: string, key: Option<string>, fingerprint: string, id: JobId): (System, Response) {
    var previous := if key.Some? then PreviousJob(s, batch, owner, key.value, fingerprint) else None;
    if batch !in s.batches then (s, Refused(404))
    else if previous.Some? then (s, previous.value)
    else if s.batches[batch].closed then (s, Refused(400))
    else if id in s.jobs then (s, Refused(500))
    else
      (s.(jobs := s.jobs[id := Job(batch, owner, name, key, fingerprint, None, false)],
          jobKeys := if key.Some? then s.jobKeys[(batch, owner, key.value) := id] else s.jobKeys),
       Row(id))
  }

  function RegisterLog(s: System, batch: BatchId, job: JobId, name: string, identity: Identity, id: UploadId): (System, Response) {
    if !HasJob(s, batch, job) then (s, Refused(404))
    else if (job, name) in s.names && s.names[(job, name)] in s.uploads then
      var prior := s.names[(job, name)];
      var row := s.uploads[prior];
      if row.identity != identity then (s, Refused(409))
      else if s.jobs[job].claim.Some? && (s.jobs[job].closed || row.version.Some? || row.retained) then (s, Refused(400))
      else (s, Row(prior))
    else if s.jobs[job].claim.Some? then (s, Refused(400))
    else if |UploadsOf(s, job)| >= s.maximumUploads then (s, Refused(400))
    else if id in s.uploads then (s, Refused(500))
    else
      (s.(uploads := s.uploads[id := Upload(job, name, identity, None, false)],
          names := s.names[(job, name) := id]),
       Row(id))
  }

  // ---- Closing ---------------------------------------------------------------------

  /** The first transaction of a close: it claims the job and fixes the uploads to visit. */
  function BeginClose(s: System, call: CallId, batch: BatchId, job: JobId, claim: Claim, order: seq<UploadId>): (System, Response) {
    if call in s.calls then (s, Refused(500))
    else if claim.succeeded && claim.error.Some? then (s, Refused(400))
    else if !HasJob(s, batch, job) then (s, Refused(404))
    else if s.jobs[job].claim.Some? && s.jobs[job].claim != Some(claim) then (s, Refused(409))
    else
      (s.(jobs := s.jobs[job := s.jobs[job].(claim := Some(claim))],
          calls := s.calls[call := Between(job, claim, if s.jobs[job].closed then [] else order)]),
       Done)
  }

  /** A call that failed or crashed: its session ends and the lock it held is released. */
  function EndCall(s: System, call: CallId): System {
    s.(calls := s.calls - {call}, locks := map id | id in s.locks && s.locks[id] != call :: s.locks[id])
  }

  function Fail(s: System, call: CallId, status: nat): (System, Response) {
    (EndCall(s, call), Refused(status))
  }

  function TryLock(s: System, call: CallId): (System, Response) {
    if call !in s.calls || !s.calls[call].Between? || s.calls[call].todo == [] then (s, Refused(500))
    else
      var Between(job, claim, todo) := s.calls[call];
      if todo[0] in s.locks then Fail(s, call, 503)
      else
        (s.(locks := s.locks[todo[0] := call], calls := s.calls[call := Holding(job, claim, todo[1..], todo[0])]), Done)
  }

  /** The upload as it is once the lock is held decides what is left to do. */
  function ReadUpload(s: System, call: CallId): (System, Response) {
    if call !in s.calls || !s.calls[call].Holding? then (s, Refused(500))
    else
      var Holding(job, claim, todo, id) := s.calls[call];
      if id !in s.uploads then Fail(s, call, 404)
      else if s.uploads[id].retained then
        (s.(locks := s.locks - {id}, calls := s.calls[call := Between(job, claim, todo)]), Done)
      else if s.uploads[id].version.Some? then
        (s.(calls := s.calls[call := Retaining(job, claim, todo, id, s.uploads[id].version.value)]), Done)
      else (s.(calls := s.calls[call := Versioning(job, claim, todo, id)]), Done)
  }

  predicate IsObjectVersion(version: string) {
    version != "" && version != "null"
  }

  function BindVersion(s: System, call: CallId, version: string): (System, Response) {
    if call !in s.calls || !s.calls[call].Versioning? then (s, Refused(500))
    else
      var Versioning(job, claim, todo, id) := s.calls[call];
      if id !in s.uploads || s.uploads[id].version.Some? then Fail(s, call, 409)
      else if !IsObjectVersion(version) then Fail(s, call, 500)
      else
        (s.(uploads := s.uploads[id := s.uploads[id].(version := Some(version))],
            calls := s.calls[call := Retaining(job, claim, todo, id, version)]),
         Done)
  }

  function ProofsFor(id: UploadId, version: string, evidence: map<Role, string>): map<(UploadId, Role), Proof> {
    map role | role in evidence :: (id, role) := Proof(version, evidence[role])
  }

  /** Proofs and retention commit together, for the version the call retained. */
  function CommitRetention(s: System, call: CallId, evidence: map<Role, string>): (System, Response) {
    if call !in s.calls || !s.calls[call].Retaining? then (s, Refused(500))
    else
      var Retaining(job, claim, todo, id, version) := s.calls[call];
      if id !in s.uploads || s.uploads[id].version != Some(version) || s.uploads[id].retained then Fail(s, call, 409)
      else if exists role :: role in evidence && (id, role) in s.proofs then Fail(s, call, 500)
      else
        (s.(proofs := s.proofs + ProofsFor(id, version, evidence),
            uploads := s.uploads[id := s.uploads[id].(retained := true)],
            locks := s.locks - {id},
            calls := s.calls[call := Between(job, claim, todo)]),
         Done)
  }

  /** The last transaction: the job closes once nothing of it remains unretained. */
  function FinishClose(s: System, call: CallId): (System, Response) {
    if call !in s.calls || !s.calls[call].Between? || s.calls[call].todo != [] then (s, Refused(500))
    else
      var job := s.calls[call].job;
      if job !in s.jobs then Fail(s, call, 404)
      else if s.jobs[job].closed then (EndCall(s, call), Done)
      else if exists u :: u in UploadsOf(s, job) && !s.uploads[u].retained then Fail(s, call, 503)
      else (EndCall(s, call).(jobs := s.jobs[job := s.jobs[job].(closed := true)]), Done)
  }

  function CloseBatch(s: System, batch: BatchId): (System, Response) {
    if batch !in s.batches then (s, Refused(404))
    else if s.batches[batch].closed then (s, Done)
    else if exists j :: j in JobsOf(s, batch) && !s.jobs[j].closed then (s, Refused(409))
    else (s.(batches := s.batches[batch := s.batches[batch].(closed := true)]), Done)
  }

  // ---- Interleavings ---------------------------------------------------------------

  datatype Event =
    | LooksUpBatch(owner: Principal, requestKey: string, fingerprint: string)
    | InsertsBatch(owner: Principal, branch: nat, key: Option<string>, fingerprint: string, newId: nat)
    | CreatesJob(batch: BatchId, owner: Principal, name: string, key: Option<string>, fingerprint: string, newId: nat)
    | Registers(batch: BatchId, job: JobId, name: string, identity: Identity, newId: nat)
    | Begins(call: CallId, batch: BatchId, job: JobId, claim: Claim, order: seq<UploadId>)
    | Locks(call: CallId)
    | Reads(call: CallId)
    | Binds(call: CallId, version: string)
    | Commits(call: CallId, evidence: map<Role, string>)
    | Finishes(call: CallId)
    | Crashes(call: CallId)
    | ClosesBatch(batch: BatchId)

  /** The list of uploads a begin reads is the uploads of its job; retention yields all five proofs. */
  predicate Admissible(s: System, e: Event) {
    match e
    case Begins(_, _, job, _, order) => Members(order) == UploadsOf(s, job) && |order| == |UploadsOf(s, job)|
    case Commits(_, evidence) => evidence.Keys == {Receipt, Verification, Statement, TrustPolicy, Signature}
    case _ => true
  }

  function Perform(s: System, e: Event): (System, Response) {
    match e
    case LooksUpBatch(owner, key, fingerprint) =>
      var previous := PreviousBatch(s, owner, key, fingerprint);
      (s, if previous.Some? then previous.value else Done)
    case InsertsBatch(owner, branch, key, fingerprint, newId) => InsertBatch(s, owner, branch, key, fingerprint, newId)
    case CreatesJob(batch, owner, name, key, fingerprint, newId) => CreateJob(s, batch, owner, name, key, fingerprint, newId)
    case Registers(batch, job, name, identity, newId) => RegisterLog(s, batch, job, name, identity, newId)
    case Begins(call, batch, job, claim, order) => BeginClose(s, call, batch, job, claim, order)
    case Locks(call) => TryLock(s, call)
    case Reads(call) => ReadUpload(s, call)
    case Binds(call, version) => BindVersion(s, call, version)
    case Commits(call, evidence) => CommitRetention(s, call, evidence)
    case Finishes(call) => FinishClose(s, call)
    case Crashes(call) => (EndCall(s, call), Refused(500))
    case ClosesBatch(batch) => CloseBatch(s, batch)
  }

  function Step(s: System, e: Event): System {
    Perform(s, e).0
  }

  /** The state after a trace of events, from any number of concurrent calls. */
  function Run(s: System, trace: seq<Event>): System
    decreases |trace|
  {
    if trace == [] then s else Step(Run(s, trace[..|trace| - 1]), trace[|trace| - 1])
  }

  predicate IsTrace(s: System, trace: seq<Event>)
    decreases |trace|
  {
    trace == [] ||
    (IsTrace(s, trace[..|trace| - 1]) && Admissible(Run(s, trace[..|trace| - 1]), trace[|trace| - 1]))
  }

  function Initial(branches: set<nat>, maximumUploads: nat): System {
    System(branches, map[], map[], map[], map[], map[], map[], map[], map[], map[], maximumUploads)
  }
}

/** What every interleaving keeps, what no step undoes, and what retrying achieves. */
module CustodyProtocol {
  import opened Outcomes
  import opened CustodyModel

  // ---- The inductive invariant -------------------------------------------------------

  /** A closed batch has only closed jobs, and a closed job has a claim. */
  ghost predicate ClosedBatchesAreComplete(batches: map<BatchId, Batch>, jobs: map<JobId, Job>) {
    forall j :: j in jobs ==>
      && jobs[j].batch in batches
      && (batches[jobs[j].batch].closed ==> jobs[j].closed)
      && (jobs[j].closed ==> jobs[j].claim.Some?)
  }

  /** All uploads of a closed job are retained, and a version is bound only after the claim. */
  ghost predicate ClosedJobsAreComplete(jobs: map<JobId, Job>, uploads: map<UploadId, Upload>) {
    forall u :: u in uploads ==>
      && uploads[u].job in jobs
      && (jobs[uploads[u].job].closed ==> uploads[u].retained)
      && (uploads[u].version.Some? ==> jobs[uploads[u].job].claim.Some?)
  }

  ghost predicate HasAllProofs(proofs: map<(UploadId, Role), Proof>, u: UploadId, version: string) {
    forall role: Role :: (u, role) in proofs && proofs[(u, role)].subject == version
  }

  /** Each role's proof is what the evidence has for that role, and attests the version. */
  ghost predicate HoldsEvidence(proofs: map<(UploadId, Role), Proof>, u: UploadId, version: string, evidence: map<Role, string>) {
    forall role: Role :: role in evidence && (u, role) in proofs && proofs[(u, role)] == Proof(version, evidence[role])
  }

  /** Exactly the retained uploads have proofs, all five of them and for the bound version. */
  ghost predicate RetainedIsProved(uploads: map<UploadId, Upload>, proofs: map<(UploadId, Role), Proof>) {
    && (forall u :: u in uploads && uploads[u].retained ==>
          uploads[u].version.Some? && HasAllProofs(proofs, u, uploads[u].version.value))
    && (forall p :: p in proofs ==> p.0 in uploads && uploads[p.0].retained)
  }

  ghost predicate NamesAgree(uploads: map<UploadId, Upload>, names: map<(JobId, string), UploadId>) {
    && (forall k :: k in names ==> names[k] in uploads && (uploads[names[k]].job, uploads[names[k]].name) == k)
    && (forall u :: u in uploads ==> (uploads[u].job, uploads[u].name) in names && names[(uploads[u].job, uploads[u].name)] == u)
  }

  ghost predicate BatchKeysAgree(batches: map<BatchId, Batch>, keys: map<(Principal, string), BatchId>) {
    && (forall k :: k in keys ==> keys[k] in batches && batches[keys[k]].owner == k.0 && batches[keys[k]].key == Some(k.1))
    && (forall b :: b in batches && batches[b].key.Some? ==>
          (batches[b].owner, batches[b].key.value) in keys && keys[(batches[b].owner, batches[b].key.value)] == b)
  }

  function JobKey(job: Job): (BatchId, Principal, string)
    requires job.key.Some?
  {
    (job.batch, job.owner, job.key.value)
  }

  ghost predicate JobKeysAgree(jobs: map<JobId, Job>, keys: map<(BatchId, Principal, string), JobId>) {
    && (forall k :: k in keys ==> keys[k] in jobs && jobs[keys[k]].key.Some? && JobKey(jobs[keys[k]]) == k)
    && (forall j :: j in jobs && jobs[j].key.Some? ==> JobKey(jobs[j]) in keys && keys[JobKey(jobs[j])] == j)
  }

  ghost predicate UploadsAreBounded(uploads: map<UploadId, Upload>, maximum: nat) {
    forall j :: |UploadSet(uploads, j)| <= maximum
  }

  /** A close call works under the claim of its job; on an upload, it holds the lock and knows the version. */
  ghost predicate CallIsSound(
      jobs: map<JobId, Job>, uploads: map<UploadId, Upload>, locks: map<UploadId, CallId>, call: Call, c: CallId) {
    && call.job in jobs && jobs[call.job].claim == Some(call.claim)
    && (forall u :: u in call.todo ==> u in uploads && uploads[u].job == call.job)
    && (!call.Between? ==>
          && call.id in uploads && uploads[call.id].job == call.job
          && call.id in locks && locks[call.id] == c)
    && (call.Versioning? ==> uploads[call.id].version == None && !uploads[call.id].retained)
    && (call.Retaining? ==> uploads[call.id].version == Some(call.version) && !uploads[call.id].retained)
  }

  ghost predicate CallsAreSound(
      jobs: map<JobId, Job>, uploads: map<UploadId, Upload>, locks: map<UploadId, CallId>, calls: map<CallId, Call>) {
    && (forall c :: c in calls ==> CallIsSound(jobs, uploads, locks, calls[c], c))
    && (forall u :: u in locks ==> locks[u] in calls && !calls[locks[u]].Between? && calls[locks[u]].id == u)
  }

  ghost predicate Invariant(s: System) {
    && ClosedBatchesAreComplete(s.batches, s.jobs)
    && ClosedJobsAreComplete(s.jobs, s.uploads)
    && RetainedIsProved(s.uploads, s.proofs)
    && NamesAgree(s.uploads, s.names)
    && BatchKeysAgree(s.batches, s.batchKeys)
    && JobKeysAgree(s.jobs, s.jobKeys)
    && UploadsAreBounded(s.uploads, s.maximumUploads)
    && CallsAreSound(s.jobs, s.uploads, s.locks, s.calls)
  }

  // ---- What no step undoes -----------------------------------------------------------

  predicate Kept<T(==)>(before: Option<T>, after: Option<T>) {
    before.Some? ==> after == before
  }

  predicate JobProgresses(before: Job, after: Job) {
    && after == before.(claim := after.claim, closed := after.closed)
    && Kept(before.claim, after.claim) && (before.closed ==> after.closed)
  }

  predicate UploadProgresses(before: Upload, after: Upload) {
    && after == before.(version := after.version, retained := after.retained)
    && Kept(before.version, after.version) && (before.retained ==> after.retained)
  }

  predicate BatchProgresses(before: Batch, after: Batch) {
    after == before.(closed := after.closed) && (before.closed ==> after.closed)
  }

  ghost predicate BatchesProgress(before: map<BatchId, Batch>, after: map<BatchId, Batch>) {
    forall b :: b in before ==> b in after && BatchProgresses(before[b], after[b])
  }

  ghost predicate JobsProgress(before: map<JobId, Job>, after: map<JobId, Job>) {
    forall j :: j in before ==> j in after && JobProgresses(before[j], after[j])
  }

  ghost predicate UploadsProgress(before: map<UploadId, Upload>, after: map<UploadId, Upload>) {
    forall u :: u in before ==> u in after && UploadProgresses(before[u], after[u])
  }

  ghost predicate ProofsProgress(before: map<(UploadId, Role), Proof>, after: map<(UploadId, Role), Proof>) {
    forall p :: p in before ==> p in after && after[p] == before[p]
  }

  /** New uploads belong to jobs that were unclaimed before. */
  ghost predicate ClaimedSetsAreFrozen(jobs: map<JobId, Job>, before: map<UploadId, Upload>, after: map<UploadId, Upload>) {
    forall u :: u in after && u !in before && after[u].job in jobs ==> jobs[after[u].job].claim.None?
  }

  /** Rows stay, identities are immutable, and claims, versions, proofs and closings are final. */
  ghost predicate Progresses(s: System, t: System) {
    && BatchesProgress(s.batches, t.batches)
    && JobsProgress(s.jobs, t.jobs)
    && UploadsProgress(s.uploads, t.uploads)
    && ProofsProgress(s.proofs, t.proofs)
    && ClaimedSetsAreFrozen(s.jobs, s.uploads, t.uploads)
    && t.maximumUploads == s.maximumUploads && t.branches == s.branches
  }

  lemma ProgressComposes(s: System, t: System, v: System)
    requires Progresses(s, t) && Progresses(t, v)
    ensures Progresses(s, v)
  {
  }

  // ---- One row changes -------------------------------------------------------------------

  lemma BatchAdded(s: System, id: BatchId, batch: Batch)
    requires Invariant(s) && id !in s.batches
    requires batch.key.Some? ==> (batch.owner, batch.key.value) !in s.batchKeys
    ensures var keys := if batch.key.Some? then s.batchKeys[(batch.owner, batch.key.value) := id] else s.batchKeys;
            var t := s.(batches := s.batches[id := batch], batchKeys := keys);
            Invariant(t) && Progresses(s, t)
  {
    hide ClosedJobsAreComplete, RetainedIsProved, NamesAgree, JobKeysAgree, UploadsAreBounded, CallsAreSound;
  }

  /** A new job is unclaimed and open, and no upload or call refers to it yet. */
  lemma JobAdded(s: System, id: JobId, job: Job)
    requires Invariant(s) && id !in s.jobs && job.batch in s.batches && !s.batches[job.batch].closed
    requires job.claim.None? && !job.closed && (job.key.Some? ==> JobKey(job) !in s.jobKeys)
    ensures var t := s.(jobs := s.jobs[id := job], jobKeys := if job.key.Some? then s.jobKeys[JobKey(job) := id] else s.jobKeys);
            Invariant(t) && Progresses(s, t)
  {
    hide RetainedIsProved, NamesAgree, BatchKeysAgree, UploadsAreBounded, CallsAreSound;
    CallsFollowJobs(s.jobs, s.jobs[id := job], s.uploads, s.locks, s.calls);
  }

  lemma UploadAdded(s: System, id: UploadId, upload: Upload)
    requires Invariant(s) && id !in s.uploads && upload.job in s.jobs && s.jobs[upload.job].claim.None?
    requires upload.version.None? && !upload.retained && (upload.job, upload.name) !in s.names
    requires |UploadSet(s.uploads, upload.job)| < s.maximumUploads
    ensures var t := s.(uploads := s.uploads[id := upload], names := s.names[(upload.job, upload.name) := id]);
            Invariant(t) && Progresses(s, t)
  {
    hide ClosedBatchesAreComplete, BatchKeysAgree, JobKeysAgree, CallsAreSound;
    var later := s.uploads[id := upload];
    ClosedIsClaimed(s, upload.job);
    BoundKept(s.uploads, id, upload, s.maximumUploads);
    CallsIgnoreNewUploads(s.jobs, s.uploads, later, s.locks, s.calls);
    hide UploadsAreBounded;
  }

  lemma BoundKept(uploads: map<UploadId, Upload>, id: UploadId, upload: Upload, maximum: nat)
    requires UploadsAreBounded(uploads, maximum) && id !in uploads && |UploadSet(uploads, upload.job)| < maximum
    ensures UploadsAreBounded(uploads[id := upload], maximum)
  {
    var later := uploads[id := upload];
    forall j ensures |UploadSet(later, j)| <= maximum {
      if j == upload.job {
        assert UploadSet(later, j) == UploadSet(uploads, j) + {id};
      } else {
        assert UploadSet(later, j) == UploadSet(uploads, j);
      }
    }
  }

  lemma ClosedIsClaimed(s: System, job: JobId)
    requires Invariant(s) && job in s.jobs
    ensures s.jobs[job].closed ==> s.jobs[job].claim.Some?
    ensures s.jobs[job].batch in s.batches
  {
    hide ClosedJobsAreComplete, RetainedIsProved, NamesAgree, BatchKeysAgree, JobKeysAgree, UploadsAreBounded, CallsAreSound;
  }

  /** The locks held by others stay as they are. */
  ghost predicate OthersKeepLocks(before: map<UploadId, CallId>, after: map<UploadId, CallId>, c: CallId) {
    && (forall u :: u in before && before[u] != c ==> u in after && after[u] == before[u])
    && (forall u :: u in after && after[u] != c ==> u in before && before[u] == after[u])
  }

  /** One call moves on; it may have changed only uploads it had locked. */
  lemma CallMoved(jobs: map<JobId, Job>, before: map<UploadId, Upload>, after: map<UploadId, Upload>,
                  locks: map<UploadId, CallId>, later: map<UploadId, CallId>, calls: map<CallId, Call>, c: CallId, next: Call)
    requires CallsAreSound(jobs, before, locks, calls) && UploadsProgress(before, after) && OthersKeepLocks(locks, later, c)
    requires forall u :: u in before && after[u] != before[u] ==> u in locks && locks[u] == c
    requires CallIsSound(jobs, after, later, next, c)
    requires forall u :: u in later && later[u] == c ==> !next.Between? && next.id == u
    ensures CallsAreSound(jobs, after, later, calls[c := next])
  {
    forall other | other in calls && other != c ensures CallIsSound(jobs, after, later, calls[other], other) {
      assert CallIsSound(jobs, before, locks, calls[other], other);
    }
  }

  lemma CallGone(jobs: map<JobId, Job>, uploads: map<UploadId, Upload>,
                 locks: map<UploadId, CallId>, later: map<UploadId, CallId>, calls: map<CallId, Call>, c: CallId)
    requires CallsAreSound(jobs, uploads, locks, calls) && OthersKeepLocks(locks, later, c)
    requires forall u :: u in later ==> later[u] != c
    ensures CallsAreSound(jobs, uploads, later, calls - {c})
  {
    forall other | other in calls && other != c ensures CallIsSound(jobs, uploads, later, calls[other], other) {
      assert CallIsSound(jobs, uploads, locks, calls[other], other);
    }
  }

  lemma CallsIgnoreNewUploads(jobs: map<JobId, Job>, before: map<UploadId, Upload>, after: map<UploadId, Upload>,
                              locks: map<UploadId, CallId>, calls: map<CallId, Call>)
    requires CallsAreSound(jobs, before, locks, calls)
    requires forall u :: u in before ==> u in after && after[u] == before[u]
    ensures CallsAreSound(jobs, after, locks, calls)
  {
    forall c | c in calls ensures CallIsSound(jobs, after, locks, calls[c], c) {
      assert CallIsSound(jobs, before, locks, calls[c], c);
    }
  }

  lemma CallsFollowJobs(before: map<JobId, Job>, after: map<JobId, Job>, uploads: map<UploadId, Upload>,
                        locks: map<UploadId, CallId>, calls: map<CallId, Call>)
    requires CallsAreSound(before, uploads, locks, calls) && JobsProgress(before, after)
    ensures CallsAreSound(after, uploads, locks, calls)
  {
    forall c | c in calls ensures CallIsSound(after, uploads, locks, calls[c], c) {
      assert CallIsSound(before, uploads, locks, calls[c], c);
      assert JobProgresses(before[calls[c].job], after[calls[c].job]);
    }
  }

  /** A job row moves forward; it closes only when all its uploads are retained. */
  lemma JobUpdated(s: System, id: JobId, job: Job)
    requires Invariant(s) && id in s.jobs && JobProgresses(s.jobs[id], job)
    requires job.closed ==> job.claim.Some? && forall u :: u in s.uploads && s.uploads[u].job == id ==> s.uploads[u].retained
    ensures var t := s.(jobs := s.jobs[id := job]); Invariant(t) && Progresses(s, t)
  {
    hide RetainedIsProved, NamesAgree, BatchKeysAgree, UploadsAreBounded, CallsAreSound;
    CallsFollowJobs(s.jobs, s.jobs[id := job], s.uploads, s.locks, s.calls);
  }

  /** An upload row moves forward together with its proofs and with the calls working on it. */
  lemma UploadUpdated(s: System, id: UploadId, upload: Upload, proofs: map<(UploadId, Role), Proof>,
                      locks: map<UploadId, CallId>, calls: map<CallId, Call>)
    requires Invariant(s) && id in s.uploads && UploadProgresses(s.uploads[id], upload)
    requires upload.version.Some? ==> s.jobs[upload.job].claim.Some?
    requires ProofsProgress(s.proofs, proofs) && RetainedIsProved(s.uploads[id := upload], proofs)
    requires CallsAreSound(s.jobs, s.uploads[id := upload], locks, calls)
    ensures var t := s.(uploads := s.uploads[id := upload], proofs := proofs, locks := locks, calls := calls);
            Invariant(t) && Progresses(s, t)
  {
    hide ClosedBatchesAreComplete, RetainedIsProved, BatchKeysAgree, JobKeysAgree, CallsAreSound;
    assert UploadsAreBounded(s.uploads, s.maximumUploads);
    var later := s.uploads[id := upload];
    forall j ensures |UploadSet(later, j)| <= s.maximumUploads {
      assert UploadSet(later, j) == UploadSet(s.uploads, j);
    }
    assert UploadsAreBounded(later, s.maximumUploads);
    hide UploadsAreBounded;
    assert NamesAgree(later, s.names) && ClosedJobsAreComplete(s.jobs, later);
  }

  lemma CallsChanged(s: System, locks: map<UploadId, CallId>, calls: map<CallId, Call>)
    requires Invariant(s) && CallsAreSound(s.jobs, s.uploads, locks, calls)
    ensures var t := s.(locks := locks, calls := calls); Invariant(t) && Progresses(s, t)
  {
    hide ClosedBatchesAreComplete, ClosedJobsAreComplete, RetainedIsProved, NamesAgree, BatchKeysAgree, JobKeysAgree, UploadsAreBounded, CallsAreSound;
  }

  // ---- Each transaction ----------------------------------------------------------------

  lemma InsertBatchKeeps(s: System, owner: Principal, branch: nat, key: Option<string>, fingerprint: string, id: BatchId)
    requires Invariant(s)
    ensures var t := InsertBatch(s, owner, branch, key, fingerprint, id).0; Invariant(t) && Progresses(s, t)
  {
    var (t, r) := InsertBatch(s, owner, branch, key, fingerprint, id);
    if t != s {
      BatchAdded(s, id, Batch(owner, branch, key, fingerprint, false));
    }
  }

  lemma CreateJobKeeps(s: System, batch: BatchId, owner: Principal, name: string, key: Option<string>, fingerprint: string, id: JobId)
    requires Invariant(s)
    ensures var t := CreateJob(s, batch, owner, name, key, fingerprint, id).0; Invariant(t) && Progresses(s, t)
  {
    var (t, r) := CreateJob(s, batch, owner, name, key, fingerprint, id);
    if t != s {
      JobAdded(s, id, Job(batch, owner, name, key, fingerprint, None, false));
    }
  }

  lemma RegisterLogKeeps(s: System, batch: BatchId, job: JobId, name: string, identity: Identity, id: UploadId)
    requires Invariant(s)
    ensures var t := RegisterLog(s, batch, job, name, identity, id).0; Invariant(t) && Progresses(s, t)
  {
    var (t, r) := RegisterLog(s, batch, job, name, identity, id);
    if t != s {
      UploadAdded(s, id, Upload(job, name, identity, None, false));
    }
  }

  /** A started call has its claim on the job and only uploads of the job to visit. */
  lemma StartedCallIsSound(s: System, c: CallId, job: JobId, claim: Claim, todo: seq<UploadId>)
    requires job in s.jobs && s.jobs[job].claim == Some(claim)
    requires forall u :: u in todo ==> u in s.uploads && s.uploads[u].job == job
    ensures CallIsSound(s.jobs, s.uploads, s.locks, Between(job, claim, todo), c)
  {
  }

  /** What a successful begin does: the claim first, then the call. */
  lemma BeginCloseSplits(s: System, call: CallId, batch: BatchId, job: JobId, claim: Claim, order: seq<UploadId>)
    requires BeginClose(s, call, batch, job, claim, order).1 == Done
    ensures call !in s.calls && job in s.jobs && Kept(s.jobs[job].claim, Some(claim))
    ensures var mid := s.(jobs := s.jobs[job := s.jobs[job].(claim := Some(claim))]);
            BeginClose(s, call, batch, job, claim, order).0 ==
              mid.(locks := mid.locks, calls := mid.calls[call := Between(job, claim, if s.jobs[job].closed then [] else order)])
  {
  }

  /** Until the job is closed, its call has every upload to visit. */
  lemma ClaimListsEveryUpload(s: System, call: CallId, batch: BatchId, job: JobId, claim: Claim, order: seq<UploadId>)
    requires Members(order) == UploadSet(s.uploads, job) && BeginClose(s, call, batch, job, claim, order).1 == Done
    ensures var t := BeginClose(s, call, batch, job, claim, order).0;
            && job in t.jobs && t.jobs[job].claim == Some(claim) && call in t.calls
            && (t.jobs[job].closed || Members(t.calls[call].todo) == UploadSet(t.uploads, job))
  {
    hide Members, UploadSet, BeginClose;
    BeginCloseSplits(s, call, batch, job, claim, order);
  }

  lemma BeginCloseKeeps(s: System, call: CallId, batch: BatchId, job: JobId, claim: Claim, order: seq<UploadId>)
    requires Invariant(s) && Members(order) == UploadSet(s.uploads, job)
    ensures var t := BeginClose(s, call, batch, job, claim, order).0; Invariant(t) && Progresses(s, t)
    ensures var (t, r) := BeginClose(s, call, batch, job, claim, order);
            r == Done ==>
              && job in t.jobs && t.jobs[job].claim == Some(claim) && call in t.calls
              && (t.jobs[job].closed || Members(t.calls[call].todo) == UploadSet(t.uploads, job))
  {
    hide Invariant, Progresses, CallIsSound;
    var (t, r) := BeginClose(s, call, batch, job, claim, order);
    NothingChanged(s);
    if r == Done {
      BeginCloseSplits(s, call, batch, job, claim, order);
      ClaimListsEveryUpload(s, call, batch, job, claim, order);
      hide BeginClose;
      ClaimIsSafe(s, job);
      JobUpdated(s, job, s.jobs[job].(claim := Some(claim)));
      var mid := s.(jobs := s.jobs[job := s.jobs[job].(claim := Some(claim))]);
      var todo := if s.jobs[job].closed then [] else order;
      OrderedUploads(s.uploads, job, order);
      hide UploadSet;
      StartedCallIsSound(mid, call, job, claim, todo);
      CallStarted(mid, call, Between(job, claim, todo));
      ProgressComposes(s, mid, t);
    }
  }

  lemma OrderedUploads(uploads: map<UploadId, Upload>, job: JobId, order: seq<UploadId>)
    requires Members(order) == UploadSet(uploads, job)
    ensures forall u :: u in order ==> u in uploads && uploads[u].job == job
  {
    forall u | u in order ensures u in uploads && uploads[u].job == job {
      assert u in Members(order);
      assert u in UploadSet(uploads, job);
    }
  }

  lemma ClaimIsSafe(s: System, job: JobId)
    requires Invariant(s) && job in s.jobs
    ensures s.jobs[job].closed ==> s.jobs[job].claim.Some?
    ensures s.jobs[job].closed ==> forall u :: u in s.uploads && s.uploads[u].job == job ==> s.uploads[u].retained
  {
    hide RetainedIsProved, NamesAgree, BatchKeysAgree, JobKeysAgree, UploadsAreBounded, CallsAreSound;
  }

  lemma CallStarted(s: System, c: CallId, call: Call)
    requires Invariant(s) && c !in s.calls && call.Between? && CallIsSound(s.jobs, s.uploads, s.locks, call, c)
    ensures var t := s.(locks := s.locks, calls := s.calls[c := call]); Invariant(t) && Progresses(s, t)
  {
    hide ClosedBatchesAreComplete, ClosedJobsAreComplete, RetainedIsProved, NamesAgree, BatchKeysAgree, JobKeysAgree, UploadsAreBounded;
    CallMoved(s.jobs, s.uploads, s.uploads, s.locks, s.locks, s.calls, c, call);
    CallsChanged(s, s.locks, s.calls[c := call]);
  }

  /** Releasing its only lock leaves the locks of the other calls alone. */
  lemma Unlocked(locks: map<UploadId, CallId>, id: UploadId, c: CallId)
    requires id in locks && locks[id] == c && forall u :: u in locks && locks[u] == c ==> u == id
    ensures OthersKeepLocks(locks, locks - {id}, c)
    ensures forall u :: u in locks - {id} ==> (locks - {id})[u] != c
  {
  }

  /** A call steps on without touching any row. */
  lemma CallSteps(s: System, c: CallId, next: Call, later: map<UploadId, CallId>)
    requires Invariant(s) && OthersKeepLocks(s.locks, later, c) && CallIsSound(s.jobs, s.uploads, later, next, c)
    requires forall u :: u in later && later[u] == c ==> !next.Between? && next.id == u
    ensures var t := s.(locks := later, calls := s.calls[c := next]); Invariant(t) && Progresses(s, t)
  {
    hide ClosedBatchesAreComplete, ClosedJobsAreComplete, RetainedIsProved, NamesAgree, BatchKeysAgree, JobKeysAgree, UploadsAreBounded, CallsAreSound;
    CallMoved(s.jobs, s.uploads, s.uploads, s.locks, later, s.calls, c, next);
    CallsChanged(s, later, s.calls[c := next]);
  }

  lemma EndCallKeeps(s: System, call: CallId)
    requires Invariant(s)
    ensures var t := EndCall(s, call); Invariant(t) && Progresses(s, t)
    ensures var t := EndCall(s, call);
            && t == s.(locks := t.locks, calls := s.calls - {call})
            && (forall u :: u in t.locks <==> u in s.locks && s.locks[u] != call)
            && (forall u :: u in t.locks ==> t.locks[u] == s.locks[u])
  {
    hide ClosedBatchesAreComplete, ClosedJobsAreComplete, RetainedIsProved, NamesAgree, BatchKeysAgree, JobKeysAgree, UploadsAreBounded, CallsAreSound;
    var t := EndCall(s, call);
    CallGone(s.jobs, s.uploads, s.locks, t.locks, s.calls, call);
    CallsChanged(s, t.locks, t.calls);
  }

  /** What the invariant says of one call and of the locks it holds. */
  lemma CallFacts(s: System, c: CallId)
    requires Invariant(s) && c in s.calls
    ensures CallIsSound(s.jobs, s.uploads, s.locks, s.calls[c], c)
    ensures forall u :: u in s.locks && s.locks[u] == c ==> !s.calls[c].Between? && s.calls[c].id == u
  {
    hide ClosedBatchesAreComplete, ClosedJobsAreComplete, RetainedIsProved, NamesAgree, BatchKeysAgree, JobKeysAgree, UploadsAreBounded, CallIsSound;
  }

  lemma TryLockKeeps(s: System, call: CallId)
    requires Invariant(s)
    ensures var t := TryLock(s, call).0; Invariant(t) && Progresses(s, t)
  {
    hide Invariant, Progresses;
    EndCallKeeps(s, call);
    var (t, r) := TryLock(s, call);
    if r == Done {
      CallFacts(s, call);
      assert s.calls[call].todo[0] in s.calls[call].todo;
      assert forall u :: u in s.calls[call].todo[1..] ==> u in s.calls[call].todo;
      CallSteps(s, call, t.calls[call], t.locks);
    } else if t == s {
      NothingChanged(s);
    }
  }

  lemma NothingChanged(s: System)
    requires Invariant(s)
    ensures Progresses(s, s)
  {
    hide Invariant;
  }

  /** The lock is given up over a retained upload and kept over any other. */
  lemma ReaderIsSound(jobs: map<JobId, Job>, uploads: map<UploadId, Upload>, locks: map<UploadId, CallId>, call: Call, c: CallId)
    requires CallIsSound(jobs, uploads, locks, call, c) && call.Holding?
    requires forall u :: u in locks && locks[u] == c ==> u == call.id
    ensures uploads[call.id].retained ==>
              && OthersKeepLocks(locks, locks - {call.id}, c) && (forall u :: u in locks - {call.id} ==> (locks - {call.id})[u] != c)
              && CallIsSound(jobs, uploads, locks - {call.id}, Between(call.job, call.claim, call.todo), c)
    ensures !uploads[call.id].retained ==>
              && (uploads[call.id].version.Some? ==>
                    CallIsSound(jobs, uploads, locks, Retaining(call.job, call.claim, call.todo, call.id, uploads[call.id].version.value), c))
              && (uploads[call.id].version.None? ==>
                    CallIsSound(jobs, uploads, locks, Versioning(call.job, call.claim, call.todo, call.id), c))
  {
    Unlocked(locks, call.id, c);
  }

  lemma ReadUploadKeeps(s: System, call: CallId)
    requires Invariant(s)
    ensures var t := ReadUpload(s, call).0; Invariant(t) && Progresses(s, t)
  {
    hide Invariant, Progresses, CallIsSound, OthersKeepLocks, EndCall;
    EndCallKeeps(s, call);
    NothingChanged(s);
    var (t, r) := ReadUpload(s, call);
    if r == Done {
      CallFacts(s, call);
      ReaderIsSound(s.jobs, s.uploads, s.locks, s.calls[call], call);
      SameLocks(s.locks, call);
      CallSteps(s, call, t.calls[call], t.locks);
    }
  }

  lemma SameLocks(locks: map<UploadId, CallId>, c: CallId)
    ensures OthersKeepLocks(locks, locks, c)
  {
  }

  /** Only the lock holder binds, under the claim of the job, and where nothing was bound. */
  lemma BinderHoldsTheLock(s: System, call: CallId, version: string)
    requires Invariant(s) && BindVersion(s, call, version).1 == Done
    ensures call in s.calls && s.calls[call].Versioning?
    ensures var id, t := s.calls[call].id, BindVersion(s, call, version).0;
            && id in s.locks && s.locks[id] == call
            && id in s.uploads && s.uploads[id].version.None? && s.uploads[id].job in s.jobs
            && s.jobs[s.uploads[id].job].claim.Some?
            && t.uploads == s.uploads[id := s.uploads[id].(version := Some(version))]
  {
    hide Invariant, EndCall;
    CallFacts(s, call);
  }

  lemma BindVersionKeeps(s: System, call: CallId, version: string)
    requires Invariant(s)
    ensures var t := BindVersion(s, call, version).0; Invariant(t) && Progresses(s, t)
    ensures BindVersion(s, call, version).1 == Done ==>
              && call in s.calls && s.calls[call].Versioning?
              && var id := s.calls[call].id;
                 && id in s.locks && s.locks[id] == call && id in s.uploads && s.uploads[id].version.None?
                 && s.uploads[id].job in s.jobs && s.jobs[s.uploads[id].job].claim.Some?
  {
    hide ClosedBatchesAreComplete, NamesAgree, BatchKeysAgree, JobKeysAgree, UploadsAreBounded, CallsAreSound, Progresses;
    EndCallKeeps(s, call);
    NothingChanged(s);
    var (t, r) := BindVersion(s, call, version);
    if r == Done {
      BinderHoldsTheLock(s, call, version);
      CallFacts(s, call);
      var id := s.calls[call].id;
      CallMoved(s.jobs, s.uploads, t.uploads, s.locks, s.locks, s.calls, call, t.calls[call]);
      UploadUpdated(s, id, t.uploads[id], s.proofs, s.locks, t.calls);
    }
  }

  lemma EveryRole(role: Role)
    ensures role in {Receipt, Verification, Statement, TrustPolicy, Signature}
  {
    match role case Receipt => case Verification => case Statement => case TrustPolicy => case Signature =>
  }

  lemma EvidenceProves(s: System, id: UploadId, version: string, evidence: map<Role, string>)
    requires RetainedIsProved(s.uploads, s.proofs) && id in s.uploads && s.uploads[id].version == Some(version)
    requires !s.uploads[id].retained && evidence.Keys == {Receipt, Verification, Statement, TrustPolicy, Signature}
    ensures var proofs := s.proofs + ProofsFor(id, version, evidence);
            && RetainedIsProved(s.uploads[id := s.uploads[id].(retained := true)], proofs)
            && ProofsProgress(s.proofs, proofs)
  {
    var added := ProofsFor(id, version, evidence);
    forall role: Role ensures (id, role) in added && added[(id, role)].subject == version {
      EveryRole(role);
    }
    var proofs := s.proofs + added;
    forall u | u in s.uploads && s.uploads[u].retained ensures HasAllProofs(proofs, u, s.uploads[u].version.value) {
      forall role: Role ensures (u, role) !in added {
      }
    }
  }

  lemma CommitRetentionRefuses(s: System, call: CallId, evidence: map<Role, string>)
    requires CommitRetention(s, call, evidence).1 != Done
    ensures CommitRetention(s, call, evidence).0 in {s, EndCall(s, call)}
  {
    hide EndCall, ProofsFor;
  }

  /** What a successful commit does to the one upload, its proofs and its lock. */
  lemma CommitRetentionSplits(s: System, call: CallId, evidence: map<Role, string>)
    requires CommitRetention(s, call, evidence).1 == Done
    ensures call in s.calls && s.calls[call].Retaining?
    ensures var Retaining(job, claim, todo, id, version) := s.calls[call];
            && id in s.uploads && s.uploads[id].version == Some(version) && !s.uploads[id].retained
            && CommitRetention(s, call, evidence).0 == s.(
                 uploads := s.uploads[id := s.uploads[id].(retained := true)],
                 proofs := s.proofs + ProofsFor(id, version, evidence),
                 locks := s.locks - {id}, calls := s.calls[call := Between(job, claim, todo)])
  {
    hide ProofsFor, EndCall;
  }

  /** The call that commits is back between uploads, without a lock. */
  lemma RetainerMoved(jobs: map<JobId, Job>, before: map<UploadId, Upload>, locks: map<UploadId, CallId>,
                      calls: map<CallId, Call>, c: CallId)
    requires CallsAreSound(jobs, before, locks, calls) && c in calls && !calls[c].Between?
    requires calls[c].id in before
    ensures var after := before[calls[c].id := before[calls[c].id].(retained := true)];
            CallsAreSound(jobs, after, locks - {calls[c].id}, calls[c := Between(calls[c].job, calls[c].claim, calls[c].todo)])
  {
    hide CallIsSound;
    var call := calls[c];
    assert CallIsSound(jobs, before, locks, call, c);
    assert forall u :: u in locks && locks[u] == c ==> u == call.id;
    RetainerIsSound(jobs, before, locks, call, c);
    assert UploadsProgress(before, before[call.id := before[call.id].(retained := true)]);
    hide CallsAreSound, UploadsProgress;
    CallMoved(jobs, before, before[call.id := before[call.id].(retained := true)], locks, locks - {call.id}, calls, c,
              Between(call.job, call.claim, call.todo));
  }

  lemma RetainerIsSound(jobs: map<JobId, Job>, before: map<UploadId, Upload>, locks: map<UploadId, CallId>, call: Call, c: CallId)
    requires CallIsSound(jobs, before, locks, call, c) && !call.Between?
    requires forall u :: u in locks && locks[u] == c ==> u == call.id
    ensures call.id in before && call.id in locks && locks[call.id] == c
    ensures OthersKeepLocks(locks, locks - {call.id}, c) && forall u :: u in locks - {call.id} ==> (locks - {call.id})[u] != c
    ensures CallIsSound(jobs, before[call.id := before[call.id].(retained := true)], locks - {call.id},
                        Between(call.job, call.claim, call.todo), c)
  {
    Unlocked(locks, call.id, c);
  }

  lemma BoundIsClaimed(s: System, u: UploadId)
    requires Invariant(s) && u in s.uploads && s.uploads[u].version.Some?
    ensures s.uploads[u].job in s.jobs && s.jobs[s.uploads[u].job].claim.Some?
  {
    hide ClosedBatchesAreComplete, RetainedIsProved, NamesAgree, BatchKeysAgree, JobKeysAgree, UploadsAreBounded, CallsAreSound;
  }

  lemma EvidenceIsStored(proofs: map<(UploadId, Role), Proof>, id: UploadId, version: string, evidence: map<Role, string>)
    requires evidence.Keys == {Receipt, Verification, Statement, TrustPolicy, Signature}
    ensures HoldsEvidence(proofs + ProofsFor(id, version, evidence), id, version, evidence)
  {
    forall role: Role ensures role in evidence {
      EveryRole(role);
    }
  }

  lemma CommitRetentionKeeps(s: System, call: CallId, evidence: map<Role, string>)
    requires Invariant(s) && evidence.Keys == {Receipt, Verification, Statement, TrustPolicy, Signature}
    ensures var t := CommitRetention(s, call, evidence).0; Invariant(t) && Progresses(s, t)
    ensures var (t, r) := CommitRetention(s, call, evidence);
            r == Done ==>
              && call in s.calls && s.calls[call].Retaining?
              && HoldsEvidence(t.proofs, s.calls[call].id, s.calls[call].version, evidence)
  {
    hide ClosedBatchesAreComplete, ClosedJobsAreComplete, RetainedIsProved, NamesAgree, BatchKeysAgree, JobKeysAgree,
      UploadsAreBounded, CallsAreSound, CallIsSound, Progresses, CommitRetention, EndCall, ProofsFor;
    var (t, r) := CommitRetention(s, call, evidence);
    if r != Done {
      CommitRetentionRefuses(s, call, evidence);
      EndCallKeeps(s, call);
      NothingChanged(s);
    } else {
      CommitRetentionSplits(s, call, evidence);
      var Retaining(job, claim, todo, id, version) := s.calls[call];
      BoundIsClaimed(s, id);
      EvidenceProves(s, id, version, evidence);
      EvidenceIsStored(s.proofs, id, version, evidence);
      hide HoldsEvidence;
      RetainerMoved(s.jobs, s.uploads, s.locks, s.calls, call);
      hide Invariant, ProofsProgress;
      UploadUpdated(s, id, s.uploads[id].(retained := true), t.proofs, t.locks, t.calls);
    }
  }

  lemma FinishCloseKeeps(s: System, call: CallId)
    requires Invariant(s)
    ensures var t := FinishClose(s, call).0; Invariant(t) && Progresses(s, t)
  {
    var (t, r) := FinishClose(s, call);
    EndCallKeeps(s, call);
    var mid := EndCall(s, call);
    if t != s && t != mid {
      var job := s.calls[call].job;
      forall u | u in s.uploads && s.uploads[u].job == job ensures s.uploads[u].retained {
        assert u in UploadsOf(s, job);
      }
      JobUpdated(mid, job, s.jobs[job].(closed := true));
      ProgressComposes(s, mid, t);
    }
  }

  lemma JobIsListed(s: System, batch: BatchId, j: JobId)
    requires j in s.jobs && s.jobs[j].batch == batch
    ensures j in JobsOf(s, batch)
  {
  }

  lemma CloseBatchKeeps(s: System, batch: BatchId)
    requires Invariant(s)
    ensures var t := CloseBatch(s, batch).0; Invariant(t) && Progresses(s, t)
  {
    hide Invariant, Progresses;
    NothingChanged(s);
    var (t, r) := CloseBatch(s, batch);
    if t != s {
      forall j | j in s.jobs && s.jobs[j].batch == batch ensures s.jobs[j].closed {
        JobIsListed(s, batch, j);
      }
      BatchClosed(s, batch);
    }
  }

  lemma BatchClosed(s: System, id: BatchId)
    requires Invariant(s) && id in s.batches && forall j :: j in s.jobs && s.jobs[j].batch == id ==> s.jobs[j].closed
    ensures var t := s.(batches := s.batches[id := s.batches[id].(closed := true)]); Invariant(t) && Progresses(s, t)
  {
    hide ClosedJobsAreComplete, RetainedIsProved, NamesAgree, JobKeysAgree, UploadsAreBounded, CallsAreSound;
  }
}

/** Consequences for every run: any interleaving of any number of calls, with crashes. */
module CustodyRuns {
  import opened Outcomes
  import opened CustodyModel
  import opened CustodyProtocol

  lemma StepKeeps(s: System, e: Event)
    requires Invariant(s) && Admissible(s, e)
    ensures Invariant(Step(s, e)) && Progresses(s, Step(s, e))
  {
    hide Invariant, Progresses;
    match e
    case LooksUpBatch(owner, key, fingerprint) => NothingChanged(s);
    case InsertsBatch(owner, branch, key, fingerprint, newId) => InsertBatchKeeps(s, owner, branch, key, fingerprint, newId);
    case CreatesJob(batch, owner, name, key, fingerprint, newId) => CreateJobKeeps(s, batch, owner, name, key, fingerprint, newId);
    case Registers(batch, job, name, identity, newId) => RegisterLogKeeps(s, batch, job, name, identity, newId);
    case Begins(call, batch, job, claim, order) =>
      BeginCloseKeeps(s, call, batch, job, claim, order);
    case Locks(call) => TryLockKeeps(s, call);
    case Reads(call) => ReadUploadKeeps(s, call);
    case Binds(call, version) => BindVersionKeeps(s, call, version);
    case Commits(call, evidence) => CommitRetentionKeeps(s, call, evidence);
    case Finishes(call) => FinishCloseKeeps(s, call);
    case Crashes(call) => EndCallKeeps(s, call);
    case ClosesBatch(batch) => CloseBatchKeeps(s, batch);
  }

  /** What holds of the empty tables holds after every run, and no run undoes anything. */
  lemma {:induction false} RunKeeps(s: System, trace: seq<Event>)
    requires Invariant(s) && IsTrace(s, trace)
    ensures Invariant(Run(s, trace)) && Progresses(s, Run(s, trace))
    decreases |trace|
  {
    hide Invariant, Progresses, Step, Admissible;
    if trace == [] {
      NothingChanged(s);
    } else {
      var earlier := trace[..|trace| - 1];
      RunKeeps(s, earlier);
      StepKeeps(Run(s, earlier), trace[|trace| - 1]);
      ProgressComposes(s, Run(s, earlier), Run(s, trace));
    }
  }

  lemma InitiallySound(branches: set<nat>, maximumUploads: nat)
    ensures Invariant(Initial(branches, maximumUploads))
  {
    forall j ensures UploadSet(map[], j) == {} {
    }
    assert UploadsAreBounded(map[], maximumUploads);
  }

  /** Later states of a run progress from earlier ones. */
  lemma {:induction false} SuffixKeeps(s: System, trace: seq<Event>, i: nat)
    requires Invariant(s) && IsTrace(s, trace) && i <= |trace|
    ensures IsTrace(s, trace[..i]) && Invariant(Run(s, trace[..i])) && Invariant(Run(s, trace))
    ensures Progresses(Run(s, trace[..i]), Run(s, trace))
    decreases |trace|
  {
    hide Invariant, Progresses, Step, Admissible;
    RunKeeps(s, trace);
    if i == |trace| {
      assert trace[..i] == trace;
      NothingChanged(Run(s, trace));
    } else {
      var earlier := trace[..|trace| - 1];
      SuffixKeeps(s, earlier, i);
      assert earlier[..i] == trace[..i];
      StepKeeps(Run(s, earlier), trace[|trace| - 1]);
      ProgressComposes(Run(s, trace[..i]), Run(s, earlier), Run(s, trace));
    }
  }

  ghost predicate IsRun(branches: set<nat>, maximumUploads: nat, trace: seq<Event>) {
    IsTrace(Initial(branches, maximumUploads), trace)
  }

  function After(branches: set<nat>, maximumUploads: nat, trace: seq<Event>): System {
    Run(Initial(branches, maximumUploads), trace)
  }

  /** Retained for good: a bound version, the five proofs of it, and no proof of anything else. */
  ghost predicate InCustody(s: System, u: UploadId) {
    && u in s.uploads && s.uploads[u].retained && s.uploads[u].version.Some?
    && HasAllProofs(s.proofs, u, s.uploads[u].version.value)
  }

  ghost predicate IsInCustody(s: System, job: JobId) {
    forall u :: u in UploadsOf(s, job) ==> InCustody(s, u)
  }

  /** A closed job has its claim and all its uploads in custody, within the bound. */
  lemma ClosedJobIsInCustody(branches: set<nat>, maximumUploads: nat, trace: seq<Event>, job: JobId)
    requires IsRun(branches, maximumUploads, trace)
    requires job in After(branches, maximumUploads, trace).jobs
    ensures var s := After(branches, maximumUploads, trace);
            && (s.jobs[job].closed ==> s.jobs[job].claim.Some? && IsInCustody(s, job))
            && |UploadsOf(s, job)| <= maximumUploads
  {
    hide ClosedBatchesAreComplete, NamesAgree, BatchKeysAgree, JobKeysAgree, CallsAreSound, HasAllProofs, Run, IsTrace;
    var start := Initial(branches, maximumUploads);
    InitiallySound(branches, maximumUploads);
    RunKeeps(start, trace);
    var s := After(branches, maximumUploads, trace);
    ClosedIsClaimed(s, job);
  }

  /** A closed batch has only closed jobs. */
  lemma ClosedBatchHasClosedJobs(branches: set<nat>, maximumUploads: nat, trace: seq<Event>, batch: BatchId)
    requires IsRun(branches, maximumUploads, trace) && batch in After(branches, maximumUploads, trace).batches
    requires After(branches, maximumUploads, trace).batches[batch].closed
    ensures var s := After(branches, maximumUploads, trace);
            forall job :: job in JobsOf(s, batch) ==> s.jobs[job].closed && s.jobs[job].claim.Some? && IsInCustody(s, job)
  {
    hide ClosedJobsAreComplete, RetainedIsProved, NamesAgree, BatchKeysAgree, JobKeysAgree, UploadsAreBounded, CallsAreSound, Run, IsTrace, IsInCustody;
    InitiallySound(branches, maximumUploads);
    RunKeeps(Initial(branches, maximumUploads), trace);
    var s := After(branches, maximumUploads, trace);
    forall job | job in JobsOf(s, batch)
      ensures s.jobs[job].closed && s.jobs[job].claim.Some? && IsInCustody(s, job)
    {
      ClosedJobIsInCustody(branches, maximumUploads, trace, job);
    }
  }

  predicate SameLog(before: Upload, after: Upload) {
    before.job == after.job && before.name == after.name && before.identity == after.identity
  }

  /** From its claim on, a job keeps claim and upload set; a bound version, a retention and a proof stay as they are. */
  lemma CustodyIsFinal(branches: set<nat>, maximumUploads: nat, trace: seq<Event>, i: nat)
    requires IsRun(branches, maximumUploads, trace) && i <= |trace|
    ensures var s, t := After(branches, maximumUploads, trace[..i]), After(branches, maximumUploads, trace);
            && (forall j :: j in s.jobs ==> j in t.jobs)
            && (forall j :: j in s.jobs && s.jobs[j].claim.Some? ==>
                  t.jobs[j].claim == s.jobs[j].claim && UploadsOf(t, j) == UploadsOf(s, j))
            && (forall j :: j in s.jobs && s.jobs[j].closed ==> t.jobs[j] == s.jobs[j])
            && (forall u :: u in s.uploads ==> u in t.uploads && SameLog(s.uploads[u], t.uploads[u]))
            && (forall u :: u in s.uploads && s.uploads[u].version.Some? ==> t.uploads[u].version == s.uploads[u].version)
            && (forall u :: InCustody(s, u) ==> InCustody(t, u) && t.uploads[u] == s.uploads[u])
            && (forall p :: p in s.proofs ==> p in t.proofs && t.proofs[p] == s.proofs[p])
  {
    hide Run, IsTrace, Invariant;
    InitiallySound(branches, maximumUploads);
    SuffixKeeps(Initial(branches, maximumUploads), trace, i);
    var s, t := After(branches, maximumUploads, trace[..i]), After(branches, maximumUploads, trace);
    forall j | j in s.jobs && s.jobs[j].closed ensures t.jobs[j] == s.jobs[j] {
      ClosedIsClaimed(s, j);
    }
  }

  /** Versions are bound only under a claim; proofs exist exactly for retained uploads, and attest the bound version. */
  lemma EvidenceIsExact(branches: set<nat>, maximumUploads: nat, trace: seq<Event>, u: UploadId, role: Role)
    requires IsRun(branches, maximumUploads, trace)
    ensures var s := After(branches, maximumUploads, trace);
            && (u in s.uploads && s.uploads[u].version.Some? ==>
                  s.uploads[u].job in s.jobs && s.jobs[s.uploads[u].job].claim.Some?)
            && ((u, role) in s.proofs <==> u in s.uploads && s.uploads[u].retained)
            && ((u, role) in s.proofs ==> s.uploads[u].version == Some(s.proofs[(u, role)].subject))
  {
    hide ClosedBatchesAreComplete, NamesAgree, BatchKeysAgree, JobKeysAgree, UploadsAreBounded, CallsAreSound, Run, IsTrace;
    InitiallySound(branches, maximumUploads);
    RunKeeps(Initial(branches, maximumUploads), trace);
  }

  /** The step at k commits the evidence for the upload, and the call has retained that version. */
  predicate CommitsAt(branches: set<nat>, maximumUploads: nat, trace: seq<Event>, k: nat, u: UploadId, version: string, evidence: map<Role, string>)
    requires k < |trace|
  {
    var s := After(branches, maximumUploads, trace[..k]);
    && trace[k].Commits? && trace[k].evidence == evidence && Perform(s, trace[k]).1 == Done
    && trace[k].call in s.calls && s.calls[trace[k].call].Retaining?
    && s.calls[trace[k].call].id == u && s.calls[trace[k].call].version == version
  }

  /** Only registrations, bindings and commits change an upload. */
  lemma UploadsStay(s: System, e: Event)
    requires !e.Registers? && !e.Binds? && !e.Commits?
    ensures SameRows(s, Step(s, e))
  {
    hide InsertBatch, CreateJob, RegisterLog, BeginClose, TryLock, ReadUpload, BindVersion, CommitRetention, FinishClose, CloseBatch, EndCall;
    EndKeepsRows(s);
    match e
    case InsertsBatch(owner, branch, key, fingerprint, newId) => InsertKeepsRows(s, owner, branch, key, fingerprint, newId);
    case CreatesJob(batch, owner, name, key, fingerprint, newId) => CreateKeepsRows(s, batch, owner, name, key, fingerprint, newId);
    case Begins(call, batch, job, claim, order) => BeginKeepsRows(s, call, batch, job, claim, order);
    case Locks(call) => LockKeepsRows(s, call);
    case Reads(call) => ReadKeepsRows(s, call);
    case Finishes(call) => FinishKeepsRows(s, call);
    case ClosesBatch(batch) => CloseBatchKeepsRows(s, batch);
    case _ =>
  }

  predicate SameRows(s: System, t: System) {
    t.uploads == s.uploads && t.proofs == s.proofs
  }

  lemma InsertKeepsRows(s: System, owner: Principal, branch: nat, key: Option<string>, fingerprint: string, id: BatchId)
    ensures SameRows(s, InsertBatch(s, owner, branch, key, fingerprint, id).0)
  {
  }

  lemma CreateKeepsRows(s: System, batch: BatchId, owner: Principal, name: string, key: Option<string>, fingerprint: string, id: JobId)
    ensures SameRows(s, CreateJob(s, batch, owner, name, key, fingerprint, id).0)
  {
  }

  lemma BeginKeepsRows(s: System, call: CallId, batch: BatchId, job: JobId, claim: Claim, order: seq<UploadId>)
    ensures SameRows(s, BeginClose(s, call, batch, job, claim, order).0)
  {
  }

  lemma LockKeepsRows(s: System, call: CallId)
    ensures SameRows(s, TryLock(s, call).0)
  {
    EndKeepsRows(s);
    hide EndCall;
  }

  lemma ReadKeepsRows(s: System, call: CallId)
    ensures SameRows(s, ReadUpload(s, call).0)
  {
    EndKeepsRows(s);
    CallsKeepRows(s);
    hide EndCall, SameRows;
  }

  /** Locks, calls and batches are not rows of uploads or proofs. */
  lemma CallsKeepRows(s: System)
    ensures SameRows(s, s)
    ensures forall locks, calls {:trigger s.(locks := locks, calls := calls)} :: SameRows(s, s.(locks := locks, calls := calls))
    ensures forall calls {:trigger s.(calls := calls)} :: SameRows(s, s.(calls := calls))
    ensures forall batches {:trigger s.(batches := batches)} :: SameRows(s, s.(batches := batches))
  {
  }

  lemma FinishKeepsRows(s: System, call: CallId)
    ensures SameRows(s, FinishClose(s, call).0)
  {
    EndKeepsRows(s);
    hide EndCall, UploadsOf;
  }

  lemma CloseBatchKeepsRows(s: System, batch: BatchId)
    ensures SameRows(s, CloseBatch(s, batch).0)
  {
    CallsKeepRows(s);
    hide JobsOf, SameRows;
  }

  lemma EndKeepsRows(s: System)
    ensures forall call :: SameRows(s, EndCall(s, call))
  {
  }

  /** A step stores proofs only by committing evidence, and then each proof is what the evidence has for its role. */
  lemma ProofsComeFromCommits(s: System, e: Event, p: (UploadId, Role))
    requires Invariant(s) && Admissible(s, e) && p in Step(s, e).proofs
    ensures
      || (p in s.proofs && s.proofs[p] == Step(s, e).proofs[p])
      || (e.Commits? && Perform(s, e).1 == Done && e.call in s.calls && s.calls[e.call].Retaining? && s.calls[e.call].id == p.0 &&
          p.1 in e.evidence && Step(s, e).proofs[p] == Proof(s.calls[e.call].version, e.evidence[p.1]))
  {
    hide Invariant, EndCall, UploadsOf, JobsOf;
    if e.Commits? {
      CommitRetentionKeeps(s, e.call, e.evidence);
      if Perform(s, e).1 == Done {
        CommitRetentionSplits(s, e.call, e.evidence);
        hide CommitRetention;
        assert HoldsEvidence(Step(s, e).proofs, s.calls[e.call].id, s.calls[e.call].version, e.evidence);
        assert p.0 != s.calls[e.call].id ==> p !in ProofsFor(s.calls[e.call].id, s.calls[e.call].version, e.evidence);
      } else {
        CommitRetentionRefuses(s, e.call, e.evidence);
        EndKeepsRows(s);
        hide CommitRetention;
      }
    } else if e.Registers? || e.Binds? {
      EndKeepsRows(s);
      hide CommitRetention, HoldsEvidence;
    } else {
      UploadsStay(s, e);
      hide Step;
    }
  }

  /** Whatever happens before and after, a stored proof is what one commit had for that role and upload. */
  lemma {:induction false} ProofHasACommit(branches: set<nat>, maximumUploads: nat, trace: seq<Event>, u: UploadId, role: Role)
    requires IsRun(branches, maximumUploads, trace) && (u, role) in After(branches, maximumUploads, trace).proofs
    ensures var proof := After(branches, maximumUploads, trace).proofs[(u, role)];
            exists k, version, evidence :: 0 <= k < |trace| && CommitsAt(branches, maximumUploads, trace, k, u, version, evidence) &&
              role in evidence && proof == Proof(version, evidence[role])
    decreases |trace|
  {
    hide Invariant, Step, Admissible, CommitsAt;
    var start := Initial(branches, maximumUploads);
    if trace != [] {
      var earlier, e := trace[..|trace| - 1], trace[|trace| - 1];
      var s := Run(start, earlier);
      InitiallySound(branches, maximumUploads);
      RunKeeps(start, earlier);
      ProofsComeFromCommits(s, e, (u, role));
      if (u, role) in s.proofs && s.proofs[(u, role)] == Run(start, trace).proofs[(u, role)] {
        ProofHasACommit(branches, maximumUploads, earlier, u, role);
        var k, version, evidence :| 0 <= k < |earlier| && CommitsAt(branches, maximumUploads, earlier, k, u, version, evidence) &&
          role in evidence && s.proofs[(u, role)] == Proof(version, evidence[role]);
        CommitStays(branches, maximumUploads, trace, k, u, version, evidence);
      } else {
        CommitIsHere(branches, maximumUploads, trace, u, s.calls[e.call].version, e.evidence);
      }
    }
  }

  lemma CommitStays(branches: set<nat>, maximumUploads: nat, trace: seq<Event>, k: nat, u: UploadId, version: string, evidence: map<Role, string>)
    requires k < |trace| - 1 && CommitsAt(branches, maximumUploads, trace[..|trace| - 1], k, u, version, evidence)
    ensures CommitsAt(branches, maximumUploads, trace, k, u, version, evidence)
  {
    assert trace[..|trace| - 1][..k] == trace[..k];
  }

  lemma CommitIsHere(branches: set<nat>, maximumUploads: nat, trace: seq<Event>, u: UploadId, version: string, evidence: map<Role, string>)
    requires trace != []
    requires var s, e := After(branches, maximumUploads, trace[..|trace| - 1]), trace[|trace| - 1];
             && e.Commits? && e.evidence == evidence && Perform(s, e).1 == Done
             && e.call in s.calls && s.calls[e.call].Retaining? && s.calls[e.call].id == u && s.calls[e.call].version == version
    ensures CommitsAt(branches, maximumUploads, trace, |trace| - 1, u, version, evidence)
  {
    hide Perform, After;
  }

  /** Object storage's placeholders never become the version of an upload. */
  ghost predicate HasRealVersions(s: System) {
    forall u :: u in s.uploads && s.uploads[u].version.Some? ==> s.uploads[u].version != Some("") && s.uploads[u].version != Some("null")
  }

  lemma RegistrationBindsNothing(s: System, batch: BatchId, job: JobId, name: string, identity: Identity, id: UploadId)
    requires HasRealVersions(s)
    ensures HasRealVersions(RegisterLog(s, batch, job, name, identity, id).0)
  {
    hide UploadsOf;
  }

  lemma BindingIsReal(s: System, call: CallId, version: string)
    requires HasRealVersions(s)
    ensures HasRealVersions(BindVersion(s, call, version).0)
  {
    EndKeepsRows(s);
    hide EndCall;
  }

  lemma CommitBindsNothing(s: System, call: CallId, evidence: map<Role, string>)
    requires HasRealVersions(s)
    ensures HasRealVersions(CommitRetention(s, call, evidence).0)
  {
    if CommitRetention(s, call, evidence).1 != Done {
      CommitRetentionRefuses(s, call, evidence);
    } else {
      CommitRetentionSplits(s, call, evidence);
    }
    EndKeepsRows(s);
    hide CommitRetention, EndCall, ProofsFor;
  }

  lemma StepBindsReal(s: System, e: Event)
    requires HasRealVersions(s)
    ensures HasRealVersions(Step(s, e))
  {
    hide InsertBatch, CreateJob, RegisterLog, BeginClose, TryLock, ReadUpload, BindVersion, CommitRetention, FinishClose, CloseBatch, EndCall;
    match e
    case Registers(batch, job, name, identity, newId) => RegistrationBindsNothing(s, batch, job, name, identity, newId);
    case Binds(call, version) => BindingIsReal(s, call, version);
    case Commits(call, evidence) => CommitBindsNothing(s, call, evidence);
    case _ => UploadsStay(s, e);
  }

  /** Every bound version is a version of the object, in every run. */
  lemma {:induction false} BoundVersionsAreReal(branches: set<nat>, maximumUploads: nat, trace: seq<Event>)
    ensures HasRealVersions(After(branches, maximumUploads, trace))
    decreases |trace|
  {
    hide Step, HasRealVersions;
    if trace == [] {
      NothingIsBound(branches, maximumUploads);
    } else {
      BoundVersionsAreReal(branches, maximumUploads, trace[..|trace| - 1]);
      StepBindsReal(After(branches, maximumUploads, trace[..|trace| - 1]), trace[|trace| - 1]);
    }
  }

  lemma NothingIsBound(branches: set<nat>, maximumUploads: nat)
    ensures HasRealVersions(Initial(branches, maximumUploads))
  {
  }

  // ---- Idempotent creation ---------------------------------------------------------------

  function ResponseAt(branches: set<nat>, maximumUploads: nat, trace: seq<Event>, i: nat): Response
    requires i < |trace|
  {
    Perform(After(branches, maximumUploads, trace[..i]), trace[i]).1
  }

  /** The two steps of creating a batch under a key: looking the key up, and inserting unless it is taken. */
  predicate AsksForBatch(e: Event, owner: Principal, key: string, fingerprint: string) {
    || e == LooksUpBatch(owner, key, fingerprint)
    || (e.InsertsBatch? && e.owner == owner && e.key == Some(key) && e.fingerprint == fingerprint)
  }

  lemma BatchIsGranted(s: System, e: Event, owner: Principal, key: string, fingerprint: string)
    requires Invariant(s) && AsksForBatch(e, owner, key, fingerprint) && Perform(s, e).1.Row?
    ensures var (t, r) := Perform(s, e);
            r.id in t.batches && t.batches[r.id].owner == owner && t.batches[r.id].key == Some(key) &&
            t.batches[r.id].fingerprint == fingerprint
  {
    hide ClosedBatchesAreComplete, ClosedJobsAreComplete, RetainedIsProved, NamesAgree, JobKeysAgree, UploadsAreBounded, CallsAreSound;
  }

  lemma BatchIsFound(s: System, e: Event, owner: Principal, key: string, fingerprint: string, id: BatchId)
    requires Invariant(s) && AsksForBatch(e, owner, key, fingerprint)
    requires id in s.batches && s.batches[id].owner == owner && s.batches[id].key == Some(key)
    ensures Perform(s, e).1 ==
              if e.InsertsBatch? && e.branch !in s.branches then Refused(404)
              else if s.batches[id].fingerprint == fingerprint then Row(id) else Refused(409)
  {
    hide ClosedBatchesAreComplete, ClosedJobsAreComplete, RetainedIsProved, NamesAgree, JobKeysAgree, UploadsAreBounded, CallsAreSound;
  }

  /** The step at i leads to a state from which the state before step j progresses. */
  lemma StepThenLater(branches: set<nat>, maximumUploads: nat, trace: seq<Event>, i: nat, j: nat)
    requires IsRun(branches, maximumUploads, trace) && i < j < |trace|
    ensures var s := After(branches, maximumUploads, trace[..i]);
            && Invariant(s) && Admissible(s, trace[i])
            && Progresses(Step(s, trace[i]), After(branches, maximumUploads, trace[..j]))
            && Invariant(After(branches, maximumUploads, trace[..j]))
  {
    hide Invariant, Progresses, Step, Admissible;
    var start := Initial(branches, maximumUploads);
    InitiallySound(branches, maximumUploads);
    SuffixKeeps(start, trace, j);
    var earlier := trace[..j];
    SuffixKeeps(start, earlier, i + 1);
    assert earlier[..i + 1] == trace[..i + 1];
    assert trace[..i + 1][..i] == trace[..i] && trace[..i + 1][i] == trace[i];
    SuffixKeeps(start, trace[..i + 1], i);
    assert Run(start, trace[..i + 1]) == Step(Run(start, trace[..i]), trace[i]);
    assert IsTrace(start, trace[..i + 1]);
    assert Admissible(Run(start, trace[..i]), trace[i]);
  }

  /**
   Once a key created a batch, every later request with the key, from whichever
   concurrent call, returns that batch or a conflict.
   */
  lemma KeyedBatchIsUnique(branches: set<nat>, maximumUploads: nat, trace: seq<Event>, i: nat, j: nat,
                           owner: Principal, key: string, fingerprint: string, other: string)
    requires IsRun(branches, maximumUploads, trace) && i < j < |trace|
    requires AsksForBatch(trace[i], owner, key, fingerprint) && AsksForBatch(trace[j], owner, key, other)
    requires ResponseAt(branches, maximumUploads, trace, i).Row?
    ensures ResponseAt(branches, maximumUploads, trace, j) ==
              if trace[j].InsertsBatch? && trace[j].branch !in branches then Refused(404)
              else if other == fingerprint then ResponseAt(branches, maximumUploads, trace, i) else Refused(409)
  {
    StepThenLater(branches, maximumUploads, trace, i, j);
    hide Invariant, IsTrace, Perform, AsksForBatch;
    var s, t := After(branches, maximumUploads, trace[..i]), After(branches, maximumUploads, trace[..j]);
    BatchIsGranted(s, trace[i], owner, key, fingerprint);
    var id := ResponseAt(branches, maximumUploads, trace, i).id;
    assert id in t.batches && BatchProgresses(Step(s, trace[i]).batches[id], t.batches[id]);
    BatchIsFound(t, trace[j], owner, key, other, id);
    BranchesStay(branches, maximumUploads, trace, j);
  }

  lemma BranchesStay(branches: set<nat>, maximumUploads: nat, trace: seq<Event>, j: nat)
    requires IsRun(branches, maximumUploads, trace) && j <= |trace|
    ensures After(branches, maximumUploads, trace[..j]).branches == branches
  {
    hide Run, IsTrace, Invariant;
    InitiallySound(branches, maximumUploads);
    SuffixKeeps(Initial(branches, maximumUploads), trace, j);
    RunKeeps(Initial(branches, maximumUploads), trace[..j]);
  }

  predicate AsksForJob(e: Event, batch: BatchId, owner: Principal, key: string, fingerprint: string) {
    e.CreatesJob? && e.batch == batch && e.owner == owner && e.key == Some(key) && e.fingerprint == fingerprint
  }

  lemma JobIsGranted(s: System, e: Event, batch: BatchId, owner: Principal, key: string, fingerprint: string)
    requires Invariant(s) && AsksForJob(e, batch, owner, key, fingerprint) && Perform(s, e).1.Row?
    ensures var (t, r) := Perform(s, e);
            && r.id in t.jobs && t.jobs[r.id].key == Some(key) && JobKey(t.jobs[r.id]) == (batch, owner, key)
            && t.jobs[r.id].fingerprint == fingerprint && batch in t.batches
  {
    hide ClosedBatchesAreComplete, ClosedJobsAreComplete, RetainedIsProved, NamesAgree, BatchKeysAgree, UploadsAreBounded, CallsAreSound;
  }

  lemma JobIsFound(s: System, e: Event, batch: BatchId, owner: Principal, key: string, fingerprint: string, id: JobId)
    requires Invariant(s) && AsksForJob(e, batch, owner, key, fingerprint) && batch in s.batches
    requires id in s.jobs && s.jobs[id].key == Some(key) && JobKey(s.jobs[id]) == (batch, owner, key)
    ensures Perform(s, e).1 == if s.jobs[id].fingerprint == fingerprint then Row(id) else Refused(409)
  {
    hide ClosedBatchesAreComplete, ClosedJobsAreComplete, RetainedIsProved, NamesAgree, BatchKeysAgree, UploadsAreBounded, CallsAreSound;
  }

  /** The same for jobs, even after their batch has closed. */
  lemma KeyedJobIsUnique(branches: set<nat>, maximumUploads: nat, trace: seq<Event>, i: nat, j: nat,
                         batch: BatchId, owner: Principal, key: string, fingerprint: string, other: string)
    requires IsRun(branches, maximumUploads, trace) && i < j < |trace|
    requires AsksForJob(trace[i], batch, owner, key, fingerprint) && AsksForJob(trace[j], batch, owner, key, other)
    requires ResponseAt(branches, maximumUploads, trace, i).Row?
    ensures ResponseAt(branches, maximumUploads, trace, j) ==
              if other == fingerprint then ResponseAt(branches, maximumUploads, trace, i) else Refused(409)
  {
    StepThenLater(branches, maximumUploads, trace, i, j);
    hide Invariant, IsTrace, Run, Perform, AsksForJob;
    var s, t := After(branches, maximumUploads, trace[..i]), After(branches, maximumUploads, trace[..j]);
    JobIsGranted(s, trace[i], batch, owner, key, fingerprint);
    var id := ResponseAt(branches, maximumUploads, trace, i).id;
    assert id in t.jobs && JobProgresses(Step(s, trace[i]).jobs[id], t.jobs[id]);
    JobIsFound(t, trace[j], batch, owner, key, other, id);
  }

  // ---- Registration ------------------------------------------------------------------------

  predicate AsksForLog(e: Event, job: JobId, name: string, identity: Identity) {
    e.Registers? && e.job == job && e.name == name && e.identity == identity
  }

  /** A registration hands out a row of that job, name and identity whose version is unbound. */
  lemma RegisteredIsUnbound(s: System, e: Event, job: JobId, name: string, identity: Identity)
    requires Invariant(s) && AsksForLog(e, job, name, identity) && Perform(s, e).1.Row?
    ensures var (t, r) := Perform(s, e);
            r.id in t.uploads && t.uploads[r.id] == Upload(job, name, identity, None, false) &&
            (r.id in s.uploads ==> s.uploads[r.id] == t.uploads[r.id])
  {
    hide ClosedBatchesAreComplete, BatchKeysAgree, JobKeysAgree, UploadsAreBounded, CallsAreSound, HasAllProofs;
  }

  /** From the claim on, a registration creates nothing, and it hands out nothing of a closed job. */
  lemma ClaimStopsRegistration(s: System, e: Event, job: JobId, name: string, identity: Identity)
    requires Invariant(s) && AsksForLog(e, job, name, identity) && job in s.jobs && s.jobs[job].claim.Some?
    ensures Perform(s, e).0 == s && (s.jobs[job].closed ==> Perform(s, e).1.Refused?)
  {
    hide Invariant;
  }

  /** A registered log is handed out again until its version is bound, and to no other identity. */
  lemma LogIsFound(s: System, e: Event, job: JobId, name: string, identity: Identity, id: UploadId)
    requires Invariant(s) && AsksForLog(e, job, name, identity)
    requires id in s.uploads && s.uploads[id].job == job && s.uploads[id].name == name
    ensures Perform(s, e).1 ==
              if !HasJob(s, e.batch, job) then Refused(404)
              else if s.uploads[id].identity != identity then Refused(409)
              else if s.uploads[id].version.Some? then Refused(400)
              else Row(id)
  {
    hide ClosedBatchesAreComplete, BatchKeysAgree, JobKeysAgree, UploadsAreBounded, CallsAreSound, HasAllProofs, UploadsOf;
  }

  /** One name of a job is one upload with one identity, whoever registers it again and whenever. */
  lemma NameIsOneUpload(branches: set<nat>, maximumUploads: nat, trace: seq<Event>, i: nat, j: nat,
                        job: JobId, name: string, identity: Identity, other: Identity)
    requires IsRun(branches, maximumUploads, trace) && i < j < |trace|
    requires AsksForLog(trace[i], job, name, identity) && AsksForLog(trace[j], job, name, other)
    requires ResponseAt(branches, maximumUploads, trace, i).Row?
    ensures var t, first := After(branches, maximumUploads, trace[..j]), ResponseAt(branches, maximumUploads, trace, i);
            && first.id in t.uploads
            && ResponseAt(branches, maximumUploads, trace, j) ==
                 if !HasJob(t, trace[j].batch, job) then Refused(404)
                 else if other != identity then Refused(409)
                 else if t.uploads[first.id].version.Some? then Refused(400)
                 else first
  {
    StepThenLater(branches, maximumUploads, trace, i, j);
    hide Invariant, IsTrace, Run, Perform, AsksForLog;
    var s, t := After(branches, maximumUploads, trace[..i]), After(branches, maximumUploads, trace[..j]);
    RegisteredIsUnbound(s, trace[i], job, name, identity);
    var id := ResponseAt(branches, maximumUploads, trace, i).id;
    assert id in t.uploads && UploadProgresses(Step(s, trace[i]).uploads[id], t.uploads[id]);
    LogIsFound(t, trace[j], job, name, other, id);
  }

  // ---- When requests succeed ------------------------------------------------------------------

  /** A new name is granted exactly to an unclaimed job that has room for it, under a fresh id. */
  lemma NewLogIsGranted(s: System, batch: BatchId, job: JobId, name: string, identity: Identity, id: UploadId)
    requires Invariant(s) && forall u :: u in s.uploads && s.uploads[u].job == job ==> s.uploads[u].name != name
    ensures var (t, r) := RegisterLog(s, batch, job, name, identity, id);
            && (r == Row(id) <==>
                  && batch in s.batches && job in s.jobs && s.jobs[job].batch == batch && s.jobs[job].claim.None?
                  && |set u | u in s.uploads && s.uploads[u].job == job| < s.maximumUploads && id !in s.uploads)
            && (r == Row(id) ==> t.uploads == s.uploads[id := Upload(job, name, identity, None, false)])
            && (r != Row(id) ==> t == s && r.Refused?)
            && (r == Refused(404) <==> !(batch in s.batches && job in s.jobs && s.jobs[job].batch == batch))
  {
    hide ClosedBatchesAreComplete, ClosedJobsAreComplete, RetainedIsProved, BatchKeysAgree, JobKeysAgree, UploadsAreBounded, CallsAreSound;
    assert (set u | u in s.uploads && s.uploads[u].job == job) == UploadsOf(s, job);
    UnusedNameIsFree(s, job, name);
  }

  lemma UnusedNameIsFree(s: System, job: JobId, name: string)
    requires NamesAgree(s.uploads, s.names) && forall u :: u in s.uploads && s.uploads[u].job == job ==> s.uploads[u].name != name
    ensures (job, name) !in s.names
  {
  }

  /** A batch closes exactly when all its jobs are closed. */
  lemma BatchClosesExactly(s: System, batch: BatchId)
    requires Invariant(s)
    ensures var (t, r) := CloseBatch(s, batch);
            && (r == Done <==> batch in s.batches && forall j :: j in s.jobs && s.jobs[j].batch == batch ==> s.jobs[j].closed)
            && (r == Done ==> t.batches == s.batches[batch := s.batches[batch].(closed := true)])
            && (r == Refused(404) <==> batch !in s.batches) && (r != Done ==> t == s && r.Refused?)
  {
    hide ClosedJobsAreComplete, RetainedIsProved, NamesAgree, BatchKeysAgree, JobKeysAgree, UploadsAreBounded, CallsAreSound;
    var (t, r) := CloseBatch(s, batch);
    if batch in s.batches && s.batches[batch].closed {
      assert s.batches[batch := s.batches[batch].(closed := true)] == s.batches;
    }
    forall j | j in s.jobs && s.jobs[j].batch == batch ensures j in JobsOf(s, batch) {
    }
  }

  /** A batch without a key, or with one its owner has not used, is created exactly on a known branch under a fresh id. */
  lemma NewBatchIsGranted(s: System, owner: Principal, branch: nat, key: Option<string>, fingerprint: string, id: BatchId)
    requires Invariant(s)
    requires key.Some? ==> forall b :: b in s.batches && s.batches[b].owner == owner ==> s.batches[b].key != key
    ensures var (t, r) := InsertBatch(s, owner, branch, key, fingerprint, id);
            && (r == Row(id) <==> branch in s.branches && id !in s.batches)
            && (r == Row(id) ==> t.batches == s.batches[id := Batch(owner, branch, key, fingerprint, false)])
            && (r != Row(id) ==> t == s && r.Refused?) && (r == Refused(404) <==> branch !in s.branches)
  {
    hide ClosedBatchesAreComplete, ClosedJobsAreComplete, RetainedIsProved, NamesAgree, JobKeysAgree, UploadsAreBounded, CallsAreSound;
    assert key.Some? ==> (owner, key.value) !in s.batchKeys;
  }

  /** A job without a key, or with one not used in the batch, is created exactly in an open batch under a fresh id. */
  lemma NewJobIsGranted(s: System, batch: BatchId, owner: Principal, name: string, key: Option<string>, fingerprint: string, id: JobId)
    requires Invariant(s)
    requires key.Some? ==> forall j :: j in s.jobs && s.jobs[j].batch == batch && s.jobs[j].owner == owner ==> s.jobs[j].key != key
    ensures var (t, r) := CreateJob(s, batch, owner, name, key, fingerprint, id);
            && (r == Row(id) <==> batch in s.batches && !s.batches[batch].closed && id !in s.jobs)
            && (r == Row(id) ==> t.jobs == s.jobs[id := Job(batch, owner, name, key, fingerprint, None, false)])
            && (r != Row(id) ==> t == s && r.Refused?) && (r == Refused(404) <==> batch !in s.batches)
  {
    hide ClosedBatchesAreComplete, ClosedJobsAreComplete, RetainedIsProved, NamesAgree, BatchKeysAgree, UploadsAreBounded, CallsAreSound;
    assert key.Some? ==> (batch, owner, key.value) !in s.jobKeys;
  }

  /** A close begins exactly with a consistent claim that agrees with the one the job has, if any. */
  lemma CloseBeginsExactly(s: System, call: CallId, batch: BatchId, job: JobId, claim: Claim, order: seq<UploadId>)
    requires Invariant(s) && call !in s.calls
    ensures var (t, r) := BeginClose(s, call, batch, job, claim, order);
            && (r == Done <==>
                  && !(claim.succeeded && claim.error.Some?) && job in s.jobs && s.jobs[job].batch == batch
                  && (s.jobs[job].claim.Some? ==> s.jobs[job].claim == Some(claim)))
            && (r != Done ==> t == s && r.Refused?)
            && (r == Refused(409) ==> job in s.jobs && s.jobs[job].claim.Some? && s.jobs[job].claim != Some(claim))
  {
    hide ClosedJobsAreComplete, RetainedIsProved, NamesAgree, BatchKeysAgree, JobKeysAgree, UploadsAreBounded, CallsAreSound;
  }
}
