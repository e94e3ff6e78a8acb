# Verified model of the robotics runtime

This project models, in Dafny, the parts of the repository whose correctness
depends on more than one function: a prover for schema compatibility, the owner
of runs in the host, the custody protocol of the test API, bounds on statistics
of histograms, JSON merge patches, and the readers and cross-document checks of
recordings, qualifications and archives. `dafny verify dfyconfig.toml` checks it.

## Components

- **Schema compatibility** (`SchemaModel`, `SchemaCompare`, `SchemaExpansion`,
  `SchemaMeaning`). JSON Schema Draft 2020-12 nodes have a meaning in which every
  applicator is spelled out, the annotations that `unevaluatedProperties` and
  `unevaluatedItems` read included; other assertions and regular expressions are
  uninterpreted. The class `Expansion` fills its table by a depth-first traversal.
  The main results: an accepted change is a relaxation, expansion preserves
  meaning, and both together for whole registries.
- **Run lifecycle** (`RunModel`, `RunProtocol`, `RunHistory`, `RunHooks`,
  `RunResources`, `RunOwner`). The code between two awaits is one step; settlements,
  deadlines, cancellations, retries, disposal by the enclosing host, logging and
  verification are events in any order.
  A run's histories (producers started, cleanups called, reports, releases) are
  part of its state, so statements about whole runs are statements about them.
- **Custody** (`Custody`, `CustodyDomain`). Transactions are atomic steps over
  tables with their unique indexes; close calls with their session locks are rows of
  a table too, so that any number of calls interleave and crash anywhere. The class
  `Domain` updates the tables in place and strings the transactions of one call
  together.
- **Histograms** (`Histogram`). Bounds are reals with both infinities; an event set
  fits a histogram when it has its bucket counts, count, sum and extrema.
- **Merge patches** (`Json`, `MergePatch`). Trees keep Python's number types and the
  two zeros apart.
- **Recordings** (`McapCrc`, `Recording`). A seekable stream that may deliver less
  than asked for, CRC-32 on a shift register (section 8 of RFC 1952), the fold over
  records, summaries and dataset totals.
- **Documents** (`Canonical`, `Transport`, `Archive`). The check before canonical
  encoding against the loader's, diagnostic paths, the verdict of a transport
  qualification, and the pairing and comparison of archived results.

## Results about the code

- A patch does not carry the sign of a zero: `SignOfZeroIsNotPatched` gives the
  documents and `ReproducesIdentically` the exact condition.
- The checksum locator accepts a file too short for both magics without looking at
  it: `ShortFilesAreWalkedUntiled` shows it for every such file, and
  `AcceptedExactlyWhenTiled` states the exact condition for a tiling. The reader
  that follows it in the repository is not part of this model.

## Model

| member | source | states |
|---|---|---|
| SchemaCompare.AcceptedChangeIsRelaxation | scripts/schema_compatibility/structure.py:166-247 | If the comparison accepts a change in any context, every instance valid under the old node is valid under the new one, for every meaning of the literal keywords and of regular expressions. |
| SchemaCompare.AcceptedExactly | scripts/schema_compatibility/structure.py:166-247 | The comparison accepts additions and nothing else: keyword by keyword, wider enums of input documents, optional members of closed objects, and additions below keywords that relax with their subschemas. |
| SchemaCompare.EnumsGrowOnlyInInputDocuments | scripts/schema_compatibility/structure.py:192-205 | Outside input documents every changed enum is refused. |
| SchemaCompare.EnumChangeAcceptedExactly | scripts/schema_compatibility/structure.py:192-194 | With the rest unchanged, an enum of an input document may take in any values and lose none. |
| SchemaCompare.OtherChangesAreRefused | scripts/schema_compatibility/structure.py:180-205 | A keyword that comes or goes, a removed property and any other changed assertion are refused in every context. |
| SchemaCompare.DisjointExactly | scripts/schema_compatibility/structure.py:208-233 | Two branches count as disjoint exactly when one required member has a string constant of its own in every branch. |
| SchemaCompare.KeywordRelaxes | scripts/schema_compatibility/structure.py:185-205 | The same keyword by keyword: an accepted keyword that held beside its old neighbours holds beside its new ones. |
| SchemaCompare.EnumRelaxes | scripts/schema_compatibility/structure.py:192-194 | An accepted enum change keeps every old value, so every old instance stays valid. |
| SchemaCompare.PropertiesRelax | scripts/schema_compatibility/structure.py:236-247 | Members may relax and new optional names may join an object closed to them: no old instance is lost. |
| SchemaCompare.AddedMemberIsAbsent | scripts/schema_compatibility/structure.py:239-245 | A name that was added cannot occur in an instance of the object that was closed to it, which is why its subschema is free. |
| SchemaCompare.BranchesRelax | scripts/schema_compatibility/structure.py:185-205 | allOf, anyOf and, only for mutually exclusive new branches, oneOf stay satisfied when their branches relax one by one. |
| SchemaCompare.DisjointBranchesExclude | scripts/schema_compatibility/structure.py:222-233 | A required property with a distinct string constant in each branch keeps any two branches from accepting one instance. |
| SchemaCompare.DiscriminatorFixesMember | scripts/schema_compatibility/structure.py:208-219 | An accepting branch fixes its discriminating member to the branch's constant. |
| SchemaCompare.OptionalMemberIsAccepted | scripts/schema_compatibility/structure.py:236-247 | The other direction for the allowed extension: a new optional member of a closed object is accepted. |
| SchemaCompare.OpenObjectsMayNotGrow | scripts/schema_compatibility/structure.py:239-245 | The same extension of an open object is refused, and an old instance shows that accepting it would be wrong. |
| SchemaCompare.OverlappingBranchesMayNotRelax | scripts/schema_compatibility/structure.py:190-191 | Relaxing one branch of a oneOf without discriminator is refused, and an old instance shows that accepting it would be wrong. |
| SchemaCompare.AcceptedChangesCompose | scripts/schema_compatibility/structure.py:166-247 | Acceptance is transitive: comparing each release with the one before also compares it with the first. |
| SchemaExpansion.Expansion.constructor | scripts/schema_compatibility/structure.py:110-114 | A new expansion of a registry whose references resolve starts with an empty, valid table. |
| SchemaExpansion.Expansion.ExpandAll | scripts/schema_compatibility/structure.py:115-122 | Terminates; success fills the table for every schema object and means that no keyword is unsupported; a cycle-or-depth refusal exhibits a walk that repeats an object or has 129 objects. |
| SchemaExpansion.Expansion.Visit | scripts/schema_compatibility/structure.py:124-135 | Visiting returns the table's expansion and never changes an entry that is there; a refusal exhibits a bad walk. |
| SchemaExpansion.Expansion.VisitValue | scripts/schema_compatibility/structure.py:124-130 | The same for lists and mappings of subschemas; literal values are returned as they are. |
| SchemaExpansion.Expansion.Expand | scripts/schema_compatibility/structure.py:137-147 | The expansion of one object is its keywords, metadata and addressing dropped, with expanded subschemas beside its expanded reference; a bare reference is its target. |
| SchemaExpansion.ExpandRegistry | scripts/schema_compatibility/structure.py:110-122 | The whole expansion: unresolved references are reported first and exactly then; success yields a complete table ordered by dependency. |
| SchemaMeaning.ExpansionPreservesMeaning | scripts/schema_compatibility/structure.py:124-147 | Each expanded node accepts exactly the instances, and marks the same children, as the authored object with all its keywords, metadata and addressing included, and with what its reference string looks up to. |
| SchemaMeaning.ExpansionGivesMeaning | scripts/schema_compatibility/structure.py:110-150 | Every expanded registry has a meaning, so the preservation theorem is not vacuous. |
| SchemaMeaning.SilentKeywordSaysNothing | scripts/schema_compatibility/structure.py:23-24 | Metadata and addressing assert nothing and mark nothing, which is why they may be dropped. |
| SchemaMeaning.ExpansionIgnoresMetadata | scripts/schema_compatibility/structure.py:137-147 | Registries that differ only in metadata and addressing have the same expansions, so such a change is none; an expansion is unique. |
| SchemaMeaning.BareReferenceExpandsToTarget | scripts/schema_compatibility/structure.py:143-147 | An object that is only a reference expands to what its target expands to, so inlining it is no change. |
| SchemaMeaning.ExpandedRegistryIsAcyclic | scripts/schema_compatibility/structure.py:131-135 | If expansion succeeds, no walk through subschemas and references visits an object twice. |
| SchemaMeaning.AcceptedReleaseIsRelaxation | scripts/schema_compatibility/structure.py:110-205 | End to end: if the expansions of an old and a new root compare, whatever the old registry accepts there as authored, the new one accepts as authored. |
| MergePatch.ApplyPatch | packages/contracts/src/robotics_runtime_contracts/_merge_patch.py:24-36 | The member-by-member loop computes MergePatch of RFC 7396, section 2. |
| MergePatch.CreatePatch | packages/contracts/src/robotics_runtime_contracts/_merge_patch.py:39-54 | The loop computes the specified difference of two objects. |
| MergePatch.DifferenceReaches | packages/contracts/src/robotics_runtime_contracts/_merge_patch.py:24-54 | Round trip: applying the created patch to the source gives a document equal to the target whenever the target is representable. |
| MergePatch.OnlyRepresentableIsReachable | packages/contracts/src/robotics_runtime_contracts/_merge_patch.py:24-54 | No patch of any shape reaches a target that is not representable. |
| MergePatch.DifferenceIsBest | packages/contracts/src/robotics_runtime_contracts/_merge_patch.py:24-54 | The created patch reproduces the target exactly when any patch could, and exactly when no new null member is needed. |
| MergePatch.ReproducesIdentically | packages/contracts/src/robotics_runtime_contracts/_merge_patch.py:8-54 | The exact condition for reproducing the target itself rather than an equal document. |
| MergePatch.SignOfZeroIsNotPatched | packages/contracts/src/robotics_runtime_contracts/_merge_patch.py:8-21 | A concrete pair of documents that differ in the sign of a zero: the patch is empty. |
| MergePatch.PatchIsIdempotent | packages/contracts/src/robotics_runtime_contracts/_merge_patch.py:24-36 | Applying a patch twice is applying it once. |
| MergePatch.PatchSetsValue | packages/contracts/src/robotics_runtime_contracts/_merge_patch.py:24-36 | What a patch has at any path, null and objects apart, the result has there, whatever the target was. |
| MergePatch.PatchRemovesMember | packages/contracts/src/robotics_runtime_contracts/_merge_patch.py:30-33 | A null at any path of a patch removes what is there. |
| MergePatch.PatchLeavesValue | packages/contracts/src/robotics_runtime_contracts/_merge_patch.py:24-36 | A value at a path that the patch neither reaches nor replaces stays. |
| MergePatch.DifferenceIsLeast | packages/contracts/src/robotics_runtime_contracts/_merge_patch.py:39-54 | Every patch that reaches the target names at least the members that the created one names, and no change is the empty patch. |
| DocumentOps.SemanticDiff | packages/contracts/src/robotics_runtime_contracts/document_ops.py:115-129 | On finite documents it succeeds if and only if some patch turns source into target, and then returns one; the unrepresentable refusal is complete. |
| DocumentOps.ResolveMergePatches | packages/contracts/src/robotics_runtime_contracts/document_ops.py:90-112 | The overlay loop computes the stacked patches; each refusal occurs exactly when its condition holds, in the order of the code, and an accepted document keeps the base's schema version. |
| DocumentOps.LastOverlayDecides | packages/contracts/src/robotics_runtime_contracts/document_ops.py:99-104 | Overlays that do not name a member leave it as the overlays before made it. |
| DocumentOps.LastValueWins | packages/contracts/src/robotics_runtime_contracts/document_ops.py:99-104 | At any depth: a value, null and objects apart, of the last overlay that touches its path is the value of the result there. |
| DocumentOps.UntouchedValueStays | packages/contracts/src/robotics_runtime_contracts/document_ops.py:99-104 | At any depth: a value of the base that no overlay touches is in the result. |
| DocumentOps.LastNullRemoves | packages/contracts/src/robotics_runtime_contracts/document_ops.py:99-104 | A member that the last overlay naming it sets to null is absent. |
| DocumentOps.StacksCompose | packages/contracts/src/robotics_runtime_contracts/document_ops.py:99-104 | No overlay leaves the base, one overlay is one patch, and stacks compose. |
| DocumentOps.LastOverlayIsAbsorbed | packages/contracts/src/robotics_runtime_contracts/document_ops.py:99-104 | Laying the last overlay on again changes nothing. |
| Json.JsonEqualTransitive | packages/contracts/src/robotics_runtime_contracts/_merge_patch.py:8-21 | The equality used by the patch functions is transitive. |
| Json.JsonEqualSymmetric | packages/contracts/src/robotics_runtime_contracts/_merge_patch.py:8-21 | The equality used by the patch functions is symmetric. |
| Json.JsonEqualReflexive | packages/contracts/src/robotics_runtime_contracts/_merge_patch.py:8-21 | The equality used by the patch functions is reflexive on trees without NaN and infinities. |
| Json.JsonEqualExactly | packages/contracts/src/robotics_runtime_contracts/_merge_patch.py:8-21 | Finite documents are equal exactly when they are the same document apart from the sign of zeros. |
| Estimates.CompareIsExact | packages/harness/src/robotics_acceptance_harness/_histogram_estimates.py:35-54 | For all five operators, infinite ends and exclusive lower ends: passed iff every finite value of the interval satisfies the operator, failed iff none does, skipped iff both kinds exist. |
| Estimates.FiniteMembers | packages/harness/src/robotics_acceptance_harness/_histogram_estimates.py:27-33 | A consistent estimate has a finite value unless it is a single infinite point. |
| Histograms.BucketEstimate | packages/harness/src/robotics_acceptance_harness/_histogram_estimates.py:61-71 | The returned interval holds exactly the values that the bucket, the recorded extrema and the declared domain allow; it is refused exactly when there are none. |
| Histograms.ValidateExtrema | packages/harness/src/robotics_acceptance_harness/_histogram_estimates.py:74-83 | Accepts exactly when the recorded minimum lies in the lowest occupied bucket and the maximum in the highest. |
| Histograms.RankBucket | packages/harness/src/robotics_acceptance_harness/_histogram_estimates.py:86-92 | The running total finds the bucket whose share of the count contains the rank, and fails only for a rank beyond the total. |
| Histograms.EstimateStatistic | packages/harness/src/robotics_acceptance_harness/_histogram_estimates.py:108-130 | What an answer says for each statistic, and that every refusal has its stated cause; a histogram that shows a negative event in a nonnegative domain, extrema that contradict its buckets, no events or no sum for a mean is refused. |
| Histograms.RankEstimate | packages/harness/src/robotics_acceptance_harness/_histogram_estimates.py:133-149 | For rank statistics, the answer is a recorded extremum or all feasible values of the rank's bucket. |
| Histograms.RankIsPosition | packages/harness/src/robotics_acceptance_harness/_histogram_estimates.py:143-148 | The integer formula is the ceiling of p times count, and a position among the events. |
| Histograms.QuantileInvertsDistribution | packages/harness/src/robotics_acceptance_harness/_histogram_estimates.py:143-148 | The event at the rank inverts the empirical distribution: fewer than 50, 95 or 99 percent of the events lie below it, at least as many up to it. |
| Histograms.StatisticsAreNamedWell | packages/harness/src/robotics_acceptance_harness/_histogram_estimates.py:133-149 | Minimum and maximum are the first and last of the ordered events and bound all of them; count is their number. |
| Histograms.RankLocatesBucket | packages/harness/src/robotics_acceptance_harness/_histogram_estimates.py:86-92 | In every event set that fits, the event of a rank lies in a bucket iff the rank falls into the bucket's share. |
| Histograms.ConsistentExtremaAgree | packages/harness/src/robotics_acceptance_harness/_histogram_estimates.py:74-83 | Every event set that fits satisfies the extrema check, so it never refuses a genuine histogram. |
| Histograms.NonnegativeEventsShow | packages/harness/src/robotics_acceptance_harness/_histogram_estimates.py:95-105 | Nonnegative events never trip the check for a provably negative event. |
| Histograms.EstimateEncloses | packages/harness/src/robotics_acceptance_harness/_histogram_estimates.py:61-149 | For every multiset of events a histogram can stand for, no refusal applies and every possible answer contains the true statistic. |
| Histograms.Judge | packages/harness/src/robotics_acceptance_harness/_histogram_estimates.py:19-149 | Composition: a verdict of passed or failed is true of every event set the histogram can stand for. |
| RunProtocol.StepKeeps | host/src/plugins/run-owner/index.ts:37-228 | Every event, in every state, keeps the invariant of a run, extends its histories, starts at most one producer and only when none is live, and calls cleanup only once admitted with none live. |
| RunProtocol.RunStagesKeeps | host/src/plugins/run-owner/index.ts:174-192 | The stage loop ends in a sound state after starting at most one producer, whatever hooks are missing. |
| RunProtocol.ExportReturnsKeeps | host/src/plugins/run-owner/index.ts:193-208 | Cleanup is admitted only by an awaited export that settled with references; every other outcome of an awaited export retains the run. |
| RunProtocol.CleanUpKeeps | host/src/plugins/run-owner/index.ts:77-91 | A disposer called while a producer is live or before admission attempts nothing and records its refusal with the resource and among the errors; a call in any state keeps the invariant. |
| RunProtocol.CleanupFailsKeeps | host/src/plugins/run-owner/index.ts:88-91 | The error of a cleanup that throws does not get lost: it is among the errors, captured, or in a disposal that is bound to reject. |
| RunProtocol.SettleWithErrorKeeps | host/src/plugins/run-owner/index.ts:50-56 | A late failure is added to the errors, under the producer's phase, exactly when it is not the interruption's own reason; phase, await, phases noted, evidence and histories stay as they are. |
| RunHistory.RunKeeps | host/src/plugins/run-owner/index.ts:123-301 | The invariant holds after every sequence of events. |
| RunHistory.HistoryGrows | host/src/plugins/run-owner/index.ts:125-128 | Logs, reports, starts and cleanups at any time are prefixes of what they are later. |
| RunHistory.CleanupFollowsExport | host/src/plugins/run-owner/index.ts:77-91 | In every run, a call of a resource's cleanup is preceded by an export that settled with at least one reference, and finds no live producer. |
| RunHistory.NothingStartsAfterAdmission | host/src/plugins/run-owner/index.ts:198-204 | Once cleanup is admitted no producer is live and none ever starts. |
| RunHistory.StagesStartOnceInOrder | host/src/plugins/run-owner/index.ts:164-191 | Across all retries each stage starts at most once, in order, before any export, and never beside a live producer. |
| RunHistory.OneResumeAtATime | host/src/plugins/run-owner/index.ts:152-155 | A retry takes effect only when no resume is in flight and the run has neither ended nor admitted cleanup. |
| RunHistory.PassedIsExemplary | host/src/plugins/run-owner/index.ts:193-228 | A passed report shows every phase passed once, no error, at least one outcome, each attempted, released, evidenced and without any cleanup error; apart from probes exactly the four producers ever started. |
| RunHistory.ThrowingCleanupNeverPasses | host/src/plugins/run-owner/index.ts:77-91 | A run one of whose cleanups throws before the verification is concluded never passes, whatever the error says, the empty message included, and whatever happens afterwards. |
| RunHistory.OverflowIsLoggedOnce | host/src/plugins/run-owner/index.ts:139-143 | In every run at most 1000 messages are captured, and the overflow is added to the errors at most once by logging, when exactly 1000 are. |
| RunHistory.FlawlessRunPasses | host/src/plugins/run-owner/index.ts:193-228 | The other side: with every hook settling in time and its one cleanup doing its work, a run passes and is released. |
| RunHistory.PassesExactly | host/src/plugins/run-owner/index.ts:212-228 | From verification on: passed iff nothing went wrong before, nothing was logged and every resource, at least one, is attempted, released and evidenced without a cleanup error that has a message; released iff disposal was observed and every resource released. |
| RunHistory.ReportsOnlyExtend | host/src/plugins/run-owner/index.ts:156-161 | Earlier reports are retained ones, prefixes of later ones, and no later one passes. |
| RunHistory.ReportsAreFinal | host/src/plugins/run-owner/index.ts:156-161 | A report never changes and stays a prefix of the logs. |
| RunHistory.ReleasedOnce | host/src/plugins/run-owner/index.ts:225-225 | The owner is released at most once, after an observed disposal and a report with every resource released. |
| RunHistory.RetryAdmitsCleanup | host/src/plugins/run-owner/index.ts:152-155 | A retained run with nothing live, whatever stages were left unattempted: every retry whose stages settle in turn starts each remaining stage with a hook once, in order, then the export, and when that returns references cleanup is admitted with all evidence kept. |
| RunHooks.FinishRunsEveryHook | host/src/plugins/run-owner/index.ts:162-198 | Finishing a measured run starts exactly the stages that have a hook, in order, then the export; when all settle, cleanup is admitted with all evidence kept. |
| RunHooks.HooksAreGiven | host/src/plugins/run-owner/index.ts:149-170 | The hooks of a run are those of the call that finished it and of the last retry; a failed start has none. |
| RunHooks.NothingStartsWithoutHook | host/src/plugins/run-owner/index.ts:174-198 | A stage and the export start only if they have a hook. |
| RunHooks.StageFailureIsRecorded | host/src/plugins/run-owner/index.ts:182-190 | A stage that fails or runs into its deadline leaves its cause among the errors and its phase failed; after a deadline the run is retained with its producer live. |
| RunHooks.ExportFailureIsRecorded | host/src/plugins/run-owner/index.ts:202-206 | The same for the export, which retains the run with cleanup not admitted. |
| RunHooks.DisposalFailureIsRecorded | host/src/plugins/run-owner/index.ts:207-210 | A disposal that fails, or resolves without the disposed state, is an error of the run and of its phase and does not count as complete. |
| RunHooks.UnreadyRunIsRetained | host/src/plugins/run-owner/index.ts:258-301 | A composition whose probe is not ready or has no evidence is retained with that error and starts nothing. |
| RunHooks.ReadyRunStarts | host/src/plugins/run-owner/index.ts:290-296 | A composition whose probe is ready and has evidence becomes ready; the probe was started as a producer and its evidence is kept. |
| RunResources.RunKeepsResources | host/src/plugins/run-owner/index.ts:70-113 | In every run no two resources share a name, exactly those are attempted whose cleanup was called, and every report names the first resources in order. |
| RunResources.TrackedIsRecordedOnce | host/src/plugins/run-owner/index.ts:73-77 | From the moment it is tracked, a name is the name of exactly one resource. |
| RunResources.TrackedIsAnsweredFor | host/src/plugins/run-owner/index.ts:100-112 | Every resource tracked before the disposal returned has exactly one outcome in the final report. |
| RunResources.FinalReportNamesAll | host/src/plugins/run-owner/index.ts:100-112 | The final report answers, in order, for exactly the resources there were when the disposal returned. |
| RunResources.FinalReportIsComplete | host/src/plugins/run-owner/index.ts:213-228 | A final report has all references and all cleanup errors of its outcomes in its logs, an error unless all are released, and the status that fits. |
| RunResources.OutcomeHasACause | host/src/plugins/run-owner/index.ts:100-112 | Each outcome of a final report is what one verification of that resource found, beside what was recorded of its cleanup. |
| RunResources.RetainedReportDefers | host/src/plugins/run-owner/index.ts:93-99 | A report of a retained run shows every resource as it is recorded, with nothing released. |
| RunResources.ReleaseFollowsDisposal | host/src/plugins/run-owner/index.ts:209-225 | The owner is released only after an awaited disposal that resolved in the disposed state. |
| RunResources.LoggedIsReported | host/src/plugins/run-owner/index.ts:139-143 | A message logged before the verification was concluded is in the errors of the ended run, or the overflow is. |
| RunHistory.AdmissionHasACause | host/src/plugins/run-owner/index.ts:198-204 | Admission at any time is explained by an earlier successful export. |
| RunOwnership.OwnedRun.constructor | host/src/plugins/run-owner/index.ts:123-144 | A new run is in its initial state. |
| RunOwnership.OwnedRun.Interrupt | host/src/plugins/run-owner/index.ts:46-48 | A deadline rejects the caller and marks the producer, which stays live; the invariant is kept. |
| RunOwnership.OwnedRun.Settle | host/src/plugins/run-owner/index.ts:57-62 | A success ends the producer, appends its references and wins an open race; the invariant is kept and nothing starts. |
| RunOwnership.OwnedRun.Fail | host/src/plugins/run-owner/index.ts:50-64 | A failure ends the producer; a late one that is not the interruption's reason is logged; the invariant is kept. |
| RunOwnership.OwnedRun.BeginMeasurement | host/src/plugins/run-owner/index.ts:145-148 | Measurement begins exactly from a ready composition; otherwise it is refused and nothing changes. |
| RunOwnership.OwnedRun.EnterStages | host/src/plugins/run-owner/index.ts:174-192 | The loop over stages not yet entered, up to the first with a hook, then the export, computes the specified resume and, between two stages, keeps the invariant. |
| RunOwnership.OwnedRun.Finish | host/src/plugins/run-owner/index.ts:149-151 | Only the first call completes, a later one changes nothing; finishing without measurement is an error; at most one producer starts and only with none live. |
| RunOwnership.OwnedRun.RetryExport | host/src/plugins/run-owner/index.ts:152-155 | Accepted exactly for retained runs, and so only with no resume in flight and cleanup not admitted; otherwise nothing changes. |
| RunOwnership.OwnedRun.StageReturns | host/src/plugins/run-owner/index.ts:182-190 | After a stage: the next one, or retention when its producer is still live; no cleanup is called. |
| RunOwnership.OwnedRun.ExportReturns | host/src/plugins/run-owner/index.ts:195-208 | After the export: cleanup is admitted exactly when it settled with references, otherwise the run is retained. |
| RunOwnership.OwnedRun.DisposalReturns | host/src/plugins/run-owner/index.ts:209-212 | Only a disposal that resolves with the observed state counts as complete. |
| RunOwnership.OwnedRun.VerificationReturns | host/src/plugins/run-owner/index.ts:213-221 | Evidence, errors and phase of verification, in the order of the code; a verification that leaves no error found no cleanup that threw. |
| RunOwnership.OwnedRun.LogStopReturns | host/src/plugins/run-owner/index.ts:222-228 | Status, final phase, report and release of the owner: a passed report has earned it, and so has a release. |
| RunOwnership.OwnedRun.Track | host/src/plugins/run-owner/index.ts:73-77 | A resource is recorded, not attempted, exactly when none of its name is. |
| RunOwnership.OwnedRun.Observe | host/src/plugins/run-owner/index.ts:100-112 | One verification: its outcome beside what is recorded of the resource's cleanup. |
| RunOwnership.OwnedRun.CleanUp | host/src/plugins/run-owner/index.ts:77-91 | The disposer of one resource: attempted exactly when cleanup is admitted and no producer is live, and then the export had passed and evidence is retained. |
| RunOwnership.OwnedRun.CleanupFails | host/src/plugins/run-owner/index.ts:88-91 | A cleanup that throws leaves its error with the resource and, until the run has ended, an error, a captured message or a disposal bound to reject. |
| RunOwnership.OwnedRun.Log | host/src/plugins/run-owner/index.ts:139-143 | A message of a run that has not ended is captured, or beyond 1000 of them noted as the overflow; the invariant, which bounds what is captured, is kept. |
| HostRuns.UnreleasedRunsNeverShareAnId | host/src/plugins/run-owner/index.ts:239-250 | Over all interleavings of all runs of a host, starts and runs that have not released their ID never share one, and only such IDs are reserved. |
| HostRuns.HostStepKeeps | host/src/plugins/run-owner/index.ts:239-250 | Each start, refusal, admission or run event keeps the reservation exact. |
| HostRuns.ReleasesStepOnce | host/src/plugins/run-owner/index.ts:225-225 | No event of a run releases its ID a second time, so a reused ID is never freed by an old run. |
| HostRuns.RunOwner.Start | host/src/plugins/run-owner/index.ts:239-243 | A start is accepted, and then reserves the ID, exactly when no unreleased start or run holds it. |
| HostRuns.RunOwner.AdmissionFails | host/src/plugins/run-owner/index.ts:245-249 | A refused start gives up its ID. |
| HostRuns.RunOwner.Release | host/src/plugins/run-owner/index.ts:250-250 | The release callback frees exactly the run's own ID. |
| CustodyRuns.StepKeeps | api/src/domain.ts:47-191 | Every transaction and every crash keeps the table invariant and undoes nothing: identities, claims, versions, retention, proofs and closings are final. |
| CustodyRuns.RunKeeps | api/src/domain.ts:47-191 | The same over any interleaving of any number of calls. |
| CustodyRuns.ClosedJobIsInCustody | api/src/domain.ts:117-182 | A closed job has its claim, and each of its uploads is retained with a bound version and all five proofs of it; the number of uploads never exceeds the bound. |
| CustodyRuns.ClosedBatchHasClosedJobs | api/src/domain.ts:183-191 | A closed batch has only closed jobs, each with its uploads in custody. |
| CustodyRuns.CustodyIsFinal | api/src/domain.ts:117-182 | From its claim on a job's claim and upload set are fixed; bound versions, retained uploads and proofs never change. |
| CustodyRuns.EvidenceIsExact | api/src/domain.ts:144-166 | Versions are bound only under a claim; proofs exist exactly for retained uploads and attest the bound version. |
| CustodyRuns.ProofHasACommit | api/src/domain.ts:155-166 | Whatever happens in a run, each stored proof is what the evidence of one successful commit of that upload had for that role. |
| CustodyRuns.BoundVersionsAreReal | api/src/domain.ts:145-153 | No bound version is empty or the placeholder of object storage. |
| CustodyRuns.NewBatchIsGranted | api/src/domain.ts:61-67 | A batch under a new key is created exactly on a known branch under a fresh id, with the values asked for. |
| CustodyRuns.NewJobIsGranted | api/src/domain.ts:70-91 | A job under a new key is created exactly in an open batch under a fresh id, with the values asked for. |
| CustodyRuns.NewLogIsGranted | api/src/domain.ts:92-116 | A new name is granted exactly to an unclaimed job of the batch that has room, under a fresh id. |
| CustodyRuns.CloseBeginsExactly | api/src/domain.ts:118-129 | A close begins exactly with a consistent claim that agrees with the one the job has, if any. |
| CustodyRuns.BatchClosesExactly | api/src/domain.ts:183-191 | A batch closes exactly when all its jobs are closed. |
| CustodyRuns.RegisteredIsUnbound | api/src/domain.ts:92-116 | A registration hands out only a row of that job, name and identity whose version is unbound. |
| CustodyRuns.ClaimStopsRegistration | api/src/domain.ts:101-107 | From the claim on a registration changes nothing, and for a closed job it is refused. |
| CustodyRuns.LogIsFound | api/src/domain.ts:97-105 | The exact answer to registering a known name again: the row until its version is bound, a conflict for another identity. |
| CustodyRuns.NameIsOneUpload | api/src/domain.ts:92-116 | Across any run, each name of a job is one upload with one immutable identity. |
| CustodyRuns.KeyedBatchIsUnique | api/src/domain.ts:47-69 | After one successful creation under a key, every later request with it, from whichever concurrent call, returns the same batch or a conflict. |
| CustodyRuns.KeyedJobIsUnique | api/src/domain.ts:70-91 | The same for jobs of a batch, even after the batch has closed. |
| CustodyProtocol.InsertBatchKeeps | api/src/domain.ts:61-67 | Inserting a batch keeps the idempotency index exact under concurrent insertion. |
| CustodyProtocol.CreateJobKeeps | api/src/domain.ts:70-91 | A job is added only to an open batch and keeps the index exact. |
| CustodyProtocol.RegisterLogKeeps | api/src/domain.ts:94-114 | An upload is added only to an unclaimed job, within the bound and under a new name. |
| CustodyProtocol.BeginCloseKeeps | api/src/domain.ts:119-129 | Claiming keeps an existing claim, records the call's own, and unless the job is closed lists every upload of it. |
| CustodyProtocol.TryLockKeeps | api/src/domain.ts:133-136 | Taking the advisory lock or failing keeps each lock with one working call. |
| CustodyProtocol.ReadUploadKeeps | api/src/domain.ts:137-144 | What a call knows of its upload under the lock stays true while it works. |
| CustodyProtocol.BindVersionKeeps | api/src/domain.ts:145-153 | A version is bound once, only by the holder of the upload's lock and under a claim of its job. |
| CustodyProtocol.CommitRetentionKeeps | api/src/domain.ts:155-166 | Retention and all proofs are committed together for the bound version, each role with what the evidence has for it. |
| CustodyProtocol.FinishCloseKeeps | api/src/domain.ts:173-181 | A job closes only when nothing of it is unretained. |
| CustodyProtocol.CloseBatchKeeps | api/src/domain.ts:183-191 | A batch closes only when no job of it is open. |
| CustodyProtocol.EndCallKeeps | api/src/domain.ts:167-171 | A crash or failure at any point removes the call and its locks, and changes nothing else. |
| CustodyDomain.RetryCloses | api/src/domain.ts:117-182 | Recoverability: from any reachable state, a close that agrees with the claim, meets no lock and whose external calls succeed closes the job and answers with success. |
| CustodyDomain.SuccessIsCustody | api/src/domain.ts:117-182 | A close that answers with success has closed its job under its own claim with every upload in custody. |
| CustodyDomain.CloseDraws | api/src/domain.ts:131-172 | Whatever a close stores, versions and proofs, is what the storage and the retention answered for that upload, version and role. |
| CustodyDomain.ImpatienceIsRefused | api/src/domain.ts:131-133 | A caller that gives up before every upload has been visited does not get a success. |
| CustodyDomain.CloseIsATrace | api/src/domain.ts:117-182 | Whatever one close call does, however it ends, is a run of the interleaved protocol, so all theorems on runs apply to it. |
| CustodyDomain.VisitSucceeds | api/src/domain.ts:131-172 | One undisturbed loop iteration whose external calls succeed leaves its upload retained and no lock behind. |
| CustodyDomain.CommitSucceeds | api/src/domain.ts:155-166 | The insertion of proofs cannot conflict: nothing attests an upload that is not retained. |
| CustodyDomain.Ascending | api/src/domain.ts:126-128 | The listing holds every upload of the job once, in ascending order. |
| CustodyDomain.Domain.constructor | api/src/domain.ts:11-14 | Empty tables satisfy the invariant. |
| CustodyDomain.Domain.CreateBatch | api/src/domain.ts:47-69 | The key is looked up first, then the insertion happens unless the key is taken; the row returned is one with that owner, key and fingerprint, and nothing recorded is undone. |
| CustodyDomain.Domain.CreateJob | api/src/domain.ts:70-91 | The row returned is one of that batch with that owner, key and fingerprint; refusals come in the order of the code and undo nothing. |
| CustodyDomain.Domain.RegisterLog | api/src/domain.ts:92-116 | The row returned is an unretained upload of that job, name and identity with unbound version; for a claimed job nothing changes. |
| CustodyDomain.Domain.BeginClose | api/src/domain.ts:118-129 | Success records the claim and, unless the job is closed, gives the call every upload of it to visit. |
| CustodyDomain.Domain.TryLock | api/src/domain.ts:133-136 | The advisory lock is taken, or the call ends with a retryable refusal; a call that works on an upload holds its lock. |
| CustodyDomain.Domain.ReadUpload | api/src/domain.ts:137-144 | Under the lock, the call is done with the upload exactly when it is retained; otherwise it keeps the lock. |
| CustodyDomain.Domain.BindVersion | api/src/domain.ts:145-153 | The version is bound only where none is bound, and that row is all that changes of the uploads. |
| CustodyDomain.Domain.CommitRetention | api/src/domain.ts:155-166 | Success takes the upload into custody: retained, and for every role the proof is that of the evidence for the bound version. |
| CustodyDomain.Domain.FinishClose | api/src/domain.ts:173-181 | Success means that the job is closed and every upload of it is in custody. |
| CustodyDomain.Domain.CloseBatch | api/src/domain.ts:183-191 | Success means that the batch and all its jobs are closed and their uploads in custody. |
| CustodyDomain.Domain.Visit | api/src/domain.ts:131-172 | One loop iteration: lock, read, bind, retain, as far as there is something to do; success means that the next upload is retained. |
| CustodyDomain.Domain.CloseListed | api/src/domain.ts:117-182 | The transactions of one call, with its loop over the uploads and its abort, compute the specified close. |
| CustodyDomain.Domain.CloseJob | api/src/domain.ts:117-182 | The whole call undoes nothing and stores only what the storage and the retention answered; success means that the job is closed under the caller's claim with every upload in custody, and an undisturbed call whose external calls succeed does succeed. |
| Crc32.CrcComposes | packages/contracts/src/robotics_runtime_contracts/_mcap_crc.py:47-53 | However a range is split into blocks, the running CRC-32 is that of the whole range. |
| Crc32.CheckValue | packages/contracts/src/robotics_runtime_contracts/_mcap_crc.py:12-12 | The model's CRC-32 has the published check value CBF43926 for the digits 1 to 9. |
| McapLayout.AcceptedExactlyWhenTiled | packages/contracts/src/robotics_runtime_contracts/_mcap_crc.py:82-101 | The walk holds iff record envelopes tile the file from byte 8 to length minus 8 with no gap or overlap and every record holds; files shorter than both magics are walked without records. |
| McapLayout.ShortFilesAreWalkedUntiled | packages/contracts/src/robotics_runtime_contracts/_mcap_crc.py:82-101 | Every file shorter than both magics is accepted by the walk although nothing tiles it. |
| McapLayout.WalkIsATiling | packages/contracts/src/robotics_runtime_contracts/_mcap_crc.py:82-101 | An accepted walk gives the tiling. |
| McapLayout.TilingIsAWalk | packages/contracts/src/robotics_runtime_contracts/_mcap_crc.py:82-101 | A tiling of holding records is accepted. |
| McapLayout.FooterIsLast | packages/contracts/src/robotics_runtime_contracts/_mcap_crc.py:95-98 | Any footer is the last record. |
| McapLayout.AttachmentHoldsExactly | packages/contracts/src/robotics_runtime_contracts/_mcap_crc.py:58-68 | An attachment record written field by field holds exactly when its checksum is zero or that of all fields before it, whatever follows. |
| McapLayout.FooterHoldsExactly | packages/contracts/src/robotics_runtime_contracts/_mcap_crc.py:71-79 | A footer written field by field holds exactly when the summary starts behind the magic and before it, and the checksum is zero or covers everything from there up to itself. |
| McapLayout.OtherRecordHolds | packages/contracts/src/robotics_runtime_contracts/_mcap_crc.py:86-99 | A record of any other kind holds wherever it fits. |
| McapChecksums.Stream.Read | packages/contracts/src/robotics_runtime_contracts/_mcap_crc.py:24-30 | A read delivers a nonempty prefix of what was asked for, or nothing at the end of the file. |
| McapChecksums.ReadInteger | packages/contracts/src/robotics_runtime_contracts/_mcap_crc.py:24-30 | A returned integer is the little-endian value of the bytes read, all within the given end. |
| McapChecksums.Skip | packages/contracts/src/robotics_runtime_contracts/_mcap_crc.py:33-37 | Skipping fails exactly when the destination lies beyond the record. |
| McapChecksums.CheckCrc | packages/contracts/src/robotics_runtime_contracts/_mcap_crc.py:40-55 | Accepts only a zero checksum or the CRC-32 of exactly the range, however reads split it, and always accepts those on a stream that delivers what it has. |
| McapChecksums.AttachmentCrc | packages/contracts/src/robotics_runtime_contracts/_mcap_crc.py:58-68 | The checksum's place follows from two timestamps, two prefixed strings and prefixed data; it is checked over everything before it. |
| McapChecksums.FooterCrc | packages/contracts/src/robotics_runtime_contracts/_mcap_crc.py:71-79 | A footer has 20 bytes; its checksum covers the summary from its start, or only the footer's prefix. |
| McapChecksums.CheckRecord | packages/contracts/src/robotics_runtime_contracts/_mcap_crc.py:86-99 | One record holds, and the next starts where it ends. |
| McapChecksums.VerifyExtraCrcs | packages/contracts/src/robotics_runtime_contracts/_mcap_crc.py:82-101 | Terminates; acceptance means that the whole walk holds however reads are split, and a stream that delivers all it has is refused only when it does not. |
| McapChecksums.ValidateChunkSize | packages/contracts/src/robotics_runtime_contracts/_mcap_chunk_limits.py:61-78 | A chunk is accepted iff it declares at most the limit and decodes to exactly what it declares; at most one byte more is decoded. |
| RecordingModel.DefinitionsAreObserved | packages/contracts/src/robotics_runtime_contracts/_mcap_observations.py:15-49 | The observed schemas and channels are exactly those the records define, all definitions agreeing. |
| RecordingModel.MessagesAreObserved | packages/contracts/src/robotics_runtime_contracts/_mcap_observations.py:51-58 | Per channel and in total the counters equal the message records, and start and end are the extremes of their times. |
| RecordingModel.OthersAreObserved | packages/contracts/src/robotics_runtime_contracts/_mcap_observations.py:60-78 | Attachments and metadata are counted exactly, and the data have ended iff their end was recorded. |
| RecordingModel.ObservedExactly | packages/contracts/src/robotics_runtime_contracts/_mcap_observations.py:39-78 | A log is observed without refusal exactly when every record is in place by those before it. |
| RecordingSummaries.Observations.constructor | packages/contracts/src/robotics_runtime_contracts/_mcap_observations.py:29-37 | Nothing is observed at first. |
| RecordingSummaries.Observations.DefineSchema | packages/contracts/src/robotics_runtime_contracts/_mcap_observations.py:39-43 | A schema is added, agrees with an earlier one, or is refused without effect. |
| RecordingSummaries.Observations.DefineChannel | packages/contracts/src/robotics_runtime_contracts/_mcap_observations.py:44-49 | A channel needs a defined, nonzero schema and must agree with an earlier definition. |
| RecordingSummaries.Observations.Message | packages/contracts/src/robotics_runtime_contracts/_mcap_observations.py:51-58 | A message on a defined channel before the end of data is counted and widens the time span. |
| RecordingSummaries.Observations.Observe | packages/contracts/src/robotics_runtime_contracts/_mcap_observations.py:60-78 | Each record updates the facts as specified or is refused without effect. |
| RecordingSummaries.Observations.Statistics | packages/contracts/src/robotics_runtime_contracts/_mcap_observations.py:80-91 | The total over the counter, whatever its order, and the other statistics, only after the end of data. |
| RecordingSummaries.EntriesCountMessages | packages/contracts/src/robotics_runtime_contracts/_mcap_summary.py:73-85 | Entries of distinct channels count each message of a topic and type once. |
| RecordingSummaries.SummaryDescribes | packages/contracts/src/robotics_runtime_contracts/_mcap_summary.py:73-123 | The summary of an accepted recording says per topic and type, per channel, in total and about time, definitions, attachments and metadata exactly what its records say. |
| RecordingSummaries.AcceptedCountsAreMessages | packages/contracts/src/robotics_runtime_contracts/_mcap_summary.py:88-95 | Per-channel statistics are accepted exactly when they are the true message counts, of defined channels only. |
| RecordingSummaries.SummarizeStream | packages/contracts/src/robotics_runtime_contracts/_mcap_summary.py:23-123 | Accepts only recordings whose records pass the checksum walk, are finalized with Statistics, are consistent and agree with what they declare, and describes them; a stream that delivers all it has is refused only when the recording is not to be accepted. |
| RecordingSummaries.Summarize | packages/contracts/src/robotics_runtime_contracts/_mcap_summary.py:110-123 | Over a finalized log: accepts exactly when its records are consistent and agree with the declared Statistics and counts, and describes them. |
| MemberPaths.ConfinedPathStaysBelow | packages/contracts/src/robotics_runtime_contracts/datasets.py:34-42 | A member path that passes the check leads to a file below the dataset, and no step on the way leaves it. |
| MemberPaths.ConfinedPathsAreFiles | packages/contracts/src/robotics_runtime_contracts/datasets.py:34-48 | Paths that pass the check and lead to one file are equal, so members with unique paths are different files. |
| MemberPaths.ConfinedExactly | packages/contracts/src/robotics_runtime_contracts/datasets.py:34-42 | Written from its parts, a path passes exactly with plain characters, no empty or dotted part, and a recording's name at its end. |
| Datasets.UrisExactly | packages/contracts/src/robotics_runtime_contracts/datasets.py:31-58 | The references are without alias exactly when they differ pair by pair. |
| Datasets.ValidateBagStructure | packages/contracts/src/robotics_runtime_contracts/datasets.py:24-58 | Accepts iff members have confined paths to recordings, are numbered in order, have unique paths, recordings and summaries, and no two references share a URI. |
| Datasets.MembersAreSeparateFiles | packages/contracts/src/robotics_runtime_contracts/datasets.py:24-58 | Any two members of an accepted dataset are two different files below its directory. |
| Datasets.AddChannels | packages/contracts/src/robotics_runtime_contracts/datasets.py:76-77 | The nested loop adds one member's channel counts to the totals per topic and type. |
| Datasets.ValidateBagSummaries | packages/contracts/src/robotics_runtime_contracts/datasets.py:61-90 | Accepts iff structure, sources, total, counts per topic and type and time span agree with the summaries. |
| Datasets.Conservation | packages/contracts/src/robotics_runtime_contracts/datasets.py:61-90 | End to end: in an accepted dataset over faithful summaries, counts per topic and type and in total equal the message records of all recordings, and start and end are the extremes over all messages. |
| Datasets.AcceptedExactlyWhenTrue | packages/contracts/src/robotics_runtime_contracts/datasets.py:61-90 | Over faithful summaries a manifest is accepted exactly when it is well structured, names those recordings, and tells the truth about all their messages. |
| Decimals.LongIntegersHaveManyDigits | packages/contracts/src/robotics_runtime_contracts/canonical.py:80-95 | A bit length over 4M means more than M decimal digits, so the prefilter refuses no integer that fits. |
| Decimals.DigitsExactly | packages/contracts/src/robotics_runtime_contracts/canonical.py:84-91 | The digits of a number are counted as the power of ten above it tells. |
| CanonicalJson.LowerIsNoMore | packages/contracts/src/robotics_runtime_contracts/canonical.py:98-141 | The byte budget of a document never exceeds the size of its encoding. |
| CanonicalJson.CheckIsExact | packages/contracts/src/robotics_runtime_contracts/canonical.py:115-141 | The check accepts exactly the encodable documents within depth, nodes and byte budget, and counts both. |
| CanonicalJson.ScalarAcceptedExactly | packages/contracts/src/robotics_runtime_contracts/canonical.py:64-112 | Exactly these scalars pass: text without surrogates and integers the interpreter may spell, of at most eight megabytes, and finite numbers; the shortcuts for long texts and integers refuse nothing else. |
| CanonicalJson.DocumentAcceptedExactly | packages/contracts/src/robotics_runtime_contracts/canonical.py:115-141 | A document passes exactly with at most 64 levels, 100000 nodes and eight megabytes counted, and encodable values. |
| CanonicalJson.RefusalIsJustified | packages/contracts/src/robotics_runtime_contracts/canonical.py:64-141 | A refusal for bytes means that the encoding exceeds the limit; one for depth or nodes that the document does. |
| CanonicalJson.FittingDocumentsPass | packages/contracts/src/robotics_runtime_contracts/canonical.py:115-141 | No document whose encoding fits is refused for its bytes. |
| CanonicalJson.LoadIsExact | packages/contracts/src/robotics_runtime_contracts/serialization.py:84-100 | The loader accepts a finite, duplicate-free tree exactly when it is within depth and nodes. |
| CanonicalJson.VerdictsAgree | packages/contracts/src/robotics_runtime_contracts/canonical.py:115-141 | On such trees the check and the loader agree about depth and nodes, and count the same. |
| CanonicalJson.SharedBudget.CheckValue | packages/contracts/src/robotics_runtime_contracts/canonical.py:115-141 | The recursive traversal over the shared budget computes the specified check. |
| CanonicalJson.SharedBudget.CheckMembers | packages/contracts/src/robotics_runtime_contracts/canonical.py:121-133 | The loop over members: each key is checked as a string, then counted as a node, before its value. |
| CanonicalJson.SharedBudget.CheckElements | packages/contracts/src/robotics_runtime_contracts/canonical.py:134-136 | The loop over list elements. |
| DiagnosticPaths.EscapedComposes | packages/contracts/src/robotics_runtime_contracts/canonical.py:28-35 | Escaping a string piece by piece is escaping it whole. |
| DiagnosticPaths.EscapedIsRead | packages/contracts/src/robotics_runtime_contracts/canonical.py:28-35 | Reading an escaped string back yields exactly the UTF-16 code units of the string. |
| DiagnosticPaths.WriteMember | packages/contracts/src/robotics_runtime_contracts/canonical.py:17-38 | A member is written exactly when it fits; otherwise only a part may follow the old output. |
| DiagnosticPaths.RenderPath | packages/contracts/src/robotics_runtime_contracts/canonical.py:41-61 | The rendered path is the longest run of complete members that fits the bound. |
| Statuses.WorstIsAmongThem | packages/contracts/src/robotics_runtime_contracts/status.py:21-37 | The worst status is one of the given ones and none is worse. |
| Statuses.SeverestWins | packages/contracts/src/robotics_runtime_contracts/status.py:10-37 | Any error gives error, otherwise any failure gives failed, and so on down to passed; a cancelled aggregate is incomplete. |
| Statuses.PassedMeansAllPassed | packages/contracts/src/robotics_runtime_contracts/status.py:21-37 | The aggregate is passed exactly when all are. |
| Transport.ValidateHops | packages/contracts/src/robotics_runtime_contracts/semantics.py:860-925 | The hops of a passed chain follow their contracts' directions, with distinct spans, matching messages and no repeated transition. |
| Transport.ValidateChain | packages/contracts/src/robotics_runtime_contracts/semantics.py:795-925 | Accepts a chain exactly when it refers to known channels and contracts, forms a path and, if passed, has one passed hop per channel in order. |
| Transport.Validate | packages/contracts/src/robotics_runtime_contracts/semantics.py:721-984 | Accepts exactly the documents that satisfy all rules. |
| Transport.ValidExactly | packages/contracts/src/robotics_runtime_contracts/semantics.py:721-984 | The rules, which compare lists and sets, say entry by entry: sections match, chains match, every channel is covered, and the verdict counts the chains and is the severest status of all parts. |
| Transport.SectionsAgreeExactly | packages/contracts/src/robotics_runtime_contracts/semantics.py:721-794 | Domains, contracts, relations, observations and chains match one another, each without repetition. |
| Transport.ChainHoldsExactly | packages/contracts/src/robotics_runtime_contracts/semantics.py:795-925 | A chain under its own contract runs over contracted channels that meet; a passed one has one passed hop per channel, each following its contract, and no repeated transition. |
| Transport.VerdictHoldsExactly | packages/contracts/src/robotics_runtime_contracts/semantics.py:926-984 | The verdict counts the chains per status and is the severest status of all parts, incomplete when a relation is missing. |
| Transport.PassedVerdictIsEarned | packages/contracts/src/robotics_runtime_contracts/semantics.py:721-984 | With an accepted passed verdict, every expected relation, observation and chain is there and passed, chains cover all channels, hops are exactly the channels in order and connect domain to domain. |
| Transport.PassedHopsFollowContracts | packages/contracts/src/robotics_runtime_contracts/semantics.py:860-925 | Each hop of an accepted passed document follows its contract from one domain to another, hands its message on, and repeats no transition. |
| Transport.PassedVerdictIsDue | packages/contracts/src/robotics_runtime_contracts/semantics.py:968-984 | Conversely, when everything expected is there and passed, no other verdict is accepted. |
| ArchivePairing.AggregateResults | packages/contracts/src/robotics_runtime_contracts/_qualification_archive.py:48-60 | The loop selects one result per domain, and fails exactly when the aggregate has no such selection. |
| ArchivePairing.CountingIsPartition | packages/contracts/src/robotics_runtime_contracts/_qualification_archive.py:108-110 | Counting selected results and their digests is enough: the two selections partition what was supplied, none unused. |
| ArchivePairing.ResultPair | packages/contracts/src/robotics_runtime_contracts/_qualification_archive.py:74-111 | Accepts exactly the archives with one reading as originals and assessments: same domains, linked by digest, originals of version 2, a partition of all results. |
| ArchivePairing.PairingIsUnique | packages/contracts/src/robotics_runtime_contracts/_qualification_archive.py:93-100 | The accepted reading is the only one. |
| ArchiveComparison.Criteria | packages/contracts/src/robotics_runtime_contracts/_qualification_archive.py:252-261 | The criteria are the product's assertions and those that are no platform policy; ambiguous identities are refused. |
| ArchiveComparison.CriteriaAreThese | packages/contracts/src/robotics_runtime_contracts/_qualification_archive.py:252-261 | Every product assertion and every one that is no policy is a criterion, and nothing else is. |
| ArchiveComparison.CheckCoverage | packages/contracts/src/robotics_runtime_contracts/_qualification_archive.py:264-307 | Accepts exactly when every expected assertion is classified once and every covered one is bound to its captured sources. |
| ArchiveComparison.ExpectedAreClassifiedOnce | packages/contracts/src/robotics_runtime_contracts/_qualification_archive.py:264-290 | With coverage accepted, every expected assertion is on exactly one of the two lists, once, and nothing else is. |
| ArchiveComparison.CoveredRestsOnSources | packages/contracts/src/robotics_runtime_contracts/_qualification_archive.py:285-307 | A covered metric rests on its one declared metric source, which is what is compared; any other criterion on its declared raw sources. |
| ArchiveComparison.ReasonsMeanDifferences | packages/contracts/src/robotics_runtime_contracts/_qualification_archive.py:319-340 | No reason is recorded exactly when both sides were evaluated alike. |
| ArchiveComparison.ComparisonIsComplete | packages/contracts/src/robotics_runtime_contracts/_qualification_archive.py:351-380 | Compared and excluded assertions are disjoint and together all of both sides; matched iff evaluated alike, something is covered in common and every commonly covered outcome is equal. |
| ArchiveComparison.CompareDomain | packages/contracts/src/robotics_runtime_contracts/_qualification_archive.py:351-380 | The whole comparison of one domain: with both coverages accepted, compared and excluded split the criteria of each result, and matched means evaluated alike with something covered in common and every commonly covered outcome equal; it is refused only when the criteria of a result are ambiguous or its coverage does not hold. |

## Left out

- Comparison tokens: their limit of 4 million characters and their spelling; schema values are compared as values.
- Paths and texts of diagnostics other than the rendering of a path; refusals are named values.
- Catalog checks and dataset transitions of the schema checker, and the lookup of references, which is a partial map.
- Regular expressions and the remaining literal schema keywords, which are uninterpreted.
- Fiber internals, the loader and readiness of composed plugins; disposal, readiness and verification have arbitrary outcomes.
- Cordis itself: it is assumed never to swallow what a disposer throws but to log it or to reject the disposal with it, as host/README.md:68-69 promises and host/test/lifecycle.test.ts:69-83 expects; an error thrown after the verification is concluded no longer counts.
- A resource tracked before its run is bound to the resource service, which the composition of a run excludes.
- The validation of deadlines, which admission has done before a run starts.
- The filter that attributes a log message to a run's fiber; any message may be logged.
- RunOwnership.OwnedRun.CleanUp: the class holds the records of its resources itself, where the original keeps them in a separate service object.
- PostgreSQL isolation, tenants, projects and row security; a transaction is one step on tables of one project.
- CustodyRuns.KeyedBatchIsUnique: fingerprints are given, where the original hashes the request; the metrics configuration snapshot of a branch is not modelled.
- CustodyDomain.Domain.CloseJob: the original's loop runs among other calls; the method shows one call alone, and the interleaved steps are those of the protocol.
- The size check before a registration and the signed address after it; two uploads never share an advisory lock, where the original hashes their IDs.
- Object storage, signing and retention workers, which either fail or answer; a retention that answers delivers all five proofs.
- Floating-point rounding and NaN in histograms; values are reals.
- RecordingSummaries.SummarizeStream: the records, chunks and summary section are what the reader makes of the file; the order of a summary's channels by topic and ID is not modelled, because no later check depends on it.
- Datasets.ValidateBagStructure: file names that begin with several dots, whose suffix depends on the Python version, are treated as up to Python 3.13.
- Native bag metadata, record decoding, decompression and digests.
- Number spellings: a finite float counts by the size of its spelling, and the encoder's own output is not produced.
- YAML loading, which has its own counters of depth and nodes.
- Receipts, source bindings and captured controls of an archive, and its metadata.
- ArchiveComparison.ComparisonIsComplete: outcomes are compared as values, where the original compares their canonical encodings.
- Release, documentation and bootstrap scripts, operator profiles and the remaining validators, which would add only field comparisons.
