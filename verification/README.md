# Webhookery, verified

A Dafny model of the parts of Webhookery whose correctness is hard to see from the code: the JSON
transformation engine, the audit hash chain and the evidence bundles built on it, the replay and fan-out
protocol with its rate limit, provider reconciliation, sessions and user provisioning, event schemas, retry
scheduling and signature headers. `dafny verify dfyconfig.toml` checks everything.

| modules | what they model |
|---|---|
| `Text`, `Binary`, `Json` | the string, byte and JSON operations everything else uses |
| `JsonPointer`, `Transform`, `TransformHeap` | pointers, operation lists as a fold over values, and the same run in place on shared memory |
| `CanonicalJson`, `AuditChain`, `EvidenceBundle` | hashed records, the chain and its streaming checker, building and verifying bundles |
| `ReplayProtocol`, `RateLimit`, `Fanout`, `FanoutProtocol` | workers, operators and jobs as a state machine; pacing; the fan-out service itself, and that it takes a worker's steps |
| `Reconciliation`, `ReconciliationService`, `ReconciliationRaces` | what reconciliation does over whole runs; the service as it runs call by call; runs that overlap |
| `Sessions`, `IdentityStore` | the identity tables as a state machine over transactions; the store as it updates them, always in a state of such a run |
| `SchemaCheck` | payload validation, the compatibility check, and what compatibility is for |
| `Retry`, `Signature` | backoff and seeds; signing, printing, reading and verifying headers |

How to read the model:

- Code that updates things in place is a class or a method with a loop, and its contract equates the new state
  with a function of the old one. The properties are then proved of that function, and where they name texts,
  names or states these are written out, so that they do not follow the function's own constants.
- Hash functions, HMAC, JSON and archive codecs, the clock, random identifiers, provider answers and database
  failures are parameters. Nothing is assumed about a hash: a binding result says "equal, or here are two
  different inputs with the same output".
- Time is in nanoseconds, JSON numbers are reals, and 64-bit wrap-around is written out where the code can
  reach it.
- `Session.origin`, `Db.reenrolled`, `Job.scanned` in `Reconciliation`, `Event.seen` in `ReconciliationRaces`, the
  `history` of the identity store and the counters of a replay job are history: properties mention them, no
  modelled transaction reads them.

Where a promise does not hold for all inputs, the model keeps the code's behaviour and states the exact
boundary:

- The pointer `/` names the document root (`internal/transform/transform.go:145`), while section 5 of RFC 6901
  makes it the member with the empty name. `JsonPointer.PointerRoundTrip` excludes exactly that list of tokens.
- Writing to an ancestor of an evidence field is accepted and reaches it, unless it is a copy onto itself:
  `Transform.EvidenceSurvives` and `Transform.AncestorWriteReachesEvidence`.
- A replay rate is kept in every minute exactly when it divides a minute evenly and the last delay fits 64 bits:
  `RateLimit.LimitKeptExactly`. Spacing and the bound on a minute end where delays stop fitting, at one attempt a
  minute after 153,722,868 attempts: `RateLimit.SpacingExactly`, `RateLimit.BoundKeptExactly`.
- Pausing and resuming a running replay lets it run again, or strands it:
  `ReplayProtocol.ResumedJobDeliversTwice`, `ReplayProtocol.RevertedJobStranded`; without that there is one
  pass: `ReplayProtocol.CarefulOperators`.
- A provider whose lookup answers under another id makes the same object be captured again:
  `Reconciliation.CapturesAgain`.
- Runs that overlap can both report a capture, and an event can come in between a look and a capture; there is
  one recovered event all the same: `ReconciliationRaces.OneEventPerObject`,
  `ReconciliationRaces.DuplicatesComeInBetween`, `ReconciliationRaces.OverlapReportsTwice`.
- Creating an API key makes a deprovisioned member active again: `Sessions.DeprovisionedLogin`.
- Logins find accounts by email, and a write in another tenant can give a deprovisioned account another email. A
  login by its old name is then refused only if the account that has the name now is shut out as well:
  `Sessions.DeprovisionedName`, `Sessions.DeprovisionedNameReturns`.
- Schema compatibility ignores item schemas, added properties and types added to untyped nodes:
  `SchemaCheck.KeepsPayloadsExactly` decides the intended property for all schemas, and
  `SchemaCheck.CompatibleIsSound` shows where the check suffices.
- A timestamp too far in the future for a 64-bit duration does not count as expired:
  `Signature.ExpiredExactly`.

## Model

| member | source | states |
|---|---|---|
| `JsonPointer.PointerTokens` | internal/transform/transform.go:144-156 | the loop over the parts yields the unescaped tokens, with "" and "/" both naming the root |
| `JsonPointer.PointerRoundTrip` | internal/transform/transform.go:144-156 | printing tokens with the escapes of section 3 of RFC 6901 and reading them back gives the same tokens, if and only if the list is not the single empty token |
| `Transform.GetReadsResolved` | internal/transform/transform.go:158-179 | reading a pointer is reading its resolved location, and fails exactly when it does not resolve |
| `Transform.SetLaw` | internal/transform/transform.go:181-232 | a set succeeds exactly when its pointer can be located, and afterwards every location not above the written one reads as a reference function says |
| `Transform.GetAfterSet` | internal/transform/transform.go:181-232 | reading the pointer just set gives the value, through any objects created on the way |
| `Transform.SetFrame` | internal/transform/transform.go:181-232 | a pointer whose resolved location is neither above nor below the written one reads the same value as before |
| `Transform.DropSucceeds` | internal/transform/transform.go:234-277 | a drop succeeds exactly when its parent can be read and can hold the last token |
| `Transform.DropLaw` | internal/transform/transform.go:234-277 | after a drop the member is gone or the later array slots have moved down, and all other locations not above read as before |
| `Transform.AcceptedExactly` | internal/transform/transform.go:95-142 | an operation is accepted exactly for the four names, pointers that start with a slash and no protected path, a copy at both ends |
| `Transform.OperationSucceeds` | internal/transform/transform.go:52-89 | an accepted operation goes through exactly when its value decodes, its source can be read and its target located, or for a drop its parent can hold the last token; the protected-path error is given exactly for protected paths |
| `Transform.OperationStores` | internal/transform/transform.go:52-89 | after a set, a copy or a redact its path reads the given value, what the source read before, or the text "[REDACTED]" |
| `Transform.OperationReads` | internal/transform/transform.go:52-89 | after any operation every location not above its path reads as the reference functions for a set and a drop say |
| `Transform.ApplyInTurn` | internal/transform/transform.go:47-93 | a list of operations is its first part and then, on that result, the rest; an error stops it |
| `Transform.NamesReach` | internal/transform/transform.go:158-179 | whatever a document holds anywhere is read, and can be overwritten, under the name of its location |
| `Transform.NamesCreate` | internal/transform/transform.go:206-232 | below an object, members that are not there yet can be written under their names |
| `Transform.EvidenceSurvives` | internal/transform/transform.go:47-142 | for every accepted operation list in which no operation writes to an ancestor, other than copying it onto itself, a protected path reads the same after the run as before |
| `Transform.TopLevelEvidenceSurvives` | internal/transform/transform.go:47-142 | for every accepted operation list that does not write the root, other than copying it onto itself, a protected top-level member is unchanged or still absent |
| `Transform.NamedEvidenceSurvives` | internal/transform/transform.go:125-142 | the same for each of the protected names written out, and for every name that ends in "_hash" or "_sha256" |
| `Transform.AncestorWriteReachesEvidence` | internal/transform/transform.go:95-142 | an accepted operation of any of the four kinds above a path changes it in some document if and only if it changes any document at all, so the condition is exact |
| `Transform.SetSame` | internal/transform/transform.go:181-232 | setting a pointer to the value read there leaves the document as it is |
| `TransformHeap.Decode` | internal/transform/transform.go:279-289 | decoding builds a fresh tree that shares no node with anything and holds the given value |
| `TransformHeap.Encode` | internal/transform/transform.go:279-289 | encoding reads back the value a tree holds |
| `TransformHeap.DropAt` | internal/transform/transform.go:242-277 | the recursive in-place removal leaves a tree that holds the pure result of the drop, and an unchanged one on failure |
| `TransformHeap.Document.GetValue` | internal/transform/transform.go:158-179 | walking the shared nodes finds exactly what the pure read finds |
| `TransformHeap.Document.ParentForSet` | internal/transform/transform.go:206-232 | the walk creates missing objects, keeps the document a tree, and on failure leaves its value unchanged |
| `TransformHeap.Document.SetValue` | internal/transform/transform.go:181-204 | the in-place set turns the document's value into the pure result, or fails with the value unchanged |
| `TransformHeap.Document.DropValue` | internal/transform/transform.go:234-240 | the in-place drop turns the document's value into the pure result, or fails with the value unchanged |
| `TransformHeap.Document.CopyValue` | internal/transform/transform.go:68-79 | copying clones first, so even a copy into its own descendant leaves a tree with the pure result |
| `TransformHeap.Document.Run` | internal/transform/transform.go:52-89 | one operation run in place turns the document into the pure result, or fails with the same error and nothing changed; after a set, copy or redact its path reads the value, the old source or "[REDACTED]" |
| `TransformHeap.ApplyInPlace` | internal/transform/transform.go:47-93 | for every document and operation list the in-place run returns exactly the pure fold's result or error, so everything stated of the fold and its operations holds of it |
| `CanonicalJson.EscapeInjective` | internal/auditchain/chain.go:25-49 | a JSON-escaped string determines the original text |
| `CanonicalJson.StringReads` | internal/auditchain/chain.go:25-49 | a reader of JSON strings, with the escapes of section 7 of RFC 8259, reads a printed string back and stops after it |
| `CanonicalJson.RecordReads` | internal/auditchain/chain.go:25-49 | a reader of JSON objects reads a printed record back as its members in their order |
| `CanonicalJson.RecordInjective` | internal/auditchain/chain.go:25-49 | a printed record of string members determines every member, whatever characters they hold |
| `AuditChain.EventTextInjective` | internal/auditchain/chain.go:25-40 | the hashed text of an audit event determines the event |
| `AuditChain.ChainTextInjective` | internal/auditchain/chain.go:42-49 | the hashed text of a link determines the previous hash and the event hash |
| `AuditChain.EventTextReads` | internal/auditchain/chain.go:25-40 | the hashed text of an event, read as JSON, is its members under the names the format gives them |
| `AuditChain.ChainTextReads` | internal/auditchain/chain.go:42-49 | the hashed text of a link, read as JSON, is the version, the event hash and the previous hash |
| `AuditChain.VerifyProof` | internal/evidence/bundle.go:532-564 | the streaming loop with its carried state reports exactly the failures of the whole list and counts every entry |
| `AuditChain.FailuresName` | internal/evidence/bundle.go:532-564 | a failure is reported if and only if some entry breaks that link, under the number it is reported with |
| `AuditChain.CleanIsLinked` | internal/evidence/bundle.go:532-564 | for numbers from 1 the checker reports nothing if and only if every entry continues the one before in number, previous hash and chain hash |
| `AuditChain.ProofsBind` | internal/evidence/bundle.go:532-564 | two clean proofs ending in the same chain hash have the same length and event hashes, or a collision is produced |
| `AuditChain.NumbersNotBound` | internal/evidence/bundle.go:532-564 | a clean proof stays clean when all its numbers are shifted: the hashes do not bind them |
| `AuditChain.RemovalDetected` | internal/evidence/bundle.go:532-564 | what is left of a clean proof after taking out entries is clean if and only if it is a prefix |
| `AuditChain.BuiltChainsVerify` | internal/auditchain/chain.go:51-77 | every chain the system builds passes the checker, and each of its entries records the event in its place |
| `AuditChain.HeadBindsHistory` | internal/auditchain/chain.go:25-77 | equal head hashes of two built chains mean equal events in equal order, or a collision is produced |
| `EvidenceBundle.SortNames` | internal/evidence/bundle.go:125-129 | collecting map keys in any order and sorting gives a strictly increasing listing of exactly those names |
| `EvidenceBundle.ListingUnique` | internal/evidence/bundle.go:125-129 | a set of names has one such listing, so bundles do not depend on map order |
| `EvidenceBundle.BuildBundle` | internal/evidence/bundle.go:124-177 | the bundle is the normalized manifest, with cleaned id lists, over the sorted file records followed by the files; an empty name stops it |
| `EvidenceBundle.NormalizedStringSet` | internal/evidence/bundle.go:442-458 | the trimmed non-empty values, each once, in order |
| `EvidenceBundle.BuildDetermined` | internal/evidence/bundle.go:124-177 | two drafts whose id lists clean to the same sets build the same bundle: neither map order nor list order shows |
| `EvidenceBundle.BuiltManifestSays` | internal/evidence/bundle.go:348-387 | the manifest of a built bundle, decoded, says member by member what the draft says with the defaults for what it leaves out, lists the cleaned ids, and records every file with its hash; it is the first entry and its own hash is that of the bundle |
| `EvidenceBundle.ReadFiles` | internal/evidence/bundle.go:501-530 | refused if and only if a regular entry has a name that is empty, starts with a slash or holds two dots in a row; otherwise the names of the regular entries, each with the body of the last of them |
| `EvidenceBundle.ReadBuilt` | internal/evidence/bundle.go:124-177 | a built archive reads back as the files plus the manifest, unless a name is unsafe |
| `EvidenceBundle.VerifyFiles` | internal/evidence/bundle.go:215-265 | an error exactly when manifest or proof do not decode; otherwise the mutable result collects the problems of the manifest, the listed files and the proof, is valid exactly without any, and counts what it checked |
| `EvidenceBundle.ProblemsDescribe` | internal/evidence/bundle.go:215-265 | a problem is reported if and only if it describes the files: which member is missing, which file is missing or has another hash or size than recorded, which link is broken |
| `EvidenceBundle.PresentCounts` | internal/evidence/bundle.go:236-252 | the number of files checked is that of the records whose file is there |
| `EvidenceBundle.AcceptsExactlySound` | internal/evidence/bundle.go:215-265 | no problems if and only if manifest, listed files and chain proof are sound |
| `EvidenceBundle.ManifestHashBinds` | internal/evidence/bundle.go:215-265 | two valid bundles with the same manifest hash agree byte for byte on every listed file, or a collision is produced |
| `EvidenceBundle.BuildVerifies` | internal/evidence/bundle.go:124-177 | the built bundle verifies if and only if names are safe, ids are given and an included proof is clean; all files are then listed and checked |
| `ReplayProtocol.StepKeeps` | internal/app/delivery_fanout.go:141-297 | every worker and operator step keeps the invariant over jobs, passes, outbox items and deliveries |
| `ReplayProtocol.RunKeeps` | internal/worker/worker.go:251-270 | so does every interleaving |
| `ReplayProtocol.OnePassPerStart` | internal/app/delivery_fanout.go:178-242 | in every interleaving each start licenses one pass by one worker, and starts exceed resumes by at most one |
| `ReplayProtocol.SinglePassUnlessResumed` | internal/app/delivery_fanout.go:178-242 | a job not resumed after a start has the deliveries of one pass of one worker |
| `ReplayProtocol.OpenJobKeepsItem` | internal/worker/worker.go:251-270 | a scheduled, paused or pending job has its outbox item open, unless a running job was taken back |
| `ReplayProtocol.NothingBeforeApproval` | internal/adapters/postgres/store.go:5904-5984 | a job that needs approval is neither started nor delivered before it is approved, whatever operators do |
| `ReplayProtocol.FourEyes` | internal/adapters/postgres/store.go:5904-5939 | in every run, what was started, delivered or put into the outbox for a job that needs approval was approved by another person than its creator and before the approval expired |
| `ReplayProtocol.ApprovalExactly` | internal/adapters/postgres/store.go:5793-5939 | when a job is created and approved, and that its outbox item comes with its creation or else with its approval |
| `ReplayProtocol.OperatorsExactly` | internal/adapters/postgres/store.go:5941-5984 | from which states operators may pause, cancel and resume a job, and that nothing else changes |
| `ReplayProtocol.DeliveriesHaveProvenance` | internal/app/delivery_fanout.go:141-297 | every delivery, directly or through any chain of replays, belongs to a verified or recovered event |
| `ReplayProtocol.FinalStates` | internal/adapters/postgres/store.go:5953-5984 | completed and canceled jobs stay so in every run |
| `ReplayProtocol.CarefulOperators` | internal/adapters/postgres/store.go:5941-5984 | if no one pauses or resumes a running job, every job has at most one start, one pass and no abandoned item |
| `ReplayProtocol.BrokenPassStaysBroken` | internal/app/delivery_fanout.go:178-242 | a pass that broke off gets no further delivery in any run without a resume |
| `ReplayProtocol.ResumedJobDeliversTwice` | internal/adapters/postgres/store.go:5945-5984 | a run in which one resume after a start delivers the same event twice |
| `ReplayProtocol.RevertedJobStranded` | internal/adapters/postgres/store.go:5945-5984 | a run in which a resumed job is scheduled with its only outbox item already completed |
| `RateLimit.DelayExact` | internal/app/delivery_fanout.go:347-360 | the 64-bit delay computation is the exact multiple of the interval wherever it fits |
| `RateLimit.Spacing` | internal/app/delivery_fanout.go:347-360 | attempts scheduled against a non-decreasing clock are at least an interval per index apart |
| `RateLimit.RateBound` | internal/app/delivery_fanout.go:347-360 | any minute holds at most rate + 1 attempts, and at most rate when the rate divides a minute |
| `RateLimit.BurstOvershoots` | internal/app/delivery_fanout.go:347-360 | for a rate that does not divide a minute, every longer fan-out on a standing clock has more than rate attempts in one minute |
| `RateLimit.LimitKeptExactly` | internal/app/delivery_fanout.go:347-360 | "at most rate per minute" holds of all schedules of n attempts if and only if the last delay fits 64 bits and the rate divides a minute or n is at most the rate |
| `RateLimit.BoundKeptExactly` | internal/app/delivery_fanout.go:347-360 | the bound of `RateBound` holds of all schedules of n attempts if and only if the last delay fits 64 bits |
| `RateLimit.SpacingExactly` | internal/app/delivery_fanout.go:347-360 | so does the spacing |
| `RateLimit.OverflowOvershoots` | internal/app/delivery_fanout.go:351-360 | a schedule in which an attempt whose delay does not fit falls into the minute of the first ones |
| `Fanout.Service.CreateDeliveriesForEvent` | internal/app/delivery_fanout.go:156-176 | a verified event, or a recovered one where that is allowed, gets one delivery per target, in order and paced, any other none; it fails exactly when the event is missing or a store call failed, keeping what was made |
| `Fanout.Service.CreateFromTarget` | internal/app/delivery_fanout.go:299-316 | one snapshot of the target at the paced time, stored or not at all |
| `Fanout.Service.CreateFromOriginals` | internal/app/delivery_fanout.go:244-260 | one paced clone per original delivery with its configuration and payload; fails exactly on a store failure |
| `Fanout.Service.CreateFromExisting` | internal/app/delivery_fanout.go:262-297 | one delivery, due at once, that reproduces the old one or follows the current target by mode; none exactly when that target is gone |
| `Fanout.Service.ReplayEvent` | internal/app/delivery_fanout.go:202-230 | the event half of a replay is one clone per original delivery, or one delivery per current target of a verified event, in order; a note is stored exactly when there are none |
| `Fanout.Service.RunPass` | internal/app/delivery_fanout.go:202-240 | a pass that ends well stores exactly the event half, then the repeated delivery unless its target is gone, and a note exactly when an event was asked for and its half is empty; one that breaks off stores the beginning of this |
| `Fanout.Service.CreateReplayDeliveries` | internal/app/delivery_fanout.go:178-242 | only a scheduled job is worked on and only after its start; if it ends well it has stored exactly what such a pass stores and completes with that number, it is deferred exactly when the start is lost, and otherwise keeps what it made; the event half keeps the job's own rate in every minute |
| `Fanout.ReplayRateBound` | internal/app/delivery_fanout.go:178-260 | deliveries paced from a non-decreasing clock keep the rate bound in every minute |
| `FanoutProtocol.ServiceTakesWorkerSteps` | internal/app/delivery_fanout.go:178-242 | whatever serving a job leaves in the store, an uninterrupted run of one worker of the protocol leaves there too, for every outcome, so the results about all interleavings are about this service |
| `FanoutProtocol.PassRun` | internal/app/delivery_fanout.go:202-240 | the deliveries of a pass, complete or broken off, are those of list and create steps |
| `Reconciliation.RecoverLaw` | internal/app/reconciliation.go:236-275 | lookup, evidence and capture: the outcome, the error and the recovered event as a table of the answers, the evidence kept, and a capture exactly when the stated condition on the answers holds |
| `Reconciliation.ReconciledLaw` | internal/app/reconciliation.go:220-304 | one object: the inserted item member by member, its outcome and error as a table of the stored events, the flags and the answers; inserted, captured, redelivered and attached exactly when the calls before went through; stopped at the first call that fails, with that error |
| `Reconciliation.ScannedRun` | internal/app/reconciliation.go:199-217 | the run of a scanned job: its objects one after another up to the first that stops; a cut leaves it running, an error fails it with its text, else the cursor moves and it completes with the counts of its items; a cancellation in between stands |
| `Reconciliation.CapabilityRun` | internal/app/reconciliation.go:178-189 | a provider that cannot be scanned yields one item that says so, and the job completes |
| `Reconciliation.ScanFailed` | internal/app/reconciliation.go:190-206 | a scan error fails the job with its text; evidence that cannot be stored leaves it running |
| `Reconciliation.RunNotStarted` | internal/app/reconciliation.go:158-177 | nothing happens to a job that is missing, ended or running; without an adapter it fails |
| `Reconciliation.EachObjectCapturedOnce` | internal/app/reconciliation.go:158-304 | over any sequence of runs, cut, failed, cancelled or rerun, with events arriving in between, no object is captured twice, provided lookups keep ids |
| `Reconciliation.LocalEventStopsCapture` | internal/app/reconciliation.go:220-275 | once an object has a local event, no later run captures it |
| `Reconciliation.ItemsAlwaysSound` | internal/app/reconciliation.go:158-304 | every item ever stored agrees with the events, captures and job flags in the tables |
| `Reconciliation.CompletedJobsAreComplete` | internal/app/reconciliation.go:158-218 | a completed job has exactly one item per scanned object in scan order, each counter is the number of its items with that outcome, and they add up to the scan, whatever the provider answered |
| `Reconciliation.CapturesAgain` | internal/app/reconciliation.go:236-275 | after a capture the same object is captured again if and only if its payload came under another id |
| `Reconciliation.StepKeepsJobs` | internal/adapters/postgres/store.go:5074-5086 | starting by test-and-set, failing, completing and cancelling, with a cancel that writes after the job has ended, keep jobs and items in step |
| `ReconciliationService.Service.RecordEvidence` | internal/app/reconciliation.go:250-256 | evidence is stored one by one up to the first failure, and the last id stored is kept |
| `ReconciliationService.Service.RecoverObject` | internal/app/reconciliation.go:236-275 | the reassigned outcome, error, evidence and event end up as the recovery function says |
| `ReconciliationService.Service.RequestRedelivery` | internal/app/reconciliation.go:276-293 | the redelivery request overrides outcome and error as specified, and the flag agrees with the outcome |
| `ReconciliationService.Service.ReconcileObject` | internal/app/reconciliation.go:220-304 | the call-by-call run leaves stores and status exactly as specified: the item, the capture, the redelivery, the evidence and the error of `Reconciliation.ReconciledLaw` |
| `ReconciliationService.Service.RunReconciliationJob` | internal/app/reconciliation.go:158-218 | the job run leaves the stores exactly as specified; not found, deferred and finished without an error exactly when they should be |
| `ReconciliationService.Service.DryRun` | internal/app/reconciliation.go:94-156 | a dry run changes nothing; it fails, reports missing capability or a scan error, or gives the numbers of known, missing and redeliverable objects, exactly as the scan answers |
| `ReconciliationRaces.StepKeeps` | internal/app/reconciliation.go:220-304 | every call of overlapping runs keeps the invariant over events, workers and items |
| `ReconciliationRaces.OneEventPerObject` | internal/adapters/postgres/store.go:6429-6470 | in every interleaving an object gets one recovered event, and all items that report its capture name it |
| `ReconciliationRaces.DuplicatesComeInBetween` | internal/app/reconciliation.go:220-275 | an earlier event of the same object beside a recovered one came in between that run's look and its capture |
| `ReconciliationRaces.OverlapReportsTwice` | internal/app/reconciliation.go:220-304 | two overlapping runs that both report the capture of one event |
| `Sessions.StepKeeps` | internal/adapters/postgres/enterprise_identity.go:158-477 | every transaction keeps the invariant over login states, sessions, providers, memberships and provisioned users |
| `Sessions.RunKeeps` | internal/adapters/postgres/enterprise_identity.go:158-716 | so does every sequence of transactions |
| `Sessions.RevokedForever` | internal/adapters/postgres/enterprise_identity.go:408-477 | a revoked session never authenticates again, whatever transactions follow |
| `Sessions.OneSessionPerLogin` | internal/adapters/postgres/enterprise_identity.go:270-347 | one login state yields at most one session in every sequence of transactions |
| `Sessions.AuthenticatedByActiveProvider` | internal/adapters/postgres/enterprise_identity.go:18-43 | in every legal run, whoever authenticates has an identity and an active provider of the session's own tenant, although the query joins them loosely |
| `Sessions.DisablingEndsSessions` | internal/adapters/postgres/enterprise_identity.go:158-236 | disabling a provider ends its sessions for good, even if it is enabled again |
| `Sessions.DeprovisionedStayOut` | internal/adapters/postgres/enterprise_identity.go:585-657 | a user whose latest provisioning write was inactive, without an API key since, has no session that authenticates |
| `Sessions.DeprovisionedLogin` | internal/adapters/postgres/enterprise_identity.go:349-406 | a login that ends up at such an account is refused if and only if no API key was created for the member since |
| `Sessions.DeprovisionedName` | internal/adapters/postgres/enterprise_identity.go:349-406 | a login by the name of a deprovisioned row is refused while the account has that email, and after that exactly when the account that has it now is shut out |
| `Sessions.DeprovisionedNameReturns` | internal/adapters/postgres/enterprise_identity.go:612-620 | a legal run in which such a name logs in again and authenticates, as another account |
| `Sessions.AccountsKept` | internal/adapters/postgres/enterprise_identity.go:349-406 | every transaction keeps emails unique and members with accounts |
| `Sessions.OnceKept` | internal/adapters/postgres/enterprise_identity.go:585-657 | every transaction keeps external ids and user names unique among the provisioned users of a tenant |
| `Sessions.RolesAreGranted` | internal/adapters/postgres/store.go:370-420 | in every run a member's role is that of the latest API key made for the member, and "support" if there was none |
| `Sessions.RoleKept` | internal/adapters/postgres/enterprise_identity.go:349-406 | neither logins nor provisioning writes change a role |
| `IdentityStore.Store.AuthenticateSession` | internal/adapters/postgres/enterprise_identity.go:18-43 | in every valid state the loosely joined query lets in exactly sessions with all rows there and active, in one tenant, and nobody deprovisioned; with the member's own role, that of the latest API key or "support" |
| `IdentityStore.LetIn` | internal/adapters/postgres/enterprise_identity.go:18-43 | for every legal run, the loose joins find all rows and a deprovisioned user is never let in |
| `IdentityStore.Store.UpdateIdentityProvider` | internal/adapters/postgres/enterprise_identity.go:158-236 | stays in the state of a legal run; disabling revokes exactly the sessions that came through the provider, and none escapes by its tenant |
| `IdentityStore.Store.CreateIdentityProvider` | internal/adapters/postgres/enterprise_identity.go:45-84 | adds one active provider of the tenant and nothing else, exactly when its id is new |
| `IdentityStore.Store.ConsumeLoginState` | internal/adapters/postgres/enterprise_identity.go:270-308 | stays in the state of a legal run; succeeds once, marking the login state and handing its tenant and provider to the one callback, after which nothing else comes from it |
| `IdentityStore.Store.UpsertIdentity` | internal/adapters/postgres/enterprise_identity.go:349-406 | account, membership and identity are the ones the queries find or new ones; refused exactly for a disabled member or a clashing new id |
| `IdentityStore.Store.CreateOIDCSession` | internal/adapters/postgres/enterprise_identity.go:310-355 | takes a legal login step, under the email or the address made from the subject, and leaves exactly the account, membership, identity and active session of it, or leaves all tables; with fresh ids the only refusal is a disabled member |
| `IdentityStore.Store.RevokeAuthSession` | internal/adapters/postgres/enterprise_identity.go:408-430 | after a logout no sequence of transactions lets the session in again; other sessions are untouched |
| `IdentityStore.Store.RevokeAuthSessionByID` | internal/adapters/postgres/enterprise_identity.go:454-477 | revokes exactly the sessions of the tenant with that id, and is refused exactly when there is none |
| `IdentityStore.Store.CreateAPIKey` | internal/adapters/postgres/store.go:370-420 | refused exactly when another account has the email; otherwise the member is active with the key's role |
| `IdentityStore.Store.SCIMCreateOrReplaceUser` | internal/adapters/postgres/enterprise_identity.go:585-657 | picks the user by id, external id or anew and writes the row the request asks for, refused exactly when email, external id or user name belong to another; an inactive row leaves the user shut out |
| `IdentityStore.Store.WriteUser` | internal/adapters/postgres/enterprise_identity.go:612-645 | account, membership with its role kept, row and sessions as written out; an inactive row leaves the user deprovisioned, without a live session in the tenant |
| `IdentityStore.PatchLaw` | internal/adapters/postgres/enterprise_identity.go:686-716 | a patch goes through if and only if every operation is supported; the last operation on a member wins and nothing else changes |
| `IdentityStore.Store.SCIMPatchUser` | internal/adapters/postgres/enterprise_identity.go:686-716 | one bad operation anywhere writes nothing; otherwise the row keeps its names and gets the flag and the display name last set |
| `SchemaCheck.Validate` | internal/app/schema.go:42-80 | no errors if and only if the value is valid, with properties visited in any order; every error is under the given path |
| `SchemaCheck.ValidExactly` | internal/app/schema.go:42-80 | a payload is valid if and only if at every place the schema reaches the value goes by the type and an object has the required members |
| `SchemaCheck.TypeListMeans` | internal/app/schema.go:113-125 | a type list stands for its first name other than "null", trimmed, and for no type if there is none |
| `SchemaCheck.MatchesGoesBy` | internal/app/schema.go:127-152 | which kinds of values go by which of the seven type names; any other name is no restriction |
| `SchemaCheck.Compare` | internal/app/schema.go:82-111 | no errors if and only if the schemas are compatible in the check's sense |
| `SchemaCheck.CompatibleExactly` | internal/app/schema.go:82-111 | schemas are compatible if and only if at every path of the current one the new one has a node, not of another type and with no required member more |
| `SchemaCheck.CompatibleIsSound` | internal/app/schema.go:82-111 | where types are only added to typed nodes, no property is added and items stay, compatibility keeps every valid payload valid |
| `SchemaCheck.KeepsPayloadsExactly` | internal/app/schema.go:42-111 | for all schemas, every old payload stays valid if and only if a walk over the two schemas says so |
| `SchemaCheck.SubsumesIsEnough` | internal/app/schema.go:42-80 | where the walk says yes, each payload valid before is valid after |
| `SchemaCheck.Differ` | internal/app/schema.go:42-80 | where the walk says no, a payload valid before and invalid after is produced |
| `SchemaCheck.ExampleIsValid` | internal/app/schema.go:42-80 | a schema judged satisfiable accepts the constructed minimal payload |
| `SchemaCheck.ValidMeansSatisfiable` | internal/app/schema.go:42-80 | a schema with a valid payload is judged satisfiable |
| `SchemaCheck.AddedTypeLosesPayloads` | internal/app/schema.go:93-97 | a type added to an untyped node passes the check and loses a payload |
| `SchemaCheck.AddedPropertyLosesPayloads` | internal/app/schema.go:103-109 | an added property passes the check and loses a payload |
| `SchemaCheck.ChangedItemsLosePayloads` | internal/app/schema.go:82-111 | a changed item schema passes the check and loses a payload |
| `Retry.DelayCap` | internal/retry/retry.go:76-90 | the doubling loop in 64 bits equals the smaller of initial delay times a power of two and the maximum, for every policy whose doubling fits |
| `Retry.AcceptedDoubles` | internal/app/control.go:3067-3087 | every policy that is accepted is such a policy |
| `Retry.CapMonotone` | internal/retry/retry.go:76-90 | the cap never shrinks with the attempt number |
| `Retry.NextDeterministicDelay` | internal/retry/retry.go:50-63 | the delay is the digest of the seed, a zero byte and the attempt, as a number, modulo the cap plus one; nothing without a positive cap |
| `Retry.EveryDelayOccurs` | internal/retry/retry.go:50-63 | every delay from nothing up to the cap comes of some digest |
| `Retry.TotalBound` | internal/retry/retry.go:50-63 | the delays of the first k attempts sum to at most k maximal delays and at most undamped doubling |
| `Retry.ComputeSeed` | internal/retry/retry.go:65-74 | the parts written one by one into the hash are the length-framed encoding of the list, and the seed is its digest in hexadecimal behind the prefix of the version |
| `Retry.FramedInjective` | internal/retry/retry.go:65-74 | the framed encoding determines the list of parts, for all parts shorter than 2^64 bytes |
| `Retry.SeedBinds` | internal/retry/retry.go:65-74 | equal seeds mean equal parts or a hash collision |
| `Retry.MaterialInjective` | internal/retry/retry.go:50-63 | the hashed seed, zero byte and attempt determine both, whatever bytes the seed holds |
| `Binary.HexRoundTrip` | pkg/verifier/verifier.go:60-83 | decoding undoes encoding |
| `Binary.BigEndianReads` | internal/retry/retry.go:65-74 | a number read from its bytes, the last one the least, is the number written |
| `Signature.PayloadInjective` | pkg/verifier/verifier.go:98-101 | the signed text determines time and body |
| `Signature.ExpiredExactly` | pkg/verifier/verifier.go:114-121 | which timestamps count as expired, overflow included |
| `Signature.ParseKVHeader` | pkg/verifier/verifier.go:169-179 | a key, in lower case, has the value that the last part with that key says after its first equals sign; parts without a key are skipped |
| `Signature.HeaderReadsBack` | pkg/verifier/verifier.go:98-101 | a printed header reads back as its time and its signature |
| `Signature.VerifyHex` | pkg/verifier/verifier.go:72-83 | comparing decoded texts is comparing the codes themselves |
| `Signature.VerifyTimestampedHMAC` | pkg/verifier/verifier.go:103-142 | which reason is given exactly when, for every header, encoding and time, and the time, age and version that come with it; valid exactly with reason ok |
| `Signature.SignedHeaderVerifies` | pkg/verifier/verifier.go:98-142 | for every label but "t" a signed header verifies if and only if the label can be a header key and the time has not expired |
| `Signature.TimeLabelVerifies` | pkg/verifier/verifier.go:98-142 | under the label "t" a signed header verifies if and only if the signature itself reads as an unexpired time with the same code |
| `Signature.DeliveryVerifies` | internal/adapters/deliveryhttp/client.go:65-76 | every delivery verifies exactly until it expires, and the receiver learns time, key id and positive key version |
| `Signature.KeyVersionFirst` | pkg/verifier/verifier.go:144-167 | a key version that is sent has to be a positive number, or nothing else is looked at |
| `Signature.SignatureBinds` | pkg/verifier/verifier.go:103-142 | two valid headers with one signature have the same time and body, or two messages with the same code are produced |

## Left out

- AuditChain.EventTextInjective: texts are sequences of Unicode characters; a byte string that is not valid UTF-8 prints as replacement characters, so two such events can have one text.
- AuditChain.HeadBindsHistory: holds of events whose members are valid Unicode, for the same reason.
- EvidenceBundle.BuildVerifies: file names are valid Unicode, for the same reason.
- EvidenceBundle.BuildBundle: an archive is its list of entries, not the compressed bytes.
- RateLimit.RateBound: for schedules whose last delay fits 64 bits; `RateLimit.BoundKeptExactly` shows it fails for all others.
- RateLimit.Spacing: for schedules whose last delay fits 64 bits; `RateLimit.SpacingExactly` shows it fails for all others.
- Fanout.ReplayRateBound: for replays whose last delay fits 64 bits, as above.
- HTTP handlers, routing, the user interface, command-line tools, configuration loading and diagnostics.
- The create, list and update methods of the control service, beyond the retry and rate ranges they accept.
- The interior of SHA-256, HMAC, base64, gzip, tar and the JSON decoder: they are parameters, and only the bundle codec is assumed to read back what it wrote.
- Tar header limits: names longer than the format allows and names ending in a slash.
- `ParseOperations`: its trimming of operations and its limit on their number.
- Inspection views of bundles, and files in a bundle that the manifest does not list, which the verifier does not look at either.
- Detection of a proof cut off at its end, and verification of a proof that starts in the middle of a chain: the checker offers neither.
- JSON numbers as 64-bit floats: they are reals here, so rounding while decoding is not modelled.
- The order of the phases in one worker round and the delivery, notification and export phases themselves.
- Route and subscription matching: which targets an event has is an argument of the fan-out service.
- A rate bound on the whole of a replay that names both an event and a delivery: the event half keeps the rate, the delivery is due at once.
- Whether a redelivery request reached the provider when the process is cut off during the call.
- Job rows and redelivery in overlapping reconciliation runs: `ReconciliationRaces` models the calls about events and items; completeness of scans over several pages is the provider's.
- Concurrent writers between the read and the write of a SCIM patch: each SCIM operation is one step.
- SCIM groups, role bindings, SCIM tokens and the checks on identity tokens, which decide only whether a callback goes on.
- How long an approval lasts when a replay request does not say, and approval policies: the expiry is an argument of the request.
- The display name, timestamps and the verified-email flag of accounts, which decide nothing about sessions.
- Lower-casing of letters outside ASCII other than the two that lower-case into ASCII.
- Time values near the limits of the internal clock representation, where adding the epoch itself overflows.
- The random choice in `NextDelay`; the deterministic delay is modelled.
- `renderDeclarativeTemplate`: substituted values can reintroduce the token, so no termination claim holds.
