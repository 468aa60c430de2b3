# Verified model of the biz delivery, recovery and authentication core

This project models, in Dafny, the parts of the biz repository whose correctness
rests on more than one function, and proves what they promise for every input,
every run and every interleaving. `dafny verify dfyconfig.toml` checks all of it.

## What is modelled

**Dependency recovery** (`RecoveryClassifier`, `RecoveryProtocol`,
`RecoveryAudit`, `RecoveryProducer`). CI downloads the modules locked by go.sum
in a bounded retry loop, retries only what a transport failure lost, and writes a
receipt with logs. An auditor replays the receipt. The main theorems: an accepted
bundle proves each locked module downloaded exactly once, with its locked
checksum; whatever the download process does, a successful preparation passes the
audit; an accepted report is exactly what the preparation would write from the
same outputs, if and only if no attempt recorded exit code 124; and a diagnostic
incriminates two locked modules if and only if their versions are the same and
their paths escape alike. The number of attempts is a parameter.

**The shared database** (`SharedDatabase`, `FixtureRepair`, `SharedRepair`). Two
scripts share one lock, one recovery marker and per-run backups around one
database. The state machine has every script step as its own transition, a crash
possible after each, programs that outlive a killed script and go on writing, any
number of runs of both kinds, applications and operator recovery. Without a
written marker the database is what applications and completed repairs made of
it; with one, the named backup is. What a repair does is the CE02 program itself:
schema statements, transaction and verification, on the database's own tables.
Across all crashes, recoveries and reruns at most one repair takes effect, and what
stands either bears no trace of one or has a receipt of one catalog step with a
snapshot of each creation record.

**Signed service-API requests** (`PercentEncoding`, `ServiceApiQuery`,
`ServiceApiPath`, `SignedRequest`, `ServiceApiRoutes`, `NonceWindow`). The string
that is signed identifies a request: two well-formed requests have the same
string if and only if they agree in method, decoded path segments, multiset of
decoded query pairs, timestamp, nonce and body digest. Percent-encoding follows
section 2.1 of RFC 3986 as Go's net/url applies it. Routes resolve exactly when
all matching routes name one operation, and that operation requires a signature.
The signature binds the operation: requests with one signed string resolve alike.
Replay protection is a run of window tests, nonce insertions and purges.

**The delivery control plane** (`DeliveryRuns`, `QualificationWait`,
`MergeReceipts`, `MainVerification`, `ProofSources`, `ProofAudit`, `RouterTables`,
`ChangeRouter`). The
polling wait ends at the first poll that does not let it go on, and qualifies
exactly when that poll should; merge receipts are accepted for exactly one
binding and refused once a newer qualification run exists; main asks for the kind
of receipt that the pull request was routed to, as long as the changed files are
the same set; the reference closure
is exactly reachability; the job audit does not depend on listing order; and the
change router fails closed: with its own tables, every file that a domain claims
and every flag but two force the merge gate.

**OIDC issuer and relying party** (`OidcKeys`, `OidcTokens`). A token verifies
under any later configuration that still includes its key if and only if it could
be signed, the key's exponent is publishable and the claims are accepted then. The claims are those of
section 3.1.3.7 of OpenID Connect Core 1.0, the key encoding that of section 6.3.1
of RFC 7518, key identifiers as in section 4.5 of RFC 7517.

**The notification error writer** (`NotificationWriter`). Every sequence of calls
sends at most one header, and either everything written or exactly the recorded
failure, up to where the wrapped writer fails.

`Wrappers`, `Sequences` and `Ordering` hold options, splitting and joining of text,
decimal numerals, lexicographic order and sorting.

## Properties that hold only under a condition

Each of these is stated as an if-and-only-if over all inputs.

- Reset and restore return to the exact original database if and only if every
  table added meanwhile has a name that reset_fixtures drops (`biz_` followed by
  ASCII letters, digits and underscores). A table called `biz-x` survives.
  (`SharedDatabase.EnvelopeExact`, `SharedDatabase.StrayTableSurvives`)
- One diagnostic is a transport failure of two locked modules if and only if their
  versions are the same and their paths escape alike. Paths may contain `!`, so
  `x!a` and `xA` collide and both are accepted in go.sum; where paths have no `!`
  the classification is unambiguous, even for versions that have one.
  (`RecoveryClassifier.LockedAmbiguity`, `RecoveryClassifier.EscapeCollision`,
  `RecoveryClassifier.ClassificationUnambiguous`)
- The auditor accepts exit code 124 for any attempt but the last, the preparation
  never records it in a successful receipt. (`RecoveryProducer.AuditorAgrees`,
  `RecoveryProducer.TimedOutAccepted`, `RecoveryProducer.LastAttemptSucceeded`)
- The window test and the nonce insertion are two steps, so a request is accepted
  at most once if and only if no attempt stalls between them for longer than the
  store keeps expired nonces, which is one hour. (`NonceWindow.StallBound`)
- Substituting matched route parameters gives the path back if and only if equally
  named parameters matched equal text. (`ServiceApiRoutes.SubstitutionRestoresPath`,
  `ServiceApiRoutes.RepeatedNameDiffers`)
- A zero expiry or issue instant reads as an absent claim; the window of accepted
  instants is exact with these two cases written out.
  (`OidcTokens.IssuedClaimsAccepted`)
- The exponent of a key survives publication if and only if 3 <= e < 2^32.
  (`OidcKeys.ExponentAgreement`)
- An empty file list requires the merge gate without selecting any domain; for
  every other list the two coincide. (`ChangeRouter.EmptyChange`,
  `ChangeRouter.GateIffDomain`)
- Every raised flag forces the merge gate except two. A change with the receipts
  flag, which documents raise too, needs the gate if and only if it has a file that
  is neither a document nor a design file. The design flag is raised if and only if
  the change is a design change with one of two web files, hence never with the gate.
  (`ChangeRouter.FlagsForceGate`, `ChangeRouter.ReceiptsGate`,
  `ChangeRouter.ReceiptsFlagWithoutGate`, `ChangeRouter.DesignFlagRaised`,
  `ChangeRouter.DesignFlagWithoutGate`)

The version pattern of go.sum lines contains `/go.mod` with an unescaped dot. The
model follows the pattern: any character but a line break may stand there.

## Assumptions

- A database dump is a consistent copy of all tables, and restoring it recreates
  each dumped table and leaves others alone. The file lock dies with its process;
  programs that the process started may outlive it. Applications do not write while
  the lock is held or a marker exists. An operator recovers with the reset and
  restore of the verification script, once no such program is left.
- A transaction commits entirely or not at all. Advancing the catalog adds one and
  fails at the largest 64-bit version. For the repair theorems: applications never
  touch the repair's evidence tables, never lower the catalog version and never
  remove or change audit rows, whose ids are unique.
- The clock of the replay protection never goes back, and the store deletes a
  nonce only when its expiry lies further back than the slack.
- HMAC, SHA-256, RSA, base64url, JSON and time-stamp texts are functions that the
  model does not interpret. Where a theorem needs it, decoding is assumed to undo
  encoding and a signature to verify under the key that made it; signing may fail.
- Go strings are sequences of bytes (characters below 256). The decoded path of a URL
  is the decoding of its escaped path. No key thumbprint is blank.

## Model

| member | source | states |
|---|---|---|
| RecoveryClassifier.LockedModules | scripts/ci_dependency_recovery.py:73-87 | accepts exactly the files whose lines are all well formed, name no archive twice and lock 1 to 1024 modules, and returns the one table those lines define |
| RecoveryClassifier.LockTable | scripts/ci_dependency_recovery.py:74-87 | the accumulation loop builds the unique table with each archive's checksum, or blocks if a line is invalid, a key repeats or the count is out of range |
| RecoveryClassifier.GoEscapeInjective | scripts/ci_dependency_recovery.py:90-91 | proxy escaping loses nothing on text without `!` |
| RecoveryClassifier.EndpointDecides | scripts/ci_dependency_recovery.py:96-97 | two modules share a proxy endpoint if and only if their keys escape alike |
| RecoveryClassifier.SharedDiagnostic | scripts/ci_dependency_recovery.py:94-103 | a diagnostic classified for two modules forces their escaped keys to be equal |
| RecoveryClassifier.AmbiguityCondition | scripts/ci_dependency_recovery.py:94-103 | some diagnostic is classified for both of two modules if and only if their escaped keys are equal |
| RecoveryClassifier.LockedKey | scripts/ci_dependency_recovery.py:75-85 | every key of an accepted lock table is a valid path and version without white space, joined by an at-sign |
| RecoveryClassifier.VersionsInjective | scripts/ci_dependency_recovery.py:80-91 | escaping tells all valid versions apart, even those the unescaped dot lets hold a `!` |
| RecoveryClassifier.KeysEscapeAlike | scripts/ci_dependency_recovery.py:79-91 | keys of lockable modules escape alike if and only if versions are equal and paths escape alike |
| RecoveryClassifier.LockedAmbiguity | scripts/ci_dependency_recovery.py:73-103 | among the modules of an accepted lock table, one diagnostic can incriminate two if and only if versions are equal and paths escape alike |
| RecoveryClassifier.ClassificationUnambiguous | scripts/ci_dependency_recovery.py:73-103 | no diagnostic is a transport failure of two different lockable modules whose paths have no `!` |
| RecoveryClassifier.EscapeCollision | scripts/ci_dependency_recovery.py:90-91 | in any context `!a` and `A` are different names with one escaping |
| RecoveryClassifier.CollidingModulesAreValid | scripts/ci_dependency_recovery.py:79-80 | both names of such a colliding pair pass the go.sum patterns |
| RecoveryClassifier.OneModuleLocked | scripts/ci_dependency_recovery.py:73-87 | for every lockable archive and valid checksum there is a go.sum that locks exactly it |
| RecoveryProtocol.Judge | scripts/ci_dependency_recovery.py:119-127 | a record counts only for a requested locked module, as a download only with the locked checksum, as a loss only with a classified diagnostic |
| RecoveryProtocol.ResultsOf | scripts/ci_dependency_recovery.py:106-134 | yields the failures of a conclusive output and blocks exactly when no failure map makes it conclusive |
| RecoveryProtocol.DownloadResults | scripts/ci_dependency_recovery.py:106-134 | accepts exactly the conclusive outputs: one clean record for each requested module, exit code in agreement with the failures, no alarming diagnostics |
| RecoveryProtocol.DecodedResults | scripts/ci_dependency_recovery.py:116-134 | blocks only if no failure map could make the output conclusive |
| RecoveryProtocol.SettleAttempt | scripts/ci_dependency_recovery.py:118-129 | the record loop returns the failures of records that cover exactly the requested modules once each, and blocks on all others |
| RecoveryAudit.LogNamesDistinct | scripts/ci_dependency_recovery.py:296 | log file names of different attempts or streams never collide |
| RecoveryAudit.ReplayRow | scripts/ci_dependency_recovery.py:294-309 | one attempt is accepted if and only if its request, logs, digests and failures are reproduced by its logs |
| RecoveryAudit.ReplayRows | scripts/ci_dependency_recovery.py:292-310 | the attempt loop accepts if and only if every attempt replays and fits its time bounds |
| RecoveryAudit.VerifyBundle | scripts/ci_dependency_recovery.py:282-313 | accepts exactly the reports that replaying their retained logs reproduces, with exactly the logs of their attempts |
| RecoveryAudit.NeverAgain | scripts/ci_dependency_recovery.py:307-310 | a module that one attempt does not ask for is never asked for again |
| RecoveryAudit.EventuallyDownloaded | scripts/ci_dependency_recovery.py:307-310 | every requested module is downloaded in this attempt or a later one |
| RecoveryAudit.DownloadedOnce | scripts/ci_dependency_recovery.py:293-310 | two download records of a module over all attempts are the same record |
| RecoveryAudit.ReplayIsChain | scripts/ci_dependency_recovery.py:291-310 | an accepted report starts from all locked modules, and each retry asks for exactly what the attempt before it lost |
| RecoveryAudit.AuditSound | scripts/ci_dependency_recovery.py:282-313 | in an accepted bundle each locked module has exactly one download record over all attempts, with the locked checksum |
| RecoveryProducer.Prepare | scripts/ci_dependency_recovery.py:208-261 | ends READY or RECOVERED exactly when some attempt within the budget completes, with the rows and logs of that many attempts; every other exit is BLOCKED with the evidence gathered so far |
| RecoveryProducer.RowsKept | scripts/ci_dependency_recovery.py:235-240 | row i of the receipt is the row of attempt i |
| RecoveryProducer.LogsKept | scripts/ci_dependency_recovery.py:233-234 | the bundle holds exactly the two logs of each attempt with that attempt's output |
| RecoveryProducer.ProducerAgrees | scripts/ci_dependency_recovery.py:208-261 | for every behaviour of the download process, a successful preparation replays through the audit, given that its time stamps fit the workflow step |
| RecoveryProducer.AuditorAgrees | scripts/ci_dependency_recovery.py:282-313 | replaying an accepted report through the preparation completes if and only if no attempt has exit code 124, and then writes that very report and those very logs |
| RecoveryProducer.LastAttemptSucceeded | scripts/ci_dependency_recovery.py:129 | the last attempt of an accepted report has exit code zero, so only retried attempts can carry 124 |
| RecoveryProducer.TimedOutAccepted | scripts/ci_dependency_recovery.py:242 | for every lockable module, checksum and proxy: the auditor accepts a two-attempt report whose first attempt timed out, and the preparation cannot complete it |
| SharedDatabase.EnvelopeRestores | scripts/qualify-evolution-mysql.py:156-161 | reset and restore bring any database back to one that agrees with the dumped original |
| SharedDatabase.EnvelopeExact | scripts/qualify-evolution-mysql.py:41-45 | the envelope returns to exactly the dump if and only if every table added meanwhile has a droppable name |
| SharedDatabase.StrayTableSurvives | scripts/qualify-evolution-mysql.py:43 | a table called biz-x is not droppable and stays after reset and restore |
| SharedDatabase.Workspace.ResetFixtures | scripts/qualify-evolution-mysql.py:41-45 | drops every listed fixture table and nothing else |
| SharedDatabase.Workspace.RestoreBackup | scripts/qualify-evolution-mysql.py:158-159 | dumped tables get their dumped contents, other tables stay |
| SharedDatabase.Workspace.Verify | scripts/qualify-evolution-mysql.py:58-161 | runs exactly without marker, clients or a used backup name; a refusal changes nothing; a run ends unmarked with the original contents, exactly the original if no undroppable table was added |
| SharedDatabase.StepKeeps | scripts/qualify-evolution-mysql.py:53-161 | every step of either script, crash, write by an orphaned program, application write or recovery keeps the protocol invariant, for every repair program |
| SharedDatabase.CrashSafe | scripts/qualify-evolution-mysql.py:53-161 | over all runs of both scripts with crashes anywhere and programs that outlive them: without a written marker the database agrees with the baseline, with one the complete backup it names does |
| SharedDatabase.MarkerFreezes | scripts/repair-ce02-archived-fixtures.py:30-32 | while a marker exists only its owner, a program that outlived its owner, or a recovery changes the database |
| SharedDatabase.QuarantineHolds | scripts/repair-ce02-archived-fixtures.py:49-54 | after a run died with its marker, no sequence of later runs changes marker or backup until an operator recovers, nor the database once no program of the dead run is left |
| SharedDatabase.BaselineMoves | scripts/repair-ce02-archived-fixtures.py:50-55 | what the database ought to hold changes only by applications or at the end of a repair run, and then to exactly what the repair's transaction committed on a copy of the baseline and its verification passed |
| SharedDatabase.RecoveryRestores | scripts/qualify-evolution-mysql.py:59-60 | once no orphaned program is left, recovery from any marker ends unmarked with a database that agrees with the baseline |
| SharedDatabase.RepairTakesEffect | scripts/repair-ce02-archived-fixtures.py:20-56 | from every quiet state the uninterrupted repair script whose transaction commits and verifies takes effect and leaves no lock and no marker |
| FixtureRepair.ValidateAudits | cmd/biz-local-ce02-repair/main.go:223-242 | accepts exactly one proven creation record of core and one of future, in either order |
| FixtureRepair.SaveSnapshots | cmd/biz-local-ce02-repair/main.go:184-188 | appends one snapshot for each audit row, and fails exactly when a key would repeat |
| FixtureRepair.RepairDatabase.Repair | cmd/biz-local-ce02-repair/main.go:123-197 | the transaction either leaves all tables as they were or has exactly the effect of a committed repair |
| FixtureRepair.TransactKeeps | cmd/biz-local-ce02-repair/main.go:123-197 | a transaction keeps the receipt invariant, and the catalog version stays the original one plus repairs plus other advances |
| FixtureRepair.WritesKeep | internal/commercial/infrastructure/consistency/transaction.go:79-99 | so does every write of other programs that leaves the evidence alone |
| FixtureRepair.LaterRunsWriteNothing | cmd/biz-local-ce02-repair/main.go:160-176 | once a repair is in effect every later run leaves all rows alone, succeeds exactly when the preconditions still hold, and then says so |
| FixtureRepair.CommitVerifies | cmd/biz-local-ce02-repair/main.go:244-293 | every commit passes the verification that follows it, with snapshots equal to the audit rows |
| SharedRepair.Ce02NamesProper | scripts/qualify-evolution-mysql.py:41-45 | the seven tables the repair reads are different and fixture resets drop them all |
| SharedRepair.ViewAgrees | scripts/qualify-evolution-mysql.py:156-161 | a restored database shows the repair exactly the rows of the original |
| SharedRepair.CommitRefines | cmd/biz-local-ce02-repair/main.go:117-197 | a commit on the database is the transaction on the rows it shows, and no table but the catalog state and the two evidence tables changes |
| SharedRepair.RepairedAtMostOnce | cmd/biz-local-ce02-repair/main.go:121-210 | across all crashes, recoveries and reruns of both scripts at most one repair takes effect, the catalog moved by exactly that and the applications, and what stands has either no trace of a repair or a receipt with after = before + 1 and one snapshot of each of the two creation records |
| SharedRepair.CommittedRuns | cmd/biz-local-ce02-repair/main.go:198-208 | in every reachable state a committed run passes its verification, and is told that the repair was already applied if and only if it was, having written nothing |
| SharedRepair.FirstRepairSucceeds | scripts/repair-ce02-archived-fixtures.py:20-56 | from every quiet state with the archived fixtures in place the script ends with the receipt, one catalog version later, unlocked and unmarked |
| PercentEncoding.EscapeRoundTrip | internal/bizruntime/service_api_auth.go:377-381 | decoding an escaped byte string gives it back, for path segments and for query components |
| PercentEncoding.UnescapeAppend | internal/bizruntime/service_api_auth.go:377 | decoding complete pieces one by one equals decoding the whole |
| ServiceApiQuery.EncodeRoundTrip | internal/bizruntime/service_api_auth.go:394-401 | parsing an encoded list of pairs gives exactly those pairs in order |
| ServiceApiQuery.CanonicalKeepsPairs | internal/bizruntime/service_api_auth.go:390-402 | canonicalisation keeps the multiset of decoded pairs, and its output parses to them in sorted order |
| ServiceApiQuery.CanonicalQueryDecides | internal/bizruntime/service_api_auth.go:390-402 | two parsable queries have one canonical string if and only if their multisets of decoded pairs are equal |
| ServiceApiQuery.CanonicalQueryIdempotent | internal/bizruntime/service_api_auth.go:390-402 | canonicalising twice changes nothing |
| ServiceApiQuery.CanonicalQueryOneLine | internal/bizruntime/service_api_auth.go:401 | a canonical query has no line break |
| ServiceApiQuery.EncodeSorted | internal/bizruntime/service_api_auth.go:398-401 | sorting each key's values and encoding in key order equals sorting all pairs |
| ServiceApiQuery.SortValues | internal/bizruntime/service_api_auth.go:398-400 | visiting the keys in any order leaves every value list sorted and no key changed |
| ServiceApiQuery.CanonicalServiceApiQuery | internal/bizruntime/service_api_auth.go:390-402 | the map-based canonicaliser computes the canonical form of the decoded pairs, and fails exactly on unparsable queries |
| ServiceApiPath.RenderRoundTrip | internal/bizruntime/service_api_auth.go:351-388 | the canonical spelling of clean segments is accepted and decodes to the same segments |
| ServiceApiPath.CanonicalPathIdempotent | internal/bizruntime/service_api_auth.go:351-388 | canonical paths are accepted again unchanged |
| ServiceApiPath.CanonicalPathDecides | internal/bizruntime/service_api_auth.go:351-388 | two accepted paths have one canonical string if and only if they decode to the same segments |
| ServiceApiPath.CanonicalPathOneLine | internal/bizruntime/service_api_auth.go:381-387 | a canonical path has no line break |
| ServiceApiPath.UrlPathSpelled | internal/bizruntime/service_api_auth.go:355-381 | the decoded path of an accepted escaped path is the root or its decoded segments with slashes before them |
| ServiceApiPath.CanonicalSegments | internal/bizruntime/service_api_auth.go:364-382 | the segment loop escapes exactly the decoded segments and fails exactly when one is unacceptable |
| ServiceApiPath.CanonicalServiceApiPath | internal/bizruntime/service_api_auth.go:351-388 | computes the canonical spelling of the decoded segments, and fails exactly on relative, ambiguous or dotted paths |
| SignedRequest.TimestampRoundTrip | internal/bizruntime/service_api_auth.go:251-254 | every 64-bit number has an accepted spelling |
| SignedRequest.ParseTimestamp | internal/bizruntime/service_api_auth.go:251-254 | an accepted timestamp is the one decimal spelling of its 64-bit value |
| SignedRequest.RootRequestWellFormed | internal/bizruntime/service_api_auth.go:232-254 | requests that meet all syntactic conditions exist: the root path is well formed at every time, with every method, nonce and digest of the right shape |
| SignedRequest.FieldsOneLine | internal/bizruntime/service_api_auth.go:232-272 | all signed fields of a well-formed request but the method are single lines |
| SignedRequest.FieldsRecovered | internal/bizruntime/service_api_auth.go:333-343 | the joined string determines every field, even with line breaks in the method |
| SignedRequest.SignedStringDecides | internal/bizruntime/service_api_auth.go:232-272 | two well-formed requests have one signed string if and only if they agree in method, decoded segments, query multiset, time, nonce and body digest |
| ServiceApiRoutes.MatchRoute | internal/bizruntime/service_api_auth.go:423-451 | succeeds exactly when each path part fits its template part, and binds each name to its last occurrence |
| ServiceApiRoutes.MatchParts | internal/bizruntime/service_api_auth.go:432-450 | the part loop accepts exactly if all parts match, with the bindings of the whole template |
| ServiceApiRoutes.BindingsLast | internal/bizruntime/service_api_auth.go:443 | a bound name holds the text at its last occurrence in the template |
| ServiceApiRoutes.SubstitutionRestoresPath | internal/bizruntime/service_api_auth.go:423-451 | substituting the bindings gives the slash-trimmed path if and only if equally named parameters matched equal text, so always for distinct names |
| ServiceApiRoutes.RepeatedNameDiffers | internal/bizruntime/service_api_auth.go:443 | a template with one name twice matches every path of two different parts, and substitution does not give that path back |
| ServiceApiRoutes.AnswerRoute | internal/bizruntime/service_api_auth.go:312-320 | what one route contributes to the resolution of a request |
| ServiceApiRoutes.ResolveRoute | internal/bizruntime/service_api_auth.go:309-331 | succeeds exactly when some route matches and all matching routes name one operation; the answer is that of the last matching route |
| ServiceApiRoutes.SignatureBindsOperation | internal/bizruntime/service_api_auth.go:244-272 | well-formed requests with one signed string get the same answer from every route, so they resolve to one operation and tenant, although routes are matched on the decoded path and the canonical path is signed |
| ServiceApiRoutes.CollectRoutes | internal/bizruntime/service_api_auth.go:143-166 | the required operations are those of all credentials, and the table holds exactly the bindings of catalogued required actions |
| ServiceApiRoutes.ResolvedIsRequired | internal/bizruntime/service_api_auth.go:244-250 | a resolved operation is always among those that require a signature |
| ServiceApiRoutes.ResolutionIgnoresTies | internal/bizruntime/service_api_auth.go:167-172 | all sorted arrangements of one route table resolve every request alike, so the unstable sort cannot be observed |
| NonceWindow.AcceptedOnce | internal/bizruntime/service_api_auth.go:251-302 | on a clock that never goes back no signed request is accepted twice, whatever is interleaved, if no attempt stalls longer than the store's slack |
| NonceWindow.StallBound | internal/access/infrastructure/persistence/service_api_signature.go:178-199 | single acceptance holds over all runs if and only if the tolerated stall is within the slack of the purge |
| NonceWindow.StalledRunStates | internal/access/infrastructure/persistence/service_api_signature.go:178-199 | the states of the run in which a stalled second attempt is accepted after the purge, for every request |
| NonceWindow.StalledTwice | internal/access/infrastructure/persistence/service_api_signature.go:197 | for every stall beyond the slack every request is accepted twice in some run on a clock that never goes back |
| DeliveryRuns.Newest | scripts/delivery_execution.py:82-87 | selects a run that no other run is newer than, and none only from an empty list |
| DeliveryRuns.Superseded | scripts/delivery_execution.py:82-99 | with a newer matching run in the list, the newest run's reference differs from the earlier one's |
| DeliveryRuns.NewestIgnoresOrder | scripts/delivery_execution.py:82-87 | with distinct ids and attempts the selection depends on the set of runs only |
| QualificationWait.LeaseStep | scripts/delivery_execution.py:294-296 | the progress record always starts at the first poll of the current stall |
| QualificationWait.LeaseDecides | scripts/delivery_execution.py:300 | the lease test succeeds exactly when some stall has lasted as long as the lease |
| QualificationWait.WaitedStep | scripts/delivery_execution.py:278-302 | the wait goes on after a poll exactly if the poll continues, the binding is unchanged and the lease is not up |
| QualificationWait.Examine | scripts/delivery_execution.py:281-299 | one poll ends the wait unless it continues; it qualifies exactly on a succeeded run with clean jobs and the known binding, and refuses on grounds that hold |
| QualificationWait.WaitQualification | scripts/delivery_execution.py:275-302 | terminates within the polls that fit the deadline, at the first poll that does not let the wait go on; qualifies if and only if that poll qualifies with one binding seen throughout |
| QualificationWait.QualifiedPoll | scripts/delivery_execution.py:284-299 | a qualifying poll saw the newest matching run completed with success and no failed job or step |
| MergeReceipts.ExpectedJobsDistinct | scripts/delivery_execution.py:46-50 | expected job names are pairwise distinct, whatever the workflows are called |
| MergeReceipts.FullResultsShape | scripts/delivery_execution.py:53-60 | accepted results are successes of exactly the expected units |
| MergeReceipts.ReceiptAcceptedExactly | scripts/delivery_execution.py:305-314 | an emitted receipt is accepted if and only if contract, candidate, tree, pull request, merge run, qualification and job set are those it was written for |
| MergeReceipts.ReceiptHoldsWhileNewest | scripts/delivery_execution.py:447-463 | an emitted receipt is accepted as long as the newest qualification run is unchanged |
| MergeReceipts.ReceiptSuperseded | scripts/delivery_execution.py:305-314 | it is refused once any newer matching qualification run or attempt exists |
| MergeReceipts.LightweightAcceptedExactly | scripts/delivery_execution.py:221-266 | the lightweight receipt is accepted exactly for its own binding and change class, and never as a full receipt, whatever jobs are expected |
| MergeReceipts.LightweightHoldsWhileNewest | scripts/delivery_execution.py:221-266 | the lightweight receipt is accepted as long as the newest qualification run is unchanged |
| MergeReceipts.LightweightSuperseded | scripts/delivery_execution.py:221-241 | the lightweight receipt is refused once a newer matching qualification run exists |
| MainVerification.ChangedFiles | scripts/delivery_execution.py:196-206 | the files routed are exactly the old and new names of the listed changes, each once, in ascending order |
| MainVerification.LightClasses | scripts/delivery_execution.py:247-249 | a route has a lightweight class if and only if it needs no gate |
| MainVerification.LightweightReceiptOnMain | scripts/delivery_execution.py:347-357 | with unchanged runs a lightweight receipt satisfies main if and only if main's routing needs no gate and has the same class |
| MainVerification.FullReceiptOnMain | scripts/delivery_execution.py:347-357 | with unchanged runs a full receipt satisfies main if and only if main's routing needs the gate |
| MainVerification.SameFilesSameReceipt | scripts/delivery_execution.py:333-357 | with unchanged runs and the same set of changed files main accepts the lightweight receipt that was written, and a full one if and only if the pull request was routed to the gate |
| ProofSources.ReachableStep | scripts/ci_proof_governance.py:86-100 | references of a reachable file lead to reachable files |
| ProofSources.PathStaysInside | scripts/ci_proof_governance.py:86-100 | a closed set that contains the start contains every path from it |
| ProofSources.Sources | scripts/ci_proof_governance.py:68-100 | ends on every finite reference graph, cyclic or not; succeeds exactly when all reachable files may be read; finds exactly the reachable files |
| ProofAudit.FullNamesDistinct | scripts/ci_proof_governance.py:250-253 | names of different units or jobs never collide, so the expected table loses no entry |
| ProofAudit.AuditJobs | scripts/ci_proof_governance.py:278-296 | accepts exactly the listings with one good job for each expected name, with their rows sorted |
| ProofAudit.CollectRows | scripts/ci_proof_governance.py:282-294 | the row loop succeeds exactly if every job is acceptable, with one row for each |
| ProofAudit.OneJobEach | scripts/ci_proof_governance.py:279-281 | acceptance leaves exactly one job for each expected name |
| ProofAudit.RowsDiffer | scripts/ci_proof_governance.py:295 | the sort key tells all rows of an accepted audit apart |
| ProofAudit.AuditIgnoresOrder | scripts/ci_proof_governance.py:278-296 | decision and row list are the same for every order of the job list |
| ProofAudit.StoredRowsConfirmed | scripts/ci_proof_governance.py:426-428 | a rearranged listing confirms the stored rows and no other rows |
| ChangeRouter.Route | scripts/ci_changed_files_router.py:301-405 | the loop over files computes the routing that the set of files determines |
| ChangeRouter.GateIffDomain | scripts/ci_changed_files_router.py:301-405 | for every non-empty change the merge gate is required if and only if a domain is selected |
| ChangeRouter.EmptyChange | scripts/ci_changed_files_router.py:301-405 | without files the gate is required and no domain is selected |
| ChangeRouter.GateMonotone | scripts/ci_changed_files_router.py:301-405 | adding files never removes the gate |
| ChangeRouter.RoutingIgnoresOrder | scripts/ci_changed_files_router.py:301-405 | class, domains and flags depend on the set of files only |
| ChangeRouter.UnknownSourceSelectsCore | scripts/ci_changed_files_router.py:301-405 | source that nothing exempts and no domain claims selects core and the gate in every change that contains it |
| ChangeRouter.RouterCompanions | scripts/ci_changed_files_router.py:249-256 | every skill companion of the router's tables is a design path |
| ChangeRouter.RouterLaws | scripts/ci_changed_files_router.py:16-405 | gate if and only if domain, and monotonicity, for the router with its own tables |
| ChangeRouter.NotExemptForcesGate | scripts/ci_changed_files_router.py:301-325 | one file that no rule exempts forces the gate in every change that contains it |
| ChangeRouter.FlagsForceGate | scripts/ci_changed_files_router.py:16-405 | with the router's own tables every raised flag but the receipts and design flags forces the merge gate, and the design flag excludes it |
| ChangeRouter.ReceiptsFlagWithoutGate | scripts/ci_changed_files_router.py:330-334 | every file below docs/commercial-entitlements raises the receipts flag, alone without the gate |
| ChangeRouter.ReceiptsGate | scripts/ci_changed_files_router.py:301-334 | a change with the receipts flag needs the gate if and only if some file is neither a document nor a design file |
| ChangeRouter.DesignFlagRaised | scripts/ci_changed_files_router.py:323 | the design flag is raised if and only if the change is a design change with one of the two web files |
| ChangeRouter.DesignFlagWithoutGate | scripts/ci_changed_files_router.py:323 | web/AGENTS.md alone raises the design flag without the gate |
| ChangeRouter.ClaimedFilesSelect | scripts/ci_changed_files_router.py:271-298 | with the router's own tables every file that a domain claims, unless it is a design file, selects that domain and the gate in every change that contains it |
| OidcKeys.BigEndianRoundTrip | internal/bizruntime/first_party_idp.go:586-591 | reading big-endian octets gives the number back |
| OidcKeys.BigEndianLength | internal/bizruntime/oidc_client.go:292-299 | a number fits k octets if and only if it is below 256 to the k |
| OidcKeys.DecodeExponent | internal/bizruntime/oidc_client.go:287-304 | the accumulation loop reads the big-endian number and refuses everything outside 1 to 4 octets or below 3 |
| OidcKeys.ExponentAgreement | internal/bizruntime/first_party_idp.go:586-591 | publishing and reading an exponent is the identity exactly for 3 <= e < 2^32 and a refusal otherwise |
| OidcKeys.NewKeySet | internal/bizruntime/first_party_idp.go:46-86 | yields the signing key followed by the previous keys with distinct ids, and fails only if a key is unusable or an id repeats |
| OidcKeys.PublishedUsable | internal/bizruntime/first_party_idp.go:46-86 | every key that a configuration publishes has a modulus and an id that is not blank |
| OidcKeys.FetchKey | internal/bizruntime/oidc_client.go:274-285 | the first candidate with the key id decides, whether or not it decodes |
| OidcKeys.JwkRoundTrip | internal/bizruntime/first_party_idp.go:179-192 | a published key reads back as itself exactly within the exponent bounds |
| OidcKeys.LookupFinds | internal/bizruntime/oidc_client.go:253-285 | with distinct ids, looking up a published id selects that key's entry |
| OidcKeys.LookupMisses | internal/bizruntime/oidc_client.go:253-285 | an id that is not published selects nothing |
| OidcKeys.KeyLookup | internal/bizruntime/oidc_client.go:253-304 | across rotation an id yields the very key published under it, exactly within the exponent bounds, and nothing once it is dropped |
| OidcTokens.IssuedClaimsAccepted | internal/bizruntime/oidc_client.go:226-251 | the relying party accepts issued claims if and only if the nonce matches and the instant lies within life and skew, with zero instants read as absent |
| OidcTokens.IssuedClaimsWindow | internal/bizruntime/first_party_idp.go:427-457 | from one second after the epoch on: accepted if and only if floor(t+T) > now-60s and floor(t) <= now+60s |
| OidcTokens.TokenParts | internal/bizruntime/oidc_client.go:180-184 | a signed token splits into exactly the three texts it was built from |
| OidcTokens.IssuerVerifierAgree | internal/bizruntime/oidc_client.go:180-224 | a grant is redeemed against any later key set with its key if and only if its token was signed, the exponent is publishable and the claims are accepted, and then yields the granted identity |
| OidcTokens.RotationAgrees | internal/bizruntime/first_party_idp.go:46-86 | under every later configuration that yields a key set and still includes the signing key, a grant is redeemed if and only if its token was signed, the exponent is publishable and the claims are accepted, and then yields the granted identity |
| OidcTokens.RetiredKeyRefused | internal/bizruntime/oidc_client.go:253-285 | a key set without the signer's id refuses all its tokens |
| NotificationWriter.Outcome.Remember | internal/bizruntime/notification_http.go:51-70 | the first known failure stays |
| NotificationWriter.ErrorWriter.WriteHeader | internal/bizruntime/notification_http.go:92-113 | the new state of writer and response, as the step on which all runs are built |
| NotificationWriter.ErrorWriter.Write | internal/bizruntime/notification_http.go:114-122 | the new state after bytes; an absorbed write reports its full length, any other what the wrapped writer took, short or in full |
| NotificationWriter.RunBefore | internal/bizruntime/notification_http.go:51-70 | recorded errors alone send nothing and keep the first failure |
| NotificationWriter.RunAfter | internal/bizruntime/notification_http.go:92-122 | after the header no further header is sent, and bytes pass unless suppressed |
| NotificationWriter.RunFromFirst | internal/bizruntime/notification_http.go:92-122 | the first call that touches the response fixes what the client gets |
| NotificationWriter.EveryRun | internal/bizruntime/notification_http.go:84-122 | over every sequence of calls the client gets the asked status and all bytes that were taken, or, for an error status after a recorded failure, exactly that failure once |
| NotificationWriter.AtMostOneHeader | internal/bizruntime/notification_http.go:92-113 | at most one status is ever sent |

## Left out

- Error codes and evidence of refusals: a refusal is a single outcome, except in the qualification wait, whose reasons are kept.
- GitHub API transport, subprocesses, archives and files: their results are inputs. Archive size limits and duplicate archive names are not modelled.
- Bindings, policy hashes, lease and retry authorisation in the recovery script: inputs of each attempt, as are the auditor's comparison of bindings and source hashes and its total time.
- Decoding of JSON, regular expressions other than those written out, base64url, HMAC, SHA-256 and RSA: functions the model does not interpret.
- RecoveryProducer.Prepare: takes the body of one attempt as a function of the attempt number and the request, so clocks and files inside an attempt are fixed in advance by its setting; the loop over attempts, the receipt and the logs are the source's own.
- QualificationWait.WaitQualification: takes the stream of polls as a function, so the API calls of a poll are one observation; the clock is assumed to advance by the poll interval for each sleep.
- Trimming, upper-casing and lower-casing are those of ASCII text.
- The limit that newer Go versions place on the number of query parameters.
- The size limit and restoring of the signed body, header extraction, trimming of configured operations, credential lookup and its validity period.
- MergeReceipts.ReceiptHoldsWhileNewest: states acceptance of the receipt value; its storage as an archive and main's checks of its own tip, tree and repository are not part of this model.
- Proof receipts other than the stored rows, the inventory of workflow jobs and the base-branch comparison of the proof governance script.
- The router's `clean` step and its command line: routing starts from cleaned paths.
- Login, consent, one-time codes and recovery handlers of the identity provider; discovery and the code exchange of the client.
- JSON escaping inside the notification failure line, informational (1xx) statuses and other response headers.
- The provisioning worker, the notification runtime, generated contracts and entitlement wrappers: no algorithm of their own in this repository.
- Fixed marker checks over workflow text and documents: lists of required texts without an algorithm.
