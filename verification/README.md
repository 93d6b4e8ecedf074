# Verified model of Buzz Server

Buzz Server runs managed agents: it keeps their desired state in SQLite, starts and stops their
processes, sanitises what they print, and talks to providers, signers and relays. This project models
the parts whose correctness is hard to see in any one function, and proves what they promise for every
input, every interleaving or every reachable state. `dafny verify dfyconfig.toml` checks all of it.

| modules | part of the system |
|---|---|
| `Operation`, `Tables`, `CommunityRemoval`, `StoreSteps`, `SqliteStore`, `StoreRuns`, `OutboxRuns`, `CommandLaws` | the lifecycle database: transactions, foreign keys, what a command changes, and safety over every run of atomic steps |
| `Worker`, `Wakeup` | the reconciliation worker, and waiting for an operation to finish |
| `Reconcile` | desired state against processes, over a supervisor contract |
| `Text`, `Redaction`, `RedactionLaws`, `LogDrain`, `LogRotation`, `ChildLog` | the child-log pipeline: sanitiser with its laws from line to diagnostic, drain, bounded files, and all of it together |
| `Basics`, `Bytes`, `Sha256`, `Sha256Stream` | what others share; FIPS 180-4 and the streaming hash of provider executables |
| `Sha256Laws`, `Sha256Constants`, `MachineWords`, `MachineSha256`, `Sha256Vector` | what pins the hash: its functions bit by bit, its constants as roots of primes, its rounds on 32-bit vectors, and the digest of "abc" |
| `Activation`, `ProviderDeploy`, `Custody`, `ReplayGuard`, `EventCursor`, `Framing` | crash and concurrency protocols, deduplication, framing |

Code that updates objects is a class or a method with loops, proved against a specification function or
relation. Code that several threads or crashes interleave is a state machine over its atomic steps.

## What does not hold as promised

- Replay freedom needs one clock reading per request. The daemon's guard reads the clock again for the
  claim (src/transport.rs:305-317); `ReplayGuard.SecondAdmission` says exactly when an event is then
  admitted twice, and `ReplayGuard.LaterClaimReadmits` shows one.
- Activation recovery from an absent pointer needs the recorded release path to be canonical, because the
  resolved pointer is compared with the path as recorded; `Activation.CrashIdempotentExactlyWhenResumable`
  gives the exact condition and `Activation.AliasedReleaseIsRejected` a failing host.
- A purged agent stays without a row exactly as long as nothing writes a row for its id. `put_agent` is an
  upsert, and startup lists agents and writes them back while the worker may be purging
  (src/main.rs:916-924): `StoreRuns.PurgeInvExactly`, `StoreRuns.StaleUpsertResurrects`.
- A waiter is woken when `complete_operation` returns Ok. When the audit write after the commit fails, the
  operation is terminal and nobody is notified: `Wakeup.FailedAuditLeavesSleeper`. A waiter sleeps on a
  terminal operation only while a completer is before its notification or has failed after its commit:
  `Wakeup.SleepersAwaitACompleter`.
- Rotation files newer bytes before older ones when earlier segments were deleted:
  `LogRotation.HoleMisorders`. `LogRotation.RotatedBytesLand` says where they land and when that keeps the
  order.
- Each agent has at most one process unless a daemon dies between starting a process and writing its
  receipt. Dying there, and nowhere else, leaves a process that no receipt names
  (`Reconcile.World.ReconcileDesired`, `Reconcile.World.Do`), and the next start makes two
  (`Reconcile.World.StartBesideOrphan`, `Reconcile.World.CrashBeforeReceipt`).
- Only a line of length zero yields nothing in the drain (`LogDrain.WritesNothingExactly`). An empty line
  that ends in carriage return and line feed is redacted like any other text and yields the placeholder
  (`LogDrain.CarriageReturnYieldsPlaceholder`).

## Model

| member | source | states |
|---|---|---|
| Operation.HistoriesAreMonotone | src/operation.rs:27-44 | along any history of allowed transitions progress never decreases and a terminal status is final |
| SqliteStore.SqliteStore.Mutate | src/storage.rs:1038-1118 | the mutation part succeeds iff kind, target, row, community, validation and deadline agree, and then gives exactly the new agent row and retention table |
| SqliteStore.SqliteStore.ApplyAgentCommand | src/storage.rs:1008-1141 | all tables change together or none does; a used key replays its operation or conflicts; a new key succeeds iff the command is admissible |
| CommandLaws.CreateLaw | src/storage.rs:1039-1054 | a committed creation stores exactly the given row under an id that had none, and touches no other agent and no retention |
| CommandLaws.UpdateLaw | src/storage.rs:1055-1075 | a committed update gives name, prompt and runtime each the requested value or the old one, and leaves community, desired state, retention and other agents alone |
| CommandLaws.SetStateLaw | src/storage.rs:1076-1118 | a committed change of state changes only the desired state; a delete stores its time and deadline, an enable removes the retention row, disable and purge leave it |
| CommandLaws.RecordLaw | src/storage.rs:1119-1141 | every committed command adds one pending operation, its key and one audit row, links its draft, and changes no other table |
| CommandLaws.EnableUndoesDelete | src/storage.rs:1076-1118 | a delete followed by an enable leaves every agent as it was, the target enabled, and no retention row of it |
| CommandLaws.RetentionIsOfTheDelete | src/storage.rs:1100-1116 | in every run a retention row carries the time and deadline of a delete of its agent that no enable followed |
| SqliteStore.SqliteStore.ApplyDraftCommand | src/storage.rs:1143-1185 | a draft, its key and audit are saved together, or the earlier document is replayed, or nothing changes |
| SqliteStore.SqliteStore.TransitionOperation | src/storage.rs:874-909 | exactly the allowed transitions commit, changing one row |
| SqliteStore.SqliteStore.CompletePurge | src/storage.rs:1188-1240 | succeeds iff the running purge operation names an existing deleted agent; success, audit, tombstone and deletion are one change |
| SqliteStore.SqliteStore.AgentsOf | src/storage.rs:414-422 | lists exactly the community's agents, in id order |
| SqliteStore.SqliteStore.AllShutDown | src/storage.rs:424-446 | true iff every listed agent is Deleted and its newest delete or purge operation succeeded |
| SqliteStore.SqliteStore.PurgeAgents | src/storage.rs:448-485 | after the loop every listed agent is withdrawn, buried under its own new purge operation and deleted; it fails exactly if an operation id or a new outbox row's id is taken |
| SqliteStore.SqliteStore.WithdrawPersonas | src/storage.rs:487-505 | every projected persona of the community has its tombstone publication queued, older rows kept; it fails exactly if a new row's id is taken |
| SqliteStore.SqliteStore.DeleteCommunity | src/storage.rs:394-513 | removal is all or nothing, with the exact success condition; on success all listed effects and no others |
| CommunityRemoval.AgentStep | src/storage.rs:448-485 | one turn of the agent loop extends the combined effect by one agent, in every table |
| CommunityRemoval.ProgressIsRemoval | src/storage.rs:394-513 | the two loops together queue exactly the owed publications and bury exactly the members |
| SqliteStore.SqliteStore.PutAgent | src/storage.rs:662-672 | an upsert that succeeds iff the row is valid and its community exists |
| SqliteStore.SqliteStore.EnqueuePublication | src/storage.rs:569-581 | one row per action, subject and scope; a pending row is kept as it is; fails exactly when a new row's id is taken or the database fails |
| OutboxRuns.RowIdsStayDistinct | src/storage.rs:569-581 | in every state of every run no two outbox rows share an id |
| OutboxRuns.CompletionRemovesOne | src/storage.rs:617-621 | in every run completing a queued row removes that publication and no other |
| OutboxRuns.OwedStaysQueued | src/storage.rs:448-505 | what a removal owes the relays stays queued under the same id, failures only counted, until that row is completed |
| StoreRuns.StepKeepsPurgeInv | src/application.rs:324-388 | every atomic step that resurrects nobody keeps: purged agents have no row, and tombstones and succeeded purge operations are one to one |
| StoreRuns.PurgeInvExactly | src/storage.rs:662-672 | a step keeps that invariant if and only if it writes no row for a tombstoned agent |
| StoreRuns.StaleUpsertResurrects | src/main.rs:916-924 | a concrete run in which a listing written back after a purge gives the purged agent a row |
| StoreRuns.PurgedStaysPurged | src/storage.rs:394-513 | the invariant in every state of every run from the empty database |
| StoreRuns.PurgeBuriesItsAgent | src/application.rs:324-388 | in every later state the purge operation of a command has succeeded only if the agent that command named is tombstoned under that operation |
| StoreRuns.TombstonesAreForEver | src/storage.rs:1188-1240 | once buried, an agent keeps the same tombstone, has no row, and its purge operation stays Succeeded |
| StoreRuns.RunIsLater | src/storage.rs:874-909 | over any stretch of any run, operations, keys, drafts and tombstones never vanish, terminal statuses and links never change |
| StoreRuns.CommandsAreCounted | src/storage.rs:1008-1141 | committed commands, idempotency rows and accepted audits are equal in number, and each key names its own operation |
| StoreRuns.ReplaysReturnTheOriginal | src/storage.rs:1018-1037 | at any later time a used key changes no table and returns the original operation iff the hash is the same |
| StoreRuns.DraftsArePromotedOnce | src/storage.rs:1127-1137 | no two commands promote one draft, and its link lasts for ever |
| Worker.StartOperation | src/application.rs:312-320 | only the named operation moves, and only forward; it is Running if read and transition succeed, and Ok if the audit does too |
| Worker.CompleteOperation | src/application.rs:324-388 | a purge succeeds exactly if its guards hold on the tables other threads left and the transaction succeeds, and then its agent is buried; anything else ends with exactly the requested status and error, and Ok, if read, transition and audit succeed |
| Worker.OthersKeepStatuses | src/main.rs:1975-1988 | no step of another thread changes the status of an existing operation |
| Worker.Reconcile | src/main.rs:1975-1988 | if every access succeeds, an unfinished operation ends with exactly the status and error reconciliation gave, or stays unfinished if that is not terminal or is a purge whose guards fail; Ok says which; whatever other threads do between any two accesses |
| Worker.HandleOperation | src/main.rs:1702-1749 | if every access succeeds, the operation ends as reconciliation said exactly when that can be completed, and otherwise as Failed with the error internal; with reads and transitions alone it still ends in one of the two |
| Worker.Contain | src/main.rs:1702-1749 | after a failed reconciliation an unfinished operation becomes Failed with the error internal, and a finished one stays as it is |
| Worker.NonterminalOperations | src/storage.rs:864-872 | lists exactly the unfinished operations, oldest first |
| Worker.DrainStartupQueue | src/main.rs:911-915 | after one drain no operation left by a crash is unfinished, and finished ones are unchanged, whatever fails and whatever other threads do for each of them |
| Wakeup.NextKeepsInv | src/application.rs:150-182 | every interleaved step of waiters, completers and deadlines keeps the wakeup invariant |
| Wakeup.NoLostWakeup | src/application.rs:150-182 | a waiter asleep after its operation's completer returned Ok has slept through at least 2^64 notifications |
| Wakeup.UnfinishedOnlyAfterDeadline | src/application.rs:211-226 | an unfinished operation is returned only after the deadline |
| Wakeup.CompletionIsSeen | src/application.rs:211-226 | after completion each step brings a waiter closer to returning, and what it returns is terminal |
| Wakeup.ExpiredReturns | src/application.rs:211-226 | in every run a waiter whose deadline passed takes at most five more steps of its own, and then it has returned |
| Wakeup.WaiterCanStep | src/application.rs:211-226 | in every run a waiter that has not returned can take a step |
| Wakeup.SleepersAwaitACompleter | src/application.rs:324-388 | in runs that start with unfinished operations, a waiter sleeps on a terminal one only if a completer of it has committed and not notified, and none returned Ok |
| Wakeup.FailedAuditLeavesSleeper | src/application.rs:375-386 | a run in which the audit write fails after the commit and the waiter sleeps on |
| Reconcile.TransitionsGoForward | src/launch.rs:589-620 | process states only go to later stages, except between Healthy and Unhealthy, and terminal ones are final |
| Reconcile.World.Inspect | src/supervisor.rs:639-678 | the supervisor contract: terminal exactly when dead, identity unchanged |
| Reconcile.World.Stop | src/supervisor.rs:680-710 | the supervisor contract: on success dead and terminal |
| Reconcile.World.Start | src/supervisor.rs:538-637 | the supervisor contract: on failure no process, on success one new process with the desired identity |
| Reconcile.World.EnsureStarted | src/reconcile.rs:123-153 | adopts exactly if the recorded process lives and matches; otherwise, unless inspection or a needed stop fails, it starts one and the outcome tells how that went; Started or Adopted leaves one recorded live process of the desired launch; dying orphans a process exactly in the window; everything else is spared |
| Reconcile.World.EnsureStopped | src/reconcile.rs:155-173 | Stopped exactly if the recorded process lived and nothing failed, Unchanged exactly if there was nothing to stop, an error only if inspection or the needed stop failed; success leaves no receipt and its process dead; dying at any point orphans nobody; everything else is spared |
| Reconcile.World.ReconcileDesired | src/reconcile.rs:100-121 | success means the desired state holds, and without failures there is success, with the outcome determined by what lived and matched; a settled agent is neither started nor stopped; the state left is free of orphans if and only if the daemon did not die between a start and its receipt |
| Reconcile.World.ReconcileOperation | src/reconcile.rs:76-96 | only a running operation of the agent touches processes or receipts, and then it ends as the desired state's reconciliation does |
| Reconcile.World.ReconcileTwice | src/reconcile.rs:100-121 | an immediate second call starts and stops nothing |
| Reconcile.World.Do | src/reconcile.rs:76-173 | a call, exit or restart, cut off anywhere, leaves orphans if and only if it dies in the window |
| Reconcile.AtMostOneUntilTheWindow | src/reconcile.rs:76-173 | in every run, while no call has died in the window, each agent has at most one live process and its receipt names it; the first that does die there leaves an orphan |
| Reconcile.World.Run | src/reconcile.rs:76-173 | any sequence of calls cut off anywhere, exits and restarts is such a run, so at every moment before which no daemon died in the window at most one process per agent lives |
| Reconcile.World.StartBesideOrphan | src/reconcile.rs:123-153 | beside an orphan that lives on, every call that starts a process makes two |
| Reconcile.World.CrashBeforeReceipt | src/reconcile.rs:139-145 | the reconciler, cut off in the window and called again, ends with two live processes of one agent |
| Redaction.ParseOfPrint | src/supervisor.rs:873-930 | parsing a printed structured diagnostic gives it back |
| Redaction.ParseIsValid | src/supervisor.rs:873-930 | whatever is parsed has only validated fields |
| Redaction.RedactLineInLanguage | src/supervisor.rs:823-871 | every line is redacted to lines of the fixed language |
| Redaction.RedactedOutputInLanguage | src/supervisor.rs:810-821 | the output of every input is lines of that language |
| Redaction.RedactIsIdempotent | src/supervisor.rs:810-821 | redacting twice is redacting once, for every input |
| Redaction.FixedPointsAreTheLanguage | src/supervisor.rs:810-821 | a text is unchanged by redaction if and only if it is lines of the language |
| Redaction.ParseTask | src/supervisor.rs:873-930 | the field loop computes the specified parse |
| Redaction.FreeFormText | src/supervisor.rs:932-1005 | the classifier computes the specified free-form diagnostic, whose text the laws below give |
| Redaction.DiagnosticText | src/supervisor.rs:823-871 | the branches compute the specified diagnosis, in the order that the laws below state |
| Redaction.RedactLog | src/supervisor.rs:810-821 | the line loop computes the specified redaction, line by line as the laws below state |
| RedactionLaws.TaskLaw | src/supervisor.rs:932-1005 | a failed task, turn or request or a reported error that mentions a class in any case becomes the diagnostic with that class, action, phase and rule, earlier classes first; the numerals after the report and exit markers come out as code and exit_code, retry times as retry_at and retry_after_seconds |
| RedactionLaws.UnauthorizedTask | src/supervisor.rs:942-955 | every line that starts as a failed task and mentions unauthorized becomes class unauthorized, action reauthenticate, phase task, rule provider_unauthorized |
| RedactionLaws.InitializationLaw | src/supervisor.rs:844-853 | a failed initialization becomes its label first, then a line for each numeral it reports |
| RedactionLaws.NumeralLaw | src/supervisor.rs:857-866 | a line of no class becomes a line for the reported numeral and one for the exit numeral |
| RedactionLaws.PlaceholderLaw | src/supervisor.rs:810-871 | a line with none of the markers becomes the state label if it starts with the state failure, and otherwise the placeholder |
| RedactionLaws.NumberExactly | src/supervisor.rs:1077-1088 | a numeral is extracted if and only if it is the longest run of digits and minus signs after the marker's first occurrence, and a valid code |
| RedactionLaws.MentionsExactly | src/supervisor.rs:1007-1009 | a lowered line contains one of several texts if and only if one occurs in the line letter by letter in either case |
| RedactionLaws.TrimLaw | src/supervisor.rs:824 | white space around a line is no part of it |
| LogDrain.LineSpecification | src/supervisor.rs:1090-1138 | a stream of lines yields one entry a line in order, an overlong line one placeholder, a short last line its redaction |
| LogDrain.EveryStreamIsLines | src/supervisor.rs:1090-1138 | every byte stream is such lines and a tail |
| LogDrain.DrainBuffer | src/supervisor.rs:1112-1135 | the byte loop over one buffer, with any bytes still to come, conserves the entries to be logged |
| LogDrain.Drain | src/supervisor.rs:1090-1138 | for every split into reads the log is exactly the specified entries, or their beginning if an append fails |
| LogDrain.DrainChunks | src/supervisor.rs:1090-1138 | however a stream is cut into nonempty chunks, the log is the entries of its lines |
| LogDrain.LogIsStable | src/supervisor.rs:810-821 | a drained log is unchanged by redacting it again |
| Redaction.RedactsToNothingExactly | src/supervisor.rs:810-821 | only the empty text is redacted to nothing |
| LogDrain.WritesNothingExactly | src/supervisor.rs:1112-1135 | an entry writes nothing if and only if its bytes decode to the empty text, so only for the line of length zero |
| LogDrain.CarriageReturnYieldsPlaceholder | src/supervisor.rs:1112-1135 | an empty line ended by carriage return and line feed yields the placeholder |
| ChildLog.Record | src/supervisor.rs:1090-1227 | for every split into reads, drained and rotated, the new files hold what is kept of the specified entries in order; with fitting entries and no hole all files are the earlier bytes and exactly the sanitized log |
| LogRotation.RotationKeepsOrder | src/supervisor.rs:1140-1203 | rotating into the first free segment keeps the concatenation of segments and live file |
| LogRotation.NewestIsLast | src/supervisor.rs:1140-1203 | the first free number comes after every segment if and only if the segments have no hole |
| LogRotation.RotatedBytesLand | src/supervisor.rs:1140-1203 | rotated bytes land after all segments below the free number and before all above it, so order is kept exactly when they commute with those above |
| LogRotation.HoleMisorders | src/supervisor.rs:1140-1203 | two appends after the first segment was deleted put the bytes written second first |
| LogRotation.LogFiles.FreeSegment | src/supervisor.rs:1140-1203 | the search ends at the first number that is not taken |
| LogRotation.LogFiles.Rotate | src/supervisor.rs:1140-1203 | no segment is overwritten, accounting moves with its bytes, order is kept when there is no hole |
| LogRotation.LogFiles.Write | src/supervisor.rs:1205-1227 | the kept bytes are appended and no counter saturates |
| LogRotation.LogFiles.Append | src/supervisor.rs:1140-1227 | the live file stays within its limit, captured = stored + truncated + dropped with stored the file length, the kept bytes come last |
| LogRotation.LogFiles.AppendAll | src/supervisor.rs:1140-1227 | in any directory earlier segments stay, and the new ones, in ascending order, with the live file are exactly the kept bytes in order; without a hole so are all files together |
| Sha256.PaddedMeetsStandard | src/provider_discovery.rs:174-181 | the byte padding spells exactly the bit padding of section 5.1.1 of FIPS 180-4 |
| Sha256Laws.AndAt | src/provider_discovery.rs:133 | bit k of a conjunction is set iff bit k of both words is |
| Sha256Laws.XorAt | src/provider_discovery.rs:133 | bit k of an exclusive or is set iff the bits of the two words differ |
| Sha256Laws.NotAt | src/provider_discovery.rs:133 | bit k of a complement is the opposite bit |
| Sha256Laws.RotatedBits | src/provider_discovery.rs:119-124 | a rotation to the right is the cyclic shift of the 32 bits |
| Sha256Laws.ShiftedBits | src/provider_discovery.rs:119-124 | a shift to the right puts zero bits in front and drops the last ones |
| Sha256Laws.ChAt | src/provider_discovery.rs:133 | choice takes the bit of its second word where the first has a one, and of its third elsewhere |
| Sha256Laws.MajAt | src/provider_discovery.rs:140 | majority has the bit that at least two of the three words have |
| Sha256Laws.BigSigma0At | src/provider_discovery.rs:139 | each bit is the parity of the bits 2, 13 and 22 places to its left, cyclically |
| Sha256Laws.BigSigma1At | src/provider_discovery.rs:132 | each bit is the parity of the bits 6, 11 and 25 places to its left, cyclically |
| Sha256Laws.SmallSigma0At | src/provider_discovery.rs:119-121 | each bit is the parity of the bits 7 and 18 places to its left, cyclically, and 3 places to its left if there is one |
| Sha256Laws.SmallSigma1At | src/provider_discovery.rs:122-124 | each bit is the parity of the bits 17 and 19 places to its left, cyclically, and 10 places to its left if there is one |
| Sha256Constants.RoundConstants | src/provider_discovery.rs:101-112 | every round constant is the first 32 fractional bits of the cube root of the prime with its number, as section 4.2.2 of FIPS 180-4 says |
| Sha256Constants.InitialHashValue | src/provider_discovery.rs:97-100 | every initial word is the first 32 fractional bits of the square root of the prime with its number, as section 5.3.3 says |
| Sha256Constants.NthPrimeIsUnique | src/provider_discovery.rs:97-112 | the prime with a number, counted by the primes below it, is one |
| MachineWords.AddIs | src/provider_discovery.rs:125-128 | addition modulo 2^32 is the addition of 32-bit vectors |
| MachineSha256.NextIs | src/provider_discovery.rs:118-129 | the schedule's next word is what the operators of 32-bit vectors give |
| MachineSha256.RoundIs | src/provider_discovery.rs:131-150 | a round is what the operators of 32-bit vectors give, for all variables, constants and words |
| Sha256Vector.AbcDigest | src/provider_discovery.rs:96-190 | the specified digest of the message "abc" is the 32 bytes that the standard's example gives |
| Sha256Stream.Schedule | src/provider_discovery.rs:114-129 | the word array filled in place is the recursive message schedule |
| Sha256Stream.Mix | src/provider_discovery.rs:130-150 | the eight-variable loop is 64 rounds of section 6.2.2; rows above pin what a round computes |
| Sha256Stream.Compress | src/provider_discovery.rs:113-154 | the state becomes the specified next hash value |
| Sha256Stream.CompressBlocks | src/provider_discovery.rs:169-171 | compressing block by block is the specified hash of the blocks |
| Sha256Stream.Absorb | src/provider_discovery.rs:167-172 | after each read fewer than 64 bytes stay pending and hashed plus pending bytes are all bytes |
| Sha256Stream.Pad | src/provider_discovery.rs:177-181 | the padded tail is a whole number of blocks |
| Sha256Stream.HashReader | src/provider_discovery.rs:96-190 | for every split into reads the digest is SHA-256 of the bytes; an error iff a read fails or the bit length exceeds 64 bits |
| Sha256Stream.HashChunks | src/provider_discovery.rs:96-190 | however a message is cut into nonempty chunks, the result is the digest of the message |
| Sha256Stream.HexDigest | src/provider_discovery.rs:192-200 | the hexadecimal text parses back to the digest |
| Activation.ReconciledAt | deploy/activation.py:113-151 | what is on disk after a run that is cut off between any two writes |
| Activation.RejectionIsStable | deploy/activation.py:113-145 | a rejection, or a missing record, changes nothing however often it is repeated |
| Activation.CrashIdempotentExactlyWhenResumable | deploy/activation.py:126-151 | interrupted runs followed by a complete one end where one complete run does, if and only if an absent pointer can be resumed |
| Activation.CompleteIsCoherent | deploy/activation.py:127-151 | a complete run leaves a release with its own configuration, no record, and everything else as it was |
| Activation.GoesElsewhere | deploy/activation.py:126-151 | on every host that cannot be resumed the rerun rejects what was published or installs other content over it |
| Activation.NeverMismatched | deploy/activation.py:143-151 | on every accepted host and for all interruptions, an absent pointer is published only with the intended configuration in place, or the previous one if the published path leads to the previous release; a present pointer is never changed; the record goes only once they match |
| Activation.AliasedReleaseIsRejected | deploy/activation.py:126-138 | a host on which the rerun rejects the pointer it published |
| Activation.Guard.LoadRecord | deploy/activation.py:43-66 | a record is read iff version, required fields and absolute paths are in order, and then each part is the field of its name |
| Activation.Guard.Reconcile | deploy/activation.py:113-151 | the sequence of writes has the specified effect at every interruption; it rejects exactly the unacceptable hosts |
| ProviderDeploy.NextKeepsInv | src/provider_reconcile.rs:77-123 | every interleaved step, failure and crash keeps the invariant, and completed records never change |
| ProviderDeploy.AtMostOnce | src/provider_reconcile.rs:77-123 | each request id triggers at most one payload build and one external deploy |
| ProviderDeploy.SameReceipt | src/provider_reconcile.rs:77-150 | all successful callers of a request id get one receipt, for what they asked, of one deploy |
| ProviderDeploy.BeginningACompletedRequest | src/provider_reconcile.rs:94-108 | beginning a completed request with a matching intent returns its receipt, with another intent never succeeds, and changes nothing |
| ProviderDeploy.AbandonedStaysInFlight | src/provider_reconcile.rs:35-46 | a request whose holder died is never deployed again and nobody succeeds |
| Custody.NextKeepsInv | src/custody.rs:81-121 | every interleaved file-system step keeps the published secret complete and unchanged |
| Custody.PublishedIsStable | src/custody.rs:81-121 | in every run a published secret is complete and never changes |
| Custody.Agreement | src/custody.rs:81-121 | all successful provision and load calls return the same key |
| ReplayGuard.RowsWereAdmitted | src/storage.rs:826-841 | every row is an admitted event with its expiry |
| ReplayGuard.AdmittedKeepsItsRow | src/storage.rs:826-841 | an admitted event keeps its row until a claim is made after its expiry |
| ReplayGuard.SecondAdmission | src/transport.rs:305-317 | an event is admitted again if and only if its checks pass and the claim is made after its expiry |
| ReplayGuard.FirstAdmission | src/auth.rs:159-189 | an event not admitted before is admitted if and only if its checks pass and its times can be stored |
| ReplayGuard.NoReplay | src/auth.rs:159-189 | with one clock reading per request no event is authenticated twice in any run |
| ReplayGuard.AdmittedIsChecked | src/auth.rs:155-183 | whoever is admitted passed every check, at a time within the freshness of the event's creation on either side |
| ReplayGuard.LaterClaimReadmits | src/transport.rs:305-317 | with a later second reading one event is admitted twice |
| ReplayGuard.ReplayStore.ClaimReplay | src/storage.rs:826-841 | deletes expired rows and claims an id iff it is absent |
| ReplayGuard.ReplayStore.AuthenticateRequest | src/auth.rs:140-189 | claims only after every check passed and the event is fresh on both sides |
| EventCursor.AcceptancesAreApart | src/events.rs:35-49 | two acceptances of one id have at least 4096 acceptances of other ids between them |
| EventCursor.DroppedWereAccepted | src/events.rs:35-49 | every received id was accepted at some point |
| EventCursor.Cursor.Accept | src/events.rs:35-49 | set and queue hold the same distinct ids, and the decision is that of the simple window |
| EventCursor.Follow | src/events.rs:125-205 | one connection shows exactly the newly accepted events |
| EventCursor.Run | src/events.rs:125-205 | across all reconnects the events shown are those of the simple window over everything received |
| Framing.DecodeOfEncode | src/signer.rs:228-255 | decoding undoes encoding if and only if the payload is at most 16 KiB |
| Framing.ReadDecodesCompleteFrames | src/signer_ipc.rs:86-114 | a bounded read decodes to a payload iff the stream starts with its complete frame within the limit |
| Framing.ReadErrors | src/signer_ipc.rs:86-114 | oversize and truncation are distinct errors with exact conditions |
| Framing.ReadBoundedFrame | src/signer_ipc.rs:86-114 | the frame does not depend on read sizes, nothing past it is consumed, and it errs exactly when a read fails |

## Left out

- The relay, WebSocket, HTTP and TLS code, and draining the publication outbox: input and output over other libraries.
- Process spawning, signals and `/proc`: `Reconcile` works over the supervisor contract; a supervisor call that fails after a spawn is outside it.
- Signatures, key stores and encryption: signature and tag checks are one Boolean.
- SQL text, JSON encoding and migrations: tables are maps; foreign keys are modelled where rows are deleted or inserted. Row validation and request hashes are parameters.
- Agent logs, journals, correlation ids and audit texts in the database: no property above depends on them.
- Configuration refresh in the worker (src/main.rs:2039-2290): it is the `PutAgent` step and an opaque effect.
- Operations and drafts are never deleted: `delete_operation`, `delete_draft` and `purge_agent` of the store have no caller in the daemon.
- Lossy UTF-8 decoding in the drain, and encoding character by character, are parameters.
- The `since` filter and the back-off delays of the event stream.
- SqliteStore.SqliteStore.ApplyAgentCommand: refusals other than key reuse are told apart only as errors, since their order carries no promise.
- Worker.HandleOperation: if a read or transition fails, the contract says only that the operation moved forward, and how it ended if it ended.
- Reconcile.World.EnsureStarted: a receipt write that fails ends the call like a daemon that dies before it, so it is not modelled apart; reading a receipt succeeds.
- Reconcile.World.EnsureStopped: receipt writes and deletions that fail are treated in the same way.
- Reconcile.World.Stop: that success means dead is assumed for adopted processes, where the source reports Lost right after the kill signal without waiting (src/supervisor.rs:680-710).
- Reconcile.World.Start: a failure after the spawn is not modelled; it would leave a process without a receipt, as dying in the window does.
- LogRotation.LogFiles.Append: file operations succeed, as the counters are written only after them.
- Activation.Guard.Reconcile: record fields are texts, release paths do not lead through the current pointer, and paths are compared as texts, where the source's path type ignores trailing slashes and "." parts.
- Custody.Agreement: without a purge, as identities are promised only until one.
- Wakeup.NoLostWakeup: waiters of operations that do not exist return an error at once and are not followed.
