# nono: verified models of audit delivery and approval

Dafny models of the parts of nono that decide whether evidence survives and whether a request
is granted, with proofs about every run, every tree and every input.

| file | what it models |
|---|---|
| `Outbox.dfy` | the audit outbox as a transition system: safety over every run, stopped anywhere |
| `SyncSpec.dfy` | what recovery does about every session and what becomes of every listed item: the specification of a sync pass, and its conservation law |
| `OutboxClient.dfy` | the client functions that drive the outbox, with every I/O call free to fail and the platform free to answer anything; two shortcomings at concrete inputs |
| `QueueCodec.dfy` | queue items V1 and V2, how a file is decoded, and the body each item posts |
| `ApprovalGraph.dfy` | approval backend configuration: the memoised builder with cycle detection, and the reachability worklist |
| `ApprovalEval.dfy` | consulting a built tree: short-circuiting All/Any with an absolute deadline |
| `PollMachine.dfy` | the platform submit-and-poll exchange against an injected clock |
| `EventLog.dfy` | the crash-tolerant event log reader against a recorder that keeps appending |
| `Sessions.dfy` | session discovery, and the two lookups by name |
| `Cleanup.dfy` | which sessions a cleanup removes |
| `Sanitizer.dfy` | terminal sanitizing against a state machine for ECMA-48 control sequences |
| `SeatbeltRegex.dfy` | the atomic-write rule, read back through a string-literal scanner and a regex parser and matcher |
| `Roadmap.dfy` | the README index splice and the generator's write and check runs |
| `Wrappers.dfy` | shared types |

`dafny verify dfyconfig.toml` verifies everything. The integers are unbounded; saturating and
u64 arithmetic is written out where the source uses it. Durations are nanoseconds.

## What is assumed

- Outbox: the ingest ids an operation may have to mint are fresh (version 7 UUIDs, section 5.7 of
  RFC 9562), for a sync pass `SyncSpec.IdsNeeded` of them; a secure JSON write either happens or
  does not; one client touches the outbox at a time; a session directory belongs to one session,
  whose metadata does not change once written. Which calls fail, what listings, probes and the
  discovery roots show, and what the platform answers are an arbitrary input (`SyncSpec.Io`).
- Event log: a record is written as one JSON object on one line and reads back as itself, and the
  parser accepts a text beginning with `{` only if its braces close. That no proper beginning of
  a record parses is then proved.
- Approval: a leaf is an oracle for an answer and a duration, the clock may advance by any amount
  before any reading, and a webhook's constructibility is a given function of its configuration.

## Where the code does less than one might expect

- The reachability worklist follows the children a webhook lists, which the builder ignores. The
  two agree on every name of a configuration that builds if and only if no webhook reaches a
  terminal that way (`ReachabilityMatchesTrees`, with a counterexample in
  `WebhookChildrenMislead`). Profile validation rejects such webhooks.
- Splicing the README index twice equals splicing it once if and only if no rendered row contains
  the end marker (`SpliceIsStable`, `WriteThenCheck`; a failing input in
  `MarkerTitleIsNeverSettled`). A begin marker in a row is harmless.
- A successful sync leaves exactly the entries its directory listing passed over, so the outbox is
  empty afterwards if and only if there was none: an entry that cannot be read is skipped without
  an error (`Host.RunSync`; a failing input in `SuccessLeavesEntry`).
- A session already in the outbox is queued again, or reported, by recovery if and only if every
  queue file naming it was passed over or could not be read and no receipt of it was seen
  (`QueuedAgainIff`; a failing input in `QueuedTwice`).
- A cleanup keeps its size limit if and only if the budget falls between the same two candidates
  for its sums, which wrap around at 2^64, as for the true ones, as it does whenever the total fits
  a u64. A limit that itself saturates at 2^64 - 1 removes nothing (`SelectForRemoval`; a failing
  input in `WrappedTotalKeepsTooMuch`).

## Model

| member | source | states |
|---|---|---|
| `Outbox.InvKept` | crates/nono-cli/src/audit_client.rs:154-386 | every durable step keeps: items in the outbox carry their ingest id's one body and their session's directory; receipts, POSTs and acknowledgements are sound |
| `Outbox.StepKeepsSession` | crates/nono-cli/src/audit_client.rs:288-319 | no single step drops a session: it stays queued or is already acknowledged |
| `Outbox.InvAlongRun` | crates/nono-cli/src/audit_client.rs:154-386 | the invariant holds in every state of every run |
| `Outbox.QueuedIsNeverLost` | crates/nono-cli/src/audit_client.rs:154-162 | in every run, stopped anywhere, a session once queued is ever after in the outbox or acknowledged by a matching receipt |
| `Outbox.ReceiptsAreEarned` | crates/nono-cli/src/audit_client.rs:370-380 | a receipt file exists only where the platform acknowledged that directory's session |
| `Outbox.PostsAreConsistent` | crates/nono-cli/src/audit_client.rs:321-349 | over a whole run all POSTs of one ingest id carry one body, each sent under the subject that body names as shipper |
| `OutboxClient.Host.BuildQueued` | crates/nono-cli/src/audit_client.rs:243-286 | a session without integrity data, or whose evidence fails, is refused; otherwise the item has a fresh ingest id and carries the session's id, directory, times, Merkle root and chain head, the current tenant and subject, no principal or profile, and the event log, metadata and digest as they were read |
| `OutboxClient.Host.WriteItem` | crates/nono-cli/src/platform_client.rs:454-513 | a write either leaves exactly one new file, named after the ingest id with ".json", that loads as the item, or changes nothing |
| `OutboxClient.Host.PostItem` | crates/nono-cli/src/audit_client.rs:327-377 | one POST of the item's own body under its own shipper; acknowledged exactly when the reply is a success and its receipt names this ingest id and session with status "pending" |
| `OutboxClient.Host.Deliver` | crates/nono-cli/src/audit_client.rs:321-386 | the item leaves the outbox exactly on success, after one POST; then such a receipt came, the session is acknowledged and its directory, if seen, holds that receipt; it fails only if a call failed or no such receipt came |
| `OutboxClient.Host.Remint` | crates/nono-cli/src/audit_client.rs:301-313 | the rebuilt item carries the same session's evidence under the current identity with a new ingest id; it fails only on a fault or missing evidence |
| `OutboxClient.Host.Requeue` | crates/nono-cli/src/audit_client.rs:296-319 | the stale item is replaced by a new one that carries the same session's evidence under the current identity, or stays as it was, or (only if its removal failed) stays beside that new one; nothing else changes and nothing is posted |
| `OutboxClient.Host.MaybeShip` | crates/nono-cli/src/audit_client.rs:154-162 | success means that one POST carrying this session's evidence was acknowledged and the outbox is as before; failure means nothing changed or exactly one new item with that evidence, after at most that one POST; it needs a fault or missing integrity data |
| `OutboxClient.Host.ListOutbox` | crates/nono-cli/src/audit_client.rs:486-504 | each entry the listing reports, once, in order of their paths, and no other; it fails only on a fault |
| `OutboxClient.Host.ProbeAll` | crates/nono-cli/src/audit_client.rs:419-424 | exactly the session ids named by an item that is both listed and readable |
| `OutboxClient.Host.Discover` | crates/nono-cli/src/audit_client.rs:427 | recovery works on what `Sessions.DiscoverSessions` makes of the roots as they show; it fails only on a fault |
| `SyncSpec.EntrySays` | crates/nono-cli/src/audit_session.rs:61-80 | a root's entry counts as a session directory exactly when it is one whose metadata loads, with that metadata |
| `OutboxClient.Host.RecoverOne` | crates/nono-cli/src/audit_client.rs:427-459 | a session is queued or reported exactly when no sign of it was seen and it has integrity data and an end not before enrollment; queued only if due, with its own evidence, never both |
| `OutboxClient.Host.RecoverAll` | crates/nono-cli/src/audit_client.rs:426-461 | the same for every session of the loop, judged by the outbox as it was before the loop; failures are reported in the order of the sessions |
| `OutboxClient.Host.Recover` | crates/nono-cli/src/audit_client.rs:411-462 | recovery only adds items, one per queued session, each for a due session that it saw no sign of; which sessions are queued or reported is settled exactly; a failure needs a fault or an unreadable time |
| `SyncSpec.RecoveredStep` | crates/nono-cli/src/audit_client.rs:427-459 | one more session is settled and the earlier ones stay so: session ids, and with them directories, are distinct |
| `SyncSpec.AddedOncePerSession` | crates/nono-cli/src/audit_client.rs:454-456 | no two items added by one recovery are for the same session |
| `SyncSpec.QueuedAgainIff` | crates/nono-cli/src/audit_client.rs:419-432 | a due session already in the outbox is queued again or reported iff every item naming it was unlisted or unreadable and its receipt was not seen |
| `SyncSpec.CleanRecoveryMissesNone` | crates/nono-cli/src/audit_client.rs:411-462 | after recovery without failures every due session has a receipt or is in the outbox |
| `SyncSpec.NotTriedAgain` | crates/nono-cli/src/audit_client.rs:427-432 | a session dealt with by a recovery without failures gives a later one that sees everything no reason to queue or report it |
| `SyncSpec.NextPassChangesNothing` | crates/nono-cli/src/audit_client.rs:411-462 | two passes: after one without failures, the next one over the same roots leaves the outbox unchanged and reports nothing, if no queue file or receipt is hidden from it |
| `OutboxClient.RecoverTwice` | crates/nono-cli/src/audit_client.rs:411-462 | the same of two calls of the client's own recovery |
| `OutboxClient.QueuedTwice` | crates/nono-cli/src/audit_client.rs:475-479 | a concrete run of recovery that reports no failure and leaves two items for one session |
| `OutboxClient.Host.LoadQueued` | crates/nono-cli/src/audit_client.rs:388-409 | only an item the codec accepts, with a UUID as ingest id, is ever acted on |
| `OutboxClient.Host.SyncOne` | crates/nono-cli/src/audit_client.rs:173-191 | the exact outbox after one listed item: delivered and gone, unchanged, replaced by a re-minted item of its session, or left beside one (only an item of another subject, only after a fault, with nothing posted); at most one POST, for its session; success means acknowledged; it fails only on a fault or an item that cannot be delivered |
| `OutboxClient.Host.SyncAll` | crates/nono-cli/src/audit_client.rs:173-191 | the fates of all listed items account for the whole outbox; the counts are those of the fates, the failures keep the order of the listing, and there is a POST for each delivery and at most one for each item |
| `OutboxClient.Host.SyncListed` | crates/nono-cli/src/audit_client.rs:173-192 | exactly the listed items meet a fate, and the counts, the failures and what remains are right |
| `SyncSpec.SyncedStep` | crates/nono-cli/src/audit_client.rs:173-191 | the account survives one more item: every item not let go is there unchanged, and every new one replaces its own stale item and no other's |
| `SyncSpec.Conservation` | crates/nono-cli/src/audit_client.rs:164-198 | items left = items before - delivered + stale items that stayed beside their replacement |
| `OutboxClient.Host.SyncPass` | crates/nono-cli/src/audit_client.rs:170-198 | the summary of a pass agrees with what it did: sessions found, sessions queued or reported, and the fate of every listed item |
| `SyncSpec.PassConserves` | crates/nono-cli/src/audit_client.rs:164-198 | left = attempted - delivered + stale items beside their replacement + entries passed over; what the summary says remains is that less the entries passed over in counting; the stale ones are among the failures |
| `SyncSpec.SuccessLeavesPassedOver` | crates/nono-cli/src/audit_client.rs:175-212 | after a pass without failures exactly the entries passed over are left, unchanged; the outbox is empty iff there were none |
| `SyncSpec.DueIsSafe` | crates/nono-cli/src/audit_client.rs:411-462 | a due session that recovery left not missing is in the outbox or acknowledged in every later state |
| `OutboxClient.Host.RunSync` | crates/nono-cli/src/audit_client.rs:164-221 | all of the above for the whole command, from discovery on; after success every due session found is safe, and acknowledged if the outbox is empty; it does succeed when nothing fails, every item loads and can be shipped or re-minted, and all times parse |
| `OutboxClient.SuccessLeavesEntry` | crates/nono-cli/src/audit_client.rs:491-503 | a concrete run that succeeds and leaves every item behind |
| `QueueCodec.LoadUndoesEncode` | crates/nono-cli/src/audit_client.rs:44-120 | every V1 and V2 item reads back as itself; an unknown schema is refused by number |
| `QueueCodec.LoadUndoesPreVersioned` | crates/nono-cli/src/audit_client.rs:44-50 | a V2 item written before schema versions reads back as itself |
| `QueueCodec.LoadsIf` | crates/nono-cli/src/audit_client.rs:44-81 | which documents load, field by field: required and optional texts, the schema number, and no unknown field in V1; an unknown schema is refused by number |
| `QueueCodec.LoadReads` | crates/nono-cli/src/audit_client.rs:388-409 | every field of a loaded item is the text the document has under that name |
| `QueueCodec.VersionsAreExclusive` | crates/nono-cli/src/audit_client.rs:52-81 | no document at all can be read under both versions |
| `QueueCodec.RewriteIsStable` | crates/nono-cli/src/audit_client.rs:388-409 | an item read from any accepted document survives rewriting, so retries post one body |
| `QueueCodec.ProbeSeesSession` | crates/nono-cli/src/audit_client.rs:464-480 | the one-field probe agrees with loading, and sees items of unsupported schemas too |
| `QueueCodec.ProbeIs` | crates/nono-cli/src/audit_client.rs:464-480 | the probe finds a session id exactly where a document has a text of that name in its envelope object |
| `QueueCodec.BodyNames` | crates/nono-cli/src/audit_client.rs:112-120 | the posted body holds every field of the item under its own name, metadata and digest exactly in V2 |
| `SyncSpec.BodyCarries` | crates/nono-cli/src/audit_client.rs:243-286 | the body posted for a session holds that session's integrity data, times and evidence and the identity it was built under, each in its own field |
| `ApprovalGraph.UnfoldingIsUnique` | crates/nono-cli/src/approval_runtime.rs:176-222 | a name unfolds to at most one tree, so memoising cannot matter |
| `ApprovalGraph.UnfoldedIsAcyclic` | crates/nono-cli/src/approval_runtime.rs:185-189 | a name that unfolds to a tree is on no cycle |
| `ApprovalGraph.BuildBackend` | crates/nono-cli/src/approval_runtime.rs:176-222 | terminates on every configuration; success returns and records the plain unfolding and restores the visiting set; every error names a real defect, and a defect of the name itself is reported before any below it |
| `ApprovalGraph.BuildAll` | crates/nono-cli/src/approval_runtime.rs:165-174 | succeeds exactly when webhooks are constructible, chains have a mode and known children, and there is no chain cycle; the result is the unfolding of every name, leaves with their configured timeout in seconds or 600 s for a terminal and 60 s for a webhook |
| `ApprovalGraph.BackendReachesTerminal` | crates/nono-cli/src/approval_runtime.rs:94-113 | terminates on every graph and is true exactly when some walk leads to a terminal backend |
| `ApprovalGraph.ReachabilityOfName` | crates/nono-cli/src/approval_runtime.rs:94-113 | for each name that builds, it means "the tree contains a terminal prompt, or a webhook whose own list leads to a terminal" |
| `ApprovalGraph.ReachabilityMatchesTrees` | crates/nono-cli/src/approval_runtime.rs:94-113 | on a configuration that builds, it means "the built tree contains a terminal prompt" for all names iff no webhook's own list leads to a terminal |
| `ApprovalGraph.ChildlessWebhooksReachNone` | crates/nono-cli/src/command_policy.rs:2300-2308 | the agreement holds for every validated configuration that builds |
| `ApprovalGraph.WebhookChildrenMislead` | crates/nono-cli/src/approval_runtime.rs:104-110 | a two-backend configuration on which they disagree |
| `ApprovalEval.ApprovalTimeout` | crates/nono-cli/src/approval_runtime.rs:728-739 | the advertised timeout is the sum over all leaf occurrences of the tree, capped once at the largest duration |
| `ApprovalEval.HoldsIsMonotone` | crates/nono-cli/src/approval_runtime.rs:755-827 | the And/Or formula of a tree over its leaf positions never becomes false when more of them say yes |
| `ApprovalEval.OutcomeGrantsIffFormula` | crates/nono-cli/src/approval_runtime.rs:755-827 | consulted in time, a tree grants iff its And/Or formula is true of the granting positions |
| `ApprovalEval.GrantsAreMonotone` | crates/nono-cli/src/approval_runtime.rs:755-827 | consulted in time, turning positions from non-granting to granting never loses a grant |
| `ApprovalEval.AllSays` | crates/nono-cli/src/approval_runtime.rs:755-792 | the reference evaluation of an All chain: the first child that does not grant decides, with its error, its denial for the session or a denial quoting it; all grants give a session grant iff there are children and each gave one |
| `ApprovalEval.AnySays` | crates/nono-cli/src/approval_runtime.rs:794-827 | the reference evaluation of an Any chain: the first granting child's own answer, or a denial quoting one note per child |
| `ApprovalEval.OutcomeIsLocal` | crates/nono-cli/src/approval_runtime.rs:743-753 | what a subtree answers depends on lateness at its own positions only |
| `ApprovalEval.DemandStep` | crates/nono-cli/src/approval_runtime.rs:755-827 | going on to the next child keeps every question one that the children before it left open |
| `ApprovalEval.ChildIsOrderly` | crates/nono-cli/src/approval_runtime.rs:755-827 | consulting the next child of a chain keeps every leaf asked at its own position, and none asked or answering twice |
| `ApprovalEval.AnswersExist` | crates/nono-cli/src/approval_runtime.rs:755-827 | in every run some assignment of answers to all positions agrees with the replies given, so that the reference evaluation applies |
| `ApprovalEval.SingleUseIsNotWidened` | crates/nono-cli/src/approval_runtime.rs:755-792 | one reply at a leaf reached through All chains only settles it: no grant if it did not grant, no session grant if it granted once, however often that backend occurs elsewhere |
| `ApprovalEval.RequestHook` | crates/nono/src/supervisor/mod.rs:107-120 | under a deadline a webhook is refused when expired and its late result discarded; in between it is asked once, for its own reply |
| `ApprovalEval.RequestLeaf` | crates/nono-cli/src/approval_runtime.rs:229-250 | a leaf is asked once, at its position, and in time its own reply is the answer; any reading at or past the deadline yields Timeout |
| `ApprovalEval.Request` | crates/nono-cli/src/approval_runtime.rs:703-722 | for every tree, surroundings and deadline: each leaf occurrence is asked and answers at most once, with a reply it gave just then to what it was handed; grants are earned by the occurrences that granted in this run (session grants by session-granting ones); elapsed time stays within the leaf timeouts plus whatever overrun each leaf has; the answer is always the full non-short-circuiting evaluation of any answers agreeing with the replies given, where a node read as late answers Timeout; nobody is asked once the children before settle a chain; and a chain already expired asks nobody and answers Timeout |
| `ApprovalEval.RequestChild` | crates/nono-cli/src/approval_runtime.rs:743-753 | every contacted leaf gets exactly the caller's deadline, right after a reading below it and after none at or past it; an expired child is not asked and answers Timeout; the answer is the reference evaluation, late or not |
| `ApprovalEval.RequestAll` | crates/nono-cli/src/approval_runtime.rs:755-792 | the short-circuiting All loop gives the reference outcome over occurrences, so one occurrence's reply never stands in for another's, and asks nobody after the first that does not grant; a grant means no reading was late |
| `ApprovalEval.RequestAny` | crates/nono-cli/src/approval_runtime.rs:794-827 | the short-circuiting Any loop gives the reference outcome over occurrences: the first granting child's own scope, or every collected reason; it asks nobody after the first grant |
| `PollMachine.SendsAreSpaced` | crates/nono-cli/src/approval_runtime.rs:538-544 | the k-th request is sent no earlier than k backoffs |
| `PollMachine.RequestsAreBounded` | crates/nono-cli/src/approval_runtime.rs:509-562 | at most ceil(timeout / backoff) requests |
| `PollMachine.Interpret` | crates/nono-cli/src/approval_runtime.rs:528-560 | which replies leave the exchange open and what each final one decides, state by state |
| `PollMachine.ReadReply` | crates/nono-cli/src/approval_runtime.rs:520-530 | a reply read at or past the timeout is always a Timeout, and an earlier one is judged on its content |
| `PollMachine.SendAndRead` | crates/nono-cli/src/approval_runtime.rs:511-546 | one round trip, with no clock reading after a transport error: what it calls for, and its bound |
| `PollMachine.DrivePlatformApproval` | crates/nono-cli/src/approval_runtime.rs:502-562 | one Submit, then only Polls of the same id after in-time "pending" replies; the exchange ends either on the last reply, with exactly what that reply calls for on a reading below the timeout and Timeout otherwise, or with Timeout on the pause after an in-time "pending" that reached the timeout, up to the last two lags; so no in-time decision is thrown away; all elapsed time is round trips, pauses and lag, and stays below timeout + max(1 s, backoff) plus the last two lags when hops keep their timeout |
| `PollMachine.AnswerLeaf` | crates/nono-cli/src/approval_runtime.rs:502-562 | as a leaf of a tree the exchange answers what its last reply called for, or Timeout, and takes at most its timeout and overrun, which is what the budget of `ApprovalEval.Request` takes |
| `EventLog.ForEachEventRecord` | crates/nono-cli/src/audit_event_reader.rs:35-72 | whatever is appended meanwhile: the fold of the records before the first bad line of the snapshot; no bad line gives false, a bad last line gives true iff tolerated, and any other is an error with its line number |
| `EventLog.CarriageReturnsGo` | crates/nono-cli/src/audit_event_reader.rs:49-53 | a line ended by carriage return and newline loses both, and an unended one keeps its carriage return |
| `EventLog.WhitespaceIs` | crates/nono-cli/src/audit_event_reader.rs:55-57 | the characters a blank line may consist of are exactly those of Unicode's White_Space property |
| `EventLog.CutRecordIsBad` | crates/nono-cli/src/audit_event_reader.rs:58-61 | no proper beginning of a record is taken for a record |
| `EventLog.CutLog` | crates/nono-cli/src/audit_event_reader.rs:35-72 | a recorder's log cut anywhere has exactly the wholly contained records, and a bad last line iff the next one was begun |
| `EventLog.RecomputeSummary` | crates/nono-cli/src/audit_event_reader.rs:108-127 | against a concurrent recorder the tolerant reader succeeds with the recorder's own fold and flags exactly a begun record; the strict one refuses just that |
| `Sessions.ResolveSessionDir` | crates/nono-cli/src/audit_session.rs:153-166 | the directory, fault or absence decided by the first entry that is no rollback session's; absence exactly when there is none |
| `Sessions.StopIs` | crates/nono-cli/src/audit_session.rs:153-166 | which entries are passed over (absent ones, and confirmed ones outside the primary root whose metadata counts snapshots) and which decide |
| `Sessions.LoadSession` | crates/nono-cli/src/audit_session.rs:169-184 | loading is resolving plus reading that directory's metadata |
| `Sessions.LaterRootsAreIgnored` | crates/nono-cli/src/audit_session.rs:106-119 | roots after the deciding one never change either result |
| `Sessions.DiscoverSessions` | crates/nono-cli/src/audit_session.rs:41-94 | exactly the first eligible entry of every session id in root order, each once, newest first and otherwise as listed; an unreadable root is an error |
| `Sessions.NoLaterIs` | crates/nono-cli/src/audit_session.rs:92 | start times are compared at the first place where they differ |
| `Sessions.SortKeepsTies` | crates/nono-cli/src/audit_session.rs:92 | sorting keeps sessions of equal start time in the order they were listed |
| `Cleanup.MaxTotalSizeSplitAt` | crates/nono-cli/src/audit_commands.rs:715-728 | the longest prefix within the budget, with saturation written out |
| `Cleanup.SelectForRemoval` | crates/nono-cli/src/audit_commands.rs:739-788 | only discovered sessions that are not alive, primary or without snapshots, and, if an age but not `all` is asked for, of a known start more than that many days back; a suffix of the candidates; what stays fits the budget unless every candidate goes, and the first one removed would not have fitted, iff the budget falls between the same two candidates for the wrapped sums as for the true ones |
| `Cleanup.AgedSays` | crates/nono-cli/src/audit_commands.rs:739-769 | the filters keep the order and drop exactly the sessions that may not go |
| `Cleanup.CandidatesSay` | crates/nono-cli/src/audit_commands.rs:771-777 | the newest `keep` of what the filters leave are spared, or all of them if there are no more |
| `Cleanup.KeptIsUnderstated` | crates/nono-cli/src/audit_commands.rs:750-784 | the wrapped sums never overstate what stays anyway, and are right iff the total and the candidates wrapped equally often |
| `Cleanup.WrappedTotalKeepsTooMuch` | crates/nono-cli/src/audit_commands.rs:763-788 | two sessions whose sizes wrap around, on which the limit is not kept |
| `Sanitizer.SanitizeForTerminal` | crates/nono-cli/src/audit_commands.rs:1101-1139 | the peeking loops compute the reference state machine; no control characters, never longer |
| `Sanitizer.SkipCsi` | crates/nono-cli/src/audit_commands.rs:1108-1115 | stops just where the machine leaves a CSI sequence |
| `Sanitizer.SkipString` | crates/nono-cli/src/audit_commands.rs:1116-1126 | stops just where the machine leaves a string sequence |
| `Sanitizer.OutputIsControlFree` | crates/nono-cli/src/audit_commands.rs:1131-1135 | output of the machine from any state has no control character and is no longer than its input |
| `Sanitizer.IdentityOnCleanText` | crates/nono-cli/src/audit_commands.rs:1101-1139 | control-free text is unchanged |
| `Sanitizer.SanitizingIsIdempotent` | crates/nono-cli/src/audit_commands.rs:1101-1139 | sanitizing twice is sanitizing once |
| `Sanitizer.RunConcat` | crates/nono-cli/src/audit_commands.rs:1105-1136 | what a continuation becomes depends only on the state reached |
| `Sanitizer.CharacterBecomes` | crates/nono-cli/src/audit_commands.rs:1131-1135 | outside a sequence each C0, DEL or C1 control becomes a blank and every other character stays |
| `Sanitizer.Opened` | crates/nono-cli/src/audit_commands.rs:1105-1130 | what each character behind an ESC opens; any other is treated as if the ESC were not there |
| `Sanitizer.CsiIsRemoved` | crates/nono-cli/src/audit_commands.rs:1108-1115 | a CSI sequence goes, up to and with its final byte from "@" to "~" or the end of the text |
| `Sanitizer.StringIsRemoved` | crates/nono-cli/src/audit_commands.rs:1116-1126 | a string sequence goes, up to and with BEL or ESC backslash or the end of the text |
| `Sanitizer.DistributesIffEndsInText` | crates/nono-cli/src/audit_commands.rs:1101-1139 | sanitizing distributes over whatever follows iff the left part ends outside every sequence |
| `Sanitizer.EscFreeTextEndsInText` | crates/nono-cli/src/audit_commands.rs:1105-1106 | in particular whenever the left part has no ESC |
| `Sanitizer.TruncationIsBounded` | crates/nono-cli/src/command_display.rs:67-79 | text within the bound is unchanged and longer text is its beginning followed by three dots; the bound is kept exactly when it allows the dots; the result stays control-free |
| `Sanitizer.SanitizeReason` | crates/nono-cli/src/audit_commands.rs:1141-1146 | at most 4096 characters, none of them control characters: the sanitized text, or its first 4093 characters and three dots |
| `SeatbeltRegex.RegexEscapePath` | crates/nono-cli/src/capability_ext.rs:479-492 | the loop puts a backslash before each of the fifteen listed characters and copies every other |
| `SeatbeltRegex.EscapeIs` | crates/nono-cli/src/capability_ext.rs:479-492 | which fifteen characters are escaped, and that escaping works character by character |
| `SeatbeltRegex.EscapedTextStaysInside` | crates/nono-cli/src/capability_ext.rs:470-478 | a string-literal scanner passes over escaped text and comes out right behind it |
| `SeatbeltRegex.EscapedTextIsLiteral` | crates/nono-cli/src/capability_ext.rs:479-492 | parsed as an expression, escaped text stands for exactly its own characters |
| `SeatbeltRegex.RegexMatchesExactly` | crates/nono-cli/src/capability_ext.rs:451-452 | for every path the rule, read by a parser with its own list of special characters, matches exactly path + ".tmp." + digits + "." + lowercase hex |
| `SeatbeltRegex.RuleLiteralIsClosed` | crates/nono-cli/src/capability_ext.rs:452-456 | the literal is closed by its own quote and by nothing earlier |
| `SeatbeltRegex.RuleReadsBack` | crates/nono-cli/src/capability_ext.rs:453-456 | read back, the rule is its fixed frame around exactly that expression |
| `SeatbeltRegex.RuleIs` | crates/nono-cli/src/capability_ext.rs:451-456 | the rule's text around the expression |
| `Roadmap.RenderIndex` | scripts/gen-roadmap.py:151-161 | the header and one row per NEP in order, joined by newlines |
| `Roadmap.IndexSays` | scripts/gen-roadmap.py:151-161 | the header row, and number, title, status and impact of each NEP in that order |
| `Roadmap.MarkersDoNotOverlap` | scripts/gen-roadmap.py:23-24 | no end marker starts inside a begin marker |
| `Roadmap.MarkersAre` | scripts/gen-roadmap.py:23-24 | the two marker texts |
| `Roadmap.SpliceFailsIf` | scripts/gen-roadmap.py:202-206 | a splice fails exactly when a marker is missing or an end marker has no begin marker at or before it |
| `Roadmap.SpliceReplaces` | scripts/gen-roadmap.py:202-213 | only the text between the first markers is replaced, by the index on lines of its own |
| `Roadmap.SpliceIsStable` | scripts/gen-roadmap.py:202-213 | splicing again changes nothing iff the index does not contain the end marker |
| `Roadmap.OccursInSomeRow` | scripts/gen-roadmap.py:151-161 | the index contains the end marker iff one row does |
| `Roadmap.Generate` | scripts/gen-roadmap.py:216-244 | what a write leaves on disk and when a check passes |
| `Roadmap.WriteThenCheck` | scripts/gen-roadmap.py:229-244 | a check right after a successful write passes iff no row contains the end marker |
| `Roadmap.MarkerTitleIsNeverSettled` | scripts/gen-roadmap.py:151-161 | a proposal titled with the end marker: the write succeeds and the check right after it fails |

## Left out

- HTTP, TLS, socket transport, request signing and headers: a request is answered by an arbitrary status and body, or fails.
- Construction of a webhook from its URL, auth and enrollment: taken as a given predicate of the configuration.
- The unsigned one-POST webhook contract and its decision vocabulary: a leaf's answer is arbitrary.
- Outbox items whose ingest id is a UUID in a non-canonical spelling: which texts are UUIDs is a given predicate, and ids are compared as text.
- JSON arrays standing in for queue item objects, which the deserializer would also take.
- Interference while one client function runs: another process creating or deleting session directories between its steps.
- PollMachine.DrivePlatformApproval: requires that the client sleeps between polls or that round trips take time; otherwise the source would spin.
- Cleanup.SelectForRemoval: leaves out the removal itself; sums wrap around as in a release build, where a debug build would panic.
- EventLog.RecomputeSummary: the summary builder is an arbitrary fold, and cuts inside a multi-byte character, which are read errors, are not modelled.
- Hash chain, Merkle root, ledger and attestation internals.
- Session id validation and path canonicalization: a lookup entry is absent, unconfirmed or confirmed.
- Frontmatter parsing and the roadmap text itself: NEPs and the rendered roadmap are inputs.
- The access test before an atomic-write rule, the second rule for an unresolved path, and non-UTF-8 paths: one path's rule is modelled.
- Capability deduplication, deny rules and the rest of the sandbox policy.
