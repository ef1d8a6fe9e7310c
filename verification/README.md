# A verified model of JoyMesh

JoyMesh runs coding harnesses on behalf of a user: it keeps a configuration file, delivers runtime
envelopes through a durable outbox, executes connector tasks on remote nodes, frames the output of
child processes, and records tasks and events in a database. This project models the parts of it that
are hardest to get right and proves what they do for every input, every run or every interleaving.

`dafny verify dfyconfig.toml` checks the whole project. Each module opens with a sentence on what it models.

**The configuration file** (`PythonText`, `ConfigScalars`, `ConfigValues`, `ConfigPrinter`, `ConfigParser`,
`ConfigLines`, `ConfigInvariant`, `ConfigRoundTrip`, `ConfigHeapParser`, `UserConfigs`, `UserConfigRoundTrip`,
`UserConfigForms`, `ConfigMigration`). The printer is a recursive method over a list of pieces. The parser exists
twice: as a state machine over lines in which objects are indices into a store, and as a method over real shared
objects, which is proved to build what the state machine says. `ReadBack` describes what a printed tree is
read as, and the main result is an equivalence over all trees: a tree survives printing and parsing exactly
when it is `Plain`. The typed configuration sits on top, including the migration whose message spans two
lines: the proof says precisely what is lost when a migrated configuration is saved and loaded. What loading
makes of any readable file is described field by field, and so are the forms that the printer never writes:
quotes, comments, lists given as text, older keys, and the faults for which loading fails.

**Durable delivery** (`DeliveryOutbox`, `DeliveryIntake`, `DeliveryAdmission`, `DeliveryWorker`, `DeliveryProtocol`,
`DeliveryRefinement`, `DeliveryBounds`, `DeliveryLimits`, `DeliveryRecovery`, `DeliveryRetries`,
`DeliveryOverlaps`). The outbox, the intake and the worker are classes proved against functions of their tables.
The protocol is a transition system: publishers draw and append,
flushes start from stale snapshots and overlap, the link loses or repeats messages, workers are cancelled
and processes crash. A flush that runs alone is shown to take that system's steps. Several intended
properties hold only under a condition, which is proved exactly. The retry bound holds for every run exactly
when at most one flush may be open at a time, and for k flushes the largest number of transmissions is computed
and shown to be reached. The size bound holds on every run, while the assertion in an append fails exactly when
an envelope comes late to an outbox full of newer ones. After a crash, an acknowledging transport recovers a row
exactly when it was waiting, may still be sent, and does not queue behind a full batch of exhausted rows; a row
left SENT is never transmitted again. Every verdict of the intake has its exact condition, and no inadmissible
envelope is stored on any run.

**Execution on a node** (`NodeJournal`, `NodeExecution`, `NodeOffers`). A durable journal and a volatile key set,
with offers, executors, cancellation, revocation, crashes and restarts as separate steps. A key is launched at
most once in every run exactly when its action is not authenticate, or it cannot be offered at all. Every answer
to an offer has its exact condition, an expired offer launches nothing on any run, and a cancellation ends exactly
the executor whose handle is kept.

**Connector task state** (`TaskStore`, `TaskRaces`, `TaskReports`). Compare-and-swap transitions raced by the
coordinator, the inline runner, cancellation, authentication and the ingestor of node reports. No update is lost on any
interleaving; the report that a task has ended may be, and the proof says exactly when. On every run each
transition is one that its actor may make: a report moves only a task of its own node, connector and plan.

**Route selection** (`RouteCandidates`, `RouteSelection`, `RouteLaws`). Candidates are built check by check, sorted
by a total order and selected; the selected route is shown to meet every hard requirement. Laws about two requests,
harnesses or subscriptions say what each field is worth and what it excludes.

**Stream framing** (`StreamFraming`), **the event log** (`EventLog`) and **the nonce store** (`NonceReplay`)
are modelled as the loops they are and compared with specifications that do not mention chunks, polling or
forgetting.

Where the code does not do what its documentation suggests, the model follows the code:

- An empty list is read back as an empty mapping, and an empty environment allowlist as the default one.
- The migration message is written raw, so its second line ends the `harnesses` section on the next load.
- `pending` never selects rows with status SENT, so a crash between `mark_sent` and the acknowledgement
  strands the row: no later flush picks it up, although flushing is described as the recovery after a restart.
  Exhausted rows stay selectable, so a full batch of them starves every newer row.
- The node keeps one executor handle per task id. When an offer is handled twice, the first executor loses its
  handle and goes on running when the node is revoked or the task is cancelled.
- The ingestor marks a task as ended before it writes the transition. When it breaks off between the two, or
  the write meets a version conflict, later reports from the node are refused as duplicates and the task stays
  open.
- The runner's idempotency key joins node, task id and plan hash by colons. With a colon in a task id, two keys may
  share a name, and a task that was never launched is reported as succeeded.
- A stream of events lists first and checks the run's status afterwards. An event that is appended between the
  two, by a task that then finishes, is never yielded.
- The load that migrates a configuration returns more than the file it writes can be read as: the next load
  may return a different configuration.

## Model

| member | source | states |
|---|---|---|
| PythonText.SplitUnlines | src/joymesh/config.py:467 | cutting a text at its line breaks gives back the single lines it was joined from |
| ConfigScalars.RoundTripNonString | src/joymesh/config.py:449-454 | null, booleans and all integers are parsed back as themselves |
| ConfigScalars.RoundTripString | src/joymesh/config.py:514-531 | a string is parsed as itself if and only if it spells no null, boolean or integer and is not wrapped in matching quotes |
| ConfigScalars.NamesRead | src/joymesh/config.py:514-521 | null and the booleans are read from their names in any mixture of cases, null also from a tilde, and from no other text |
| ConfigScalars.QuotedIsInside | src/joymesh/config.py:522-525 | text in matching quotes is read as the string between them, whatever that spells |
| ConfigScalars.OthersRead | src/joymesh/config.py:526-531 | any other text is the integer it spells, or itself |
| ConfigScalars.IntForms | src/joymesh/config.py:526-528 | underscores between digits and a plus sign make no difference to an integer, and a minus sign negates it |
| ConfigValues.ReadBackFixed | src/joymesh/config.py:422-531 | among printable trees, those that reading back leaves unchanged are exactly the plain ones |
| ConfigValues.PlainIsPrintable | src/joymesh/config.py:422-458 | a plain tree has every entry on lines of its own and only keys that the key pattern matches |
| ConfigPrinter.DumpSimpleYaml | src/joymesh/config.py:422-446 | the loop over entries, with its growing list of pieces, writes the specified text at every indent |
| ConfigPrinter.AppendItems | src/joymesh/config.py:434-443 | the inner loop adds exactly the pieces of the items, in order, behind what is there |
| ConfigPrinter.DumpSplits | src/joymesh/config.py:422-446 | splitting the text of a printable tree yields exactly one line per printed entry or item, at any depth |
| ConfigPrinter.DeeperShifts | src/joymesh/config.py:422-446 | one level deeper, a mapping is written as the same lines, each two spaces further to the right |
| ConfigPrinter.EntryForms | src/joymesh/config.py:425-445 | the lines of an entry: its value behind the key, or what is nested, moved to the right, under the key |
| ConfigPrinter.ItemForms | src/joymesh/config.py:436-443 | the lines of list items: each with its dash, a mapping moved to the right under it |
| ConfigParser.Step | src/joymesh/config.py:467-510 | every line keeps the root at the bottom of a non-empty stack, indents non-decreasing, and each object a dict or a list for good |
| ConfigParser.Pop | src/joymesh/config.py:472-474 | leaving deeper containers keeps the store, shortens the stack to a prefix and never removes the root |
| ConfigParser.OpenList | src/joymesh/config.py:477-488 | a dash finds or makes a list on top of the stack, promoting the pending key's mapping, or finds none |
| ConfigParser.Run | src/joymesh/config.py:461-511 | the parser is total: on every list of lines it ends in a valid state |
| ConfigLines.IgnorableLine | src/joymesh/config.py:467-469 | a blank line or a comment, at any place and indentation, changes nothing of what a file is read as |
| ConfigLines.SkippedExactly | src/joymesh/config.py:468-469 | the lines that the parser skips are exactly the blank ones and the comments |
| ConfigLines.LaterCounts | src/joymesh/config.py:497-510 | of two lines in a row that give one key a value, the later one counts |
| ConfigLines.ItemKeyLost | src/joymesh/config.py:489-492 | a key right behind a dash is lost: the line is read like a dash alone |
| ConfigInvariant.PopTo | src/joymesh/config.py:472-475 | a line at the indent of an enclosing container pops exactly the containers above it |
| ConfigInvariant.KeyLine | src/joymesh/config.py:457-458 | a printed entry line is matched with its own key, indent and trimmed value |
| ConfigInvariant.FilledAdds | src/joymesh/config.py:494-507 | filling a nested mapping through the stack adds exactly one entry to the mapping that contains it and changes nothing else below it |
| ConfigRoundTrip.RunEntries | src/joymesh/config.py:422-511 | parsing the printed lines of any mapping, from any valid state and depth, adds exactly its read-back entries to the container at that indent |
| ConfigRoundTrip.FirstItemPromotes | src/joymesh/config.py:477-488 | the first dash replaces the empty mapping of the pending key by a list, whatever the item is |
| ConfigRoundTrip.ParsePrinted | src/joymesh/config.py:422-511 | for every printable tree, parsing its text gives the tree with strings re-read and empty lists as empty mappings |
| ConfigRoundTrip.ParsedIsPrintable | src/joymesh/config.py:461-511 | whatever the text, the parser returns legal distinct keys and single-line strings |
| ConfigRoundTrip.RoundTripExactlyPlain | src/joymesh/config.py:422-531 | over all trees without exception, printing and parsing is the identity if and only if the tree is plain |
| ConfigHeapParser.Container.SetItem | src/joymesh/config.py:503-510 | assignment to a dict key replaces the value in place or adds the key at the end |
| ConfigHeapParser.FindList | src/joymesh/config.py:477-488 | on shared objects, the promotion of a pending mapping does what the state machine does, through the aliases in tree and stack |
| ConfigHeapParser.ParseLine | src/joymesh/config.py:467-510 | one line changes the object graph, the stack and the pending key as one step of the state machine |
| ConfigHeapParser.ParseSimpleYaml | src/joymesh/config.py:461-511 | the object graph under the returned root holds exactly the tree that the state machine specifies, for every text |
| UserConfigRoundTrip.SortIsSafe | src/joymesh/config.py:108-117 | custom harnesses are written in key order, as a permutation, and stay safe |
| UserConfigRoundTrip.CustomBack | src/joymesh/config.py:83-95 | a safe custom harness is read back field by field, except that an empty allowlist becomes the default |
| UserConfigRoundTrip.GeminiBack | src/joymesh/config.py:234-262 | safe Gemini settings are read back unchanged |
| UserConfigRoundTrip.MappingBack | src/joymesh/config.py:369-384 | reading the re-read tree of a safe configuration gives that configuration with sorted harnesses and replaced empty allowlists |
| UserConfigRoundTrip.SavedConfigReads | src/joymesh/config.py:168-169 | a safe configuration survives as_dict, print, parse and reading, save that harnesses are sorted and empty allowlists replaced |
| UserConfigRoundTrip.LoadMigrates | src/joymesh/config.py:162-174 | loading any readable file that uses a removed id returns and writes a configuration described field by field: selection required, a removed default cleared, the enabled ids without the removed ones in order, the joy or fake message or the older one, and all else as read; without a removed id it returns what it read |
| UserConfigRoundTrip.SavedConfigLoads | src/joymesh/config.py:162-180 | what loading the file of a safe configuration returns and leaves in the file, migration included; it is the saved configuration if and only if no custom allowlist is empty and no removed id is in use |
| UserConfigRoundTrip.LoadFileIs | src/joymesh/config.py:170-174 | loading returns something else than what it read, and rewrites the file, if and only if a removed id is in use |
| UserConfigForms.LoadFailsExactly | src/joymesh/config.py:162-174 | of all texts, loading fails exactly for those with a custom harness whose timeout is text that spells no integer, a mapping or a list |
| UserConfigForms.ListAsText | src/joymesh/config.py:272-276 | a list may be written as one text: its words come back, however many spaces and commas stand between them |
| UserConfigForms.TelemetryIsMetrics | src/joymesh/config.py:369-377 | without a metrics section, a telemetry section is read as one |
| UserConfigForms.OlderDefault | src/joymesh/config.py:268-271 | without a default of its own, the harnesses section has the one under the older key at the root |
| UserConfigForms.OwnDefaultWins | src/joymesh/config.py:268-271 | a default of its own wins over the older key |
| UserConfigForms.ModeForms | src/joymesh/config.py:184-190 | the metrics mode is recognised in any mixture of cases and with white space around it |
| UserConfigForms.ConsentInferred | src/joymesh/config.py:191-194 | consent that is not mentioned counts as given exactly when a mode is recognised |
| UserConfigForms.ApprovalChecked | src/joymesh/config.py:249-251 | an approval mode outside the four is the default one |
| UserConfigForms.CustomDefaults | src/joymesh/config.py:197-231 | an empty section is a custom harness, and a missing one Gemini settings, with all defaults |
| UserConfigForms.TimeoutForms | src/joymesh/config.py:212-227 | what a timeout may be, what it then is, and when it cannot be read |
| UserConfigForms.FlagForms | src/joymesh/config.py:254-259 | a flag is set by every value that Python counts as true |
| UserConfigForms.AbsentForms | src/joymesh/config.py:358-366 | an optional text is missing when it is null, empty, or spells null |
| ConfigMigration.RunCut | src/joymesh/config.py:472-475 | a line at indent 0 inside a section closes the section, and the entries printed after it go to the root |
| ConfigMigration.CutTreeParsed | src/joymesh/config.py:422-511 | a file whose message spans two lines is parsed with the message cut and the later harness entries at the root |
| ConfigMigration.MigratedConfigLoads | src/joymesh/config.py:162-180 | for every safe configuration with removed ids: what loading returns after migrating and saving, that the file stays, and that the result is the migrated configuration if and only if the migration kept an older message and no allowlist is empty |
| ConfigMigration.LoadsOverTime | src/joymesh/config.py:162-180 | loading such a file twice: the first load migrates and writes, the second returns the same configuration if and only if no message was written, and the file no longer changes |
| DeliveryOutbox.Outbox.NextSequence | src/joymesh/delivery/outbox.py:94-107 | sequences are drawn one by one, each once |
| DeliveryOutbox.Outbox.Append | src/joymesh/delivery/outbox.py:109-146 | an append returns the row with the same idempotency key, or inserts a pending row and compacts, or meets the database's refusal or its own row gone |
| DeliveryOutbox.Outbox.Compact | src/joymesh/delivery/outbox.py:184-206 | deletes oldest rows only, as many as exceed the bound, and changes no other row |
| DeliveryOutbox.Outbox.PendingRows | src/joymesh/delivery/outbox.py:162-177 | returns distinct waiting rows in sequence order, as many as fit, none newer than a waiting row left out |
| DeliveryOutbox.Outbox.MarkSent | src/joymesh/delivery/outbox.py:148-149 | sets the status and books an attempt, and changes no other row |
| DeliveryOutbox.Outbox.MarkAcked | src/joymesh/delivery/outbox.py:151-157 | removes exactly the acknowledged row |
| DeliveryOutbox.Outbox.MarkFailed | src/joymesh/delivery/outbox.py:159-160 | sets the status and books an attempt, and changes no other row |
| DeliveryOutbox.EvictedExactlyWhenOldest | src/joymesh/delivery/outbox.py:138-146 | the row just appended is missing, so that the assertion fails, if and only if it is new, the table was full and every row in it is newer; the bound holds after each append |
| DeliveryIntake.AcceptedIsStored | src/joymesh/delivery/intake.py:118-155 | an acknowledgement means that a row with this key and payload hash is stored; no stored row ever changes; only the accepted envelope is added |
| DeliveryIntake.Intake.AcceptEnvelope | src/joymesh/delivery/intake.py:118-155 | the checks in their order, duplicate suppression, conflict and refusal by the database, as the function of the table whose verdicts VerdictExactly states |
| DeliveryAdmission.VerdictExactly | src/joymesh/delivery/intake.py:118-203 | for each reject code, for the refusal by the database and for an acknowledgement, the exact condition on envelope and table |
| DeliveryAdmission.TableExactly | src/joymesh/delivery/intake.py:118-155 | an accepted envelope with a new key is added under that key; nothing else ever changes the table |
| DeliveryAdmission.IntakeAdmissible | src/joymesh/delivery/intake.py:170-203 | on every run, each stored envelope has transport version 1, an allowed and if required the required publisher, the hash of its payload, a private payload and a delivery kind |
| DeliveryAdmission.ResendAnswered | src/joymesh/delivery/intake.py:119-133 | once a key is stored, an admissible envelope with it is answered in every later state by comparing payload hashes, and changes nothing |
| DeliveryAdmission.DeliveredExactly | src/joymesh/delivery/intake.py:118-155 | in every reachable state a delivered request is acknowledged if and only if it is admissible and its key is new or stored with the same hash |
| DeliveryAdmission.SameKeySameRow | src/joymesh/delivery/outbox.py:109-119 | an append is answered with the row of another envelope if and only if both have the same key, given or taken from the id |
| DeliveryWorker.Worker.FlushOnce | src/joymesh/delivery/worker.py:62-101 | a flush selects a batch, deals with each row of its snapshot, leaves the specified table and keeps all its counters |
| DeliveryWorker.CountsAdd | src/joymesh/delivery/worker.py:73-101 | the counters of a batch are the sums over its rows, however it is divided |
| DeliveryWorker.RowCounts | src/joymesh/delivery/worker.py:75-100 | what one row adds to the counters: a transmission unless it is exhausted, a replay if it was attempted before, a drained row if it is acknowledged |
| DeliveryWorker.FlushRemoves | src/joymesh/delivery/worker.py:73-94 | when everything is acknowledged, a flush removes exactly the selected rows that were not exhausted, marks the selected exhausted ones as failed, and changes no other row |
| DeliveryWorker.DrainProgress | src/joymesh/delivery/worker.py:73-101 | an acknowledged flush makes progress if and only if its batch holds a row that is not exhausted, which fewer exhausted rows than slots guarantee |
| DeliveryWorker.DrainsEmpty | src/joymesh/delivery/worker.py:62-101 | with fewer exhausted rows than slots, as many acknowledged flushes as there are live rows remove exactly these |
| DeliveryProtocol.StepKeepsInv | src/joymesh/delivery/worker.py:73-101 | every step of publishers, overlapping flushes, link, intake, cancellation and crash keeps the delivery invariant |
| DeliveryProtocol.DeliveryConserved | src/joymesh/delivery/outbox.py:109-157 | in every reachable state each appended envelope is in the outbox, was dropped by compaction, or is in the intake with its key and payload hash |
| DeliveryProtocol.IntakeHoldsAppended | src/joymesh/delivery/intake.py:112-155 | in every reachable state the intake holds only envelopes a publisher appended, each once and under its own key |
| DeliveryProtocol.IntakeRowsStay | src/joymesh/delivery/intake.py:130-155 | over any run a row stored by the intake is neither changed nor removed |
| DeliveryRefinement.RowRefines | src/joymesh/delivery/worker.py:75-100 | the loop body for one row is a sequence of protocol steps with the same effect on outbox and intake |
| DeliveryRefinement.FlushRefines | src/joymesh/delivery/worker.py:62-101 | a whole undisturbed flush, from its selection to its end, is a legal run of the protocol to the table that the method is proved to leave |
| DeliveryBounds.OutboxBounded | src/joymesh/delivery/outbox.py:184-206 | on every run the outbox stays within its bound |
| DeliveryBounds.EvictedExactly | src/joymesh/delivery/outbox.py:109-146 | on every run, an append does not find its own row if and only if a new envelope comes to an outbox full of newer ones |
| DeliveryBounds.InOrderKeepsNewest | src/joymesh/delivery/outbox.py:94-146 | on every run with appends in sequence order no append loses its own row, and all that was dropped is older than all that is left |
| DeliveryBounds.LateAppendEvicted | src/joymesh/delivery/publisher.py:121-136 | for an outbox of every size, a publisher that drew first and appends last does not find its row again in a run that is legal |
| DeliveryBounds.FlushesInOrder | src/joymesh/delivery/worker.py:73-75 | on every run each flush deals with its rows in sequence order, however flushes overlap |
| DeliveryLimits.StrandedForever | src/joymesh/delivery/outbox.py:162-177 | a SENT row that no running flush holds is never transmitted again on any run: its transmissions stay the same, and it stays as it is or is dropped by compaction |
| DeliveryLimits.CrashStrands | src/joymesh/delivery/outbox.py:162-177 | a crash puts every SENT row in that position |
| DeliveryRecovery.DrainedExactly | src/joymesh/delivery/worker.py:73-101 | acknowledged flushes, as many as there are live rows, drain a row if and only if it is waiting, not exhausted, and fewer exhausted rows than slots come before it |
| DeliveryRecovery.RecoveredExactly | src/joymesh/delivery/outbox.py:162-177 | after a crash in any reachable state, such flushes recover a row if and only if it was waiting, not exhausted, and fewer exhausted rows than slots come before it; rows that were SENT are not recovered |
| DeliveryRecovery.AllFreshRecovered | src/joymesh/delivery/outbox.py:162-177 | with fewer exhausted rows than slots, exactly the rows that were waiting and not exhausted are recovered |
| DeliveryRetries.SentAtMost | src/joymesh/delivery/worker.py:76-100 | with at most k flushes open at a time, no envelope is transmitted more than k plus k (attempts - 1) / (k + 1) times, rounded down, on any run |
| DeliveryRetries.LoneRetryBound | src/joymesh/delivery/worker.py:76-100 | with one flush at a time, in every reachable state an envelope was transmitted at most half the allowed attempts, rounded up |
| DeliveryOverlaps.MostTransmissions | src/joymesh/delivery/worker.py:62-101 | that number is the largest: no run exceeds it, and some run reaches it, for all attempts and all k |
| DeliveryOverlaps.RetryBound | src/joymesh/delivery/worker.py:76-100 | with at most k flushes open at a time, the bound for one flush holds for every envelope of every run if and only if k is one |
| DeliveryOverlaps.OverlapExceedsBound | src/joymesh/delivery/worker.py:62-101 | for every number of allowed attempts, two flushes at a time can transmit an envelope more often than that bound |
| NodeJournal.Journal.Accept | src/joymesh/control_plane/journal.py:71-97 | a row that exists is returned untouched, another is inserted as accepted |
| NodeJournal.Journal.MarkStarted | src/joymesh/control_plane/journal.py:99-112 | starts a row unless it is terminal |
| NodeJournal.Journal.MarkTerminal | src/joymesh/control_plane/journal.py:114-136 | records an outcome unless there is one |
| NodeJournal.Journal.UpdateSequence | src/joymesh/control_plane/journal.py:138-148 | changes the last sequence of one row only |
| NodeExecution.AtMostOnce | src/joymesh/connectors/node_runner.py:89-94 | over all runs of offers, duplicate offers, interleaved executors, cancellations, revocations, crashes and restarts a key passes the runner's check at most once, if and only if its action is not authenticate or it cannot be offered at all |
| NodeExecution.AuthenticateLaunchesTwice | src/joymesh/connectors/node_runner.py:89-94 | a genuine offer handled twice before either executor starts launches an authenticate task twice |
| NodeExecution.StepKeepsLaunchOk | src/joymesh/control_plane/node.py:282-360 | each step keeps the link between launches, journal and key set |
| NodeExecution.StartedNotRelaunched | src/joymesh/control_plane/node.py:302-320 | a started task without a waiting executor is never launched again, whatever its action |
| NodeExecution.CrashForbidsRelaunch | src/joymesh/control_plane/node.py:302-320 | after a crash no started task is launched again, although the key set is lost |
| NodeExecution.FirstTerminalWins | src/joymesh/control_plane/journal.py:114-136 | once terminal, a row keeps status, digest and terminal time on every run |
| NodeExecution.ReplaysFirstOutcome | src/joymesh/control_plane/node.py:266-300 | every later offer of a finished task is answered with that first outcome, unless the node is revoked or the envelope is refused |
| NodeExecution.DigestsMatch | src/joymesh/control_plane/node.py:457-471 | a terminal row carries the digest of its own task and status |
| NodeExecution.ConnectorNode.EstablishSession | src/joymesh/control_plane/node.py:227-239 | takes over the control plane's key if it sends one, as one step |
| NodeExecution.ConnectorNode.AcceptConnectorOffer | src/joymesh/control_plane/node.py:266-355 | makes the checks on revocation, key, expiry, signature, address and journal in their order, replies or raises, and changes the node's state as one step of the transition system; what that step and that reply are is stated by TakenExactly and AnswerExactly |
| NodeOffers.TakenExactly | src/joymesh/control_plane/node.py:266-355 | an offer gets an executor, a handle and a journal row if and only if the node is not revoked and knows the control plane's key, the offer is unexpired, signed and addressed to the node, and the task is neither started nor finished; otherwise nothing changes |
| NodeOffers.AnswerExactly | src/joymesh/control_plane/node.py:266-341 | the exact condition of every answer, and what a replayed or resumed answer carries |
| NodeOffers.LaunchNeedsOffer | src/joymesh/control_plane/security.py:169-175 | on every run, a key gets no executor and no launch unless some step takes an offer of it in the state it finds |
| NodeOffers.ExpiredNeverLaunched | src/joymesh/control_plane/security.py:169-175 | a key whose every offer comes at or after its expiry is never launched |
| NodeOffers.KeyIsLastReceived | src/joymesh/control_plane/node.py:227-239 | the known key is the last one received, until a crash |
| NodeOffers.RowsTell | src/joymesh/control_plane/journal.py:71-112 | on every run an unfinished row reads accepted without reports until it is started, and running from then on |
| NodeOffers.SequenceFollowsReports | src/joymesh/control_plane/journal.py:114-148 | a last sequence changes only with a report or the first outcome of an executor of that task, and then to its sequence |
| NodeOffers.CancelExactly | src/joymesh/control_plane/node.py:254-260 | in every reachable state a cancellation ends exactly one executor, of that task id, if a handle is kept under it, and else changes nothing |
| NodeOffers.CancelReaches | src/joymesh/control_plane/node.py:254-355 | whatever other tasks do meanwhile, a cancellation ends the executor of the offer taken last, and no other |
| NodeOffers.EndTakesHandle | src/joymesh/control_plane/node.py:353-355 | an executor that ends takes along the handle of its task id, even that of another executor, which no cancellation reaches any more |
| NodeOffers.StoppedExactly | src/joymesh/control_plane/node.py:174-177 | stopping and revoking leave exactly the executors that no handle leads to |
| NodeOffers.RevokedStartsNothing | src/joymesh/control_plane/node.py:269-275 | from its revocation to its next crash a node creates no executor |
| NodeOffers.FirstCheckLaunches | src/joymesh/connectors/node_runner.py:89-94 | on every run of tasks whose ids hold no colon, the check of a key that was never launched is passed |
| NodeOffers.NamesApart | src/joymesh/connectors/node_runner.py:89 | keys whose task ids hold no colon have idempotency names of their own |
| NodeOffers.NamesCollide | src/joymesh/connectors/node_runner.py:89 | with a colon in a task id, two keys share a name |
| NodeOffers.ClashReportsSuccess | src/joymesh/connectors/node_runner.py:89-91 | when two keys share a name, a legal run records the second task as succeeded although it was never launched |
| NodeExecution.ConnectorNode.BeginExecution | src/joymesh/control_plane/node.py:357-362 | starts the journal row as one step |
| NodeExecution.ConnectorNode.CheckIdempotency | src/joymesh/connectors/node_runner.py:89-94 | passes the check exactly when it books a launch, as one step |
| NodeExecution.ConnectorNode.ReportSequence | src/joymesh/control_plane/node.py:363-366 | moves the last sequence of its own row only, as one step |
| NodeExecution.ConnectorNode.FailExecution | src/joymesh/control_plane/node.py:353-355 | an executor that raises ends and takes the handle of its task id with it, as one step |
| NodeExecution.ConnectorNode.CancelTask | src/joymesh/control_plane/node.py:254-260 | ends the executor whose handle is kept under the task id, if any, and leaves the journal and the key set alone, as one step |
| NodeExecution.ConnectorNode.StopAll | src/joymesh/control_plane/node.py:174-177 | ends the executors whose handles are kept and no others, as one step |
| NodeExecution.ConnectorNode.RevokeNode | src/joymesh/control_plane/node.py:240-243 | refuses further offers and stops, leaving the journal and the key set alone, as one step |
| NodeExecution.RevokedNodeRuns | src/joymesh/control_plane/node.py:353-355 | when one offer is handled twice, the first executor survives the revocation |
| NodeExecution.ConnectorNode.FinishExecution | src/joymesh/control_plane/node.py:457-471 | records the first outcome, and none while the user is awaited, as one step |
| TaskStore.Store.CreateTask | src/joymesh/connectors/store.py:70-111 | a new task is queued with version 1 and no other row changes |
| TaskStore.Store.TransitionTask | src/joymesh/connectors/store.py:135-162 | the checks in their order, and on success the new status and the next version of that row alone |
| TaskStore.Store.CancelTask | src/joymesh/connectors/lifecycle.py:234-245 | undisturbed, cancels a live task and leaves a terminal one as it is |
| TaskStore.Ingestor.Ingest | src/joymesh/control_plane/gateway.py:202-325 | undisturbed, every kind of report has the specified effect on rows and on the set of ended tasks |
| TaskReports.TransitionExactly | src/joymesh/connectors/store.py:135-162 | the exact condition of every outcome of a transition, and all that a successful one changes |
| TaskReports.ReportExactly | src/joymesh/control_plane/gateway.py:202-325 | an undisturbed report takes a task to a status if and only if it names the task, its node, and as far as given its connector and plan, the task is live, the kind moves it there, and no end of it was reported; nothing else changes |
| TaskReports.AnswerExactly | src/joymesh/control_plane/gateway.py:202-325 | the exact condition under which a report is refused or changes nothing |
| TaskReports.TransitionsLawful | src/joymesh/connectors/store.py:135-162 | on every run of any actors, each transition is one its actor may make on the record it had read; a report moves only a task of its own node, connector and plan, and an accepted report never moves a running task back |
| TaskRaces.StepKeepsInv | src/joymesh/connectors/store.py:135-162 | every step of every actor keeps the link between rows, transitions made and records held |
| TaskRaces.NoLostUpdate | src/joymesh/connectors/store.py:135-162 | on all interleavings a version is one plus the successful transitions, each of which started from the record its actor had read and left no terminal status |
| TaskRaces.RunMovesForward | src/joymesh/connectors/store.py:146-150 | on all runs versions never fall, a version stands for one record, and a terminal task never changes |
| TaskRaces.OneWinner | src/joymesh/connectors/store.py:146-150 | of two actors holding the same version, one successful write makes the other's write void however long it waits |
| TaskRaces.LoneReport | src/joymesh/control_plane/gateway.py:202-325 | the steps of an uninterrupted report amount to the ingestor's method |
| TaskRaces.EndReported | src/joymesh/control_plane/gateway.py:303-324 | an uninterrupted terminal report ends the task if and only if it matches a live task not yet marked as ended |
| TaskRaces.MarkedReportEnds | src/joymesh/control_plane/gateway.py:312-324 | once a report has marked a live task as ended, the task ends on a run of reports if and only if that report gets to its own write before the row changes; otherwise it stays live for good |
| TaskRaces.CutOffReportIsLost | src/joymesh/control_plane/gateway.py:312-322 | after an offer, an accepted and a started report, a success report that breaks off between mark and write leaves the task running and marked as ended |
| TaskRaces.DeafForever | src/joymesh/control_plane/gateway.py:309-318 | a live task marked as ended is never ended by any further reports of its node, until a restart or an act of the control plane |
| TaskRaces.CutOffReportIsLostForGood | src/joymesh/control_plane/gateway.py:312-315 | after that run no further reports of the node end the task, on every continuation |
| StreamFraming.IterBoundedLines | src/joymesh/runtime.py:306-341 | for every cut into chunks, the lines are, in order, the newline-split records of at most 4 MiB, each without the carriage returns at its end, up to the first longer one, which overflows, or else all but a final empty one; the buffer is newline-free and within the limit at every read and never exceeds the limit plus one chunk |
| StreamFraming.FramingFollowsPolicy | src/joymesh/runtime.py:306-341 | the same of framing a stream in one piece, which overflows if and only if an over-long record exists |
| StreamFraming.DeliversUnique | src/joymesh/runtime.py:306-341 | the records leave no choice: they determine the delivered lines and the overflow |
| StreamFraming.RecordsUnique | src/joymesh/runtime.py:327-335 | the newline-split records are the only newline-free records that joined by newlines give the stream |
| RouteCandidates.BuildCandidate | src/joymesh/routing.py:71-193 | the checks made one after the other amount to the hard requirements and the score, every reason is given exactly when it applies, and a candidate is eligible if and only if no blocking reason is given |
| RouteCandidates.CheckHarness | src/joymesh/routing.py:83-137 | availability, capabilities, lists and quota, each with its reason exactly when it applies and its part of the score |
| RouteCandidates.CheckProfile | src/joymesh/routing.py:141-171 | state, approval and reserve of the subscription, each with its reason exactly when it applies and its part of the score |
| RouteCandidates.UnusableIsExplained | src/joymesh/routing.py:71-193 | a route is unusable if and only if a blocking reason applies |
| RouteLaws.BaseScore | src/joymesh/routing.py:85-95 | the score is rounded once, and a mature conformant harness without preference, quota service and subscription has 70 |
| RouteLaws.PreferenceCounts | src/joymesh/routing.py:111-113 | being named as preferred is worth exactly 25, to that harness only |
| RouteLaws.MaturityCounts | src/joymesh/routing.py:87-96 | an experimental or discovery-only maturity costs 10, missing conformance 5 |
| RouteLaws.QuotaServiceCounts | src/joymesh/routing.py:125-137 | the quota service's delta is added, and the service is told whether the allowlist holds exactly this harness |
| RouteLaws.SubscriptionCounts | src/joymesh/routing.py:159-175 | no subscription costs 30, an unknown quota 15, and the cost weight its own amount |
| RouteLaws.RemainingCounts | src/joymesh/routing.py:158-160 | a known quota is worth ten times the fraction that is left, and nothing when none is left |
| RouteLaws.NothingElseCounts | src/joymesh/routing.py:85-175 | no other field of request, harness or subscription bears on the score |
| RouteLaws.NothingAgainst | src/joymesh/routing.py:84-184 | a subscribed harness that nothing speaks against is eligible |
| RouteLaws.RequestExcludes | src/joymesh/routing.py:102-120 | one more required capability excludes exactly the harnesses without it, one more denied id exactly that harness |
| RouteLaws.AllowlistExcludes | src/joymesh/routing.py:115-117 | an allowlist excludes exactly what is not on it, and an empty one nothing |
| RouteLaws.QuotaServiceExcludes | src/joymesh/routing.py:125-137 | the quota service excludes exactly what it blocks |
| RouteLaws.HarnessExcludes | src/joymesh/routing.py:98-184 | an unavailable harness, a missing subscription and a running count at either limit exclude, whatever else holds |
| RouteLaws.SubscriptionExcludes | src/joymesh/routing.py:144-157 | a subscription must be enabled, neither rate limited nor exhausted, and approved if it is paid |
| RouteLaws.ReserveExcludes | src/joymesh/routing.py:159-164 | what is left of a known quota must exceed the reserve; an unknown or unlimited quota excludes nothing |
| RouteLaws.PairsExactly | src/joymesh/routing.py:38-58 | a harness is tried with exactly the subscriptions of its own, or without one if it has none |
| RouteLaws.HighestIsSelected | src/joymesh/routing.py:60-69 | an eligible route that scores higher than all other eligible ones is selected |
| RouteLaws.PreferredIsSelected | src/joymesh/routing.py:31-69 | of two harnesses alike in everything else, in either order, the preview selects the preferred one, when rounding tells scores 25 apart |
| RouteCandidates.PreviewRoutes | src/joymesh/routing.py:31-69 | one candidate for each harness and each of its subscriptions, or for none, sorted as a whole, and the first eligible one |
| RouteCandidates.SelectedIsUsable | src/joymesh/routing.py:31-69 | the selected route meets every hard requirement, no usable route scores higher, and none is selected if and only if no route is usable |
| RouteCandidates.PairsAreDistinct | src/joymesh/routing.py:38-58 | with unique harness and subscription ids, all candidates have distinct ids |
| RouteSelection.Preview | src/joymesh/routing.py:60-69 | sorts the candidates and selects the first eligible one |
| RouteSelection.EnumerationOrderIrrelevant | src/joymesh/routing.py:60-69 | candidates with distinct ids, in whatever order they are enumerated, sort to one list and give one selection |
| RouteSelection.SortedIsUnique | src/joymesh/routing.py:60-67 | the sort key orders candidates with distinct ids in exactly one way |
| RouteSelection.ListedInOrder | src/joymesh/routing.py:60-67 | the list shows eligible routes first, each part by falling score, equal scores in the order of the ids |
| PythonText.StringOrderExactly | src/joymesh/routing.py:60-67 | ids are compared as Python compares strings: a prefix comes first, and else the first different character decides |
| RouteSelection.SelectedIsBest | src/joymesh/routing.py:68-69 | the selected route is eligible, of highest score with ties broken by ids, and absent only when none is eligible |
| EventLog.AppendsKeepLogs | src/joymesh/persistence.py:420-436 | any interleaving of appends to any runs keeps every run's sequences exactly 1 to n and only extends its log |
| EventLog.Database.AppendEvent | src/joymesh/persistence.py:420-436 | the event gets the next sequence of its run, is added to that run's log only, and all logs stay without gaps |
| EventLog.ListingIsRest | src/joymesh/persistence.py:438-447 | the ordered query after a cursor returns exactly the rest of the log |
| EventLog.Reader.Drain | src/joymesh/service.py:883-886 | one poll yields everything new and moves the cursor to the end |
| EventLog.SameLogExactly | src/joymesh/persistence.py:420-436 | a run's log is the same after any appends if and only if none of them was to that run |
| EventLog.LastListing | src/joymesh/service.py:883-897 | the last listing is that of a missing or terminal run, or the one after it, unless the observation ends before |
| EventLog.LastListingExactly | src/joymesh/service.py:887-896 | the loop ends in the first round that finds the run gone, or terminal with nothing new listed; one more listing follows if and only if the run exists and its task is still running then |
| EventLog.StreamEvents | src/joymesh/service.py:880-897 | whatever is appended between and inside the rounds, the yielded events are the run's log up to the last listing, and the whole of any later log if and only if nothing was appended to the run since |
| EventLog.LastEventMissed | src/joymesh/service.py:883-897 | an event appended between a listing and the status check of a run that then is finished is not yielded |
| NonceReplay.NonceStore.Consume | src/joymesh/control_plane/security.py:118-123 | forgets expired nonces and accepts exactly those it does not hold |
| NonceReplay.PurgingIsExact | src/joymesh/control_plane/security.py:112-123 | with a non-decreasing clock and one expiry per nonce, the purging store decides like one that never forgets if and only if no nonce returns after its expiry |
| NonceReplay.UnexpiredDecidedExactly | src/joymesh/control_plane/security.py:80-86 | in particular for messages that pass the expiry check when they are consumed |
| NonceReplay.ExpiredRepeatAccepted | src/joymesh/control_plane/security.py:118-123 | a nonce consumed again at its expiry is accepted twice |

## Left out

- ConfigHeapParser.ParseSimpleYaml: list items that are lists are not part of the value type, because as_dict never produces them.
- Python's limit on the length of integer texts, surrogate code points, and values other than null, booleans, integers, strings, dicts and lists.
- Newline translation and encoding when the configuration file is written to and read from disk; file modes and the creation of directories.
- UserConfigRoundTrip.SavedConfigLoads: a missing file, which loads as the default configuration, is left out; `str()` of a container is a parameter; only configurations whose strings are safe reach it with scalars.
- DeliveryOutbox.Outbox.PendingRows: rows with equal sequences may come in any order, as SQL leaves it open.
- DeliveryOutbox.Outbox.Append: columns that only repeat the envelope, timestamps and the signature are not modelled; payload hash and privacy check are parameters of the intake.
- DeliveryProtocol.DeliveryConserved: envelope ids are taken to be fresh, as random UUIDs are; the transport is a link that answers acknowledged only when the intake accepted.
- DeliveryProtocol.DeliveryConserved: says nothing about delivery after a crash, because rows left SENT are never selected again (see StrandedForever).
- NodeExecution.ConnectorNode.AcceptConnectorOffer: signatures are an abstract relation between offers and keys; messages, their sequence numbers and the replay buffer are not modelled.
- NodeExecution.AtMostOnce: agreement between the journal's outcome and the control plane is not claimed when two offers of one key are handled before either executor starts, since the second executor reports success early.
- What the runner does once it has passed its check: subprocesses, probing, installation, certification and evidence.
- TaskStore.Store.TransitionTask: is one atomic step, although the version check is made in Python and not in the SQL statement; detail texts and timestamps are not modelled.
- TaskStore.Ingestor.Ingest: evidence rows, event rows and the recomputed readiness are not modelled; the sequence numbers of task events are not monotone and nothing is claimed about them.
- TaskRaces.NoLostUpdate: offers to nodes through callbacks, plan approval and hashing happen between the steps and are not modelled.
- StreamFraming.IterBoundedLines: decoding of a record's bytes is not modelled; removing carriage returns commutes with it.
- RouteCandidates.BuildCandidate: numbers are real numbers and rounding to four digits is a parameter, as are running counts and the answers of the quota service; the texts of reasons are reduced to their kinds. A subscription in the state `disabled` that is still enabled is not excluded, as in the code.
- RouteSelection.Preview: harness detection and usage records are not modelled.
- EventLog.StreamEvents: sleeping between polls is left out, and a stream is observed for finitely many polls; the status machine of runs is not modelled, and run statuses are arbitrary.
- NonceReplay.NonceStore.Consume: signatures and hashes of envelopes are not modelled.
- Telemetry consent, readiness and onboarding, adapters, the REST interface, sockets, sandboxes and process supervision.
