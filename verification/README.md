# Remote workspace: a verified model of the operation store and what depends on it

The remote workspace server changes files on behalf of clients that may lose their connection, and
may itself be killed at any moment. Its promise is that a request happens at most once and that a
client that asks again is told what really happened. That promise rests on a crash-safe write-ahead
operation store: two append-only logs, tables in memory that must agree with them, many threads
sharing one append lock, pruning that rewrites the logs, and a startup recovery that decides from a
file's hash and from later records whether each half-finished mutation took place.

`dafny verify dfyconfig.toml` checks everything here.

## How the model is laid out

- `Records`, `Replay`, `Recovery`, `Pruning`, `Replies`: the data the store keeps, what its logs replay
  to, what recovery decides, what pruning keeps and what a request is answered with, as functions.
  `Answers` and `Effects` say what these functions and the methods over them come to, without naming
  them: what a start tells each request, and what each kind of request does to files, logs and tables.
- `Store`, `FsOps`, `Handlers`: the store as an object with its loops and in-place updates, the
  create/edit/delete protocols over the contents of files, and the request handler. Every method is
  proved against the functions above; every append and every install may fail, and the contracts say
  what is left behind when it does. Failures are counted (`faults`), so that a method that reports an
  error owes a cause: a refusal has its condition, anything else a failed call.
- `WriteAhead`, `ExactRecovery`, `CrashRuns`, `RunInvariant`: the server as a state machine over its
  durable steps, with history variables recovery never sees (`landed`: the operations whose install
  changed the workspace; `abandoned`: those given up without an acknowledged withdrawal; `obscured`:
  those whose file another writer changed while their marker was pending, or for whose marker a prune
  left nothing to vouch; `started`: the commands that were started; `promised`: the replies handlers are
  to send; `pruned`: the requests and records prunes dropped), and the theorem that every recovery
  agrees with history. `ProtocolRuns` shows that what the methods of `FsOps` and `Handlers` do to the
  store is a run of this machine. `AtMostOnce`, `Promises`, `LostReplies` and `Fixpoint` build on the same
  machine and functions.
- `ExactCondition`, `Limits`: exactly when recovery is right, for any log at all; and for each hypothesis
  of the run theorem a history that violates it and recovers wrongly.
- `Interleaving`, `Racing`: threads, the append lock, the points between a log line and the change in
  memory, markers taken back, the three writes of a prune, crashes and restarts.
- `TornLog` (over `Utf8`), `Reopen`: the log files byte by byte, and the store the next process opens from
  those bytes.
- `Paging`, `Replace`, `Capture`, `Quoting`, `Multiplexer`, `Framing`: page-by-page reading, the edit
  arithmetic, the bounded capture of output, the argv printers, the client's multiplexer and the
  transfer framing.

## What is assumed

- One server per state directory; a crash is a process crash, after which a completed rename or append
  is there.
- For exact recovery over runs (`CrashRuns`, `WriteAhead`): timestamps strictly increase in the order of
  the log; each file is addressed by one spelling; content is identified with its hash, and no content
  hashes to the deleted-file sentinel. Nothing is promised for a marker whose file was written by others
  (uploads and commands that write among them) after the marker was and while it was pending, for which
  a prune left nothing to vouch, or whose withdrawal was not acknowledged, beyond the condition of
  `RunInvariant.EveryStartIsRightExactlyWhen`. `ExactCondition.RecoveryIsExactExactlyWhen` assumes none of
  this, and `Limits` shows what goes wrong without each.
- At-most-once and lost replies hold over every run, for requests no prune dropped the entry or a record
  of: pruning forgets by design, and `Limits.PrunedRequestIsAnsweredExactlyWhen` says what that costs a
  request in progress. Others may write any file at any time; what they can undo is a mutation of which
  only the marker is on record (`Limits.AnotherWriterUndoes`), and only for those do the landed clause of
  at-most-once and the promise of a reply stop.
- `landed`, `abandoned`, `obscured`, `unseen`, `started`, `promised`, `pruned`, `durable`, `written`, `answered`, `opsBehind`,
  `reqsBehind` and `faults` are history: no modelled step of the server or client reads them.
- JSON, Base64 and SHA-256 are parameters with the laws stated in `TornLog.Lawful`, `Framing.Lawful` and
  `FsOps.Files.HashesAreHashes`; `LawsAreConsistent` in the first two modules gives a codec that meets them.
- In `Multiplexer` the server answers only requests whose line it was sent, possibly more than once.

Where the code's own comments promise more than it does, the model follows the code: a rejected command
whose record is refused by the log is answered with the log's error but replayed with the rejection
(`Replies.ExecIsReplayedAsSent`); an upload whose pending entry cannot be removed is answered with an
error and, after a crash, replayed as done (`Replies.UncleanedUploadIsReplayedOtherwise`); a mutation
answered with an error because its sync failed is answered done after the next start
(`Limits.ErrorBecomesDone`).

## Model

| member | source | states |
|---|---|---|
| RunInvariant.EveryStartRecoversExactly | crates/remote-workspace-server/src/store.rs:275-346 | After any run of claims, mutations, commands, transfers, prunes (finished or not, whatever they drop), appends that fail before or after their line is written, other writers, crashes and half-finished recoveries, the next start synthesizes a commit for a marker if and only if its install landed, drops it otherwise, and reports no conflict for it, unless another writer changed its file after it was written and while it was pending, a prune that replaced the log left nothing to vouch for it or for a later marker of its path, or its withdrawal was not acknowledged |
| RunInvariant.EveryStartIsRightExactlyWhen | crates/remote-workspace-server/src/store.rs:275-346 | After any such run the whole report of the next start is what happened if and only if each of those exempt markers is right: landed and shown by its file or a later record, or not landed with its file as it was and no record continuing from it |
| ExactCondition.RecoveryIsExactExactlyWhen | crates/remote-workspace-server/src/store.rs:275-346 | For any log, workspace and set of landed ids, without hypotheses: recovery reports exactly what happened if and only if every marker is right in that sense |
| RunInvariant.EveryDecisionIsExact | crates/remote-workspace-server/src/store.rs:291-324 | The same for each single decision of a recovery in progress, against the table as it then is |
| RunInvariant.ObscuredOnlyBy | crates/remote-workspace-server/src/store.rs:882-951 | A marker becomes exempt only by another writer of its file while it is pending, or by a prune that replaced the log and cut, itself or after one that did not get that far, what vouched for it or for a later marker of its path; a prune that leaves every landed marker shown by its file or a record exempts none |
| RunInvariant.NewMarkersAreNotExempt | crates/remote-workspace-server/src/store.rs:613-663 | A marker is not exempt when it is written, whoever wrote its file and whatever was pruned before |
| AtMostOnce.EveryRequestHappensAtMostOnce | crates/remote-workspace-server/src/store.rs:348-400 | Over any run, prunes, failed appends and other writers of any file included: a request no prune dropped anything of owns at most one prepared or committed record, and its command was started at most once; a mutation that landed stays on record until a prune drops it, so that at most one of a request ever landed, but for those whose file another writer changed, or that a prune left nothing to vouch for, while their marker was pending |
| LostReplies.EveryLostReplyIsReplayed | crates/remote-workspace-server/src/store.rs:348-400 | Over any run, prunes and other writers included: once the effect of a request is on record and its handler holds its reply or died, whatever the request is answered with in any later state, over any crashes, restarts and recoveries cut off half way, is the reply the handler held or was to send, and every start that serves again has it, as long as no prune drops something of the request and, while only a marker records the effect, no other writer changes its file and no prune leaves nothing to vouch for it |
| LostReplies.EveryRecordedReplyIsReplayed | crates/remote-workspace-server/src/store.rs:368-375 | With the record itself committed, that of a command, a transfer or a mutation, the same whatever others write, as long as no prune drops the entry or a record of the request |
| LostReplies.EveryHeldReplyIsReplayed | crates/remote-workspace-server/src/server.rs:851-881 | In particular every success a handler ever holds, and every rejection whose record is logged, whether or not its line is logged or sent, whatever others write, as long as no prune drops something of the request |
| Fixpoint.RecoverySettlesEverything | crates/remote-workspace-server/src/store.rs:275-403 | After a recovery of any two logs no marker is left, no request is in progress without a result, and the record table is the replay of the log |
| Fixpoint.NothingStaysInProgress | crates/remote-workspace-server/src/store.rs:348-400 | With claim lines as the server writes them, no request at all is left in progress |
| Fixpoint.RecoveryIsAFixpoint | crates/remote-workspace-server/src/store.rs:136-232 | Reloading both logs and recovering again, against any workspace, writes nothing and gives the same records by id and the same request table, cleared requests included |
| Answers.EveryRequestIsAnswered | crates/remote-workspace-server/src/store.rs:275-403 | Over any two logs and any workspace, every request: if one of its markers was not just dropped, the one decided last tells it done, with the record of that id in the final table and a message of the marker's own id and hashes, if it was reported as landed, and StaleFile with the reason if as a conflict; without such a marker a request left in progress gets the reply of its first committed record, or by its kind an error or nothing, and every other keeps its entry |
| Answers.DoneHasItsRecord | crates/remote-workspace-server/src/store.rs:368-375 | A request a start answers done has a committed record of its own in the table the start ends with, and the message is what that record stands for |
| Answers.MarkersAreTold | crates/remote-workspace-server/src/store.rs:325-346 | Whatever table and entries it starts from, deciding any markers tells each request what its deciding marker came to, and no other request anything |
| Answers.VerdictIsTold | crates/remote-workspace-server/src/store.rs:454-503 | One marker: dropped tells nothing, landed tells its request done with the marker's id and hashes, a conflict tells it StaleFile with the reason |
| Answers.DecidedTable | crates/remote-workspace-server/src/store.rs:325-346 | What the table holds under the id of a decided marker is its commit if it was reported as landed, and nothing otherwise |
| Answers.StuckIsResolved | crates/remote-workspace-server/src/store.rs:364-400 | A request left in progress: the reply of its first committed record if there is one; else ExecFailed for a command, InvalidRequest for an unknown kind, and for any other it is forgotten |
| Answers.StuckIsReported | crates/remote-workspace-server/src/store.rs:368-400 | The report on it says which of these: done with that record's id, an error, or cleared |
| Interleaving.TablesRefineLogs | crates/remote-workspace-server/src/store.rs:966-996 | Whenever the append lock is free, after any interleaving of threads, prunes, failed appends, failed file replacements, crashes and restarts, both tables equal the replay of their logs, up to requests recovery cleared, unless a line was written in vain or a prune abandoned since the last prune or start |
| Interleaving.InStepUnlessInVain | crates/remote-workspace-server/src/store.rs:966-996 | Nothing but an append whose sync failed or an abandoned prune takes a table and its log apart, and a start brings them together again |
| Interleaving.OnlyPruningForgets | crates/remote-workspace-server/src/store.rs:882-951 | A record a thread has applied leaves the table only by a prune that selects it away or by a change logged under its own id |
| Interleaving.IdsAreNeverReused | crates/remote-workspace-server/src/store.rs:252-256 | An id ever in the log is below every id allocated later, across prunes, crashes between their three writes, and restarts |
| Racing.OneWinner | crates/remote-workspace-server/src/store.rs:511-547 | Between two prunes of one life of the server, with appends that fail before or after their line is written: of the threads racing for one request id at most one holds it at a time, and one claiming line is written if one got it, never two, beyond the lines reported as failed |
| Racing.NeverTwoWorkers | crates/remote-workspace-server/src/store.rs:511-547 | At no time do two threads work on one request id, over any interleaving with prunes, appends that fail, crashes and restarts; and what is worked on is not answered yet |
| Racing.RememberedForGood | crates/remote-workspace-server/src/store.rs:549-599 | Once the winner has remembered its result, the last line for the id is that terminal one, then and after anything threads do later, appends that fail included |
| TornLog.TornLogLoads | crates/remote-workspace-server/src/store.rs:1028-1070 | After any number of rounds of append, cut anywhere, reload and repair, loading does not refuse, returns every acknowledged record in order and at most the one under way at each cut, and leaves whole newline-terminated lines |
| Paging.PagingIsLossless | crates/remote-workspace-server/src/fs_ops.rs:119-217 | With limits in range and enough pages, following next_offset from 0 reaches the end if and only if the file is valid UTF-8, and the pages are then the file |
| Replace.ProjectionIsExact | crates/remote-workspace-server/src/fs_ops.rs:746-756 | The size projected before a replacement is the length of the replaced text, and no saturating operation saturates |
| Replace.Edit | crates/remote-workspace-server/src/fs_ops.rs:631-775 | An edit is accepted if and only if its base names the text as it is and each replacement, at the content the earlier ones left, has exactly one match or several that are all meant and a result that fits, and the last content has another hash; each content is the one before, cut at the old text and joined with the new. Otherwise nothing comes of it: NoMatch without a match, AmbiguousMatch with several that are not all meant, and the message names the replacement |
| Capture.OutputCapture.Push | crates/remote-workspace-server/src/exec.rs:270-283 | However a stream is split, the buffers are its first 4096 bytes and the last 12288 of the rest |
| Capture.OutputCapture.Finish | crates/remote-workspace-server/src/exec.rs:285-300 | Both texts fit in 4096 and 12288 bytes, decode an end of the stream and are cut only where at most two bytes more could have fitted; kept prefix, kept suffix and omitted bytes add up to the total; a text of at most 4096 bytes is kept whole |
| Capture.Fit | crates/remote-workspace-server/src/exec.rs:313-325 | Trimming ends without slicing out of range, gives the decoding of the kept end of the bytes, within the limit, and gives up no more than it must: all bytes are kept or the text is at most two bytes short of the limit |
| Capture.GivingUp | crates/remote-workspace-server/src/exec.rs:306-325 | Giving up bytes on either side makes the text at most three bytes shorter for each, however they are cut |
| Quoting.PosixRoundTrip | crates/remote-workspace-client/src/lib.rs:984-990 | Every argument list survives being printed and read under the POSIX escape and single-quote rules |
| Quoting.WindowsRoundTrip | crates/remote-workspace-client/src/lib.rs:991-1003 | Every argument list survives being printed and read under the Microsoft C rules, empty strings and trailing backslashes included |
| Quoting.PowershellRoundTrip | crates/remote-workspace-client/src/lib.rs:991-1003 | The whole start script, read by PowerShell, is the code around three strings, of which the second is the executable and the third is read by the program as exactly its arguments |
| Multiplexer.OneInFlight | crates/remote-workspace-client/src/lib.rs:436-523 | Over all interleavings an open serial connection has at most one written request that is unanswered |
| Multiplexer.TurnTimeoutIsNeverWritten | crates/remote-workspace-client/src/lib.rs:446-455 | A request that timed out waiting for its turn was never written |
| Multiplexer.RepliesAreOnesOwn | crates/remote-workspace-client/src/lib.rs:860-913 | A caller receives only the reply that names its own id, which it alone was given |
| Multiplexer.FirstReplyStays | crates/remote-workspace-client/src/lib.rs:904-910 | A second reply for an id changes nothing: each caller receives at most one |
| Framing.DownloadRoundTrip | crates/remote-workspace-client/src/transfer.rs:823-934 | For every file, raw or in Base64 lines, any read pattern and any startup output, the receiver accepts exactly the file |
| Framing.CutDownload | crates/remote-workspace-client/src/transfer.rs:823-934 | On a download stream cut at any byte the receiver fails or has the whole file |
| Framing.AcceptedIsVouchedFor | crates/remote-workspace-client/src/transfer.rs:823-934 | Whatever the stream, a download that is accepted has the size its header declares and the hash the line after its body names |
| Framing.HeaderIsTheFirstObject | crates/remote-workspace-client/src/transfer.rs:823-850 | The first line that starts an object is the header, or the download is refused for it |
| Framing.AcceptedInPieces | crates/remote-workspace-client/src/transfer.rs:851-906 | A Base64 body that is accepted came in lines of at least one and at most the limit's bytes, and is as long as was agreed |
| Framing.UploadRoundTrip | crates/remote-workspace-server/src/transfer.rs:491-551 | For every file, raw or in Base64 lines and any read pattern, the staging file is exactly the file and the sender takes the report for it past any startup output |
| LostReplies.LostReplyIsReplayed | crates/remote-workspace-server/src/store.rs:368-375 | For any two logs, pruned ones included: a start that finds a request in progress and one record of it answers it with what the record stands for |
| Handlers.Handle | crates/remote-workspace-server/src/server.rs:452-663 | A known request touches nothing and is answered from the table: its stored reply, its stored error, or a refusal while it is in progress. A new one is claimed under its kind, does what that kind says (`Effects`: only the named file changes, to the given bytes, the edited text or nothing; one record of the request, kind and path is added; commands, transfers and prunes leave all files alone; a prune keeps the newest `keep` and counts what went and what stayed in that order) and is answered with its result unless the log takes no line. What it leaves behind is what later copies get if and only if it is not a rejected command whose record the log refused |
| Handlers.Execute | crates/remote-workspace-server/src/server.rs:508-557 | Each kind of request does what `Effects` says of it, files, logs, tables and result |
| Handlers.PerformCreate | crates/remote-workspace-server/src/fs_ops.rs:573-604 | A file is created if and only if its text fits, its path resolves, nothing is there and nothing fails; the file then holds the bytes, the last line of the log is the record of this request and path, and every other line and record is as it was |
| Handlers.PerformDelete | crates/remote-workspace-server/src/fs_ops.rs:788-829 | A file is removed if and only if it is there and nothing fails; no other file ever changes, and this one only to be gone |
| Handlers.PerformEdit | crates/remote-workspace-server/src/fs_ops.rs:622-786 | A file is edited if and only if its replacements can all be made and nothing fails; it then holds the last content, and a refusal is theirs |
| Handlers.PerformGc | crates/remote-workspace-server/src/server.rs:621-661 | A prune leaves every marker and the newest `keep` finished operations and counts what went and what stayed |
| Handlers.PerformTransfer | crates/remote-workspace-server/src/transfer.rs:296-315 | A transfer adds one record, of this request, and succeeds if and only if that is logged and its pending entry went |
| Handlers.PerformExec | crates/remote-workspace-server/src/server.rs:699-845 | A command adds one record, of this request and command line, that says whether it was rejected, killed or completed, and changes no file through the store |
| Handlers.AskedAgainUnlessCommand | crates/remote-workspace-server/src/store.rs:364-400 | A request a crash left without a record can be asked again if and only if it is not a command |
| Effects.OutcomeIsOwn | crates/remote-workspace-server/src/fs_ops.rs:328-454 | However a protocol ends, every new line and record is under one new id and carries the request, the kind and the path, and records under other ids stay |
| ProtocolRuns.OutcomeIsARun | crates/remote-workspace-server/src/fs_ops.rs:328-454 | The protocols refine the state machine: every outcome of a create, edit or delete, whichever append or sync failed and however far it got, is in log, table, workspace and landed set a run of its steps, and what a success is answered with is promised, unless a prune had dropped something of the request |
| ProtocolRuns.ExecIsARun | crates/remote-workspace-server/src/server.rs:699-845 | Every ending of a command, with its two appends ending as they may, is a run of the machine's steps, and the reply of a recorded one is promised, unless a prune had dropped something of the request |
| Pruning.PruneSelectsNewest | crates/remote-workspace-server/src/store.rs:895-906 | Pruning is the order-preserving selection of every marker and the newest records of the history |
| Replay.LoadedIsLive | crates/remote-workspace-server/src/store.rs:159-200 | A load builds a sorted table of exactly the live records: last line per id, aborted ids gone |
| Replay.SortedUnique | crates/remote-workspace-server/src/store.rs:195-200 | Only one ordering of a set of records is a load order, so the table does not depend on how it is sorted |
| Replay.UpsertLive | crates/remote-workspace-server/src/store.rs:688-696 | Overwriting or pushing a record changes exactly one id of the table |
| Replay.DropPreparedLive | crates/remote-workspace-server/src/store.rs:421-430 | Dropping a marker removes exactly its id |
| Replay.DecimalRoundTrip | crates/remote-workspace-server/src/store.rs:173-177 | Loading an id reads back the number it was written from |
| Recovery.Markers | crates/remote-workspace-server/src/store.rs:280-289 | The markers collected are exactly the prepared records of the table |
| ExactRecovery.MarkersConcat | crates/remote-workspace-server/src/store.rs:280-289 | They are collected in table order: the markers of two parts are those of the first, then those of the second |
| Recovery.FindCommitted | crates/remote-workspace-server/src/store.rs:728-744 | The first committed record of the request, or none exists |
| WriteAhead.PrepareKeepsGood | crates/remote-workspace-server/src/store.rs:613-663 | Writing a marker for the state the file is in keeps the write-ahead invariant |
| WriteAhead.InstallKeepsGood | crates/remote-workspace-server/src/fs_ops.rs:469-483 | The install keeps it: the marker landed and every earlier one stays vouched for |
| WriteAhead.CommitKeepsGood | crates/remote-workspace-server/src/store.rs:669-699 | A commit under a later timestamp keeps it |
| WriteAhead.AbortKeepsGood | crates/remote-workspace-server/src/store.rs:414-431 | Withdrawing a marker that did not land, or that is obscured and with it every older one it could vouch for, keeps it and leaves none unlanded |
| WriteAhead.OtherKeepsGood | crates/remote-workspace-server/src/store.rs:701-714 | Exec and transfer records keep it |
| WriteAhead.PruneKeepsGood | crates/remote-workspace-server/src/store.rs:882-951 | With no mutation under way, dropping records and exempting markers, older ones of a path first, keeps it if and only if what is left vouches for every landed marker that is not exempt |
| WriteAhead.OthersAreVisible | crates/remote-workspace-server/src/store.rs:882-951 | Exempting the markers a prune leaves nothing to vouch for, and the older ones of their paths, is enough: all others are shown by what it kept or by their file, and none relies on an exempt one |
| WriteAhead.AbandonKeepsGood | crates/remote-workspace-server/src/store.rs:641-656 | Giving a mutation up with its withdrawal lost keeps it for all other markers |
| WriteAhead.MeddleKeepsGood | crates/remote-workspace-server/src/fs_ops.rs:432-434 | Another writer of a file keeps it for the markers of all other files, and for every later marker of this one |
| WriteAhead.OnlyOneUnlanded | crates/remote-workspace-server/src/store.rs:248-250 | Mutations being serialized, at most one marker is short of its install |
| WriteAhead.LoadedIsDecidable | crates/remote-workspace-server/src/store.rs:136-200 | What holds of the log by time holds of the loaded table by position |
| WriteAhead.NewestIsJudgedExactly | crates/remote-workspace-server/src/store.rs:293-324 | The newest marker, unless exempt, is judged landed exactly if it landed |
| ExactRecovery.SettleNewest | crates/remote-workspace-server/src/store.rs:291-346 | Deciding it leaves the other markers to be decided as exactly, whether it was exempt or not |
| ExactRecovery.SettleAllExact | crates/remote-workspace-server/src/store.rs:291-346 | Deciding all markers reports exactly what happened to each that is not exempt and leaves none |
| ExactRecovery.RecoveryIsExact | crates/remote-workspace-server/src/store.rs:275-346 | Recovery of a log with the invariant reports exactly what happened to each marker that is not exempt, leaves no marker, and keeps table and log equal |
| ExactRecovery.RecoveryCutOff | crates/remote-workspace-server/src/store.rs:325-345 | Stopped after any of its appends, recovery leaves a log the next start decides as exactly |
| ExactRecovery.RecoveryMatchesHistory | crates/remote-workspace-server/src/store.rs:325-345 | Marker by marker: synthesized if and only if landed, dropped if and only if not, no conflict |
| CrashRuns.HighWater | crates/remote-workspace-server/src/store.rs:136-180 | The id mark a start reads back is at least the counter file and every id in the log |
| RunInvariant.PrepareKeeps | crates/remote-workspace-server/src/fs_ops.rs:328-342 | Invariant kept by writing a marker, acknowledged, refused, or written unsynced with its withdrawal logged or lost |
| RunInvariant.InstallKeeps | crates/remote-workspace-server/src/fs_ops.rs:469-483 | Invariant kept by an install |
| RunInvariant.WithdrawKeeps | crates/remote-workspace-server/src/fs_ops.rs:343-350 | Invariant kept by withdrawing a mutation that did not happen, the withdrawal logged, written unsynced, or lost |
| RunInvariant.CommitKeeps | crates/remote-workspace-server/src/fs_ops.rs:352-360 | Invariant kept by a commit, acknowledged or written unsynced |
| RunInvariant.LeaveKeeps | crates/remote-workspace-server/src/fs_ops.rs:434-443 | Invariant kept when a marker stays behind a failed sync |
| RunInvariant.RecordStepKeeps | crates/remote-workspace-server/src/server.rs:781-792 | Invariant kept by exec and transfer records, acknowledged, refused or written unsynced |
| RunInvariant.GcKeeps | crates/remote-workspace-server/src/server.rs:621-661 | Invariant kept by any prune, with markers pending and whatever it drops, and however many of its three files it replaces |
| RunInvariant.MeddleKeeps | crates/remote-workspace-server/src/fs_ops.rs:425-434 | Invariant kept by another writer, a start in progress included |
| RunInvariant.RestartKeeps | crates/remote-workspace-server/src/store.rs:118-246 | Invariant kept by a load |
| RunInvariant.SettleKeeps | crates/remote-workspace-server/src/store.rs:325-345 | Invariant kept by one decision, right or wrong, however many of its appends succeed |
| RunInvariant.StepKeeps | crates/remote-workspace-server/src/store.rs:118-951 | Invariant kept by every step of the server, crashes included |
| RunInvariant.RunKeeps | crates/remote-workspace-server/src/store.rs:118-951 | Invariant kept by every run |
| AtMostOnce.ClaimedOnce | crates/remote-workspace-server/src/store.rs:511-547 | The request is unknown, so no record is its own and no command was started for it, unless a prune dropped something of it |
| AtMostOnce.StartedOnce | crates/remote-workspace-server/src/server.rs:708-724 | A command is started only under its own claim, and only if none was started for the id before, unless a prune dropped something of the request |
| AtMostOnce.Unowned | crates/remote-workspace-server/src/store.rs:362-396 | A request without a committed record has, once markers are decided, no record at all |
| AtMostOnce.ForgetOnce | crates/remote-workspace-server/src/store.rs:394-398 | Forgetting such a request, not an exec, keeps at-most-once |
| AtMostOnce.StepOnce | crates/remote-workspace-server/src/store.rs:275-714 | At-most-once kept by every step, other writers and prunes included, in log and memory alike |
| AtMostOnce.GcOnce | crates/remote-workspace-server/src/store.rs:882-951 | Kept by a prune, for the requests it drops nothing of, however many of its three files it replaces |
| Fixpoint.ResolveAllEntries | crates/remote-workspace-server/src/store.rs:348-400 | Each stuck request gets its own verdict and no other entry moves, in whatever order the map yields them |
| Fixpoint.ResolveAllLines | crates/remote-workspace-server/src/store.rs:364-399 | What was logged for them replays to the same, except that a cleared entry stays in the log |
| Fixpoint.SettleAllAgrees | crates/remote-workspace-server/src/store.rs:291-346 | Deciding markers of any table, conflicts included, keeps table and log equal and leaves only the markers not decided |
| Limits.EvidenceIsSeenExactly | crates/remote-workspace-server/src/store.rs:440-452 | A continuation is recognized if and only if it is later by time, or by the text of its id within one millisecond |
| Limits.TiedTimestampsLoseEvidence | crates/remote-workspace-server/src/store.rs:195-200 | Concrete: two edits in one millisecond, op-10 sorts before op-9, a landed edit is judged a conflict |
| Limits.DistinctTimestampsKeepIt | crates/remote-workspace-server/src/store.rs:195-200 | The same edits with any time between them recover exactly |
| Limits.PrunedLogRecoversExactlyWhen | crates/remote-workspace-server/src/store.rs:895-906 | After a prune with landed markers pending, the next start is exact if and only if for every marker the file shows it or the prune kept a later mutation that took place and started from it: one of the newest history records, or another marker |
| Limits.PrunedEvidenceIsAConflict | crates/remote-workspace-server/src/store.rs:895-906 | Concrete: the commit that vouches for a marker is pruned and the landed edit becomes a conflict |
| Limits.PrunedRequestIsAnsweredExactlyWhen | crates/remote-workspace-server/src/store.rs:907-912 | A request still in progress when its record may be pruned: the next start answers it as before if and only if the prune kept that record |
| Limits.MarkersVouchForMarkers | crates/remote-workspace-server/src/store.rs:291-293 | Concrete: with all history between them pruned, a later marker vouches for an earlier one and both are synthesized |
| Limits.AnotherSpellingHidesEvidence | crates/remote-workspace-server/src/store.rs:446-451 | Concrete: the continuation is recorded under another spelling of the file and is not recognized |
| Limits.SpellingsCost | crates/remote-workspace-server/src/store.rs:446-451 | A landed marker some later record of its file vouches for is lost if and only if each such record spells the file otherwise |
| Limits.UnrecordedWithdrawalIsCredited | crates/remote-workspace-server/src/fs_ops.rs:343-350 | Concrete: a withdrawal that could not be logged lets a later create of the same bytes be credited to the first request |
| Limits.AbandonedIsDroppedExactlyWhen | crates/remote-workspace-server/src/store.rs:293-324 | A lone marker that did not land is dropped if and only if its path resolves and its file is as it was before |
| Limits.AnotherWriterIsCredited | crates/remote-workspace-server/src/store.rs:303-324 | Concrete: a create cut off before its install is credited with the same bytes written by another program, and a conflict over others |
| Limits.AnotherWriterUndoes | crates/remote-workspace-server/src/store.rs:306-308 | Concrete: a landed edit another program undid is dropped, and its request forgotten |
| Limits.FailedPruneLeavesTheTableBehind | crates/remote-workspace-server/src/store.rs:899-943 | A prune that cuts the tables and cannot write leaves the record table different from the log if and only if it cut a record, and the request table if and only if a finished request has no record left |
| Limits.ErrorBecomesDone | crates/remote-workspace-server/src/store.rs:475-477 | Concrete: a mutation answered with an error after a failed sync is answered done after the next start |
| Limits.AnswersChangeExactlyFor | crates/remote-workspace-server/src/store.rs:325-345 | A start overwrites the entry of a request if and only if a marker of it is found to have landed or to be a conflict; every other entry stays |
| Store.OperationStore.constructor | crates/remote-workspace-server/src/store.rs:118-246 | Opening a directory gives the loaded tables and the id mark, with table and log in step |
| Store.OperationStore.CollapseById | crates/remote-workspace-server/src/store.rs:159-181 | The pass over the log gives the last record of every id and the highest id |
| Store.OperationStore.SortedValues | crates/remote-workspace-server/src/store.rs:190-200 | The surviving values in load order are the loaded table, whatever order the map yields them in |
| Store.OperationStore.LoadRequests | crates/remote-workspace-server/src/store.rs:202-226 | The pass over the request log gives its replay |
| Store.OperationStore.AppendOp | crates/remote-workspace-server/src/store.rs:1028-1070 | A line is in the log whole or not at all, and none is after the latch is set |
| Store.OperationStore.AppendReq | crates/remote-workspace-server/src/store.rs:953-964 | The same for the request log |
| Reopen.Directory.AppendOp | crates/remote-workspace-server/src/store.rs:1028-1070 | Appending through the bytes of the log file, with one latch for both files, does to the log what `Store.OperationStore.AppendOp` says |
| Reopen.Directory.Open | crates/remote-workspace-server/src/store.rs:118-246 | Opening the bytes one process left gives the next its store with the logs the first one held; one more line only if it is the fragment that set the latch |
| Store.OperationStore.NextOperationId | crates/remote-workspace-server/src/store.rs:252-256 | The next number, and the counter stands there |
| Store.OperationStore.ClaimRequest | crates/remote-workspace-server/src/store.rs:511-547 | A known id gives its entry and changes nothing; a new one is claimed in log and memory, or in memory not at all |
| Store.OperationStore.AppendReqTracked | crates/remote-workspace-server/src/store.rs:966-976 | Line and table change together, or the table does not change |
| Store.OperationStore.RememberResult | crates/remote-workspace-server/src/store.rs:549-573 | The result line and entry |
| Store.OperationStore.RememberError | crates/remote-workspace-server/src/store.rs:575-599 | The error line and entry |
| Store.OperationStore.PrepareFsRecord | crates/remote-workspace-server/src/store.rs:613-663 | On success the marker is in log and table; on failure the table is untouched and the log has nothing, the marker, or the marker and its abort |
| Store.OperationStore.CommitFsRecord | crates/remote-workspace-server/src/store.rs:669-699 | The commit is in the log and in its marker's slot, or the table is untouched |
| Store.OperationStore.AbortPrepared | crates/remote-workspace-server/src/store.rs:414-431 | The aborted line is in the log before the marker leaves the table |
| Store.OperationStore.AppendRecord | crates/remote-workspace-server/src/store.rs:701-714 | An exec or transfer record is in both or not in the table |
| Store.OperationStore.FindRecord | crates/remote-workspace-server/src/store.rs:716-722 | A finished operation of the id, or none exists |
| Store.OperationStore.FindCommittedByRequestId | crates/remote-workspace-server/src/store.rs:728-744 | The first committed record of the request |
| Store.OperationStore.IsContinuedFrom | crates/remote-workspace-server/src/store.rs:440-452 | The two passes decide whether a later record continues from the marker |
| Store.OperationStore.SynthesizeCommit | crates/remote-workspace-server/src/store.rs:454-479 | Commit and answer, or a beginning of the two |
| Store.OperationStore.ResolvePreparedAsConflict | crates/remote-workspace-server/src/store.rs:488-503 | Abort and error, or a beginning of the two |
| Store.OperationStore.JudgeMarker | crates/remote-workspace-server/src/store.rs:293-324 | The match arms, in their order, give the verdict; a file that cannot be read gives none |
| Store.OperationStore.SettleMarker | crates/remote-workspace-server/src/store.rs:325-345 | A decision appends its lines in order, or a beginning of them; it leaves the request untouched if it is a drop, and else tells it done with the marker's id and hashes or, of a conflict, StaleFile with the reason; it fails only if something failed |
| Store.OperationStore.SettleMarkers | crates/remote-workspace-server/src/store.rs:291-346 | The loop over the markers, newest first, is the settlement the theorems are about; a failure leaves a beginning of its lines |
| Store.OperationStore.PendingMarkers | crates/remote-workspace-server/src/store.rs:280-289 | The markers of the table in order |
| Store.OperationStore.StuckRequests | crates/remote-workspace-server/src/store.rs:353-363 | Every stuck request once |
| Store.OperationStore.ResolveRequest | crates/remote-workspace-server/src/store.rs:364-399 | Answered from its record, by the exec or unknown-type policy, or forgotten |
| Store.OperationStore.Recover | crates/remote-workspace-server/src/store.rs:275-403 | On success both logs and both tables are what recovery says of them and every request has the entry `Answers.EveryRequestIsAnswered` states; on failure, which takes a fault, each log has gained a beginning of its lines |
| Store.OperationStore.DropOldest | crates/remote-workspace-server/src/store.rs:899-906 | The retain pass with its countdown |
| Store.OperationStore.RequestLines | crates/remote-workspace-server/src/store.rs:926-943 | The lines written back replay to the table |
| Store.OperationStore.Prune | crates/remote-workspace-server/src/store.rs:882-951 | Tables are cut first; on success the three files follow and the counts agree; on failure exactly a beginning of them was replaced, all three if only the last sync failed |
| Pruning.PruneByKind | crates/remote-workspace-server/src/store.rs:895-919 | Markers untouched, history its newest min(keep, n), the counts |
| Pruning.RequestsThatStay | crates/remote-workspace-server/src/store.rs:907-912 | A request stays if and only if it is in progress or a record that stays, finished or pending, is its own |
| Pruning.LoadsOneResult | crates/remote-workspace-server/src/store.rs:214-226 | A line with both kinds of result, or with neither, loads as an entry without one |
| Pruning.RetainKeepsTable | crates/remote-workspace-server/src/store.rs:899-906 | No id twice afterwards |
| FsOps.Files.AtomicCreate | crates/remote-workspace-server/src/fs_ops.rs:491-569 | Never over an existing file; the failure says whether the file is there |
| FsOps.Files.Persist | crates/remote-workspace-server/src/fs_ops.rs:469-483 | The rename happened if and only if the outcome says so |
| FsOps.Files.Remove | crates/remote-workspace-server/src/fs_ops.rs:378-387 | The file is gone, synced or not, or untouched; it is removed if and only if it is there and nothing fails |
| FsOps.Files.InstallOver | crates/remote-workspace-server/src/fs_ops.rs:424-454 | The last look: installed only over the content the replacement was built from, else StaleFile |
| FsOps.Withdraw | crates/remote-workspace-server/src/fs_ops.rs:343-350 | With a log that works a marker of which nothing was installed is withdrawn, in log and table |
| FsOps.PlanEdit | crates/remote-workspace-server/src/fs_ops.rs:631-775 | The refusal or the content of an edit, before anything is written |
| FsOps.WriteAheadCreate | crates/remote-workspace-server/src/fs_ops.rs:328-361 | The marker is withdrawn only if the workspace did not change, committed only if it did, and kept otherwise |
| FsOps.WriteAheadDelete | crates/remote-workspace-server/src/fs_ops.rs:364-402 | The same for a delete |
| FsOps.WriteAheadInstall | crates/remote-workspace-server/src/fs_ops.rs:408-454 | The same for an edit, which lands only over the content it was built from |
| FsOps.LandedIsOnRecord | crates/remote-workspace-server/src/fs_ops.rs:464-467 | However a protocol run ends, a landed mutation is live in the log |
| FsOps.UnlandedIsNeverCommitted | crates/remote-workspace-server/src/fs_ops.rs:464-467 | A mutation that did not happen is never committed, and leaves nothing once its withdrawal is logged |
| FsOps.TraceKeepsGood | crates/remote-workspace-server/src/fs_ops.rs:328-454 | However a protocol run ends, the log it leaves is one recovery decides exactly, but for a marker whose withdrawal was lost |
| FsOps.HandleCreate | crates/remote-workspace-server/src/fs_ops.rs:573-604 | A file is created if and only if its text fits, its path resolves, nothing is there and nothing fails; each refusal has its own cause and code and writes nothing. The marker says what the file held and carries the hash of the content, which is installed whole or not at all; with a log that works it is then committed, withdrawn or, after a failed sync, left; a success is what a replay of its commit answers |
| FsOps.HandleEdit | crates/remote-workspace-server/src/fs_ops.rs:622-786 | The first thing wrong, in the order things are looked at, is the refusal and nothing is written (`Replace.Edit` says which replacements can be made); otherwise the edited content is what the marker names by its hash and what is installed, and only a fault prevents it |
| FsOps.HandleDelete | crates/remote-workspace-server/src/fs_ops.rs:788-829 | A file is removed if and only if it is there and nothing fails: an absent one is NotFound and writes nothing |
| Interleaving.StepKeeps | crates/remote-workspace-server/src/store.rs:511-996 | Lock, table, request and id invariants kept by every step of every thread |
| Interleaving.TakenBackKeeps | crates/remote-workspace-server/src/store.rs:634-652 | A marker that could not be synced and is superseded by an aborted line under the same lock leaves table and log equal, with every other thread's work |
| Interleaving.LoggedAgrees | crates/remote-workspace-server/src/store.rs:985-996 | What a thread logs and then applies keeps log and table equal |
| Interleaving.CutTable | crates/remote-workspace-server/src/store.rs:895-906 | The cut table is a part of the live records with every marker |
| Interleaving.SaveOpsParts | crates/remote-workspace-server/src/store.rs:915-925 | The counter having been written first, replacing the log loses no id |
| Racing.StepKeepsRace | crates/remote-workspace-server/src/store.rs:511-547 | One worker and one line, kept by every step of every thread |
| Racing.DecideKeepsRace | crates/remote-workspace-server/src/store.rs:526-529 | The second lookup, under the lock, is what makes the first claimer the only one |
| TornLog.ReadLines | crates/remote-workspace-server/src/store.rs:1211-1249 | The walk over the bytes gives the lines with their offsets |
| TornLog.ValidContentEnd | crates/remote-workspace-server/src/store.rs:1260-1267 | The end of the last newline-terminated line |
| TornLog.ParseLines | crates/remote-workspace-server/src/store.rs:163-171 | The loop over the lines refuses exactly if a newline-terminated one is not UTF-8, is blank or does not decode; else it gives the records of the lines that hold one, in order, and asks for a cut exactly if one without a newline is damaged |
| TornLog.Load | crates/remote-workspace-server/src/store.rs:161-189 | However a file is cut at its newlines, the load is as `TornLog.LoadIsByLines` states |
| TornLog.LoadIsByLines | crates/remote-workspace-server/src/store.rs:1285-1404 | For any bytes and any codec: the load succeeds if and only if every newline-terminated line is UTF-8, not blank, and decodes; the records are then the decodings of these lines in order and that of the unterminated rest if it has one; of that rest a record is given its newline, blanks are left, anything else is cut off |
| TornLog.EveryFileIsCut | crates/remote-workspace-server/src/store.rs:1211-1249 | Every file is newline-terminated lines and a rest without a newline |
| TornLog.LogFile.AppendLine | crates/remote-workspace-server/src/store.rs:1028-1070 | A fragment exists only while the latch is set, and no byte follows it; the line is there if and only if nothing failed |
| TornLog.WholeLinesRead | crates/remote-workspace-server/src/store.rs:1285-1350 | A file of whole lines reads back as its records |
| TornLog.CutFileLoads | crates/remote-workspace-server/src/store.rs:1357-1404 | Whole lines and any beginning of one more load to the records, with the last if all its text is there, and are left whole lines |
| TornLog.BeginningIsTruncated | crates/remote-workspace-server/src/store.rs:1285-1350 | A line cut anywhere is recognized as cut |
| Utf8.ValidCut | crates/remote-workspace-server/src/fs_ops.rs:219-225 | Valid text is cut into valid text if and only if no character is cut |
| Utf8.BoundaryIsNear | crates/remote-workspace-server/src/fs_ops.rs:219-221 | In valid text a boundary comes within three bytes |
| Utf8.ValidIsEncoded | crates/remote-workspace-server/src/store.rs:1211-1249 | A text is valid if and only if it is the UTF-8 encoding of some sequence of scalar values |
| Utf8.TrimTakesAllWhite | crates/remote-workspace-server/src/store.rs:1310-1312 | Trimming takes white space from both ends and leaves none at either |
| Paging.Fetch | crates/remote-workspace-server/src/fs_ops.rs:160-179 | The whole-read and the seek branch give the same bytes; only the first gives a hash, of the bytes read |
| Paging.Cut | crates/remote-workspace-server/src/fs_ops.rs:195-199 | The loop finds the first boundary at or after the limit |
| Paging.Read | crates/remote-workspace-server/src/fs_ops.rs:119-217 | A request for a page is answered with the page and the hash, or the refusal, in the order of the checks; without a limit as with one of 65536 bytes, and a limit is refused if and only if it is not in 1 to 65536; the hash is one an edit of the same content accepts |
| Paging.RefusedExactlyWhen | crates/remote-workspace-server/src/fs_ops.rs:142-217 | Each refusal of a page has its own cause and there is no other: the limit, the offset past the end, the offset inside a character, bytes that are not text |
| Paging.SmallTextIsOnePage | crates/remote-workspace-server/src/fs_ops.rs:142-217 | A text of at most 64 KiB is one page when no limit is asked for |
| Paging.PageIsPartOfTheFile | crates/remote-workspace-server/src/fs_ops.rs:184-217 | A page is text, part of the file, at most limit + 3 bytes, and not empty before the end |
| Paging.PagesAreTheFile | crates/remote-workspace-server/src/fs_ops.rs:119-217 | Pages that reach the end are the rest of the file, and it is text |
| Paging.PagesOfText | crates/remote-workspace-server/src/fs_ops.rs:119-217 | Of a text every page is served and enough of them reach the end |
| Replace.ReplaceIsSplitAndJoin | crates/remote-workspace-server/src/fs_ops.rs:757-761 | Replacing every match is cutting the text at its matches and joining it with the new text; the matches are counted right |
| Replace.FirstMatchIsLeftmost | crates/remote-workspace-server/src/fs_ops.rs:723-724 | The first part ends where the leftmost match begins |
| Replace.PartsHoldNoMatch | crates/remote-workspace-server/src/fs_ops.rs:723-724 | Between two matches there is no other |
| Replace.ReplacedSize | crates/remote-workspace-server/src/fs_ops.rs:746-756 | The size of a replacement, by its number of matches |
| Replace.Apply | crates/remote-workspace-server/src/fs_ops.rs:721-762 | One replacement is made if and only if the old text cuts the content into two parts, or into more and all matches are meant, and the result fits; it is the parts joined with the new text. With one part it is refused as NoMatch, with more than two as AmbiguousMatch |
| Replace.StepByParts | crates/remote-workspace-server/src/fs_ops.rs:721-762 | The same of the specification, without naming how matches are counted or replaced |
| Replace.FoldByParts | crates/remote-workspace-server/src/fs_ops.rs:717-762 | The contents lead from the original one replacement at a time to the result or to the first that cannot be made |
| Replace.CheckArguments | crates/remote-workspace-server/src/fs_ops.rs:631-664 | Accepted if and only if there are 1 to 100 replacements, each of some text of at most 4 MiB by a different one; else the first that is not is named, before the file is touched |
| Replace.HashForm | crates/remote-workspace-server/src/fs_ops.rs:237-242 | A base hash is well formed if and only if it is `sha256:` and 64 hexadecimal digits |
| Replace.IntermediatesFit | crates/remote-workspace-server/src/fs_ops.rs:743-762 | No intermediate content outgrows the limit |
| Capture.DecodedIsText | crates/remote-workspace-server/src/exec.rs:327-330 | Decoding gives text, and text decodes to itself |
| Capture.IllFormedIsMaximal | crates/remote-workspace-server/src/exec.rs:327-330 | One replacement character stands for one byte, or for the longest beginning of a character there is |
| Capture.CutCharacter | crates/remote-workspace-server/src/exec.rs:327-330 | A character cut short after any of its bytes decodes to exactly one replacement character |
| Capture.TrimmingCanLengthen | crates/remote-workspace-server/src/exec.rs:306-312 | Concrete: dropping one byte from the front makes the text longer |
| Quoting.WindowsCommandLineArg | crates/remote-workspace-client/src/lib.rs:960-982 | The loop with its counted backslashes prints the argument |
| Quoting.QuotedOnlyIfNeeded | crates/remote-workspace-client/src/lib.rs:960-963 | An argument is printed as it is if and only if it is not empty and has no quote and no white space |
| Quoting.ArgReadsBack | crates/remote-workspace-server/src/exec.rs:472-495 | One printed argument reads back, whatever follows it |
| Quoting.QuotedReadsBack | crates/remote-workspace-client/src/lib.rs:917-922 | One shell-quoted string reads back, whatever follows it |
| Quoting.PowershellQuote | crates/remote-workspace-client/src/lib.rs:946-958 | The loop doubles every quote PowerShell knows |
| Quoting.LiteralReadsBack | crates/remote-workspace-client/src/lib.rs:946-958 | A doubled literal reads back and ends where it should |
| Multiplexer.StepKeeps | crates/remote-workspace-client/src/lib.rs:436-523 | Slot, id, line and reply invariants kept by every step, the close included |
| Multiplexer.WriteKeeps | crates/remote-workspace-client/src/lib.rs:470-493 | No id is written twice |
| Multiplexer.CloseKeeps | crates/remote-workspace-client/src/lib.rs:316-333 | The close drains the map and frees the slot, and keeps the invariants |
| Multiplexer.FindNoStdinKeeps | crates/remote-workspace-client/src/lib.rs:470-475 | A caller that finds the input taken away wrote nothing, takes its own entry out of the map with its slot, reader still running or not, and no one else's |
| Framing.SendBody | crates/remote-workspace-server/src/transfer.rs:576-598 | Whatever its reads return, the sender writes the encoding of pieces of the declared beginning of the file, or finds it shorter |
| Framing.ReceiveBody | crates/remote-workspace-server/src/transfer.rs:506-537 | Whatever its reads return, the receiver takes the body its input starts with |
| Framing.RunTransferSend | crates/remote-workspace-server/src/transfer.rs:556-607 | Header, body and trailer of the declared beginning of the file, or a stream without a trailer when it is shorter by then |
| Framing.ShrunkFileIsRefused | crates/remote-workspace-server/src/transfer.rs:583-586 | A file that shrinks while it is sent is refused by the receiver, however much of it was sent |
| Framing.RunTransferReceive | crates/remote-workspace-server/src/transfer.rs:491-551 | The declared number of bytes and the report on them |
| Framing.ReceiveStream | crates/remote-workspace-client/src/transfer.rs:823-934 | The download, or the source's refusal of it |
| Framing.BodyRoundTrip | crates/remote-workspace-server/src/transfer.rs:576-598 | A body is received as the file it was made from, however either side split it |
| Framing.CutBody | crates/remote-workspace-client/src/transfer.rs:851-906 | A body cut anywhere is refused, or all of the file is there |
| Framing.ConfirmedIsTheFile | crates/remote-workspace-client/src/transfer.rs:633-647 | If the hash tells files apart, a confirmed upload is the file |
| Framing.ConfirmedExactly | crates/remote-workspace-client/src/transfer.rs:633-647 | A report confirms an upload if and only if it names both the size and the hash that were sent |
| Replies.ExecRecordStandsForReply | crates/remote-workspace-server/src/server.rs:726-844 | The record of a command, completed, timed out or rejected, stands for the reply the handler sends |
| Replies.RecordSaysHowItEnded | crates/remote-workspace-server/src/server.rs:726-829 | The record of a command says rejected if and only if it never started, timed out if and only if it was killed at its timeout, and completed otherwise, with the command line, the timeout in force and an error exactly when it did not complete |
| Replies.ReconstructedAs | crates/remote-workspace-server/src/store.rs:749-831 | Read from any log, the record of a command stands for a reply if and only if it was not rejected and has a termination; a rejected one without a code stands for ExecFailed |
| Replies.ExecIsReplayedAsSent | crates/remote-workspace-server/src/server.rs:781-844 | A command whose line is remembered is replayed as it was answered, except if and only if it was rejected, its record was refused, and the rejection is not that very refusal |
| Replies.RejectionReplaysOtherwise | crates/remote-workspace-server/src/server.rs:831-844 | Concrete: an empty command line and a full log, answered with the log error and replayed with the rejection |
| Handlers.HandleExec | crates/remote-workspace-server/src/server.rs:699-845 | Both logs, both tables and the reply, for every way the two appends can end; the errors they end with are the faults of the logs and no others |
| Handlers.RecordTransfer | crates/remote-workspace-server/src/transfer.rs:296-315 | A transfer succeeds exactly if its record is logged and its pending entry removed; record, remembered line and reply are those of the machine |
| Replies.TransferIsReplayedAsSent | crates/remote-workspace-server/src/transfer.rs:296-315 | From its remembered line a transfer is replayed as it was answered; from its record alone it is, if and only if the pending entry was removed and the line remembered |
| Replies.UncleanedUploadIsReplayedOtherwise | crates/remote-workspace-server/src/transfer.rs:306-307 | When that entry cannot be removed the replay is never an error, the one the handler sent included |
| Handlers.FinishRequest | crates/remote-workspace-server/src/server.rs:851-881 | What is reported as success is remembered and replayed; a result that cannot be remembered is reported as the fault of the log |
| LostReplies.NewestPromise | crates/remote-workspace-server/src/store.rs:454-479 | A marker whose request is promised a reply landed, is judged to have landed, and stands for that reply |
| LostReplies.PromisedIsFound | crates/remote-workspace-server/src/store.rs:728-744 | With no marker left, the record found for a promised request stands for the promised reply |
| LostReplies.StepPromise | crates/remote-workspace-server/src/store.rs:275-714 | Records, tables and handlers keep to what was promised, in log and memory alike, in every step |
| LostReplies.BindingStays | crates/remote-workspace-server/src/server.rs:452-506 | A promise out of its handler's hands stays, word for word, in every step but a prune that drops something of the request, and, for a pending marker of it, another writer of its file or a prune that leaves nothing to vouch for it |
| LostReplies.StepHeard | crates/remote-workspace-server/src/server.rs:851-881 | A handler that holds the reply of an effect has its record committed, in log and memory, after every step |
| LostReplies.FiledStays | crates/remote-workspace-server/src/store.rs:985-996 | A request with a committed record, in log and memory, has one after every step but a prune that drops something of it |
| LostReplies.GcPromise | crates/remote-workspace-server/src/store.rs:882-951 | A prune, however many of its three files it replaces, keeps every promise but those of requests it drops something of, or whose pending marker it leaves nothing to vouch for |

## Left out

- AtMostOnce.EveryRequestHappensAtMostOnce: an upload is recorded here only by its transfer record; that its file is placed once is not stated, since the source places it without a marker.
- Racing.OneWinner: the count of claiming lines is for one life of the server between two prunes, which rewrite them.
- TornLog.TornLogLoads: a line complete but for its newline counts as the one under way, so a caller told its append failed may find it after the next start; in `CrashRuns` that is an append written unsynced.
- Reopen.Directory.Open: files that were edited by hand are covered by `TornLog.Load` only.
- FsOps.HandleCreate: directories, symlinks, special files and modes are not modelled; a path names a regular file or nothing.
- FsOps.HandleEdit: the file is read once, so that it changes between the size check and the read is not modelled.
- Paging.Read: a file changing between pages is not modelled.
- Capture.Fit: the Windows decoding of output in the OEM code page is not modelled; the decoding is the lossy UTF-8 one.
- Handlers.HandleExec: running the command is a parameter (its outcome), and error replies carry code and message but not the expected and actual hashes.
- Handlers.Handle: read-only requests, waits, upload preparation and abort, which bypass the idempotency table, are not modelled; an upload commit starts here once its file is in place, which `CrashRuns` takes for another writer; a prune is given the number of records to keep, and the sweeps that follow it are left out.
- Framing.RunTransferSend: timeouts and exit statuses of the child process are not modelled.
- Quoting.PowershellRoundTrip: PowerShell is read only as far as this script goes, code outside single quotes and text inside them.
- Error texts that print hashes, sizes or paths are shortened to fixed texts.
- `history`, `status_for_request`, listing, stat, sweeping of scratch and staging files: short case analyses that add no property of this kind.
- SSH, process spawning, deployment, version checks, configuration, the MCP tools, session and client logs: foreign calls and plumbing.
- Directory locks, path canonicalization and symlinks: resolution is a fixed map from spelling to file.
