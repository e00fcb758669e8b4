# CentralD: crash-safe and concurrent protocols, modelled and proved

This project models, in Dafny 4.11, the parts of CentralD whose correctness
rests on what happens between steps rather than inside one:

- the **privileged broker** that runs a signed job at most once: worker
  threads, three locks, an execution ledger that expires, compacts and repairs
  itself, a replay set of consumed grants, crashes and restarts;
- the **configuration transactions** of the server: an undo journal with a
  published marker (settings) and a redo journal over two files (database),
  whose recovery can itself be interrupted;
- the **active pointer**: three small files behind publish, commit, rollback
  and recover;
- **channel publication**: concurrent publishers that read a branch, decide by
  Semantic Versioning precedence and ask for a fast-forward update;
- the **hash-chained audit export** and the **length-prefixed frames** of the
  broker's local channel, with their size bounds.

`dafny verify dfyconfig.toml` checks everything.

## How it is built

Each protocol has a description on values and, where the program works by
changing things step by step, imperative code proved against it.

| component | description and theorems | imperative code |
|---|---|---|
| broker | `LedgerRecords`, `Grants`, `BrokerProtocol`, `BrokerSafety`, `GrantSafety`, `BrokerRuns`, `BrokerFailures`, `LedgerJournal`, `GrantJournal`, `BrokerSections` | `GrantVerification`, `DurableLedger`, `BrokerExecution` |
| configuration | `ConfigRevisions`, `SettingsProtocol`, `DatabaseProtocol` | `SettingsUpdates`, `DatabaseUpdates` |
| active pointer | `PointerValues`, `PointerProtocol` | `ActivePointers` |
| release channels | `SemVer`, `SemVerText`, `ChannelAdvance`, `ChannelPublication`, `ChannelSafety`, `Runs` | `SemVer.CompareVersions`, `ChannelPublisher` |
| audit export | `AuditChain`, `AuditFileNames`, `AuditExport`, `AuditExporter`, `Hex` | `AuditChain.VerifyChain`, `AuditExport.ExistingExportTail`, `AuditExporter.Exporter` |
| wire | `Framing`, `Base64`, `WireSizes` | `Framing.ByteStream`, `Framing.PollFirstFrame`, `CommandOutput` |

`Wrappers`, `Texts`, `JsonLines`, `CrashTraces` and `Runs` hold shared
vocabulary. A file protocol is written as the list of file states an operation
passes through, one per file operation; the classes keep that list in a ghost
field and are proved to produce exactly it, so a crash between any two file
operations is an element of the list. The broker is a state machine over the
steps workers take under one lock; each section of its code that holds a lock
is proved to take one of those steps on the real bytes, for one request served
alone and for any interleaving of threads.

Assumptions, stated once: a crash falls between atomic, ordered file
operations, or inside an append, of which any beginning may have been written;
exclusive creation and rename are atomic; the release gate of the broker is
open, as in its tests. Writes to the ledger and to the journal of consumed
grants, the pointer's last rename and its sync, and the publisher's requests can
fail, and those requests can arrive late; elsewhere an I/O failure is
treated like a crash at that point. JSON, SHA-256 and Ed25519 are function
values or inputs with stated laws. For the ledger the law is that a record's
text is one non-blank line and decodes to it. For the consumed-grant journal it
is also that neither a proper beginning of a text decodes nor a text with
another one behind it on its line. For the exported lines it is that a text is
one non-blank line that carries its hash. For the audit chain it is only that
different records have different texts: collisions of the digest appear in the
theorems instead of being assumed away.

## What is true only under a condition

Nine promises hold only under a condition. The condition is proved, and for
most of them an input or a run is given that shows the promise failing without
it:

- *One run per job.* Whatever the clock does, a second run needs the job's
  executing marker to have been removed, and then one of four things: an
  eviction (only the 32 newest markers stay), a compaction that read the clock
  at or past the expiry of the job's completion, a mark of the job itself at
  such a reading, or a repair of the ledger's torn last line that was stopped
  before it had written the job's records back
  (`BrokerSafety.AtMostOneRunPerJob`). At the step itself the condition is exact
  (`BrokerSafety.MarksAgainIff`). `BrokerFailures.SecondRunAfterEviction`,
  `BrokerFailures.SecondRunAfterLapse` and
  `BrokerFailures.SecondRunAfterStoppedRecovery` are runs from the start, under
  a clock that never goes back and with no compaction but of a ledger over its
  bound, in which a job runs twice: by an eviction, by a mark at the expiry, and
  by a stopped repair. No run is given for the second way.
- *Compaction keeps every answer*, unless the marker is evicted, or the kept
  completion has expired while an older record is still visible
  (`LedgerRecords.CompactionPreservesLookup`; an instance is
  `LedgerRecords.CompactionCanForgetAJob`).
- *Torn-tail recovery keeps every record*, if and only if it is not itself
  stopped between truncating the ledger and writing all of it back
  (`LedgerJournal.InterruptedRecovery`).
- *A consumed grant is refused again before its expiry.* Under a clock that
  never goes back it is, across restarts and in whatever order requests are
  served, while no reading at or past that expiry has been taken
  (`GrantSafety.NoReplayAcrossRestarts`), and for a session always
  (`GrantSafety.SessionIsNeverAReplay`). A job request reads the clock before it
  waits for the verifier's lock; when it is accepted is exact
  (`GrantSafety.WaitingJobAcceptedIff`), and `BrokerFailures.GrantConsumedTwice` is
  a run in which one grant is consumed twice. Within one process the condition
  is exact for every list of presentations and any clock
  (`Grants.ReplayAnsweredIff`, `Grants.ReplayMissedIff`). Read exactly at its
  expiry a grant verifies and is no longer held
  (`Grants.HeldGrantIsAcceptedAtItsExpiry`).
- *A broker starts again after a crash*, if and only if the journal of consumed
  grants holds no torn line; unlike the ledger it is never repaired
  (`GrantJournal.BootSucceedsIff`).
- *A published settings update survives interrupted recoveries*, unless the
  first recovery that did anything was stopped right after it removed the
  marker (`SettingsProtocol.PublishedUpdateSurvivesIff`).
- *A published pointer name is read back*, if and only if it neither begins nor
  ends with whitespace; the check at publication does not ask for that
  (`PointerValues.ReadsBackExactlyTrimmedNames`).
- *Channels only move forward* while rollback is off. With it on, a retry after
  a lost answer moves the channel if and only if a later version has been
  published meanwhile (`ChannelSafety.RetryAdvancesIff`). The first publication
  of a channel does not examine its own files (`ChannelAdvance.AdvanceIff`).
- *Equal tail hashes mean equal histories*, up to a collision of the digest
  (`AuditChain.TailHashFixesHistory`); sequence numbers are not hashed.

## Model

| member | source | states |
|---|---|---|
| BrokerSafety.AtMostOneRunPerJob | crates/centrald-client/src/broker.rs:837-911 | over every interleaving of any number of threads, crashes, failed writes, restarts and compactions, and whatever the clock does, the runner starts at most once per job unless its marker was removed; a second start needs an eviction, a compaction at or past the expiry of the job's completion, a mark of the job itself at such a reading, or a stopped repair of the ledger that lost a record of it |
| BrokerSafety.MarksAgainIff | crates/centrald-client/src/ledger.rs:228-250 | a worker marks its job, for the first time or again, if and only if the ledger holds no marker of it and every completion of it has expired at the worker's own reading |
| BrokerFailures.SecondRunAfterEviction | crates/centrald-client/src/ledger.rs:419-430 | from every initial state there is a run in which job 1 is started twice: its runner fails, 32 later jobs are marked, others fill the ledger beyond its bound, a compaction keeps the later markers, and the job is requested again |
| BrokerFailures.SecondRunAfterLapse | crates/centrald-client/src/ledger.rs:399-456 | from every initial state there is a run in which job 1 is started twice: run, recorded, the ledger filled beyond its bound and compacted to completions, and requested again at the expiry |
| BrokerFailures.SecondRunAfterStoppedRecovery | crates/centrald-client/src/ledger.rs:521-528 | from every initial state there is a run at one reading of the clock in which job 1 is started twice: run, recorded, the mark of another job torn, the repair stopped after truncating, and requested again |
| LedgerJournal.OutputsFillTheFile | crates/centrald-client/src/ledger.rs:399-406 | a ledger file is at least as large as the outputs in it, for every codec whose lines are no shorter than their outputs, so the ledgers compacted in those runs exceed 4 MiB |
| BrokerRuns.ServesAlone | crates/centrald-client/src/broker.rs:837-911 | from every state in which nothing stands in its way, a request reaches a state where its job was started once more and recorded, whatever compaction its mark makes |
| BrokerSafety.AnswersAreTheRunsResponse | crates/centrald-client/src/broker.rs:857-910 | every Ok answer ever given for a job, on any thread and after any restart, is a response a run returned and the broker recorded; it is the one response unless a marker of the job was removed in one of those four ways |
| BrokerSafety.UnknownOutcomeFailsClosed | crates/centrald-client/src/ledger.rs:252-306 | a job that is marked, not in flight and not recorded is never started again and never answered Ok, through any further run, until a compaction or a stopped repair removes its marker |
| BrokerSafety.CrashLeavesUnknownOutcome | crates/centrald-client/src/broker.rs:884-910 | a restart while a job is marked and unrecorded leads into that fail-closed situation |
| BrokerSafety.AbandonedJobIsUnknown | crates/centrald-client/src/broker.rs:884-910 | so do a runner that fails, an output too large to record, a write that fails and a panic |
| BrokerSafety.RunIsSafe | crates/centrald-client/src/broker.rs:837-911 | in every reachable state at most one worker is inside the execution lock, starts match marks, every stored response came from a run, and retained markers shield their jobs |
| LedgerRecords.CompactionPreservesLookup | crates/centrald-client/src/ledger.rs:399-456 | exactly when a job's lookup is the same before and after a compaction, at every reading from the compaction on |
| LedgerRecords.CompactionCanForgetAJob | crates/centrald-client/src/ledger.rs:399-456 | for every job a ledger whose compaction to the completion answers "unknown outcome" before and nothing after, at the completion's expiry |
| LedgerRecords.CompactionIsBounded | crates/centrald-client/src/ledger.rs:407-436 | a compacted ledger has one record per job and at most 32 executing markers, the newest ones |
| LedgerRecords.MarkerAlwaysAnswers | crates/centrald-client/src/ledger.rs:282-306 | while a job has an executing marker in the ledger, a lookup at any reading finds something |
| LedgerRecords.LatestIsNewest | crates/centrald-client/src/ledger.rs:282-306 | the record a lookup finds is in the ledger and no later record of the job is visible |
| LedgerRecords.CommittedInOrder | crates/centrald-client/src/ledger.rs:373-395 | the records a read returns come in file order: reading one part and then the other is reading the whole |
| LedgerRecords.CompactionKeeps | crates/centrald-client/src/ledger.rs:407-436 | a compaction keeps exactly the newest visible record of a job that is not evicted, invents nothing and forgets evicted jobs |
| LedgerJournal.ReadsWhatWasWritten | crates/centrald-client/src/ledger.rs:373-395 | reading a ledger file of whole lines gives exactly the visible records that were written |
| LedgerJournal.TornTailRecovery | crates/centrald-client/src/ledger.rs:500-537 | for any records and any fragment of a further line, recovery leaves exactly the whole lines, is idempotent, and the next append is read back as its own record |
| LedgerJournal.InterruptedAppendReadsAsBefore | crates/centrald-client/src/ledger.rs:317-371 | an append cut after any proper prefix of its line reads as if it had not begun |
| LedgerJournal.InterruptedRecovery | crates/centrald-client/src/ledger.rs:500-537 | recovery stopped while it writes the truncated ledger back leaves exactly the first records, and all of them if and only if it had written everything |
| LedgerJournal.RepairRefines | crates/centrald-client/src/ledger.rs:500-537 | whatever a failing repair leaves of a ledger file stands for the first of its records |
| LedgerJournal.StoredLookup | crates/centrald-client/src/ledger.rs:282-306 | a lookup on the bytes, torn tail or not, is the lookup on the records they stand for |
| LedgerJournal.AppendRefines | crates/centrald-client/src/ledger.rs:317-371 | what an append leaves of the bytes, written, failed or cut off after a compaction, stands for the old records or a compaction of them, with the new record exactly when its line was written |
| DurableLedger.CollectLatest | crates/centrald-client/src/ledger.rs:407-418 | the loop that fills the map leaves exactly the newest visible record of every job |
| DurableLedger.SortNewestFirst | crates/centrald-client/src/ledger.rs:419-427 | the markers sorted newest first, none lost and none added |
| DurableLedger.NewestMarkers | crates/centrald-client/src/ledger.rs:419-430 | the retained markers are the newest ones, 32 or all if fewer |
| DurableLedger.Compact | crates/centrald-client/src/ledger.rs:399-456 | the rewritten ledger is a compaction of the records read |
| DurableLedger.ParseAll | crates/centrald-client/src/ledger.rs:373-395 | the parsing loop returns the visible records of all lines, or an error when a non-blank line does not parse |
| DurableLedger.FindLatest | crates/centrald-client/src/ledger.rs:282-306 | the backward search returns the job's newest visible record |
| DurableLedger.BrokerLedger.RecoverTornFinalRecord | crates/centrald-client/src/ledger.rs:500-537 | sets a torn tail aside, truncates and writes the whole lines back; a write that fails leaves as much of them as it got to, and else file and result end at the last newline |
| DurableLedger.BrokerLedger.ReadCommitted | crates/centrald-client/src/ledger.rs:373-395 | recovers the tail and returns what the bytes hold at that reading, or fails as the repair does |
| DurableLedger.BrokerLedger.Lookup | crates/centrald-client/src/ledger.rs:282-306 | answers from the newest visible record in the bytes: a finished response, an unknown outcome, nothing, or the error of the read or its repair |
| DurableLedger.BrokerLedger.CompactIfNeeded | crates/centrald-client/src/ledger.rs:399-456 | rewrites the file only above 4 MiB, and then to a compaction |
| DurableLedger.BrokerLedger.Append | crates/centrald-client/src/ledger.rs:317-371 | the file becomes the recovered or compacted bytes and one more line, or a beginning of it when the write fails |
| DurableLedger.BrokerLedger.MarkExecuting | crates/centrald-client/src/ledger.rs:228-250 | refuses a job the ledger knows, else appends its executing marker, or fails as the repair or the write does |
| DurableLedger.BrokerLedger.RecordCompleted | crates/centrald-client/src/ledger.rs:252-280 | refuses output over 64 KiB and jobs without a visible record, else appends the completion, or fails as the repair or the write does |
| DurableLedger.BrokerLedger.RecordConsumedGrant | crates/centrald-client/src/ledger.rs:140-171 | the bytes of the journal grow by one line for this grant, or by the beginning of it that a failing write gets to |
| DurableLedger.BrokerLedger.LoadConsumedGrants | crates/centrald-client/src/ledger.rs:173-218 | returns exactly the unexpired grants the bytes hold, in order, or an error when a line does not decode |
| DurableLedger.BrokerLedger.GrantWasConsumed | crates/centrald-client/src/ledger.rs:128-138 | whether an unexpired line of the journal carries the id, or the error of an unreadable journal |
| DurableLedger.ParseAllGrants | crates/centrald-client/src/ledger.rs:181-216 | the parsing loop returns the unexpired grants of all lines, or an error when a non-blank line does not decode |
| GrantJournal.ReadsIff | crates/centrald-client/src/ledger.rs:181-216 | a journal is read if and only if every non-blank line decodes |
| GrantJournal.ReadsJournalledGrants | crates/centrald-client/src/ledger.rs:140-218 | what was journalled line by line is read back, the unexpired grants in order |
| GrantJournal.BootSucceedsIff | crates/centrald-client/src/ledger.rs:140-218 | after an append that stopped anywhere and any later appends the journal is readable if and only if nothing of the line was written, or all but its newline and nothing since |
| DurableLedger.RecoveryIsIdempotent | crates/centrald-client/src/ledger.rs:500-537 | recovering recovered bytes changes nothing |
| Grants.VerifyWindow | crates/centrald-common/src/grant.rs:86-109 | a grant verifies exactly when it is signed, meant for the device, its lifetime is 1 to 1800 whole seconds, and the reading lies between issue and expiry |
| Grants.BootHolds | crates/centrald-client/src/broker.rs:102-114 | a starting broker holds exactly the ids of the journal's unexpired lines |
| Grants.LoadsInOrder | crates/centrald-client/src/ledger.rs:173-218 | loading one part of the journal and then the other is loading the whole, so the loaded lines keep their order |
| Grants.ReplayAnsweredIff | crates/centrald-platform/src/broker.rs:109-136 | for every list of presentations and any clock, a valid presentation is answered as a replay if and only if an entry of its id, from the start or an accepted presentation, has not been pruned since and expires after the reading |
| Grants.ReplayMissedIff | crates/centrald-platform/src/broker.rs:109-136 | a held grant is missed if and only if it is read exactly at its expiry, or a valid presentation at or past the expiry came before and no accepted one of the grant since |
| Grants.AcceptedIff | crates/centrald-platform/src/broker.rs:109-136 | exactly when a held grant is accepted before its expiry, and that this takes an earlier valid presentation at or past it |
| Grants.HeldGrantIsAcceptedAtItsExpiry | crates/centrald-platform/src/broker.rs:109-136 | read exactly at its expiry a held grant is accepted, and at every earlier reading it is a replay |
| GrantSafety.NoReplayAcrossRestarts | crates/centrald-client/src/broker.rs:841-851 | under a clock that never goes back, in whatever order requests are served and through any number of restarts, a journalled grant is refused, for jobs and sessions, while no reading at or past its expiry has been taken |
| GrantSafety.GrantIsJournalledBeforeUse | crates/centrald-client/src/broker.rs:841-857 | in every run, whatever is looked up, run or recorded for a job, its grant is already in the journal |
| GrantSafety.GrantInUseIsRefused | crates/centrald-client/src/broker.rs:841-857 | under such a clock the grant of a request being served is refused to every other request while no reading at or past its expiry has been taken |
| GrantSafety.ReplaySetStaysBounded | crates/centrald-platform/src/broker.rs:94-136 | under such a clock the replay set never exceeds 4096 entries, although restoring has no cap |
| GrantSafety.WaitingJobAcceptedIff | crates/centrald-client/src/broker.rs:837-851 | whatever happens while a job request waits, it is accepted if and only if its grant verifies, the set has room and no entry of the grant holds past its reading; that takes a valid request at or past the expiry served meanwhile |
| GrantSafety.SessionIsNeverAReplay | crates/centrald-client/src/broker_session.rs:304-318 | under a clock that never goes back a session that presents a journalled grant before its expiry is ended, at the journal check and at the verifier |
| BrokerFailures.GrantConsumedTwice | crates/centrald-client/src/broker.rs:837-851 | from every initial state there is a run under a forward clock in which two requests consume one grant, both with readings before its expiry |
| GrantVerification.HeapSize | crates/centrald-platform/src/broker.rs:82-136 | a heap that holds the entries of a map, each once, is as large as the map |
| GrantVerification.Push | crates/centrald-platform/src/broker.rs:94-126 | pushing keeps the expiry order and adds exactly one entry to the map the heap stands for |
| GrantVerification.GrantVerifier.constructor | crates/centrald-platform/src/broker.rs:84-91 | a new verifier remembers nothing |
| GrantVerification.GrantVerifier.Restore | crates/centrald-platform/src/broker.rs:94-102 | the hash set and the heap together act as the plain map's restore |
| GrantVerification.GrantVerifier.VerifyAndConsume | crates/centrald-platform/src/broker.rs:109-126 | accepts exactly when the plain map of live entries would, and becomes that map |
| GrantVerification.GrantVerifier.PruneExpired | crates/centrald-platform/src/broker.rs:128-136 | the popping loop leaves exactly the entries that expire later than the reading |
| GrantVerification.GrantVerifier.SameIdsOnce | crates/centrald-platform/src/broker.rs:82-136 | heap and hash set hold the same ids, none twice |
| BrokerExecution.BrokerExecutor.Execute | crates/centrald-client/src/broker.rs:837-911 | serving one request alone takes a run of the protocol's steps, returns the protocol's verdict with every write failure, starts the runner exactly when the grant passes and is journalled, the ledger is read and does not know the job, the lock is sound and the mark is written, and leaves no thread behind and the lock as it was |
| BrokerExecution.BrokerExecutor.ExecuteTwice | crates/centrald-client/src/broker.rs:837-911 | two requests in a row are a run of the protocol; when the first ran its job, a second for that job within the retention is answered with the recorded result and starts nothing |
| BrokerExecution.BrokerExecutor.Interleave | crates/centrald-client/src/broker.rs:837-911 | any number of threads, their sections in any order, with any failures and panics: the verifier, the ledger bytes and the lock go through a run of the protocol |
| BrokerExecution.ServeFromScratch | crates/centrald-client/src/broker.rs:102-114 | a broker started on an empty disk that serves any interleaving starts the runner at most once for a job the ledger has not forgotten, and answers with results of its runs alone |
| BrokerSections.LookupRefines | crates/centrald-client/src/broker.rs:852-863 | looking a job up in the bytes, with or without a failing repair, is the protocol's lookup or its stopped repair |
| BrokerSections.MarkRefines | crates/centrald-client/src/ledger.rs:228-250 | marking a job on the bytes, compaction, failing repair and failing append included, is a step of the protocol, and says which |
| BrokerSections.CompletionRefines | crates/centrald-client/src/ledger.rs:252-280 | recording a result on the bytes is a step of the protocol in the same way |
| BrokerExecution.BrokerExecutor.RunAndRecord | crates/centrald-client/src/broker.rs:884-910 | a marked job is run once and answered Ok only after its response is the newest record of the ledger |
| BrokerExecution.BuildExecutor | crates/centrald-client/src/broker.rs:102-114 | a broker starts exactly when the journal of consumed grants can be read, idle and with a sound lock, and replaying the journal into a new verifier is the protocol's restart |
| PointerProtocol.RecoveryNormalForm | crates/centrald-common/src/active_pointer.rs:208-248 | from every combination of the three files recovery is at most one file operation, idempotent, ends in normal form and keeps a pointer whenever there was one |
| PointerProtocol.MeaningIsUnique | crates/centrald-common/src/active_pointer.rs:208-248 | files stand for at most one committed or published pointer |
| PointerProtocol.OperationIsAtomic | crates/centrald-common/src/active_pointer.rs:107-206 | every file state inside an operation, a torn staged write and a publication taken back after a fault included, means what it meant before or what it is to mean |
| PointerProtocol.RunKeepsMeaning | crates/centrald-common/src/active_pointer.rs:107-248 | over whole runs of one mutator with crashes anywhere, the files always mean one committed pointer or one published over it |
| PointerProtocol.ReaderSeesCommittedOrPublished | crates/centrald-common/src/active_pointer.rs:77-90 | a reader at any moment gets the text of the pointer in force or of the one being put in force, never a missing or torn one, for every accepted name |
| PointerProtocol.ReaderGetsTheName | crates/centrald-common/src/active_pointer.rs:77-90 | when only names that trimming does not change are published, the reader gets exactly the name in force |
| PointerProtocol.RollbackUndoesPublish | crates/centrald-common/src/active_pointer.rs:170-206 | rolling back a completed publication restores exactly the earlier files |
| PointerProtocol.PublishRefusesWhilePending | crates/centrald-common/src/active_pointer.rs:107-144 | publishing over an undecided publication keeps both pointers |
| PointerProtocol.StaleRollbackLosesThePointer | crates/centrald-common/src/active_pointer.rs:192-206 | rolling back a publication someone else has committed removes the pointer, hence the one-mutator rule |
| PointerValues.ReadsBackExactlyTrimmedNames | crates/centrald-common/src/active_pointer.rs:318-362 | an accepted name is read back unchanged if and only if trimming does not change it |
| PointerValues.SomeAcceptedNamesDoNotComeBack | crates/centrald-common/src/active_pointer.rs:318-343 | two accepted names, one read back shortened and one unreadable |
| ActivePointers.ActivePointer.RecoverLocked | crates/centrald-common/src/active_pointer.rs:208-248 | performs exactly the file operations of recovery |
| ActivePointers.ActivePointer.Read | crates/centrald-common/src/active_pointer.rs:77-90 | recovers and returns the current value, or that it is missing or invalid |
| ActivePointers.ActivePointer.Previous | crates/centrald-common/src/active_pointer.rs:92-105 | recovers and returns the previous value if there is one |
| ActivePointers.ActivePointer.Publish | crates/centrald-common/src/active_pointer.rs:107-144 | performs exactly the file operations of publication, those of its clean-up after a failed rename or sync included, and refuses invalid names and pending publications |
| ActivePointers.ActivePointer.CommitRecovered | crates/centrald-common/src/active_pointer.rs:153-168 | performs exactly the file operations of commit |
| ActivePointers.ActivePointer.RollbackRecoveredIfPrevious | crates/centrald-common/src/active_pointer.rs:170-186 | performs exactly the file operations of rollback when there is a previous pointer, and says whether it did |
| ActivePointers.ActivePointer.Rollback | crates/centrald-common/src/active_pointer.rs:192-206 | performs exactly the file operations of rollback |
| SettingsProtocol.RecoveryIsSound | crates/centrald-server/src/config_lock.rs:475-543 | in a reachable state recovery never fails, ends with only the old or the new configuration, and can be stopped and restarted at any file operation |
| SettingsProtocol.RecoveryDecides | crates/centrald-server/src/config_lock.rs:475-543 | with a journal the new bytes are kept exactly when they are in place and marked |
| SettingsProtocol.CommittedConfigurationStays | crates/centrald-server/src/config_lock.rs:475-543 | without a journal the configuration is final |
| SettingsProtocol.RunRecoversOriginalOrIntended | crates/centrald-server/src/config_lock.rs:352-578 | over whole runs of updates with crashes anywhere, no call fails and recovery leaves exactly the original or the intended bytes |
| SettingsProtocol.CompletedUpdateIsDurable | crates/centrald-server/src/config_lock.rs:431-441 | once completion has removed the journal, the intended bytes survive any number of stopped recoveries |
| SettingsProtocol.PublishedUpdateSurvivesIff | crates/centrald-server/src/config_lock.rs:524-578 | a published, not completed update survives any stopped recoveries if and only if the first effective one was not stopped right after removing the marker, or nothing was to change |
| SettingsUpdates.SettingsDirectory.RecoverLocked | crates/centrald-server/src/config_lock.rs:475-543 | performs exactly the file operations of recovery, with its result |
| SettingsUpdates.SettingsDirectory.BeginLocked | crates/centrald-server/src/config_lock.rs:361-407 | recovers, refuses a bad digest, then writes the original copy and the journal in that order |
| SettingsUpdates.SettingsDirectory.MarkPublished | crates/centrald-server/src/config_lock.rs:409-429 | writes the marker only over the intended configuration |
| SettingsUpdates.SettingsDirectory.Complete | crates/centrald-server/src/config_lock.rs:431-447 | removes the journal first, then the marker and the original |
| SettingsUpdates.SettingsDirectory.Rollback | crates/centrald-server/src/config_lock.rs:449-456 | restores the original and cleans up, in that order |
| SettingsUpdates.SettingsDirectory.RestoreOriginal | crates/centrald-server/src/config_lock.rs:539-578 | puts the original bytes back and removes the transaction's files, as both callers do |
| SettingsUpdates.SettingsDirectory.CleanupTransactionFiles | crates/centrald-server/src/config_lock.rs:573-578 | removes marker, journal and original in that order |
| DatabaseProtocol.RecoverySettlesBothFiles | crates/centrald-server/src/config_lock.rs:236-288 | in a reachable state recovery never fails and settles both files in the decided version; every state on the way has the same decision |
| DatabaseProtocol.JournalIsTheCommitPoint | crates/centrald-server/src/config_lock.rs:135-196 | before the journal everything stays old, with it everything becomes new |
| DatabaseProtocol.CommitPublishesBothFiles | crates/centrald-server/src/config_lock.rs:198-211 | commit keeps the decision at every file operation and ends with both files new |
| DatabaseProtocol.RunIsAtomicOverTwoFiles | crates/centrald-server/src/config_lock.rs:126-301 | over whole runs of transactions on any environment paths, with crashes anywhere, a call fails only when its environment file is missing, and a completed recovery leaves both files old or both new and the other environments alone |
| DatabaseProtocol.DecisionIsFinal | crates/centrald-server/src/config_lock.rs:236-288 | until the next transaction begins, what was decided stays decided |
| DatabaseUpdates.DatabaseDirectory.RecoverLocked | crates/centrald-server/src/config_lock.rs:236-288 | performs exactly the file operations of recovery, with its result |
| DatabaseUpdates.DatabaseDirectory.BeginLocked | crates/centrald-server/src/config_lock.rs:135-196 | recovers, stages both files and writes the journal last |
| DatabaseUpdates.DatabaseDirectory.Commit | crates/centrald-server/src/config_lock.rs:198-211 | publishes the environment, then the configuration, then drops the journal |
| SemVer.CompareIsAntisymmetric | scripts/lib/release-metadata.js:48-80 | the result is -1, 0 or 1, swapping the arguments negates it, and it is 0 exactly for equal core numbers and equal prerelease lists |
| SemVer.CompareIsTransitive | scripts/lib/release-metadata.js:48-80 | precedence is transitive, strictly when either side is strict |
| SemVer.CompareAgreesWithSection11 | scripts/lib/release-metadata.js:48-80 | the comparison is negative exactly when section 11 of Semantic Versioning 2.0.0 orders the versions so |
| SemVer.CompareVersions | scripts/lib/release-metadata.js:48-80 | the field tests and the identifier loop with its early returns compute the recursive comparison |
| SemVerText.ParseUndoesText | scripts/lib/release-metadata.js:82-106 | the parser accepts the text of every valid version and ignores build metadata (section 10) |
| SemVerText.TextUndoesParse | scripts/lib/release-metadata.js:1-2 | whatever the parser accepts is the text of the valid version it returns, with some build metadata |
| SemVerText.CompareSemver | scripts/lib/release-metadata.js:48-80 | on texts: an error exactly for invalid ones, else section 11 in both directions, and 0 exactly for versions that parse alike |
| ChannelAdvance.AdvanceIff | scripts/release.js:951-1031 | exactly when a publisher moves a channel: no file there yet, or consistent files on both sides and a higher version, or a lower one with rollback allowed |
| ChannelAdvance.UnchangedIff | scripts/release.js:1017-1027 | "unchanged" is answered exactly when the branch holds the publisher's consistent files byte for byte |
| ChannelAdvance.WithFilesIsLocal | scripts/release.js:639-652 | the new tree has the four files and leaves every other path alone |
| ChannelPublication.FastForwardIsCompareAndSwap | scripts/release.js:661-670 | a non-forced update of a new commit, however late it arrives, is accepted exactly when the head is still the commit it was built on |
| ChannelPublication.StepKeepsInvariant | scripts/release.js:597-680 | every step of every publisher, late arrivals of its requests included, keeps the branch a chain of justified moves |
| ChannelSafety.EveryCommitIsWhole | scripts/release.js:639-659 | in every reachable state, each commit replaces the four files of one channel together, touches nothing else, and moves an existing channel strictly up, or strictly down if its author allowed a rollback |
| ChannelSafety.ChannelIsMonotone | scripts/release.js:597-680 | with rollback off, any two heads of the branch show the same four files or, later, a strictly higher version, and a channel is never incomplete again |
| ChannelSafety.RetryChangesNothing | scripts/release.js:604-619 | a publisher whose commit reached the branch, knowingly or not, never advances the channel again |
| ChannelSafety.AtMostOneMoveEach | scripts/release.js:604-619 | with rollback off a publisher moves the branch at most once in a whole run |
| ChannelSafety.RetryAdvancesIff | scripts/release.js:1011-1016 | on its own or later files a publisher advances if and only if rollback is allowed and the files are later ones, both sets consistent |
| ChannelSafety.PublishedMeansLive | scripts/release.js:597-680 | a publisher that ends well had exactly its files on the branch at some head |
| ChannelPublisher.Repository.PublishMutableChannelManifests | scripts/release.js:597-619 | the retry loop, with any steps of others and any late arrivals in between, is a run of the machine and keeps its world reachable; it ends published or failed, and published means its files were on the branch at some head since the call |
| ChannelPublisher.Repository.PublishChannelTree | scripts/release.js:621-680 | one attempt, in which any request may fail, ends published, refused, or in a conflict that leaves it ready to read again |
| ChannelPublisher.Repository.UpdateRef | scripts/release.js:661-680 | a request counts as done only when accepted and answered, and then the files are live at the head |
| ChannelPublisher.Repository.CheckBranch | scripts/release.js:671-679 | a failed request is a conflict exactly when the branch has moved, and is retried in the first two attempts |
| AuditChain.VerifyRows | crates/centrald-server/src/audit_export.rs:191-209 | the loop accepts exactly the chained rows and names the first row that fails and how |
| AuditChain.VerifyChain | crates/centrald-server/src/audit_export.rs:167-211 | a window is accepted exactly when it is not empty, starts after the previous export, links to its tail and is chained |
| AuditChain.WindowsCompose | crates/centrald-server/src/audit_export.rs:186-209 | a window and its continuation verify if and only if the two together do |
| AuditChain.TailHashFixesHistory | crates/centrald-server/src/audit_export.rs:191-227 | two tables that verify from the start and end in the same hash have the same length and the same records, or show a digest collision |
| AuditChain.SameHistorySameTail | crates/centrald-server/src/audit_export.rs:214-227 | verified tables with the same records end in the same hash whatever their sequence numbers |
| AuditChain.RecordFixesRow | crates/centrald-server/src/audit_export.rs:214-227 | two rows have the same hashed record exactly when they agree in every column but the sequence, the stored hash and what is below a microsecond |
| AuditChain.NormalizedMicros | crates/centrald-server/src/audit_export.rs:231-234 | a time is cut down to a whole microsecond |
| AuditFileNames.FileNameRoundTrip | crates/centrald-server/src/audit_export.rs:270-280 | the range is read back from the name of every export file |
| AuditFileNames.CurrentIsLawful | crates/centrald-server/src/audit_export.rs:18-19 | the naming in use is one the exporter can rely on |
| AuditExport.ExistingExportTail | crates/centrald-server/src/audit_export.rs:108-151 | in whatever order the directory is listed, the tail is that of a file with the greatest end; too many entries, a bad name, and a newest file that is empty or whose last line is not JSON or has no hash are errors |
| AuditExport.LastLineIsLast | crates/centrald-server/src/audit_export.rs:136-140 | the line the tail is read from is the last that is not blank, and there is none only where all are blank |
| AuditExport.CurrentFormatIsLawful | crates/centrald-server/src/audit_export.rs:74-91 | reading the tail of the bytes written for any rows gives the hash of the last one, and the bytes of two stretches are those of both together |
| AuditExport.WriteLines | crates/centrald-server/src/audit_export.rs:75-91 | the loop writes one line for each row, in order |
| AuditExport.WindowAfter | crates/centrald-server/src/audit_export.rs:153-165 | the rows after a sequence number, limited, are the next stretch of the table |
| AuditExporter.FilesHoldVerifiedPrefix | crates/centrald-server/src/audit_export.rs:51-105 | after any interleaving of appends, exports and leftover temporary files, the bytes of the files, ordered by end sequence, are those of a gap-free prefix of the table that verifies in one go |
| AuditExporter.WindowedIsOneShot | crates/centrald-server/src/audit_export.rs:51-105 | verifying the next window is verifying the table from its start through that window |
| AuditExporter.ExportAdvancesIff | crates/centrald-server/src/audit_export.rs:51-105 | an export reaches as far as it is asked to if and only if the table verifies that far and the directory has room, and otherwise changes nothing |
| AuditExporter.ExportedTailFixesContents | crates/centrald-server/src/audit_export.rs:76-91 | two export directories whose newest files end with the same hash hold the same bytes, or the digest collides |
| AuditExporter.NewNameIsFree | crates/centrald-server/src/audit_export.rs:70-93 | exclusive creation never finds the new file's name taken |
| AuditExporter.Exporter.FindTail | crates/centrald-server/src/audit_export.rs:108-151 | the export continues exactly at the end of what is exported |
| AuditExporter.Exporter.ExportAuditChain | crates/centrald-server/src/audit_export.rs:51-105 | the bytes of the directory become exactly what one export of the model says; success is reported exactly, with the sequence and hash at which the export stood, where it stands now and how many rows it added |
| Hex.DecodeUndoesEncode | crates/centrald-server/src/audit_export.rs:188-190 | decoding a tail hash gives back the bytes; the digits are lower-case, high half first (`KnownValue`) |
| Framing.TakeFrameIff | crates/centrald-client/src/broker_session.rs:674-697 | a body is read from a stream exactly when the stream begins with the frame of that body and its size is from 1 to the bound |
| Framing.LengthRoundTrip | crates/centrald-client/src/broker_session.rs:674-697 | every length below 4 GiB is read back from its four bytes, which are written most significant first (`MostSignificantFirst`) |
| Framing.StreamRoundTrip | crates/centrald-client/src/broker_session.rs:674-697 | any list of acceptable bodies is read back exactly |
| Framing.StreamIsItsFrames | crates/centrald-client/src/broker_session.rs:674-686 | a stream that is read to its end consists of the frames of what was read |
| Framing.CutFrameIsRefused | crates/centrald-client/src/broker_session.rs:674-686 | every proper prefix of a frame is an error, never another body |
| Framing.UnframeMessageIff | crates/centrald-client/src/broker_session.rs:707-719 | a message is accepted exactly when it is one frame of an acceptable body |
| Framing.UnframeBytesIff | crates/centrald-client/src/broker.rs:390-406 | a body and its frame length are returned exactly when the bytes begin with that frame |
| Framing.ByteStream.ReadFrame | crates/centrald-client/src/broker_session.rs:674-686 | reads the stream's first frame and leaves the rest, or fails as the stream says, having consumed the four length bytes of a refused length and everything of a cut frame |
| Framing.ByteStream.WriteFrame | crates/centrald-client/src/broker_session.rs:693-699 | appends exactly one frame, and refuses bodies of 4 GiB and more |
| Framing.PollFirstFrame | crates/centrald-client/src/broker.rs:610-648 | the polling loop returns a body exactly when some number of polls deliver its frame, in any pieces, before a failure or the timeout |
| CommandOutput.DrainPipe | crates/centrald-client/src/runners.rs:309-334 | a reader sends the pipe's bytes in order up to the bound, all of them while the receiver takes every chunk |
| CommandOutput.CollectChunks | crates/centrald-client/src/runners.rs:284-293 | whatever the arrival order, each stream's chunks are joined in their own order |
| CommandOutput.MergeOutput | crates/centrald-client/src/runners.rs:295-301 | all of stdout, then as much of stderr as the bound leaves room for |
| CommandOutput.RunBounded | crates/centrald-client/src/runners.rs:281-307 | a command that ends in time yields its exit code and a prefix of stdout and then one of stderr, at most 64 KiB, always recordable, and all of both when they fit and arrive in time; one that does not end yields an error |
| WireSizes.ResponseFits | crates/centrald-platform/src/broker.rs:16-22 | the JSON text of any response with recordable output fits 384 KiB, so its frame is read back as that text |
| WireSizes.DataFrameFits | crates/centrald-client/src/broker_session.rs:30-33 | the text of a terminal chunk of up to 1 MiB in base64 fits the 1,500,000-byte frame, so it is read back as that text, and its data decodes to the chunk |
| WireSizes.FramedTextIsReadBack | crates/centrald-client/src/broker_session.rs:674-719 | every text within a bound is read back from its frame |
| Base64.DecodeUndoesEncode | crates/centrald-client/src/broker_session.rs:653-656 | encoded session data decodes exactly (section 4 of RFC 4648); alphabet and bit order are fixed by a value of section 10 (`KnownValue`) |
| Base64.EncodeUndoesDecode | crates/centrald-client/src/broker_session.rs:569-572 | whatever decodes is the encoding of what it decodes to |

## Left out

- BrokerExecution.BrokerExecutor.Execute: serves one request alone; threads that interleave are `Interleave`, whose contract says that they take a run of the protocol and not what each is answered.
- BrokerExecution.BrokerExecutor.Interleave: job requests only; the three grant steps of sessions are steps of the state machine without code of their own.
- DurableLedger.BrokerLedger.Append: follows a read that has repaired the file, so a repair inside its compaction does not fail.
- PointerProtocol.ReaderSeesCommittedOrPublished: starts from a committed pointer; the very first publication, with nothing committed before it, is not covered.
- ChannelPublisher.Repository.PublishChannelTree: truncated tree listings and blob encodings end the attempt in the source and appear only as failing requests; the branch exists from the start.
- AuditExporter.Exporter.ExportAuditChain: one exporter works at a time, and exported rows are not changed afterwards.
- CommandOutput.RunBounded: termination and killing of a command that timed out are not modelled; the order and number of chunks that arrive in time are inputs.
- Locks poisoned by a panic: only the execution lock, which is the one held across steps.
- Session handling beyond its three grant steps: terminals, credentials, idle and absolute timeouts.
- How a pending settings update and a pending database update interact.
- File ownership, modes, symbolic links, Windows services and pipes, PTYs, PAM, TLS and certificates, PostgreSQL: operating system and library behaviour.
- Ed25519, SHA-256 and JSON themselves: inputs or function values with the laws stated above.
- Enrollment, identity rotation, the admin interface, packaging and setup scripts, release building and signing: other concerns, or plumbing.
