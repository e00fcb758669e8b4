/**
 What each section of a broker thread that holds a lock means in the protocol:
 the step it takes, given what the ledger's methods leave of the file.
 Source: crates/centrald-client/src/broker.rs
 */
module BrokerSections {
  import opened Wrappers
  import opened LedgerRecords
  import opened LedgerJournal
  import opened DurableLedger
  import opened Grants
  import opened BrokerProtocol
  import opened Runs

  /** Some steps of the protocol lead from `a` to `b`. */
  ghost predicate Came(a: State, b: State) {
    Leads(Steps(), a, b)
  }

  lemma Stepped(s: State, step: Step, s': State)
    requires Enabled(s, step) && s' == Apply(s, step)
    ensures Came(s, s')
  {
    LeadsByStep(Steps(), s, s');
  }

  lemma CameOn(a: State, b: State, c: State)
    requires Came(a, b) && Came(b, c)
    ensures Came(a, c)
  {
    LeadsOn(Steps(), a, b, c);
  }

  /** The lock after thread `t` has ended. */
  function Unlocked(lock: ExecutionLock, t: ThreadId): ExecutionLock {
    if lock == Held(t) then Free else lock
  }

  /** Thread `t` has ended; nobody else has moved. */
  predicate Ended(s: State, s': State, t: ThreadId) {
    s'.memory.workers == s.memory.workers - {t} && s'.memory.execution == Unlocked(s.memory.execution, t)
  }

  /** Thread `t` is at `stage`; nobody else has moved. */
  predicate WentOn(s: State, s': State, t: ThreadId, stage: Stage) {
    && t in s.memory.workers && s.memory.workers[t].JobWorker?
    && s'.memory.workers == s.memory.workers[t := s.memory.workers[t].(stage := stage)]
    && s'.memory.execution == s.memory.execution
  }

  /** A thread that came and went has left the others as they were. */
  lemma CameAndWent(ws: map<ThreadId, Worker>, t: ThreadId, w: Worker, w': Worker)
    ensures ws[t := w][t := w'] == ws[t := w'] && ws[t := w] - {t} == ws - {t}
    ensures t !in ws ==> ws - {t} == ws
  {
  }

  predicate KeepsGrants(s: State, s': State) {
    s'.device == s.device && s'.disk.consumed == s.disk.consumed && s'.memory.replay == s.memory.replay
  }

  predicate SameStarts(s: State, s': State) {
    s'.history.starts == s.history.starts
  }

  // ---- Grants ------------------------------------------------------------

  lemma Arrives(s: State, t: ThreadId, request: Request, now: Time) returns (s': State)
    requires t !in s.memory.workers
    ensures Came(s, s') && KeepsGrants(s, s') && SameStarts(s, s') && s'.disk == s.disk
    ensures s'.memory.workers == s.memory.workers[t := JobWorker(request, now, ConsumingGrant)]
    ensures s'.memory.execution == s.memory.execution
  {
    s' := Apply(s, Arrive(t, request, now));
    Stepped(s, Arrive(t, request, now), s');
  }

  lemma Consumes(s: State, t: ThreadId) returns (s': State)
    requires AtStage(s, t, ConsumingGrant)
    ensures Came(s, s') && SameStarts(s, s') && s'.disk == s.disk && s'.device == s.device
    ensures var w := s.memory.workers[t];
      var (r, replay') := Consume(s.memory.replay, w.request.grant, s.device, w.now);
      s'.memory.replay == replay' && if r.Ok? then WentOn(s, s', t, JournallingGrant) else Ended(s, s', t)
  {
    s' := Apply(s, ConsumeGrant(t));
    Stepped(s, ConsumeGrant(t), s');
  }

  lemma Journals(s: State, t: ThreadId) returns (s': State)
    requires AtStage(s, t, JournallingGrant)
    ensures Came(s, s') && SameStarts(s, s') && s'.disk.ledger == s.disk.ledger && s'.device == s.device
    ensures s'.memory.replay == s.memory.replay
    ensures var request := s.memory.workers[t].request;
      && s'.disk.consumed == s.disk.consumed + [Consumed(request.grant.id, request.grant.expiresAt)]
      && if request.parametersMatch then WentOn(s, s', t, FirstLookup) else Ended(s, s', t)
  {
    s' := Apply(s, JournalGrant(t));
    Stepped(s, JournalGrant(t), s');
  }

  lemma JournalIsLost(s: State, t: ThreadId, written: bool) returns (s': State)
    requires AtStage(s, t, JournallingGrant)
    ensures Came(s, s') && SameStarts(s, s') && s'.disk.ledger == s.disk.ledger && s'.device == s.device
    ensures s'.memory.replay == s.memory.replay && Ended(s, s', t)
    ensures var grant := s.memory.workers[t].request.grant;
      s'.disk.consumed == s.disk.consumed + if written then [Consumed(grant.id, grant.expiresAt)] else []
  {
    s' := Apply(s, JournalFails(t, written));
    Stepped(s, JournalFails(t, written), s');
  }

  // ---- The ledger --------------------------------------------------------

  lemma LooksUp(s: State, t: ThreadId) returns (s': State)
    requires AtStage(s, t, FirstLookup) || AtStage(s, t, SecondLookup)
    ensures Came(s, s') && KeepsGrants(s, s') && SameStarts(s, s') && s'.disk == s.disk
    ensures LookupLeads(s, s', t, Found(s, t))
  {
    var w, found := s.memory.workers[t], Found(s, t);
    s' := AfterLookup(s, t, found, if w.stage.FirstLookup? then AwaitingExecution else Marking);
    var step := if w.stage.FirstLookup? then LookupFirst(t) else LookupAgain(t);
    Stepped(s, step, s');
  }

  /** A repair of the ledger that fails leaves the first records. */
  lemma RepairIsCut(s: State, t: ThreadId, codec: Codec, file: Option<Bytes>, count: nat) returns (s': State)
    requires Lawful(codec) && Stores(codec, file, s.disk.ledger) && file.Some? && ReadsLedger(s, t)
    ensures Came(s, s') && KeepsGrants(s, s') && SameStarts(s, s') && Ended(s, s', t)
    ensures Stores(codec, PartlyRepaired(file, count), s'.disk.ledger)
  {
    var keep := RepairRefines(codec, file, s.disk.ledger, count);
    s' := Refuse(Truncated(s, keep), t);
    Stepped(s, RecoveryStops(t, keep), s');
  }

  ghost function AsCompaction(c: Option<(set<JobId>, seq<Record>)>, at: Time): Option<Compaction> {
    match c
    case None => None
    case Some(pair) => Some(Compaction(at, pair.0, pair.1))
  }

  /** What a lookup leaves of the file, and what it finds. */
  predicate LookupLeaves(codec: Codec, file: Option<Bytes>, job: JobId, now: Time, stops: Option<nat>,
                         file': Option<Bytes>, found: Result<Option<Answer>, LedgerError>)
  {
    if RepairFails(file, stops) then found == Err(NotWritten) && file' == PartlyRepaired(file, stops.value)
    else found == LookupBytes(codec, file, job, now) && file' == RecoveredFile(file)
  }

  /** Where a lookup leads its thread. */
  predicate LookupLeads(s: State, s': State, t: ThreadId, found: Result<Option<Answer>, LedgerError>)
    requires t in s.memory.workers && s.memory.workers[t].JobWorker?
  {
    var w := s.memory.workers[t];
    && (found == Ok(None) ==> WentOn(s, s', t, if w.stage.FirstLookup? then AwaitingExecution else Marking))
    && (found != Ok(None) ==> Ended(s, s', t))
    && (found.Ok? && found.value.Some? && found.value.value.Done? ==>
          (w.request.grant.job, found.value.value.response) in s'.history.answers)
  }

  /** Looking a job up in the file is looking it up in the protocol. */
  lemma LookupRefines(s: State, t: ThreadId, codec: Codec, file: Option<Bytes>, stops: Option<nat>,
                      file': Option<Bytes>, found: Result<Option<Answer>, LedgerError>)
      returns (s': State)
    requires Lawful(codec) && Stores(codec, file, s.disk.ledger)
    requires AtStage(s, t, FirstLookup) || AtStage(s, t, SecondLookup)
    requires var w := s.memory.workers[t];
      LookupLeaves(codec, file, w.request.grant.job, w.now, stops, file', found)
    ensures Came(s, s') && KeepsGrants(s, s') && SameStarts(s, s') && Stores(codec, file', s'.disk.ledger)
    ensures LookupLeads(s, s', t, found)
    ensures !RepairFails(file, stops) ==> found == Found(s, t) && s'.disk == s.disk
  {
    var w := s.memory.workers[t];
    StoredLookup(codec, file, s.disk.ledger, w.request.grant.job, w.now);
    if RepairFails(file, stops) {
      s' := RepairIsCut(s, t, codec, file, stops.value);
    } else {
      WholeIsStored(codec, file', s.disk.ledger);
      s' := LooksUp(s, t);
    }
  }

  /** The protocol's ledger after an append, in the words of the file. */
  lemma LedgerAfterAppend(s: State, compaction: Option<(set<JobId>, seq<Record>)>, at: Time)
    ensures Compacted(s, AsCompaction(compaction, at)).disk.ledger == AppendBase(s.disk.ledger, compaction)
    ensures KeepsGrants(s, Compacted(s, AsCompaction(compaction, at)))
  {
  }

  /** What an append to a whole file leaves stands for the records with the new one, if its line was written. */
  lemma AppendStores(codec: Codec, file: Option<Bytes>, rs: seq<Record>, r: Record, at: Time, fails: Option<nat>,
                     file': Option<Bytes>, ok: Result<(), LedgerError>, c: Option<(set<JobId>, seq<Record>)>)
    requires Lawful(codec) && StoresWhole(codec, file, rs)
    requires Appended(codec, file, r, at, fails, file', ok, c)
    ensures ok == if fails.None? then Ok(()) else Err(NotWritten)
    ensures c.Some? ==> IsCompaction(rs, at, c.value.0, c.value.1)
    ensures Stores(codec, file', AppendBase(rs, c) + if IsWritten(Line(codec, r), fails) then [r] else [])
  {
    var base := AppendBase(rs, c);
    AppendRefines(codec, file, rs, r, at, fails, file', ok, c);
    if IsWritten(Line(codec, r), fails) {
      WholeIsStored(codec, file', base + [r]);
    } else {
      assert base + [] == base;
    }
  }

  /** The worker's step when its line is appended, or when that fails. */
  ghost function AppendStep(t: ThreadId, marking: bool, compaction: Option<Compaction>, fails: Option<nat>,
                            written: bool): Step
  {
    if fails.Some? then AppendFails(t, compaction, written)
    else if marking then Mark(t, compaction) else RecordCompleted(t, compaction)
  }

  function MarkerOf(w: Worker): Record
    requires w.JobWorker?
  {
    ExecutingRecord(w.request.grant.job, w.request.grant.operation, w.now)
  }

  /** The step of a mark that appends, and the ledger after it. */
  lemma MarkAppends(s: State, t: ThreadId, c: Option<(set<JobId>, seq<Record>)>, at: Time, fails: Option<nat>,
                    written: bool)
      returns (s': State)
    requires AtStage(s, t, Marking) && Found(s, t) == Ok(None)
    requires c.Some? ==> IsCompaction(s.disk.ledger, at, c.value.0, c.value.1)
    requires fails.None? ==> written
    ensures Came(s, s') && KeepsGrants(s, s') && SameStarts(s, s')
    ensures s'.disk.ledger ==
      AppendBase(s.disk.ledger, c) + if written then [MarkerOf(s.memory.workers[t])] else []
    ensures if fails.None? then WentOn(s, s', t, StartingRunner) else Ended(s, s', t)
  {
    var compaction := AsCompaction(c, at);
    var step := AppendStep(t, true, compaction, fails, written);
    LedgerAfterAppend(s, c, at);
    s' := if fails.None? then Marked(s, t, compaction, true) else AppendFailed(s, t, compaction, written);
    Stepped(s, step, s');
  }

  /** The step of a completion that is recorded, or whose append fails, and the ledger after it. */
  lemma CompletionAppends(s: State, t: ThreadId, c: Option<(set<JobId>, seq<Record>)>, at: Time, fails: Option<nat>,
                          written: bool)
      returns (s': State)
    requires IsRecording(s, t) && RecordableOperation(s, t).Some?
    requires c.Some? ==> IsCompaction(s.disk.ledger, at, c.value.0, c.value.1)
    requires fails.None? ==> written
    ensures Came(s, s') && KeepsGrants(s, s') && SameStarts(s, s') && Ended(s, s', t)
    ensures s'.disk.ledger == AppendBase(s.disk.ledger, c)
      + if written then [CompletionOf(s.memory.workers[t], RecordableOperation(s, t).value)] else []
    ensures fails.None? ==> (JobOf(s.memory.workers[t]), s.memory.workers[t].stage.response) in s'.history.answers
  {
    var compaction := AsCompaction(c, at);
    var operation := RecordableOperation(s, t);
    var step := AppendStep(t, false, compaction, fails, written);
    LedgerAfterAppend(s, c, at);
    s' := if fails.None? then Recorded(s, t, compaction, operation) else AppendFailed(s, t, compaction, written);
    Stepped(s, step, s');
  }

  /** A worker that finds its job in the ledger when it comes to mark it ends. */
  lemma MarkIsRefused(s: State, t: ThreadId) returns (s': State)
    requires AtStage(s, t, Marking) && Found(s, t) != Ok(None)
    ensures Came(s, s') && KeepsGrants(s, s') && SameStarts(s, s') && s'.disk == s.disk && Ended(s, s', t)
  {
    s' := Refuse(s, t);
    Stepped(s, Mark(t, None), s');
  }

  /** A result that cannot be recorded ends its worker. */
  lemma CompletionIsRefused(s: State, t: ThreadId) returns (s': State)
    requires IsRecording(s, t) && RecordableOperation(s, t).None?
    ensures Came(s, s') && KeepsGrants(s, s') && SameStarts(s, s') && s'.disk == s.disk && Ended(s, s', t)
  {
    s' := Refuse(s, t);
    Stepped(s, RecordCompleted(t, None), s');
  }

  /** Marking a job on the file is marking it in the protocol. */
  lemma MarkRefines(s: State, t: ThreadId, codec: Codec, file: Option<Bytes>, stops: Option<nat>, at: Time,
                    fails: Option<nat>, file': Option<Bytes>, ok: Result<(), LedgerError>,
                    c: Option<(set<JobId>, seq<Record>)>)
      returns (s': State)
    requires Lawful(codec) && Stores(codec, file, s.disk.ledger) && AtStage(s, t, Marking)
    requires RepairFails(file, stops) ==> ok == Err(NotWritten) && file' == PartlyRepaired(file, stops.value)
    requires !RepairFails(file, stops) ==>
      MarkLeaves(codec, file, MarkerOf(s.memory.workers[t]), s.memory.workers[t].now, at, fails, file', ok, c)
    ensures Came(s, s') && KeepsGrants(s, s') && SameStarts(s, s') && Stores(codec, file', s'.disk.ledger)
    ensures MarkLeads(s, s', t, RepairFails(file, stops), fails, ok)
  {
    if RepairFails(file, stops) {
      s' := RepairIsCut(s, t, codec, file, stops.value);
    } else {
      s' := WholeMarkRefines(s, t, codec, file, at, fails, file', ok, c);
    }
  }

  /** Where a mark leads its thread. */
  ghost predicate MarkLeads(s: State, s': State, t: ThreadId, stopped: bool, fails: Option<nat>,
                            ok: Result<(), LedgerError>)
    requires t in s.memory.workers && s.memory.workers[t].JobWorker?
  {
    && (stopped ==> ok == Err(NotWritten))
    && (!stopped && Found(s, t) == Ok(None) ==> ok == if fails.None? then Ok(()) else Err(NotWritten))
    && (!stopped && Found(s, t) != Ok(None) ==> ok.Err?)
    && (ok.Err? ==> Ended(s, s', t))
    && (ok.Ok? ==> WentOn(s, s', t, StartingRunner) && EndsIn(s'.disk.ledger, MarkerOf(s.memory.workers[t])))
  }

  ghost predicate EndsIn(ledger: seq<Record>, r: Record) {
    exists base :: ledger == base + [r]
  }

  lemma WholeMarkRefines(s: State, t: ThreadId, codec: Codec, file: Option<Bytes>, at: Time, fails: Option<nat>,
                         file': Option<Bytes>, ok: Result<(), LedgerError>, c: Option<(set<JobId>, seq<Record>)>)
      returns (s': State)
    requires Lawful(codec) && Stores(codec, file, s.disk.ledger) && AtStage(s, t, Marking)
    requires MarkLeaves(codec, file, MarkerOf(s.memory.workers[t]), s.memory.workers[t].now, at, fails, file', ok, c)
    ensures Came(s, s') && KeepsGrants(s, s') && SameStarts(s, s') && Stores(codec, file', s'.disk.ledger)
    ensures MarkLeads(s, s', t, false, fails, ok)
  {
    var w := s.memory.workers[t];
    StoredLookup(codec, file, s.disk.ledger, w.request.grant.job, w.now);
    if Found(s, t) == Ok(None) {
      s' := UnknownMarkRefines(s, t, codec, RecoveredFile(file), at, fails, file', ok, c);
    } else {
      WholeIsStored(codec, file', s.disk.ledger);
      s' := MarkIsRefused(s, t);
    }
  }

  lemma UnknownMarkRefines(s: State, t: ThreadId, codec: Codec, file: Option<Bytes>, at: Time, fails: Option<nat>,
                           file': Option<Bytes>, ok: Result<(), LedgerError>, c: Option<(set<JobId>, seq<Record>)>)
      returns (s': State)
    requires Lawful(codec) && StoresWhole(codec, file, s.disk.ledger)
    requires AtStage(s, t, Marking) && Found(s, t) == Ok(None)
    requires Appended(codec, file, MarkerOf(s.memory.workers[t]), at, fails, file', ok, c)
    ensures Came(s, s') && KeepsGrants(s, s') && SameStarts(s, s') && Stores(codec, file', s'.disk.ledger)
    ensures MarkLeads(s, s', t, false, fails, ok)
  {
    var r := MarkerOf(s.memory.workers[t]);
    AppendStores(codec, file, s.disk.ledger, r, at, fails, file', ok, c);
    s' := MarkAppends(s, t, c, at, fails, IsWritten(Line(codec, r), fails));
  }

  /** Where recording a completion leads: the thread ends, with its answer if the line was written. */
  ghost predicate CompletionLeads(s: State, s': State, t: ThreadId, stopped: bool, fails: Option<nat>,
                                  ok: Result<(), LedgerError>)
    requires IsRecording(s, t)
  {
    var w := s.memory.workers[t];
    && Ended(s, s', t)
    && (stopped ==> ok == Err(NotWritten))
    && (!stopped && RecordableOperation(s, t).Some? ==> ok == if fails.None? then Ok(()) else Err(NotWritten))
    && (!stopped && RecordableOperation(s, t).None? ==> ok.Err?)
    && (ok.Ok? ==> (JobOf(w), w.stage.response) in s'.history.answers
                   && RecordableOperation(s, t).Some?
                   && EndsIn(s'.disk.ledger, CompletionOf(w, RecordableOperation(s, t).value)))
  }

  /** Recording a completion on the file is recording it in the protocol. */
  lemma CompletionRefines(s: State, t: ThreadId, codec: Codec, file: Option<Bytes>, stops: Option<nat>, at: Time,
                          fails: Option<nat>, file': Option<Bytes>, ok: Result<(), LedgerError>,
                          c: Option<(set<JobId>, seq<Record>)>)
      returns (s': State)
    requires Lawful(codec) && Stores(codec, file, s.disk.ledger) && IsRecording(s, t)
    requires |s.memory.workers[t].stage.response.output| <= MAX_RECORDED_OUTPUT_BYTES
    requires RepairFails(file, stops) ==> ok == Err(NotWritten) && file' == PartlyRepaired(file, stops.value)
    requires var w := s.memory.workers[t]; !RepairFails(file, stops) ==>
      CompletionLeaves(codec, file, JobOf(w), w.stage.response, w.now, at, fails, file', ok, c)
    ensures Came(s, s') && KeepsGrants(s, s') && SameStarts(s, s') && Stores(codec, file', s'.disk.ledger)
    ensures CompletionLeads(s, s', t, RepairFails(file, stops), fails, ok)
  {
    if RepairFails(file, stops) {
      s' := RepairIsCut(s, t, codec, file, stops.value);
    } else {
      s' := WholeCompletionRefines(s, t, codec, file, at, fails, file', ok, c);
    }
  }

  lemma WholeCompletionRefines(s: State, t: ThreadId, codec: Codec, file: Option<Bytes>, at: Time, fails: Option<nat>,
                               file': Option<Bytes>, ok: Result<(), LedgerError>,
                               c: Option<(set<JobId>, seq<Record>)>)
      returns (s': State)
    requires Lawful(codec) && Stores(codec, file, s.disk.ledger) && IsRecording(s, t)
    requires |s.memory.workers[t].stage.response.output| <= MAX_RECORDED_OUTPUT_BYTES
    requires var w := s.memory.workers[t];
      CompletionLeaves(codec, file, JobOf(w), w.stage.response, w.now, at, fails, file', ok, c)
    ensures Came(s, s') && KeepsGrants(s, s') && SameStarts(s, s') && Stores(codec, file', s'.disk.ledger)
    ensures CompletionLeads(s, s', t, false, fails, ok)
  {
    var w := s.memory.workers[t];
    StoredLookup(codec, file, s.disk.ledger, JobOf(w), w.now);
    if RecordableOperation(s, t).Some? {
      s' := KnownCompletionRefines(s, t, codec, RecoveredFile(file), at, fails, file', ok, c);
    } else {
      WholeIsStored(codec, file', s.disk.ledger);
      s' := CompletionIsRefused(s, t);
    }
  }

  lemma KnownCompletionRefines(s: State, t: ThreadId, codec: Codec, file: Option<Bytes>, at: Time, fails: Option<nat>,
                               file': Option<Bytes>, ok: Result<(), LedgerError>,
                               c: Option<(set<JobId>, seq<Record>)>)
      returns (s': State)
    requires Lawful(codec) && StoresWhole(codec, file, s.disk.ledger)
    requires IsRecording(s, t) && RecordableOperation(s, t).Some?
    requires var r := CompletionOf(s.memory.workers[t], RecordableOperation(s, t).value);
      Appended(codec, file, r, at, fails, file', ok, c)
    ensures Came(s, s') && KeepsGrants(s, s') && SameStarts(s, s') && Stores(codec, file', s'.disk.ledger)
    ensures CompletionLeads(s, s', t, false, fails, ok)
  {
    var r := CompletionOf(s.memory.workers[t], RecordableOperation(s, t).value);
    AppendStores(codec, file, s.disk.ledger, r, at, fails, file', ok, c);
    s' := CompletionAppends(s, t, c, at, fails, IsWritten(Line(codec, r), fails));
  }

  // ---- The execution lock and the runner ---------------------------------

  lemma Acquires(s: State, t: ThreadId) returns (s': State)
    requires AtStage(s, t, AwaitingExecution) && !s.memory.execution.Held?
    ensures Came(s, s') && KeepsGrants(s, s') && SameStarts(s, s') && s'.disk == s.disk
    ensures s.memory.execution.Poisoned? ==> Ended(s, s', t)
    ensures s.memory.execution.Free? ==>
      && s'.memory.workers == s.memory.workers[t := s.memory.workers[t].(stage := SecondLookup)]
      && s'.memory.execution == Held(t)
  {
    s' := Apply(s, AcquireExecution(t));
    Stepped(s, AcquireExecution(t), s');
  }

  lemma Starts(s: State, t: ThreadId) returns (s': State)
    requires AtStage(s, t, StartingRunner)
    ensures Came(s, s') && KeepsGrants(s, s') && s'.disk == s.disk && WentOn(s, s', t, Running)
    ensures var job := JobOf(s.memory.workers[t]);
      s'.history.starts == s.history.starts[job := Count(s.history.starts, job) + 1]
  {
    s' := Apply(s, StartRunner(t));
    Stepped(s, StartRunner(t), s');
  }

  lemma Returns(s: State, t: ThreadId, outcome: Option<Response>) returns (s': State)
    requires AtStage(s, t, Running)
    ensures Came(s, s') && KeepsGrants(s, s') && SameStarts(s, s') && s'.disk == s.disk
    ensures if outcome.None? then Ended(s, s', t) else WentOn(s, s', t, Recording(outcome.value))
  {
    s' := Apply(s, RunnerReturns(t, outcome));
    Stepped(s, RunnerReturns(t, outcome), s');
  }

  lemma Panics(s: State, t: ThreadId) returns (s': State)
    requires t in s.memory.workers
    ensures Came(s, s') && KeepsGrants(s, s') && SameStarts(s, s') && s'.disk == s.disk
    ensures s'.memory.workers == s.memory.workers - {t}
    ensures s'.memory.execution == if s.memory.execution == Held(t) then Poisoned else s.memory.execution
  {
    s' := Apply(s, Panic(t));
    Stepped(s, Panic(t), s');
  }
}
