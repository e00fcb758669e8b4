/**
 The privileged broker as a state machine: any number of worker threads, each
 taking one atomic step at a time, with crashes and restarts between any two.
 A step is what a worker does while it holds the verifier or the ledger lock
 once; the execution lock is held across steps. The release gate is open.
 Sources: crates/centrald-client/src/broker.rs, crates/centrald-client/src/ledger.rs,
 crates/centrald-client/src/broker_session.rs
 */
module BrokerProtocol {
  import opened Wrappers
  import opened LedgerRecords
  import opened Grants
  import opened Runs

  type ThreadId = nat

  /** A job request; `parametersMatch` is the outcome of comparing the parameter digest. */
  datatype Request = Request(grant: Grant, parametersMatch: bool)

  /** Where a worker stands; each name says what its next step does. */
  datatype Stage =
    | ConsumingGrant
    | JournallingGrant
    | FirstLookup
    | AwaitingExecution
    | SecondLookup
    | Marking
    | StartingRunner
    | Running
    | Recording(response: Response)

  datatype SessionStage = CheckingJournal | ConsumingSessionGrant | JournallingSessionGrant

  datatype Worker =
    | JobWorker(request: Request, now: Time, stage: Stage)
    | SessionWorker(grant: Grant, sessionStage: SessionStage)

  datatype ExecutionLock = Free | Held(holder: ThreadId) | Poisoned

  /** What survives a crash. */
  datatype Disk = Disk(ledger: seq<Record>, consumed: seq<Consumed>)

  datatype Memory = Memory(replay: ReplaySet, execution: ExecutionLock, workers: map<ThreadId, Worker>)

  /**
   What has happened so far; no step reads it. `retention` is the expiry of a
   job's first completion. A compaction that takes away a job's marker adds the
   job to `stripped`, one that drops a marker past the newest 32 to `evicted`,
   and one that reads the clock at or past the job's retention and leaves no
   record of it to `lapsed`. A mark of the job at such a reading adds it to
   `late`, and a stopped recovery that drops a record of it to `lost`, and to
   `stripped` with the marker. `clock` is the latest reading taken.
   */
  datatype History = History(
    marks: map<JobId, nat>,
    starts: map<JobId, nat>,
    returned: map<JobId, seq<Response>>,
    recorded: map<JobId, seq<Response>>,
    retention: map<JobId, Time>,
    answers: set<(JobId, Response)>,
    stripped: set<JobId>,
    evicted: set<JobId>,
    lapsed: set<JobId>,
    late: set<JobId>,
    lost: set<JobId>,
    clock: Time)

  datatype State = State(device: DeviceId, disk: Disk, memory: Memory, history: History)

  /** A compaction at clock reading `at` that keeps the markers `kept` and leaves `after`. */
  datatype Compaction = Compaction(at: Time, kept: set<JobId>, after: seq<Record>)

  datatype Step =
    | Arrive(t: ThreadId, request: Request, now: Time)
    | ArriveSession(t: ThreadId, grant: Grant)
    | ConsumeGrant(t: ThreadId)
    | JournalGrant(t: ThreadId)
    | LookupFirst(t: ThreadId)
    | AcquireExecution(t: ThreadId)
    | LookupAgain(t: ThreadId)
    | Mark(t: ThreadId, compaction: Option<Compaction>)
    | StartRunner(t: ThreadId)
    | RunnerReturns(t: ThreadId, outcome: Option<Response>)
    | RecordCompleted(t: ThreadId, compaction: Option<Compaction>)
    | AppendFails(t: ThreadId, compaction: Option<Compaction>, written: bool)
    | RecoveryStops(t: ThreadId, keep: nat)
    | CheckSession(t: ThreadId, at: Time)
    | ConsumeSessionGrant(t: ThreadId, at: Time)
    | JournalSessionGrant(t: ThreadId)
    | JournalFails(t: ThreadId, written: bool)
    | Panic(t: ThreadId)
    | Restart(at: Time)

  function Count(m: map<JobId, nat>, j: JobId): nat {
    if j in m then m[j] else 0
  }

  function Responses(m: map<JobId, seq<Response>>, j: JobId): seq<Response> {
    if j in m then m[j] else []
  }

  function JobOf(w: Worker): JobId {
    match w
    case JobWorker(request, _, _) => request.grant.job
    case SessionWorker(grant, _) => grant.job
  }

  function GrantOf(w: Worker): Grant {
    match w
    case JobWorker(request, _, _) => request.grant
    case SessionWorker(grant, _) => grant
  }

  /** The worker is between taking and giving back the execution lock. */
  predicate InsideLock(w: Worker) {
    w.JobWorker? && (w.stage.SecondLookup? || w.stage.Marking? || w.stage.StartingRunner?
                     || w.stage.Running? || w.stage.Recording?)
  }

  ghost predicate Initial(s: State) {
    && s.disk == Disk([], [])
    && s.memory == Memory(map[], Free, map[])
    && s.history == History(map[], map[], map[], map[], map[], {}, {}, {}, {}, {}, {}, s.history.clock)
  }

  predicate AtStage(s: State, t: ThreadId, stage: Stage) {
    t in s.memory.workers && s.memory.workers[t].JobWorker? && s.memory.workers[t].stage == stage
  }

  predicate IsRecording(s: State, t: ThreadId) {
    t in s.memory.workers && s.memory.workers[t].JobWorker? && s.memory.workers[t].stage.Recording?
  }

  predicate AtSessionStage(s: State, t: ThreadId, stage: SessionStage) {
    t in s.memory.workers && s.memory.workers[t].SessionWorker? && s.memory.workers[t].sessionStage == stage
  }

  ghost predicate CompactionFits(s: State, compaction: Option<Compaction>) {
    compaction.Some? ==>
      IsCompaction(s.disk.ledger, compaction.value.at, compaction.value.kept, compaction.value.after)
  }

  ghost predicate Enabled(s: State, step: Step) {
    match step
    case Arrive(t, _, _) => t !in s.memory.workers
    case ArriveSession(t, _) => t !in s.memory.workers
    case ConsumeGrant(t) => AtStage(s, t, ConsumingGrant)
    case JournalGrant(t) => AtStage(s, t, JournallingGrant)
    case LookupFirst(t) => AtStage(s, t, FirstLookup)
    case AcquireExecution(t) => AtStage(s, t, AwaitingExecution) && !s.memory.execution.Held?
    case LookupAgain(t) => AtStage(s, t, SecondLookup)
    case Mark(t, compaction) => AtStage(s, t, Marking) && CompactionFits(s, compaction)
    case StartRunner(t) => AtStage(s, t, StartingRunner)
    case RunnerReturns(t, _) => AtStage(s, t, Running)
    case RecordCompleted(t, compaction) =>
      && IsRecording(s, t)
      && CompactionFits(s, compaction)
    case AppendFails(t, compaction, _) => Appending(s, t) && CompactionFits(s, compaction)
    case RecoveryStops(t, keep) => ReadsLedger(s, t) && keep <= |s.disk.ledger|
    case CheckSession(t, _) => AtSessionStage(s, t, CheckingJournal)
    case ConsumeSessionGrant(t, _) => AtSessionStage(s, t, ConsumingSessionGrant)
    case JournalSessionGrant(t) => AtSessionStage(s, t, JournallingSessionGrant)
    case JournalFails(t, _) => AtStage(s, t, JournallingGrant) || AtSessionStage(s, t, JournallingSessionGrant)
    case Panic(t) => t in s.memory.workers
    case Restart(_) => true
  }

  // ---- Building blocks of a step ---------------------------------------

  function Advance(s: State, t: ThreadId, stage: Stage): State
    requires t in s.memory.workers && s.memory.workers[t].JobWorker?
  {
    s.(memory := s.memory.(workers := s.memory.workers[t := s.memory.workers[t].(stage := stage)]))
  }

  function AdvanceSession(s: State, t: ThreadId, stage: SessionStage): State
    requires t in s.memory.workers && s.memory.workers[t].SessionWorker?
  {
    s.(memory := s.memory.(workers := s.memory.workers[t := s.memory.workers[t].(sessionStage := stage)]))
  }

  /** The worker ends with an error and gives the execution lock back. */
  function Refuse(s: State, t: ThreadId): State {
    s.(memory := s.memory.(
         workers := s.memory.workers - {t},
         execution := if s.memory.execution == Held(t) then Free else s.memory.execution))
  }

  /** The worker ends by answering Ok. */
  function Reply(s: State, t: ThreadId, response: Response): State
    requires t in s.memory.workers
  {
    var ended := Refuse(s, t);
    ended.(history := ended.history.(answers := ended.history.answers + {(JobOf(s.memory.workers[t]), response)}))
  }

  /** A clock reading is taken. */
  function Taken(s: State, at: Time): State {
    s.(history := s.history.(clock := Max(s.history.clock, at)))
  }

  /** The size check before an append: either nothing, or one compaction. */
  function Compacted(s: State, compaction: Option<Compaction>): State {
    match compaction
    case None => s
    case Some(c) =>
      var before := s.disk.ledger;
      s.(disk := s.disk.(ledger := c.after),
         history := s.history.(
           stripped := s.history.stripped
                       + (set j | j in JobsOf(before) && HasExecuting(before, j) && !HasExecuting(c.after, j)),
           evicted := s.history.evicted + (set j | j in JobsOf(before) && Evicted(before, c.at, c.kept, j)),
           lapsed := s.history.lapsed
                     + (set j | j in JobsOf(before) && j !in JobsOf(c.after)
                                && j in s.history.retention && s.history.retention[j] <= c.at)))
  }

  function AppendRecord(s: State, r: Record): State {
    s.(disk := s.disk.(ledger := s.disk.ledger + [r]))
  }

  /** What the ledger answers to the worker's own job and clock reading. */
  function Found(s: State, t: ThreadId): Result<Option<Answer>, LedgerError>
    requires t in s.memory.workers && s.memory.workers[t].JobWorker?
  {
    Lookup(s.disk.ledger, s.memory.workers[t].request.grant.job, s.memory.workers[t].now)
  }

  /** A lookup that finds something ends the request; otherwise the worker goes on to `next`. */
  function AfterLookup(s: State, t: ThreadId, found: Result<Option<Answer>, LedgerError>, next: Stage): State
    requires t in s.memory.workers && s.memory.workers[t].JobWorker?
  {
    match found
    case Ok(None) => Advance(s, t, next)
    case Ok(Some(Done(response))) => Reply(s, t, response)
    case Ok(Some(InProgress(_))) => Refuse(s, t)
    case Err(_) => Refuse(s, t)
  }

  function Consuming(s: State, g: Grant, at: Time): State {
    s.(memory := s.memory.(replay := Consume(s.memory.replay, g, s.device, at).1))
  }

  function Journalling(s: State, g: Grant): State {
    s.(disk := s.disk.(consumed := s.disk.consumed + [Consumed(g.id, g.expiresAt)]))
  }

  /** The marker of the worker's job is in the ledger, after the compaction if there was one. */
  function MarkWritten(s: State, t: ThreadId, compaction: Option<Compaction>): State
    requires t in s.memory.workers && s.memory.workers[t].JobWorker?
  {
    var w := s.memory.workers[t];
    var job := w.request.grant.job;
    var appended := AppendRecord(Compacted(s, compaction), ExecutingRecord(job, w.request.grant.operation, w.now));
    appended.(history := appended.history.(
                marks := appended.history.marks[job := Count(appended.history.marks, job) + 1],
                late := if job in s.history.retention && s.history.retention[job] <= w.now
                        then appended.history.late + {job} else appended.history.late))
  }

  /** `mark_executing`: refuse a job that has a record, else append the marker. */
  function Marked(s: State, t: ThreadId, compaction: Option<Compaction>, unrecorded: bool): State
    requires t in s.memory.workers && s.memory.workers[t].JobWorker?
  {
    if unrecorded then Advance(MarkWritten(s, t, compaction), t, StartingRunner) else Refuse(s, t)
  }

  /** The operation to record with the result, if the output fits and the job has a visible record. */
  function RecordableOperation(s: State, t: ThreadId): Option<Operation>
    requires IsRecording(s, t)
  {
    var w := s.memory.workers[t];
    var latest := LatestVisible(s.disk.ledger, w.request.grant.job, w.now);
    if |w.stage.response.output| <= MAX_RECORDED_OUTPUT_BYTES && Found(s, t).Ok? && latest.Some?
    then Some(latest.value.operation) else None
  }

  function CompletionOf(w: Worker, operation: Operation): Record
    requires w.JobWorker? && w.stage.Recording?
  {
    CompletedRecord(w.request.grant.job, operation, w.stage.response, w.now)
  }

  /** The completion of the worker's job is in the ledger, after the compaction if there was one. */
  function RecordWritten(s: State, t: ThreadId, compaction: Option<Compaction>, operation: Operation): State
    requires IsRecording(s, t)
  {
    var w := s.memory.workers[t];
    var job := w.request.grant.job;
    var record := CompletionOf(w, operation);
    var appended := AppendRecord(Compacted(s, compaction), record);
    appended.(history := appended.history.(
                recorded := appended.history.recorded[
                  job := Responses(appended.history.recorded, job) + [w.stage.response]],
                retention := if job in appended.history.retention then appended.history.retention
                             else appended.history.retention[job := record.expiresAt]))
  }

  /** `record_completed`: append the completion and answer, or refuse. */
  function Recorded(s: State, t: ThreadId, compaction: Option<Compaction>, operation: Option<Operation>): State
    requires IsRecording(s, t)
  {
    match operation
    case None => Refuse(s, t)
    case Some(op) => Reply(RecordWritten(s, t, compaction, op), t, s.memory.workers[t].stage.response)
  }

  /** The worker is about to append: its checks have passed. */
  predicate Appending(s: State, t: ThreadId) {
    || (AtStage(s, t, Marking) && Found(s, t) == Ok(None))
    || (&& IsRecording(s, t)
        && RecordableOperation(s, t).Some?)
  }

  /**
   The append fails with an error after the compaction's rename: the new line
   is not in the ledger, or it is and only making it durable failed.
   */
  function AppendFailed(s: State, t: ThreadId, compaction: Option<Compaction>, written: bool): State
    requires Appending(s, t)
  {
    if !written then Refuse(Compacted(s, compaction), t)
    else if s.memory.workers[t].stage.Marking? then Refuse(MarkWritten(s, t, compaction), t)
    else Refuse(RecordWritten(s, t, compaction, RecordableOperation(s, t).value), t)
  }

  /** The worker's next step reads the ledger, and repairs its last line first. */
  predicate ReadsLedger(s: State, t: ThreadId) {
    t in s.memory.workers && s.memory.workers[t].JobWorker?
    && var stage := s.memory.workers[t].stage;
       stage.FirstLookup? || stage.SecondLookup? || stage.Marking? || stage.Recording?
  }

  /**
   The repair truncates the ledger and is stopped before it has written all of
   it back: the first records stay. It is not asked that the last line was torn.
   */
  function Truncated(s: State, keep: nat): State
    requires keep <= |s.disk.ledger|
  {
    var before, after := s.disk.ledger, s.disk.ledger[..keep];
    s.(disk := s.disk.(ledger := after),
       history := s.history.(
         stripped := s.history.stripped
                     + (set j | j in JobsOf(before) && HasExecuting(before, j) && !HasExecuting(after, j)),
         lost := s.history.lost + JobsOf(before[keep..])))
  }

  function Apply(s: State, step: Step): State
    requires Enabled(s, step)
  {
    match step
    case Arrive(t, request, now) =>
      Taken(s, now).(memory := s.memory.(workers := s.memory.workers[t := JobWorker(request, now, ConsumingGrant)]))
    case ArriveSession(t, grant) =>
      s.(memory := s.memory.(workers := s.memory.workers[t := SessionWorker(grant, CheckingJournal)]))
    case ConsumeGrant(t) =>
      var w := s.memory.workers[t];
      var tried := Consuming(s, w.request.grant, w.now);
      if Consume(s.memory.replay, w.request.grant, s.device, w.now).0.Ok?
      then Advance(tried, t, JournallingGrant) else Refuse(tried, t)
    case JournalGrant(t) =>
      var w := s.memory.workers[t];
      var journalled := Journalling(s, w.request.grant);
      if w.request.parametersMatch then Advance(journalled, t, FirstLookup) else Refuse(journalled, t)
    case LookupFirst(t) => AfterLookup(s, t, Found(s, t), AwaitingExecution)
    case AcquireExecution(t) =>
      if s.memory.execution.Poisoned? then Refuse(s, t)
      else
        var advanced := Advance(s, t, SecondLookup);
        advanced.(memory := advanced.memory.(execution := Held(t)))
    case LookupAgain(t) => AfterLookup(s, t, Found(s, t), Marking)
    case Mark(t, compaction) => Marked(s, t, compaction, Found(s, t) == Ok(None))
    case StartRunner(t) =>
      var job := JobOf(s.memory.workers[t]);
      Advance(s.(history := s.history.(starts := s.history.starts[job := Count(s.history.starts, job) + 1])), t,
        Running)
    case RunnerReturns(t, outcome) =>
      (match outcome
       case None => Refuse(s, t)
       case Some(response) =>
         var job := JobOf(s.memory.workers[t]);
         Advance(s.(history := s.history.(returned := s.history.returned[
           job := Responses(s.history.returned, job) + [response]])),
                 t, Recording(response)))
    case RecordCompleted(t, compaction) => Recorded(s, t, compaction, RecordableOperation(s, t))
    case AppendFails(t, compaction, written) => AppendFailed(s, t, compaction, written)
    case RecoveryStops(t, keep) => Refuse(Truncated(s, keep), t)
    case CheckSession(t, at) =>
      var w := s.memory.workers[t];
      var seen := Taken(s, at);
      if exists c :: c in LoadConsumed(s.disk.consumed, at) && c.id == w.grant.id
      then Refuse(seen, t) else AdvanceSession(seen, t, ConsumingSessionGrant)
    case ConsumeSessionGrant(t, at) =>
      var w := s.memory.workers[t];
      var tried := Consuming(Taken(s, at), w.grant, at);
      if Consume(s.memory.replay, w.grant, s.device, at).0.Ok?
      then AdvanceSession(tried, t, JournallingSessionGrant) else Refuse(tried, t)
    case JournalSessionGrant(t) => Refuse(Journalling(s, s.memory.workers[t].grant), t)
    case JournalFails(t, written) => Refuse(if written then Journalling(s, GrantOf(s.memory.workers[t])) else s, t)
    case Panic(t) =>
      var ended := Refuse(s, t);
      if s.memory.execution == Held(t)
      then ended.(memory := ended.memory.(execution := Poisoned)) else ended
    case Restart(at) =>
      Taken(s, at).(memory := Memory(Boot(s.disk.consumed, at), Free, map[]))
  }

  // ---- Runs ------------------------------------------------------------

  /** The steps can be taken one after the other from `s`. */
  ghost predicate IsRun(s: State, steps: seq<Step>)
    decreases |steps|, 0
  {
    steps == [] ||
    (IsRun(s, steps[..|steps| - 1])
     && Enabled(After(s, steps[..|steps| - 1]), steps[|steps| - 1]))
  }

  ghost function After(s: State, steps: seq<Step>): State
    requires IsRun(s, steps)
    decreases |steps|, 1
  {
    if steps == [] then s
    else Apply(After(s, steps[..|steps| - 1]), steps[|steps| - 1])
  }

  ghost predicate Next(s: State, s': State) {
    exists step :: Enabled(s, step) && s' == Apply(s, step)
  }

  ghost function Steps(): (State, State) -> bool {
    (s, s') => Next(s, s')
  }

  lemma {:induction false} PathIsRun(path: seq<State>) returns (steps: seq<Step>)
    requires IsPath(Steps(), path)
    ensures IsRun(path[0], steps) && After(path[0], steps) == path[|path| - 1]
    decreases |path|
  {
    if |path| == 1 {
      steps := [];
    } else {
      var n := |path| - 1;
      PathInit(Steps(), path);
      var before := PathIsRun(path[..n]);
      var step :| Enabled(path[n - 1], step) && path[n] == Apply(path[n - 1], step);
      steps := before + [step];
      assert steps[..|before|] == before;
    }
  }

  /** Where steps lead is the end of a run. */
  lemma LeadsIsRun(s: State, e: State)
    requires Leads(Steps(), s, e)
    ensures exists steps :: IsRun(s, steps) && After(s, steps) == e
  {
    var path :| IsPathBetween(Steps(), path, s, e);
    var steps := PathIsRun(path);
  }
}
