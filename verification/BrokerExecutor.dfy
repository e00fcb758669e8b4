/**
 The broker executor as code over its verifier and its ledger. Each section
 that holds a lock is one step of the protocol, so whatever the threads do, one
 request alone or any interleaving, is a run of the protocol and inherits
 everything proved about runs.
 Source: crates/centrald-client/src/broker.rs
 */
module BrokerExecution {
  import opened Wrappers
  import opened LedgerRecords
  import opened LedgerJournal
  import opened DurableLedger
  import opened GrantJournal
  import opened JsonLines
  import opened Grants
  import opened GrantVerification
  import opened BrokerProtocol
  import opened BrokerSections
  import opened Runs
  import BrokerSafety

  datatype ExecuteError =
    | GrantRefused(grantError: GrantError)
    | LedgerFailed(ledgerError: LedgerError)
    | ParametersMismatch
    | OutcomeUnknown
    | LockPoisoned
    | RunnerFailed

  /**
   What happens outside: how far failing writes get, to the journal of consumed
   grants, in a repair of the ledger and in the two appends, the clock readings
   those take, and what the runner returns.
   */
  datatype World = World(
    journalFails: Option<nat>, repairStops: Option<nat>, markAt: Time, markFails: Option<nat>,
    outcome: Option<Response>, recordAt: Time, recordFails: Option<nat>)

  function Admission(s: State, request: Request, now: Time, fails: Option<nat>): Result<(), ExecuteError> {
    var granted := Consume(s.memory.replay, request.grant, s.device, now).0;
    if granted.Err? then Err(GrantRefused(granted.error))
    else if fails.Some? then Err(LedgerFailed(NotWritten))
    else if !request.parametersMatch then Err(ParametersMismatch)
    else Ok(())
  }

  /**
   What is known before the execution lock is taken: a refusal, an answer, or
   nothing. `stopped` says that the first lookup fails in its repair.
   */
  function Known(s: State, request: Request, now: Time, world: World, stopped: bool)
    : Result<Option<Answer>, ExecuteError>
  {
    var admitted := Admission(s, request, now, world.journalFails);
    if admitted.Err? then Err(admitted.error)
    else if stopped then Err(LedgerFailed(NotWritten))
    else
      var found := Lookup(s.disk.ledger, request.grant.job, now);
      if found.Err? then Err(LedgerFailed(found.error)) else Ok(found.value)
  }

  /** The answer to a request served alone, by what is known and the state of the execution lock. */
  function Verdict(known: Result<Option<Answer>, ExecuteError>, lock: ExecutionLock, world: World)
    : Result<Response, ExecuteError>
  {
    match known
    case Err(e) => Err(e)
    case Ok(Some(Done(response))) => Ok(response)
    case Ok(Some(InProgress(_))) => Err(OutcomeUnknown)
    case Ok(None) => if lock.Poisoned? then Err(LockPoisoned) else ClaimVerdict(world)
  }

  /** A job the ledger does not know is run once it is marked. */
  predicate ReachesRunner(known: Result<Option<Answer>, ExecuteError>, lock: ExecutionLock, world: World) {
    known == Ok(None) && !lock.Poisoned? && world.markFails.None?
  }

  /** The answer once the execution lock is taken for a job the ledger does not know. */
  function ClaimVerdict(world: World): Result<Response, ExecuteError> {
    if world.markFails.Some? then Err(LedgerFailed(NotWritten)) else RunVerdict(world.outcome, world.recordFails)
  }

  /** The answer once the runner is started. */
  function RunVerdict(outcome: Option<Response>, recordFails: Option<nat>): Result<Response, ExecuteError> {
    if outcome.None? then Err(RunnerFailed)
    else if |outcome.value.output| > MAX_RECORDED_OUTPUT_BYTES then Err(LedgerFailed(OutputTooLarge))
    else if recordFails.Some? then Err(LedgerFailed(NotWritten))
    else Ok(outcome.value)
  }

  /** The runner was started once more for the job, or not at all. */
  predicate RunIsCounted(s: State, s': State, job: JobId, started: bool) {
    s'.history.starts ==
    if started then s.history.starts[job := Count(s.history.starts, job) + 1] else s.history.starts
  }

  lemma CountedBefore(s: State, mid: State, s': State, job: JobId, started: bool)
    requires RunIsCounted(s, mid, job, started) && SameStarts(mid, s')
    ensures RunIsCounted(s, s', job, started)
  {
  }

  lemma CountedAfter(s: State, mid: State, s': State, job: JobId, started: bool)
    requires SameStarts(s, mid) && RunIsCounted(mid, s', job, started)
    ensures RunIsCounted(s, s', job, started)
  {
  }

  /** The result is in the ledger, to be found until its retention is over. */
  ghost predicate IsRecorded(ledger: seq<Record>, job: JobId, now: Time, response: Response) {
    exists base, operation :: ledger == base + [CompletedRecord(job, operation, response, now)]
  }

  lemma RecordedIsFound(ledger: seq<Record>, job: JobId, now: Time, response: Response, at: Time)
    requires IsRecorded(ledger, job, now, response) && at < now + RECORD_RETENTION
    ensures Lookup(ledger, job, at) == Ok(Some(Done(response)))
  {
    var base, operation :| ledger == base + [CompletedRecord(job, operation, response, now)];
    LatestOfAppend(base, CompletedRecord(job, operation, response, now), job, at);
  }

  /** A result within the bound can be recorded while the job's marker is the newest record. */
  lemma MarkedIsRecordable(s: State, t: ThreadId)
    requires IsRecording(s, t) && |s.memory.workers[t].stage.response.output| <= MAX_RECORDED_OUTPUT_BYTES
    requires EndsIn(s.disk.ledger, MarkerOf(s.memory.workers[t]))
    ensures RecordableOperation(s, t).Some?
  {
    var w := s.memory.workers[t];
    var base :| s.disk.ledger == base + [MarkerOf(w)];
    LatestOfAppend(base, MarkerOf(w), JobOf(w), w.now);
  }

  lemma CompletionIsRecorded(ledger: seq<Record>, w: Worker, operation: Operation)
    requires w.JobWorker? && w.stage.Recording? && EndsIn(ledger, CompletionOf(w, operation))
    ensures IsRecorded(ledger, JobOf(w), w.now, w.stage.response)
  {
    var base :| ledger == base + [CompletionOf(w, operation)];
  }

  /** What one thread does next, in any interleaving. */
  datatype Event =
    | NewRequest(t: ThreadId, request: Request, now: Time)
    | Proceed(t: ThreadId, at: Time, fails: Option<nat>, stops: Option<nat>, outcome: Option<Response>)
    | Die(t: ThreadId)

  class BrokerExecutor {
    const verifier: GrantVerifier
    const ledger: BrokerLedger

    /** The lock that one execution holds at a time. */
    var execution: ExecutionLock
    /** Where each thread is, with its request and its clock reading. */
    var workers: map<ThreadId, Worker>

    /** Every append to the journal of consumed grants was whole. */
    ghost var journalled: bool
    /** The protocol state that all of this stands for. */
    ghost var model: State

    ghost predicate Valid()
      reads this, verifier, ledger
    {
      && verifier.Valid() && verifier.device == model.device && verifier.entries == model.memory.replay
      && execution == model.memory.execution && workers == model.memory.workers
      && Lawful(ledger.codec) && Stores(ledger.codec, ledger.file, model.disk.ledger)
      && (journalled ==> FileBytes(ledger.grantFile) == GrantText(ledger.grantCodec, model.disk.consumed))
    }

    constructor (verifier: GrantVerifier, ledger: BrokerLedger, ghost model: State)
      ensures this.verifier == verifier && this.ledger == ledger && this.model == model
      ensures execution == Free && workers == map[] && journalled
    {
      this.verifier, this.ledger, this.model := verifier, ledger, model;
      execution, workers, journalled := Free, map[], true;
    }

    predicate At(t: ThreadId, stage: Stage)
      reads this
    {
      t in workers && workers[t].JobWorker? && workers[t].stage == stage
    }

    ghost method Become(s': State)
      requires Came(model, s')
      modifies this`model
      ensures model == s' && Came(old(model), model)
    {
      model := s';
    }

    method Go(t: ThreadId, stage: Stage)
      requires t in workers && workers[t].JobWorker?
      modifies this`workers
      ensures workers == old(workers)[t := old(workers)[t].(stage := stage)]
    {
      workers := workers[t := workers[t].(stage := stage)];
    }

    method End(t: ThreadId)
      modifies this`workers, this`execution
      ensures workers == old(workers) - {t} && execution == Unlocked(old(execution), t)
    {
      workers := workers - {t};
      if execution == Held(t) {
        execution := Free;
      }
    }

    // ---- The sections ----------------------------------------------------

    method ArriveSection(t: ThreadId, request: Request, now: Time)
      requires Valid() && t !in workers
      modifies this`workers, this`model
      ensures Valid() && Came(old(model), model)
      ensures workers == old(workers)[t := JobWorker(request, now, ConsumingGrant)]
      ensures KeepsGrants(old(model), model) && SameStarts(old(model), model) && model.disk == old(model.disk)
    {
      ghost var s' := Arrives(model, t, request, now);
      workers := workers[t := JobWorker(request, now, ConsumingGrant)];
      Become(s');
    }

    method ConsumeSection(t: ThreadId) returns (r: Result<(), GrantError>)
      requires Valid() && At(t, ConsumingGrant)
      modifies this`workers, this`execution, this`model, verifier
      ensures Valid() && Came(old(model), model)
      ensures var w := old(workers)[t];
        r == Consume(old(model.memory.replay), w.request.grant, old(model.device), w.now).0
      ensures if r.Ok? then WentOn(old(model), model, t, JournallingGrant) else Ended(old(model), model, t)
      ensures SameStarts(old(model), model) && model.disk == old(model.disk)
    {
      ghost var s' := Consumes(model, t);
      r := verifier.VerifyAndConsume(workers[t].request.grant, workers[t].now);
      if r.Ok? { Go(t, JournallingGrant); } else { End(t); }
      Become(s');
    }

    method JournalSection(t: ThreadId, fails: Option<nat>) returns (r: Result<(), ExecuteError>)
      requires Valid() && At(t, JournallingGrant)
      modifies this, ledger
      ensures Valid() && Came(old(model), model)
      ensures r == if fails.Some? then Err(LedgerFailed(NotWritten))
                   else if !old(workers)[t].request.parametersMatch then Err(ParametersMismatch) else Ok(())
      ensures if r.Ok? then WentOn(old(model), model, t, FirstLookup) else Ended(old(model), model, t)
      ensures SameStarts(old(model), model) && model.disk.ledger == old(model.disk.ledger)
      ensures ledger.file == old(ledger.file)
    {
      var request := workers[t].request;
      TextAppend(ledger.grantCodec.encode, model.disk.consumed, Consumed(request.grant.id, request.grant.expiresAt));
      var written := ledger.RecordConsumedGrant(request.grant.id, request.grant.expiresAt, fails);
      if written.Err? {
        journalled := false;
        ghost var line := GrantLine(ledger.grantCodec, Consumed(request.grant.id, request.grant.expiresAt));
        ghost var lost := JournalIsLost(model, t, IsWritten(line, fails));
        End(t);
        Become(lost);
        return Err(LedgerFailed(NotWritten));
      }
      ghost var s' := Journals(model, t);
      if request.parametersMatch {
        Go(t, FirstLookup);
        r := Ok(());
      } else {
        End(t);
        r := Err(ParametersMismatch);
      }
      Become(s');
    }

    /** Either lookup: what the file says is what the protocol's ledger says. */
    method LookupSection(t: ThreadId, stops: Option<nat>) returns (found: Result<Option<Answer>, LedgerError>)
      requires Valid() && (At(t, FirstLookup) || At(t, SecondLookup))
      modifies this`workers, this`execution, this`model, ledger
      ensures Valid() && Came(old(model), model)
      ensures if RepairFails(old(ledger.file), stops) then found == Err(NotWritten)
              else found == Found(old(model), t) && model.disk == old(model.disk)
                   && ledger.file == RecoveredFile(old(ledger.file))
      ensures LookupLeads(old(model), model, t, found)
      ensures KeepsGrants(old(model), model) && SameStarts(old(model), model)
    {
      var w := workers[t];
      ghost var file := ledger.file;
      found := ledger.Lookup(w.request.grant.job, w.now, stops);
      ghost var s' := LookupRefines(model, t, ledger.codec, file, stops, ledger.file, found);
      if found == Ok(None) { Go(t, if w.stage.FirstLookup? then AwaitingExecution else Marking); } else { End(t); }
      Become(s');
    }

    method AcquireSection(t: ThreadId) returns (ok: bool)
      requires Valid() && At(t, AwaitingExecution) && !execution.Held?
      modifies this`workers, this`execution, this`model
      ensures Valid() && Came(old(model), model) && ok == old(execution).Free?
      ensures ok ==> execution == Held(t) && workers == old(workers)[t := old(workers)[t].(stage := SecondLookup)]
      ensures !ok ==> Ended(old(model), model, t)
      ensures KeepsGrants(old(model), model) && SameStarts(old(model), model) && model.disk == old(model.disk)
    {
      ghost var s' := Acquires(model, t);
      ok := execution.Free?;
      if ok {
        execution := Held(t);
        Go(t, SecondLookup);
      } else {
        End(t);
      }
      Become(s');
    }

    method MarkSection(t: ThreadId, stops: Option<nat>, at: Time, fails: Option<nat>)
      returns (ok: Result<(), LedgerError>)
      requires Valid() && At(t, Marking)
      modifies this`workers, this`execution, this`model, ledger
      ensures Valid() && Came(old(model), model)
      ensures MarkLeads(old(model), model, t, RepairFails(old(ledger.file), stops), fails, ok)
      ensures KeepsGrants(old(model), model) && SameStarts(old(model), model)
    {
      var w := workers[t];
      ghost var file := ledger.file;
      ghost var compaction;
      ok, compaction := ledger.MarkExecuting(w.request.grant.job, w.request.grant.operation, w.now, stops, at, fails);
      ghost var s' := MarkRefines(model, t, ledger.codec, file, stops, at, fails, ledger.file, ok, compaction);
      if ok.Ok? { Go(t, StartingRunner); } else { End(t); }
      Become(s');
    }

    method StartSection(t: ThreadId)
      requires Valid() && At(t, StartingRunner)
      modifies this`workers, this`model
      ensures Valid() && Came(old(model), model) && WentOn(old(model), model, t, Running)
      ensures RunIsCounted(old(model), model, JobOf(old(workers)[t]), true)
      ensures KeepsGrants(old(model), model) && model.disk == old(model.disk)
    {
      ghost var s' := Starts(model, t);
      Go(t, Running);
      Become(s');
    }

    method ReturnSection(t: ThreadId, outcome: Option<Response>)
      requires Valid() && At(t, Running)
      modifies this`workers, this`execution, this`model
      ensures Valid() && Came(old(model), model)
      ensures if outcome.None? then Ended(old(model), model, t)
              else WentOn(old(model), model, t, Recording(outcome.value))
      ensures KeepsGrants(old(model), model) && SameStarts(old(model), model) && model.disk == old(model.disk)
    {
      ghost var s' := Returns(model, t, outcome);
      if outcome.None? { End(t); } else { Go(t, Recording(outcome.value)); }
      Become(s');
    }

    method RecordSection(t: ThreadId, stops: Option<nat>, at: Time, fails: Option<nat>)
      returns (ok: Result<(), LedgerError>)
      requires Valid() && IsRecording(model, t)
      modifies this`workers, this`execution, this`model, ledger
      ensures Valid() && Came(old(model), model) && Ended(old(model), model, t)
      ensures if |old(workers)[t].stage.response.output| > MAX_RECORDED_OUTPUT_BYTES then ok == Err(OutputTooLarge)
              else CompletionLeads(old(model), model, t, RepairFails(old(ledger.file), stops), fails, ok)
      ensures KeepsGrants(old(model), model) && SameStarts(old(model), model)
    {
      var w := workers[t];
      ghost var file := ledger.file;
      ghost var compaction, s';
      ok, compaction := ledger.RecordCompleted(JobOf(w), w.stage.response, w.now, stops, at, fails);
      if |w.stage.response.output| > MAX_RECORDED_OUTPUT_BYTES {
        s' := CompletionIsRefused(model, t);
      } else {
        s' := CompletionRefines(model, t, ledger.codec, file, stops, at, fails, ledger.file, ok, compaction);
      }
      End(t);
      Become(s');
    }

    /** A thread that panics under the execution lock poisons it. */
    method PanicSection(t: ThreadId)
      requires Valid() && t in workers
      modifies this`workers, this`execution, this`model
      ensures Valid() && Came(old(model), model) && workers == old(workers) - {t}
      ensures execution == if old(execution) == Held(t) then Poisoned else old(execution)
    {
      ghost var s' := Panics(model, t);
      workers := workers - {t};
      if execution == Held(t) {
        execution := Poisoned;
      }
      Become(s');
    }

    // ---- One request alone -----------------------------------------------

    method ArriveAndConsume(t: ThreadId, request: Request, now: Time) returns (r: Result<(), GrantError>)
      requires Valid() && t !in workers && !execution.Held?
      modifies this`workers, this`execution, this`model, verifier
      ensures Valid() && Came(old(model), model)
      ensures r == Consume(old(model.memory.replay), request.grant, old(model.device), now).0
      ensures workers == if r.Ok? then old(workers)[t := JobWorker(request, now, JournallingGrant)] else old(workers)
      ensures execution == old(execution) && SameStarts(old(model), model) && model.disk == old(model.disk)
    {
      ghost var w0 := model;
      CameAndWent(workers, t, JobWorker(request, now, ConsumingGrant), JobWorker(request, now, JournallingGrant));
      ArriveSection(t, request, now);
      ghost var w1 := model;
      r := ConsumeSection(t);
      CameOn(w0, w1, model);
    }

    /** Consumes and journals the grant, then checks the parameters. */
    method Admit(t: ThreadId, request: Request, now: Time, fails: Option<nat>) returns (r: Result<(), ExecuteError>)
      requires Valid() && t !in workers && !execution.Held?
      modifies this, verifier, ledger
      ensures Valid() && Came(old(model), model) && r == Admission(old(model), request, now, fails)
      ensures workers == if r.Ok? then old(workers)[t := JobWorker(request, now, FirstLookup)] else old(workers)
      ensures execution == old(execution) && SameStarts(old(model), model)
      ensures model.disk.ledger == old(model.disk.ledger) && ledger.file == old(ledger.file)
    {
      ghost var w0 := model;
      CameAndWent(workers, t, JobWorker(request, now, JournallingGrant), JobWorker(request, now, FirstLookup));
      var granted := ArriveAndConsume(t, request, now);
      if granted.Err? {
        return Err(GrantRefused(granted.error));
      }
      ghost var w1 := model;
      r := JournalSection(t, fails);
      CameOn(w0, w1, model);
    }

    method AdmitAndLookup(t: ThreadId, request: Request, now: Time, world: World)
      returns (r: Result<Option<Answer>, ExecuteError>)
      requires Valid() && t !in workers && !execution.Held?
      modifies this, verifier, ledger
      ensures Valid() && Came(old(model), model) && execution == old(execution) && SameStarts(old(model), model)
      ensures r == Known(old(model), request, now, world, RepairFails(old(ledger.file), world.repairStops))
      ensures workers ==
              if r == Ok(None) then old(workers)[t := JobWorker(request, now, AwaitingExecution)] else old(workers)
      ensures r == Ok(None) ==> LedgerRecords.Lookup(model.disk.ledger, request.grant.job, now) == Ok(None)
      ensures r.Ok? && r.value.Some? && r.value.value.Done? ==>
              (request.grant.job, r.value.value.response) in model.history.answers
    {
      ghost var w0 := model;
      CameAndWent(workers, t, JobWorker(request, now, FirstLookup), JobWorker(request, now, AwaitingExecution));
      var admitted := Admit(t, request, now, world.journalFails);
      if admitted.Err? {
        return Err(admitted.error);
      }
      ghost var w1 := model;
      var found := LookupSection(t, world.repairStops);
      CameOn(w0, w1, model);
      r := if found.Err? then Err(LedgerFailed(found.error)) else Ok(found.value);
    }

    /** Looks up again under the execution lock and marks the job. The file is whole since the first lookup. */
    method Claim(t: ThreadId, at: Time, fails: Option<nat>) returns (r: Result<(), LedgerError>)
      requires Valid() && At(t, SecondLookup) && execution == Held(t) && Found(model, t) == Ok(None)
      modifies this`workers, this`execution, this`model, ledger
      ensures Valid() && Came(old(model), model) && SameStarts(old(model), model)
      ensures r == if fails.None? then Ok(()) else Err(NotWritten)
      ensures r.Ok? ==>
        && workers == old(workers)[t := old(workers)[t].(stage := StartingRunner)] && execution == Held(t)
        && EndsIn(model.disk.ledger, MarkerOf(old(workers)[t]))
      ensures r.Err? ==> workers == old(workers) - {t} && execution == Free
    {
      ghost var w0 := model;
      var found := LookupSection(t, None);
      if found != Ok(None) {
        assert false; // only a concurrent worker could have recorded the job meanwhile
      }
      ghost var w1 := model;
      r := MarkSection(t, None, at, fails);
      CameOn(w0, w1, model);
    }

    /** Runs the operation of a marked job and records its result. */
    method RunAndRecord(t: ThreadId, outcome: Option<Response>, at: Time, fails: Option<nat>)
      returns (r: Result<Response, ExecuteError>)
      requires Valid() && At(t, StartingRunner) && execution == Held(t)
      requires EndsIn(model.disk.ledger, MarkerOf(workers[t]))
      modifies this`workers, this`execution, this`model, ledger
      ensures Valid() && Came(old(model), model) && workers == old(workers) - {t} && execution == Free
      ensures r == RunVerdict(outcome, fails)
      ensures var w := old(workers)[t]; r.Ok? ==>
        && (JobOf(w), r.value) in model.history.answers
        && IsRecorded(model.disk.ledger, JobOf(w), w.now, r.value)
      ensures RunIsCounted(old(model), model, JobOf(old(workers)[t]), true)
    {
      ghost var w0, worker := model, workers[t];
      CameAndWent(workers, t, worker.(stage := Running), worker.(stage := Running));
      StartSection(t);
      ghost var w1 := model;
      ReturnSection(t, outcome);
      CameOn(w0, w1, model);
      CountedBefore(w0, w1, model, JobOf(worker), true);
      if outcome.None? {
        return Err(RunnerFailed);
      }
      CameAndWent(w0.memory.workers, t, worker.(stage := Running), worker.(stage := Recording(outcome.value)));
      CameAndWent(w0.memory.workers, t, worker.(stage := Recording(outcome.value)), worker);
      ghost var w2, w := model, workers[t];
      if |outcome.value.output| <= MAX_RECORDED_OUTPUT_BYTES { MarkedIsRecordable(model, t); }
      var recorded := RecordSection(t, None, at, fails);
      CameOn(w0, w2, model);
      CountedBefore(w0, w2, model, JobOf(worker), true);
      if recorded.Err? {
        return Err(LedgerFailed(recorded.error));
      }
      CompletionIsRecorded(model.disk.ledger, w, RecordableOperation(w2, t).value);
      r := Ok(outcome.value);
    }

    /** Takes the execution lock for a job the ledger does not know, and runs it. */
    method ExecuteUnknown(t: ThreadId, world: World) returns (r: Result<Response, ExecuteError>)
      requires Valid() && At(t, AwaitingExecution) && !execution.Held?
      requires LedgerRecords.Lookup(model.disk.ledger, JobOf(workers[t]), workers[t].now) == Ok(None)
      modifies this`workers, this`execution, this`model, ledger
      ensures Valid() && Came(old(model), model) && workers == old(workers) - {t} && execution == old(execution)
      ensures r == if old(execution).Poisoned? then Err(LockPoisoned) else ClaimVerdict(world)
      ensures var w := old(workers)[t]; r.Ok? ==>
        && (JobOf(w), r.value) in model.history.answers
        && IsRecorded(model.disk.ledger, JobOf(w), w.now, r.value)
      ensures var runs := !execution.Poisoned? && world.markFails.None?;
        RunIsCounted(old(model), model, JobOf(old(workers)[t]), runs)
    {
      ghost var w0, worker := model, workers[t];
      CameAndWent(workers, t, worker.(stage := SecondLookup), worker.(stage := StartingRunner));
      CameAndWent(workers, t, worker.(stage := StartingRunner), worker);
      var acquired := AcquireSection(t);
      if !acquired {
        return Err(LockPoisoned);
      }
      ghost var w1 := model;
      var claimed := Claim(t, world.markAt, world.markFails);
      CameOn(w0, w1, model);
      if claimed.Err? {
        return Err(LedgerFailed(claimed.error));
      }
      ghost var w2 := model;
      r := RunAndRecord(t, world.outcome, world.recordAt, world.recordFails);
      CameOn(w0, w2, model);
      CountedAfter(w0, w2, model, JobOf(worker), true);
    }

    /**
     Serves one request alone. The thread is gone afterwards and the execution
     lock is as it was, so the next request can be served.
     */
    method Execute(t: ThreadId, request: Request, now: Time, world: World) returns (r: Result<Response, ExecuteError>)
      requires Valid() && t !in workers && !execution.Held?
      modifies this, verifier, ledger
      ensures Valid() && Came(old(model), model) && workers == old(workers) && execution == old(execution)
      ensures
        var known := Known(old(model), request, now, world, RepairFails(old(ledger.file), world.repairStops));
        && r == Verdict(known, execution, world)
        && RunIsCounted(old(model), model, request.grant.job, ReachesRunner(known, execution, world))
        && (r.Ok? && known == Ok(None) ==> IsRecorded(model.disk.ledger, request.grant.job, now, r.value))
      ensures r.Ok? ==> (request.grant.job, r.value) in model.history.answers
    {
      ghost var w0 := model;
      CameAndWent(workers, t, JobWorker(request, now, AwaitingExecution), JobWorker(request, now, AwaitingExecution));
      var found := AdmitAndLookup(t, request, now, world);
      if found.Err? {
        return Err(found.error);
      }
      if found.value.Some? {
        return if found.value.value.Done? then Ok(found.value.value.response) else Err(OutcomeUnknown);
      }
      ghost var w1 := model;
      r := ExecuteUnknown(t, world);
      CameOn(w0, w1, model);
      CountedAfter(w0, w1, model, request.grant.job, !execution.Poisoned? && world.markFails.None?);
    }

    /**
     Two requests in a row. When the first has run its job, a second one for the
     same job that passes its own checks within the retention is answered with
     the recorded result, and the runner is not started for it.
     */
    method ExecuteTwice(t: ThreadId, first: Request, now: Time, world: World, second: Request, then': Time,
                        world': World)
      returns (a: Result<Response, ExecuteError>, b: Result<Response, ExecuteError>, ghost between: State)
      requires Valid() && t !in workers && !execution.Held?
      modifies this, verifier, ledger
      ensures Valid() && Came(old(model), between) && Came(between, model)
      ensures exists steps :: IsRun(old(model), steps) && After(old(model), steps) == model
      ensures && a.Ok? && first.grant.job == second.grant.job && then' < now + RECORD_RETENTION
              && Known(old(model), first, now, world, RepairFails(old(ledger.file), world.repairStops)) == Ok(None)
              && world'.repairStops.None?
              && Admission(between, second, then', world'.journalFails).Ok?
              ==> b == a && SameStarts(between, model)
    {
      ghost var w0 := model;
      a := Execute(t, first, now, world);
      between := model;
      ghost var found := a.Ok? && then' < now + RECORD_RETENTION
                         && IsRecorded(between.disk.ledger, first.grant.job, now, a.value);
      if found { RecordedIsFound(between.disk.ledger, first.grant.job, now, a.value, then'); }
      b := Execute(t, second, then', world');
      CameOn(w0, between, model);
      LeadsIsRun(w0, model);
    }

    // ---- Any interleaving ------------------------------------------------

    /** The next section of a thread, wherever it is; a thread that has to wait for the execution lock does nothing. */
    method Next(t: ThreadId, at: Time, fails: Option<nat>, stops: Option<nat>, outcome: Option<Response>)
      requires Valid() && t in workers && workers[t].JobWorker?
      modifies this, verifier, ledger
      ensures Valid() && Came(old(model), model)
    {
      match workers[t].stage {
        case ConsumingGrant => var _ := ConsumeSection(t);
        case JournallingGrant => var _ := JournalSection(t, fails);
        case FirstLookup => var _ := LookupSection(t, stops);
        case AwaitingExecution =>
          if execution.Held? {
            LeadsToItself(Steps(), model);
          } else {
            var _ := AcquireSection(t);
          }
        case SecondLookup => var _ := LookupSection(t, stops);
        case Marking => var _ := MarkSection(t, stops, at, fails);
        case StartingRunner => StartSection(t);
        case Running => ReturnSection(t, outcome);
        case Recording(_) => var _ := RecordSection(t, stops, at, fails);
      }
    }

    method Perform(e: Event)
      requires Valid()
      modifies this, verifier, ledger
      ensures Valid() && Came(old(model), model)
    {
      LeadsToItself(Steps(), model);
      match e {
        case NewRequest(t, request, now) =>
          if t !in workers { ArriveSection(t, request, now); }
        case Proceed(t, at, fails, stops, outcome) =>
          if t in workers && workers[t].JobWorker? { Next(t, at, fails, stops, outcome); }
        case Die(t) =>
          if t in workers { PanicSection(t); }
      }
    }

    /** Any number of threads, their sections in any order: a run of the protocol. */
    method Interleave(events: seq<Event>)
      requires Valid()
      modifies this, verifier, ledger
      ensures Valid() && Came(old(model), model)
      ensures exists steps :: IsRun(old(model), steps) && After(old(model), steps) == model
    {
      ghost var w0 := model;
      LeadsToItself(Steps(), w0);
      for i := 0 to |events|
        invariant Valid() && Came(w0, model)
      {
        ghost var w1 := model;
        Perform(events[i]);
        CameOn(w0, w1, model);
      }
      LeadsIsRun(w0, model);
    }
  }

  // ---- Starting ------------------------------------------------------------

  lemma RestartBoots(crashed: State, now: Time) returns (s': State)
    ensures Came(crashed, s') && s'.device == crashed.device && s'.disk == crashed.disk
    ensures s'.memory == Memory(Boot(crashed.disk.consumed, now), Free, map[])
  {
    s' := Apply(crashed, Restart(now));
    Stepped(crashed, Restart(now), s');
  }

  /** The disk holds what the protocol's disk holds. */
  ghost predicate Holds(ledger: BrokerLedger, disk: Disk)
    reads ledger
  {
    && Lawful(ledger.codec) && LawfulGrants(ledger.grantCodec)
    && Stores(ledger.codec, ledger.file, disk.ledger)
    && FileBytes(ledger.grantFile) == GrantText(ledger.grantCodec, disk.consumed)
  }

  /**
   Starts a broker after a crash: the consumed-grant journal is replayed into a
   new verifier, the ledger file is taken as it is. It fails exactly when the
   journal cannot be read.
   */
  method BuildExecutor(device: DeviceId, ledger: BrokerLedger, now: Time, ghost crashed: State)
    returns (executor: Result<BrokerExecutor, LedgerError>)
    ensures executor.Ok? <==> ReadGrants(ledger.grantCodec, FileBytes(ledger.grantFile), now).Ok?
    ensures executor.Ok? ==>
      && fresh(executor.value) && fresh(executor.value.verifier) && executor.value.ledger == ledger
      && executor.value.execution == Free && executor.value.workers == map[]
    ensures Holds(ledger, crashed.disk) && device == crashed.device ==>
      && executor.Ok? && executor.value.Valid() && executor.value.journalled
      && Came(crashed, executor.value.model)
      && executor.value.model.memory == Memory(Boot(crashed.disk.consumed, now), Free, map[])
      && executor.value.model.disk == crashed.disk
  {
    var verifier := new GrantVerifier(device);
    var live := ledger.LoadConsumedGrants(now);
    ghost var readable := LawfulGrants(ledger.grantCodec);
    if readable { ReadsJournalledGrants(ledger.grantCodec, crashed.disk.consumed, now); }
    if live.Err? {
      return Err(live.error);
    }
    for i := 0 to |live.value|
      invariant verifier.Valid() && verifier.device == device
      invariant verifier.entries == RestoreAll(map[], live.value[..i], now)
    {
      assert live.value[..i + 1][..i] == live.value[..i];
      verifier.Restore(live.value[i].id, live.value[i].expiresAt, now);
    }
    assert live.value[..|live.value|] == live.value;
    ghost var s' := RestartBoots(crashed, now);
    var built := new BrokerExecutor(verifier, ledger, s');
    return Ok(built);
  }

  /**
   A broker that starts on an empty disk and serves any interleaving of any
   requests starts the runner for a job at most once, unless the ledger may have
   forgotten the job, and answers it with results of its runs alone.
   */
  method ServeFromScratch(device: DeviceId, codec: Codec, grantCodec: GrantCodec, now: Time, events: seq<Event>,
                          ghost initial: State)
    returns (executor: BrokerExecutor)
    requires Lawful(codec) && LawfulGrants(grantCodec) && Initial(initial) && initial.device == device
    ensures executor.Valid()
    ensures forall j: JobId ::
      Count(executor.model.history.starts, j) <= 1 || BrokerSafety.Forgotten(executor.model.history, j)
    ensures forall j: JobId, response | (j, response) in executor.model.history.answers ::
      response in Responses(executor.model.history.returned, j)
  {
    var ledger := new BrokerLedger(codec, grantCodec);
    NothingIsStored(codec, grantCodec);
    var built := BuildExecutor(device, ledger, now, initial);
    executor := built.value;
    ghost var w0 := executor.model;
    executor.Interleave(events);
    CameOn(initial, w0, executor.model);
    LeadsIsRun(initial, executor.model);
    ghost var steps :| IsRun(initial, steps) && After(initial, steps) == executor.model;
    forall j: JobId
      ensures Count(executor.model.history.starts, j) <= 1 || BrokerSafety.Forgotten(executor.model.history, j)
    {
      BrokerSafety.AtMostOneRunPerJob(initial, steps, j);
    }
    forall j: JobId, response | (j, response) in executor.model.history.answers
      ensures response in Responses(executor.model.history.returned, j)
    {
      BrokerSafety.AnswersAreTheRunsResponse(initial, steps, j, response);
    }
  }

  lemma NothingIsStored(codec: Codec, grantCodec: GrantCodec)
    ensures Stores(codec, None, []) && GrantText(grantCodec, []) == []
  {
  }
}
