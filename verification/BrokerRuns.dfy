/**
 Runs of the broker that show the conditions of its theorems are needed, built
 from runs that serve one request alone.
 Sources: crates/centrald-client/src/broker.rs, crates/centrald-client/src/ledger.rs
 */
module BrokerRuns {
  import opened Wrappers
  import opened LedgerRecords
  import opened Grants
  import opened BrokerProtocol
  import opened GrantSafety
  import opened Runs

  function CompactionIn(step: Step): Option<Compaction> {
    match step
    case Mark(_, compaction) => compaction
    case RecordCompleted(_, compaction) => compaction
    case AppendFails(_, compaction, _) => compaction
    case _ => None
  }

  /** The clock does not go back, and only a ledger whose outputs alone exceed the bound is compacted. */
  predicate Happens(s: State, step: Step) {
    && (Reading(step).Some? ==> Reading(step).value >= s.history.clock)
    && (CompactionIn(step).Some? ==> OutputBytes(s.disk.ledger) > MAX_LEDGER_BYTES)
  }

  ghost predicate Ticks(s: State, s': State) {
    exists step :: Enabled(s, step) && s' == Apply(s, step) && Happens(s, step)
  }

  /** A run under a clock that never goes back that compacts no ledger but large ones. */
  ghost predicate Happened(s: State, steps: seq<Step>)
    decreases |steps|
  {
    IsRun(s, steps) &&
    (steps == [] ||
     var init, last := steps[..|steps| - 1], steps[|steps| - 1];
     Happened(s, init) && Happens(After(s, init), last))
  }

  lemma {:induction false} HappenedIsForward(s: State, steps: seq<Step>)
    requires Happened(s, steps)
    ensures Forward(s, steps)
  {
    if steps != [] { HappenedIsForward(s, steps[..|steps| - 1]); }
  }

  ghost function ForwardSteps(): (State, State) -> bool {
    (s, s') => Ticks(s, s')
  }

  /** Some such run leads from `s` to `e`. */
  ghost predicate Reaches(s: State, e: State) {
    Leads(ForwardSteps(), s, e)
  }

  lemma One(s: State, step: Step, e: State)
    requires Enabled(s, step) && Apply(s, step) == e && Happens(s, step)
    ensures Reaches(s, e)
  {
    LeadsByStep(ForwardSteps(), s, e);
  }

  lemma Join(s: State, mid: State, e: State)
    requires Reaches(s, mid) && Reaches(mid, e)
    ensures Reaches(s, e)
  {
    LeadsOn(ForwardSteps(), s, mid, e);
  }

  lemma {:induction false} PathIsForward(path: seq<State>) returns (steps: seq<Step>)
    requires IsPath(ForwardSteps(), path)
    ensures Happened(path[0], steps) && After(path[0], steps) == path[|path| - 1]
    decreases |path|
  {
    if |path| == 1 {
      steps := [];
    } else {
      var n := |path| - 1;
      PathInit(ForwardSteps(), path);
      var before := PathIsForward(path[..n]);
      var step :| Enabled(path[n - 1], step) && path[n] == Apply(path[n - 1], step)
                  && Happens(path[n - 1], step);
      steps := before + [step];
      assert steps[..|before|] == before;
    }
  }

  lemma ReachedByRun(s: State, e: State) returns (steps: seq<Step>)
    requires Reaches(s, e)
    ensures Happened(s, steps) && Forward(s, steps) && After(s, steps) == e
  {
    var path :| IsPathBetween(ForwardSteps(), path, s, e);
    steps := PathIsForward(path);
    HappenedIsForward(s, steps);
  }

  // ---- A request served alone --------------------------------------------

  /** One more worker, for this request and at this stage. */
  function With(s: State, t: ThreadId, request: Request, now: Time, stage: Stage): State {
    s.(memory := s.memory.(workers := s.memory.workers[t := JobWorker(request, now, stage)]))
  }

  function Locked(s: State, t: ThreadId): State {
    s.(memory := s.memory.(execution := Held(t)))
  }

  /** The grant is consumed and journalled. */
  function Admitted(s: State, g: Grant, now: Time): State {
    Journalling(Consuming(Taken(s, now), g, now), g)
  }

  /** The request passes the grant and parameter checks and the ledger does not know its job. */
  predicate Servable(s: State, t: ThreadId, request: Request, now: Time) {
    && t !in s.memory.workers && s.memory.execution.Free? && now >= s.history.clock && request.parametersMatch
    && Consume(s.memory.replay, request.grant, s.device, now).0.Ok?
    && Lookup(s.disk.ledger, request.grant.job, now) == Ok(None)
  }

  lemma Arrives(s: State, t: ThreadId, request: Request, now: Time)
    requires t !in s.memory.workers && now >= s.history.clock
    ensures Reaches(s, With(Taken(s, now), t, request, now, ConsumingGrant))
  {
    One(s, Arrive(t, request, now), With(Taken(s, now), t, request, now, ConsumingGrant));
  }

  lemma Consumes(s: State, t: ThreadId, request: Request, now: Time)
    requires t !in s.memory.workers && Consume(s.memory.replay, request.grant, s.device, now).0.Ok?
    ensures Reaches(With(s, t, request, now, ConsumingGrant),
        With(Consuming(s, request.grant, now), t, request, now, JournallingGrant))
  {
    One(With(s, t, request, now, ConsumingGrant), ConsumeGrant(t),
        With(Consuming(s, request.grant, now), t, request, now, JournallingGrant));
  }

  lemma Journals(s: State, t: ThreadId, request: Request, now: Time)
    requires t !in s.memory.workers && request.parametersMatch
    ensures Reaches(With(s, t, request, now, JournallingGrant),
        With(Journalling(s, request.grant), t, request, now, FirstLookup))
  {
    One(With(s, t, request, now, JournallingGrant), JournalGrant(t),
        With(Journalling(s, request.grant), t, request, now, FirstLookup));
  }

  lemma LooksUp(s: State, t: ThreadId, request: Request, now: Time)
    requires t !in s.memory.workers && Lookup(s.disk.ledger, request.grant.job, now) == Ok(None)
    ensures Reaches(With(s, t, request, now, FirstLookup), With(s, t, request, now, AwaitingExecution))
    ensures Reaches(With(s, t, request, now, SecondLookup), With(s, t, request, now, Marking))
  {
    One(With(s, t, request, now, FirstLookup), LookupFirst(t), With(s, t, request, now, AwaitingExecution));
    One(With(s, t, request, now, SecondLookup), LookupAgain(t), With(s, t, request, now, Marking));
  }

  lemma Acquires(s: State, t: ThreadId, request: Request, now: Time)
    requires t !in s.memory.workers && s.memory.execution.Free?
    ensures Reaches(With(s, t, request, now, AwaitingExecution), With(Locked(s, t), t, request, now, SecondLookup))
  {
    One(With(s, t, request, now, AwaitingExecution), AcquireExecution(t),
      With(Locked(s, t), t, request, now, SecondLookup));
  }

  /** From arrival to the first look into the ledger, with nobody else moving. */
  lemma ReachesLookup(s: State, t: ThreadId, request: Request, now: Time)
    requires Servable(s, t, request, now)
    ensures Reaches(s, With(Admitted(s, request.grant, now), t, request, now, FirstLookup))
  {
    var taken := Taken(s, now);
    var consumed := Consuming(taken, request.grant, now);
    Arrives(s, t, request, now);
    Consumes(taken, t, request, now);
    Join(s, With(taken, t, request, now, ConsumingGrant), With(consumed, t, request, now, JournallingGrant));
    Journals(consumed, t, request, now);
    Join(s, With(consumed, t, request, now, JournallingGrant),
         With(Admitted(s, request.grant, now), t, request, now, FirstLookup));
  }

  /** And on to the mark. */
  lemma ReachesMark(s: State, t: ThreadId, request: Request, now: Time)
    requires Servable(s, t, request, now)
    ensures Reaches(s, With(Locked(Admitted(s, request.grant, now), t), t, request, now, Marking))
  {
    var admitted := Admitted(s, request.grant, now);
    var locked := Locked(admitted, t);
    ReachesLookup(s, t, request, now);
    LooksUp(admitted, t, request, now);
    Join(s, With(admitted, t, request, now, FirstLookup), With(admitted, t, request, now, AwaitingExecution));
    Acquires(admitted, t, request, now);
    Join(s, With(admitted, t, request, now, AwaitingExecution), With(locked, t, request, now, SecondLookup));
    LooksUp(locked, t, request, now);
    Join(s, With(locked, t, request, now, SecondLookup), With(locked, t, request, now, Marking));
  }

  /** `e` is `y` but for the worker, its lock, the ledger, the starts and what history says of the job. */
  predicate Stands(e: State, y: State, t: ThreadId, w: Worker, ledger: seq<Record>, starts: map<JobId, nat>) {
    && e.device == y.device
    && e.disk == Disk(ledger, y.disk.consumed)
    && e.memory == Memory(y.memory.replay, Held(t), y.memory.workers[t := w])
    && e.history.starts == starts && e.history.clock == y.history.clock
  }

  /** `e` is `y` but for the ledger, the starts and what history says of the job; the worker has gone. */
  predicate Done(e: State, y: State, ledger: seq<Record>, starts: map<JobId, nat>) {
    && e.device == y.device
    && e.disk == Disk(ledger, y.disk.consumed)
    && e.memory == Memory(y.memory.replay, Free, y.memory.workers)
    && e.history.starts == starts && e.history.clock == y.history.clock
  }

  /** The compaction, if there is one, is one of a large ledger. */
  ghost predicate Compactable(s: State, compaction: Option<Compaction>) {
    CompactionFits(s, compaction) && (compaction.Some? ==> OutputBytes(s.disk.ledger) > MAX_LEDGER_BYTES)
  }

  lemma MarksJob(e: State, y: State, t: ThreadId, request: Request, now: Time, compaction: Option<Compaction>)
    returns (e': State)
    requires Stands(e, y, t, JobWorker(request, now, Marking), y.disk.ledger, y.history.starts)
    requires Lookup(y.disk.ledger, request.grant.job, now) == Ok(None) && Compactable(y, compaction)
    ensures Reaches(e, e')
    ensures Stands(e', y, t, JobWorker(request, now, StartingRunner),
                   Compacted(y, compaction).disk.ledger
                     + [ExecutingRecord(request.grant.job, request.grant.operation, now)],
                   y.history.starts)
  {
    e' := Marked(e, t, compaction, true);
    assert Found(e, t) == Ok(None);
    One(e, Mark(t, compaction), e');
  }

  lemma RunsJob(e: State, y: State, t: ThreadId, request: Request, now: Time, ledger: seq<Record>, response: Response)
    returns (e': State)
    requires Stands(e, y, t, JobWorker(request, now, StartingRunner), ledger, y.history.starts)
    ensures Reaches(e, e')
    ensures Stands(e', y, t, JobWorker(request, now, Recording(response)), ledger,
                   y.history.starts[request.grant.job := Count(y.history.starts, request.grant.job) + 1])
  {
    var e1 := Apply(e, StartRunner(t));
    One(e, StartRunner(t), e1);
    e' := Apply(e1, RunnerReturns(t, Some(response)));
    One(e1, RunnerReturns(t, Some(response)), e');
    Join(e, e1, e');
  }

  /** The runner fails: its job stays marked. */
  lemma FailsJob(e: State, y: State, t: ThreadId, request: Request, now: Time, ledger: seq<Record>)
    returns (e': State)
    requires t !in y.memory.workers
    requires Stands(e, y, t, JobWorker(request, now, StartingRunner), ledger, y.history.starts)
    ensures Reaches(e, e') && Done(e', y, ledger, Started(y.history.starts, request.grant.job))
  {
    var e1 := Apply(e, StartRunner(t));
    One(e, StartRunner(t), e1);
    e' := Apply(e1, RunnerReturns(t, None));
    One(e1, RunnerReturns(t, None), e');
    Join(e, e1, e');
    assert e'.memory.workers == y.memory.workers;
  }

  lemma RecordsJob(e: State, y: State, t: ThreadId, request: Request, now: Time, ledger: seq<Record>,
                   response: Response, starts: map<JobId, nat>) returns (e': State)
    requires t !in y.memory.workers
    requires Stands(e, y, t, JobWorker(request, now, Recording(response)), ledger, starts)
    requires |response.output| <= MAX_RECORDED_OUTPUT_BYTES
    requires LatestVisible(ledger, request.grant.job, now) ==
        Some(ExecutingRecord(request.grant.job, request.grant.operation, now))
    ensures Reaches(e, e')
    ensures Done(e', y, ledger + [CompletedRecord(request.grant.job, request.grant.operation, response, now)], starts)
  {
    e' := Apply(e, RecordCompleted(t, None));
    One(e, RecordCompleted(t, None), e');
    assert RecordableOperation(e, t) == Some(request.grant.operation);
    assert e'.memory.workers == y.memory.workers;
  }

  /** The ledger after the mark and the completion of a job. */
  function Ledger(base: seq<Record>, g: Grant, now: Time, response: Response): seq<Record> {
    base + [ExecutingRecord(g.job, g.operation, now)] + [CompletedRecord(g.job, g.operation, response, now)]
  }

  function Started(starts: map<JobId, nat>, j: JobId): map<JobId, nat> {
    starts[j := Count(starts, j) + 1]
  }

  lemma FinishesFromMark(e: State, y: State, t: ThreadId, request: Request, now: Time, response: Response,
                         compaction: Option<Compaction>, base: seq<Record>) returns (e': State)
    requires Stands(e, y, t, JobWorker(request, now, Marking), y.disk.ledger, y.history.starts)
        && t !in y.memory.workers
    requires Lookup(y.disk.ledger, request.grant.job, now) == Ok(None) && Compactable(y, compaction)
    requires base == Compacted(y, compaction).disk.ledger && |response.output| <= MAX_RECORDED_OUTPUT_BYTES
    ensures Reaches(e, e')
    ensures Done(e', y, Ledger(base, request.grant, now, response), Started(y.history.starts, request.grant.job))
  {
    var r := ExecutingRecord(request.grant.job, request.grant.operation, now);
    var marked := MarksJob(e, y, t, request, now, compaction);
    var recording := RunsJob(marked, y, t, request, now, base + [r], response);
    Join(e, marked, recording);
    LatestOfAppend(base, r, request.grant.job, now);
    e' := RecordsJob(recording, y, t, request, now, base + [r], response, Started(y.history.starts, request.grant.job));
    Join(e, recording, e');
  }

  /**
   A request that nothing stands in the way of runs its job and records the
   result, whatever compaction its mark makes.
   */
  lemma ServesAlone(s: State, t: ThreadId, request: Request, now: Time, response: Response,
      compaction: Option<Compaction>)
    returns (e: State)
    requires Servable(s, t, request, now) && Compactable(s, compaction)
    requires |response.output| <= MAX_RECORDED_OUTPUT_BYTES
    ensures Reaches(s, e)
    ensures Done(e, Admitted(s, request.grant, now),
        Ledger(Compacted(s, compaction).disk.ledger, request.grant, now, response),
                 Started(s.history.starts, request.grant.job))
  {
    var y := Admitted(s, request.grant, now);
    var marking := With(Locked(y, t), t, request, now, Marking);
    ReachesMark(s, t, request, now);
    e := FinishesFromMark(marking, y, t, request, now, response, compaction, Compacted(s, compaction).disk.ledger);
    Join(s, marking, e);
  }

  // ---- Fresh grants ------------------------------------------------------

  /** A genuine grant of one minute for a job, issued at its first reading. */
  function MinuteGrant(id: GrantId, device: DeviceId, job: JobId, at: Time): Grant {
    Grant(id, device, job, CheckOsUpdates, at, at + 60 * SECOND, Genuine)
  }

  lemma FreshGrantIsAccepted(replay: ReplaySet, g: Grant, device: DeviceId, now: Time)
    requires Verify(g, device, now).Ok? && g.id !in replay && |replay| < MAX_REPLAY_ENTRIES
    ensures var (r, replay') := Consume(replay, g, device, now);
      r.Ok? && |replay'| <= |replay| + 1 && replay'.Keys <= replay.Keys + {g.id}
  {
    LiveIsSmaller(replay, now);
    OneMore(Live(replay, now), g.id, g.expiresAt);
  }

  lemma LiveIsSmaller(replay: ReplaySet, now: Time)
    ensures Live(replay, now).Keys <= replay.Keys && |Live(replay, now)| <= |replay|
  {
    var live := Live(replay, now);
    SubsetSize(live.Keys, replay.Keys);
    assert |live| == |live.Keys| && |replay| == |replay.Keys|;
  }

  lemma OneMore(live: ReplaySet, id: GrantId, expiresAt: Time)
    ensures live[id := expiresAt].Keys == live.Keys + {id} && |live[id := expiresAt]| <= |live| + 1
  {
    var more := live[id := expiresAt];
    assert more.Keys == live.Keys + {id};
    assert |live| == |live.Keys| && |more| == |more.Keys|;
  }

  const OUTCOME := Response(true, [], 0)

  /** No request is being served, and the replay set holds no id above `ids`. */
  ghost predicate Idle(s: State, ids: nat, now: Time) {
    && s.memory.workers == map[] && s.memory.execution.Free? && s.history.clock <= now
    && |s.memory.replay| <= ids && forall id | id in s.memory.replay :: id <= ids
  }

  /** A request whose grant is fresh and whose job is unknown to the ledger. */
  lemma FreshIsServable(s: State, ids: nat, job: JobId, now: Time) returns (request: Request)
    requires Idle(s, ids, now) && ids < MAX_REPLAY_ENTRIES && LatestVisible(s.disk.ledger, job, now).None?
    ensures request == Request(MinuteGrant(ids + 1, s.device, job, now), true) && Servable(s, 0, request, now)
    ensures var y := Admitted(s, request.grant, now);
      |y.memory.replay| <= ids + 1 && forall id | id in y.memory.replay :: id <= ids + 1
  {
    request := Request(MinuteGrant(ids + 1, s.device, job, now), true);
    assert Verify(request.grant, s.device, now).Ok?;
    FreshGrantIsAccepted(s.memory.replay, request.grant, s.device, now);
  }

  /** From an idle broker, a fresh grant runs its job if the ledger does not know it. */
  lemma ServesFreshGrant(s: State, ids: nat, job: JobId, now: Time, response: Response,
                         compaction: Option<Compaction>, base: seq<Record>)
    returns (e: State)
    requires Idle(s, ids, now) && ids < MAX_REPLAY_ENTRIES && |response.output| <= MAX_RECORDED_OUTPUT_BYTES
    requires LatestVisible(s.disk.ledger, job, now).None? && Compactable(s, compaction)
    requires base == if compaction.Some? then compaction.value.after else s.disk.ledger
    ensures Reaches(s, e) && Idle(e, ids + 1, now) && e.device == s.device
    ensures e.history.starts == Started(s.history.starts, job)
    ensures e.disk.ledger ==
      base + [ExecutingRecord(job, CheckOsUpdates, now)] + [CompletedRecord(job, CheckOsUpdates, response, now)]
  {
    var request := FreshIsServable(s, ids, job, now);
    e := ServesAlone(s, 0, request, now, response, compaction);
  }

  /** The same with a runner that fails: the job is started and stays marked. */
  lemma FailsFreshGrant(s: State, ids: nat, job: JobId, now: Time) returns (e: State)
    requires Idle(s, ids, now) && ids < MAX_REPLAY_ENTRIES && LatestVisible(s.disk.ledger, job, now).None?
    ensures Reaches(s, e) && Idle(e, ids + 1, now) && e.device == s.device
    ensures e.history.starts == Started(s.history.starts, job)
    ensures e.disk.ledger == s.disk.ledger + [ExecutingRecord(job, CheckOsUpdates, now)]
  {
    var request := FreshIsServable(s, ids, job, now);
    var y := Admitted(s, request.grant, now);
    var marking := With(Locked(y, 0), 0, request, now, Marking);
    ReachesMark(s, 0, request, now);
    var marked := MarksJob(marking, y, 0, request, now, None);
    Join(s, marking, marked);
    e := FailsJob(marked, y, 0, request, now, s.disk.ledger + [ExecutingRecord(job, CheckOsUpdates, now)]);
    Join(s, marked, e);
  }
}
