/**
 Replay protection over whole runs of the broker: journalled grants stay
 refused through restarts, and the live replay set stays within its cap.
 Sources: crates/centrald-platform/src/broker.rs, crates/centrald-client/src/broker.rs,
 crates/centrald-client/src/broker_session.rs, crates/centrald-client/src/ledger.rs
 */
module GrantSafety {
  import opened Wrappers
  import opened LedgerRecords
  import opened Grants
  import opened BrokerProtocol

  /** The clock reading a step takes. A job request takes one when it arrives, before it waits for any lock. */
  function Reading(step: Step): Option<Time> {
    match step
    case Arrive(_, _, now) => Some(now)
    case CheckSession(_, at) => Some(at)
    case ConsumeSessionGrant(_, at) => Some(at)
    case Restart(at) => Some(at)
    case _ => None
  }

  /** A run under a clock that never goes back. Nothing is said about the order in which requests are served. */
  ghost predicate Forward(s: State, steps: seq<Step>)
    decreases |steps|
  {
    IsRun(s, steps) &&
    (steps == [] ||
     var init, last := steps[..|steps| - 1], steps[|steps| - 1];
     Forward(s, init) && (Reading(last).Some? ==> Reading(last).value >= After(s, init).history.clock))
  }

  /** A grant that a worker has consumed and is about to journal. */
  function Pending(w: Worker): Option<Consumed> {
    match w
    case JobWorker(request, _, JournallingGrant) => Some(Consumed(request.grant.id, request.grant.expiresAt))
    case SessionWorker(grant, JournallingSessionGrant) => Some(Consumed(grant.id, grant.expiresAt))
    case _ => None
  }

  /** While no reading at or past its expiry has been taken, the entry is in the replay set. */
  predicate Remembered(replay: ReplaySet, clock: Time, c: Consumed) {
    c.expiresAt > clock ==> c.id in replay && replay[c.id] == c.expiresAt
  }

  /** A worker's consumed grant is remembered, and its reading was taken by now. */
  predicate WorkerGuarded(replay: ReplaySet, clock: Time, w: Worker) {
    && (Pending(w).Some? ==> Remembered(replay, clock, Pending(w).value))
    && (w.JobWorker? ==> w.now <= clock)
  }

  ghost predicate WorkersGuarded(replay: ReplaySet, clock: Time, workers: map<ThreadId, Worker>) {
    forall t | t in workers :: WorkerGuarded(replay, clock, workers[t])
  }

  ghost predicate Guarded(s: State) {
    && |s.memory.replay| <= MAX_REPLAY_ENTRIES
    && (forall c | c in s.disk.consumed :: Remembered(s.memory.replay, s.history.clock, c))
    && WorkersGuarded(s.memory.replay, s.history.clock, s.memory.workers)
  }

  /** Serving any reading taken so far, however old, keeps every entry that is live now, and the cap. */
  lemma ConsumeRemembers(replay: ReplaySet, clock: Time, g: Grant, device: DeviceId, at: Time, clock': Time)
    requires clock <= clock' && at <= clock' && |replay| <= MAX_REPLAY_ENTRIES
    ensures var (r, replay') := Consume(replay, g, device, at);
            && |replay'| <= MAX_REPLAY_ENTRIES
            && (forall c :: Remembered(replay, clock, c) ==> Remembered(replay', clock', c))
            && (r.Ok? ==> Remembered(replay', clock', Consumed(g.id, g.expiresAt)))
  {
    var live := Live(replay, at);
    assert live.Keys <= replay.Keys;
    SubsetSize(live.Keys, replay.Keys);
    assert |live| == |live.Keys| && |replay| == |replay.Keys|;
    if Verify(g, device, at).Ok? && g.id !in live {
      var more := live[g.id := g.expiresAt];
      assert more.Keys == live.Keys + {g.id};
    }
  }

  lemma {:induction false} SubsetSize(a: set<GrantId>, b: set<GrantId>)
    requires a <= b
    ensures |a| <= |b|
  {
    if a != {} {
      var x :| x in a;
      SubsetSize(a - {x}, b - {x});
    }
  }

  /** A restart rebuilds a set that remembers every live journal line and fits the cap. */
  lemma BootRemembers(replay: ReplaySet, clock: Time, journal: seq<Consumed>, at: Time)
    requires clock <= at && |replay| <= MAX_REPLAY_ENTRIES
    requires forall c | c in journal :: Remembered(replay, clock, c)
    ensures |Boot(journal, at)| <= MAX_REPLAY_ENTRIES
    ensures forall c | c in journal :: Remembered(Boot(journal, at), at, c)
  {
    BootHolds(journal, at);
    var rebuilt := Boot(journal, at);
    forall id | id in rebuilt ensures id in replay && replay[id] == rebuilt[id] {
      assert Remembered(replay, clock, Consumed(id, rebuilt[id]));
    }
    assert rebuilt.Keys <= replay.Keys;
    SubsetSize(rebuilt.Keys, replay.Keys);
    assert |rebuilt| == |rebuilt.Keys| && |replay| == |replay.Keys|;
  }

  // ---- What a step does to workers and grants ----------------------------

  /** The step moves worker `t` and nobody else. */
  predicate Moves(ws: map<ThreadId, Worker>, ws': map<ThreadId, Worker>, t: ThreadId) {
    ws' == ws - {t} || (t in ws' && ws' == ws[t := ws'[t]])
  }

  lemma OnlyOneMoves(s: State, step: Step)
    requires Enabled(s, step) && !step.Restart?
    ensures Moves(s.memory.workers, Apply(s, step).memory.workers, step.t)
  {
    match step
    case LookupFirst(t) => LookupMoves(s, t, Found(s, t), AwaitingExecution);
    case LookupAgain(t) => LookupMoves(s, t, Found(s, t), Marking);
    case Mark(t, compaction) => MarkMoves(s, t, compaction, Found(s, t) == Ok(None));
    case RecordCompleted(t, compaction) => RecordMoves(s, t, compaction, RecordableOperation(s, t));
    case AppendFails(t, compaction, written) => FailureMoves(s, t, compaction, written);
    case _ =>
  }

  lemma LookupMoves(s: State, t: ThreadId, found: Result<Option<Answer>, LedgerError>, next: Stage)
    requires t in s.memory.workers && s.memory.workers[t].JobWorker?
    ensures Moves(s.memory.workers, AfterLookup(s, t, found, next).memory.workers, t)
  {
  }

  lemma MarkMoves(s: State, t: ThreadId, compaction: Option<Compaction>, unrecorded: bool)
    requires t in s.memory.workers && s.memory.workers[t].JobWorker?
    ensures Moves(s.memory.workers, Marked(s, t, compaction, unrecorded).memory.workers, t)
  {
  }

  lemma RecordMoves(s: State, t: ThreadId, compaction: Option<Compaction>, operation: Option<Operation>)
    requires IsRecording(s, t)
    ensures Moves(s.memory.workers, Recorded(s, t, compaction, operation).memory.workers, t)
  {
  }

  lemma FailureMoves(s: State, t: ThreadId, compaction: Option<Compaction>, written: bool)
    requires Appending(s, t)
    ensures Moves(s.memory.workers, AppendFailed(s, t, compaction, written).memory.workers, t)
  {
  }

  predicate TouchesGrants(step: Step) {
    step.Arrive? || step.ConsumeGrant? || step.JournalGrant? || step.CheckSession? || step.ConsumeSessionGrant?
    || step.JournalSessionGrant? || step.JournalFails? || step.Restart?
  }

  /** Journal, replay set and clock are as before, and the moved worker has the request and reading it had. */
  predicate LeavesGrants(s: State, s': State, t: ThreadId) {
    && s'.disk.consumed == s.disk.consumed && s'.memory.replay == s.memory.replay && s'.device == s.device
    && s'.history.clock == s.history.clock
    && (t in s'.memory.workers ==>
          && Pending(s'.memory.workers[t]).None?
          && (s'.memory.workers[t].JobWorker? ==>
                t in s.memory.workers && s.memory.workers[t].JobWorker?
                  && s'.memory.workers[t].now == s.memory.workers[t].now))
  }

  lemma LookupLeavesGrants(s: State, t: ThreadId, found: Result<Option<Answer>, LedgerError>, next: Stage)
    requires t in s.memory.workers && s.memory.workers[t].JobWorker? && !next.JournallingGrant?
    ensures LeavesGrants(s, AfterLookup(s, t, found, next), t)
  {
  }

  lemma MarkLeavesGrants(s: State, t: ThreadId, compaction: Option<Compaction>, unrecorded: bool)
    requires t in s.memory.workers && s.memory.workers[t].JobWorker?
    ensures LeavesGrants(s, Marked(s, t, compaction, unrecorded), t)
  {
  }

  lemma RecordLeavesGrants(s: State, t: ThreadId, compaction: Option<Compaction>, operation: Option<Operation>)
    requires IsRecording(s, t)
    ensures LeavesGrants(s, Recorded(s, t, compaction, operation), t)
  {
  }

  lemma FailureLeavesGrants(s: State, t: ThreadId, compaction: Option<Compaction>, written: bool)
    requires Appending(s, t)
    ensures LeavesGrants(s, AppendFailed(s, t, compaction, written), t)
  {
  }

  lemma OtherStepsLeaveGrants(s: State, step: Step)
    requires Enabled(s, step) && !TouchesGrants(step)
    ensures LeavesGrants(s, Apply(s, step), step.t)
  {
    match step
    case LookupFirst(t) => LookupLeavesGrants(s, t, Found(s, t), AwaitingExecution);
    case LookupAgain(t) => LookupLeavesGrants(s, t, Found(s, t), Marking);
    case Mark(t, compaction) => MarkLeavesGrants(s, t, compaction, Found(s, t) == Ok(None));
    case RecordCompleted(t, compaction) => RecordLeavesGrants(s, t, compaction, RecordableOperation(s, t));
    case AppendFails(t, compaction, written) => FailureLeavesGrants(s, t, compaction, written);
    case _ =>
  }

  // ---- The invariant -----------------------------------------------------

  lemma WorkersStayGuarded(
    replay: ReplaySet, clock: Time, ws: map<ThreadId, Worker>, t: ThreadId,
    replay': ReplaySet, clock': Time, ws': map<ThreadId, Worker>)
    requires WorkersGuarded(replay, clock, ws) && Moves(ws, ws', t)
    requires clock <= clock' && forall c :: Remembered(replay, clock, c) ==> Remembered(replay', clock', c)
    requires t in ws' ==> WorkerGuarded(replay', clock', ws'[t])
    ensures WorkersGuarded(replay', clock', ws')
  {
    forall u | u in ws' ensures WorkerGuarded(replay', clock', ws'[u]) {
      if u != t { assert WorkerGuarded(replay, clock, ws[u]); }
    }
  }

  lemma GuardedServing(s: State, step: Step, g: Grant, at: Time)
    requires Guarded(s) && Enabled(s, step)
    requires (step.ConsumeGrant? && g == s.memory.workers[step.t].request.grant && at == s.memory.workers[step.t].now)
          || (step.ConsumeSessionGrant? && g == s.memory.workers[step.t].grant && at == step.at)
    ensures Guarded(Apply(s, step))
  {
    var s' := Apply(s, step);
    var (r, replay') := Consume(s.memory.replay, g, s.device, at);
    var clock' := s'.history.clock;
    assert WorkerGuarded(s.memory.replay, s.history.clock, s.memory.workers[step.t]);
    assert s'.memory.replay == replay' && s.history.clock <= clock' && at <= clock' && s'.disk == s.disk;
    ConsumeRemembers(s.memory.replay, s.history.clock, g, s.device, at, clock');
    OnlyOneMoves(s, step);
    assert step.t in s'.memory.workers ==>
        r.Ok? && Pending(s'.memory.workers[step.t]) == Some(Consumed(g.id, g.expiresAt));
    WorkersStayGuarded(s.memory.replay, s.history.clock, s.memory.workers, step.t, replay', clock', s'.memory.workers);
  }

  lemma GuardedJournalling(s: State, step: Step)
    requires Guarded(s) && Enabled(s, step) && (step.JournalGrant? || step.JournalSessionGrant?)
    ensures Guarded(Apply(s, step))
  {
    var s' := Apply(s, step);
    var w := s.memory.workers[step.t];
    assert WorkerGuarded(s.memory.replay, s.history.clock, w);
    assert s'.disk.consumed == s.disk.consumed + [Pending(w).value];
    OnlyOneMoves(s, step);
    WorkersStayGuarded(s.memory.replay, s.history.clock, s.memory.workers, step.t,
                       s'.memory.replay, s'.history.clock, s'.memory.workers);
  }

  lemma GuardedJournalFailing(s: State, t: ThreadId, written: bool)
    requires Guarded(s) && Enabled(s, JournalFails(t, written))
    ensures Guarded(Apply(s, JournalFails(t, written)))
  {
    var s' := Apply(s, JournalFails(t, written));
    var w := s.memory.workers[t];
    assert WorkerGuarded(s.memory.replay, s.history.clock, w);
    assert s'.disk.consumed == if written then s.disk.consumed + [Pending(w).value] else s.disk.consumed;
    WorkersStayGuarded(s.memory.replay, s.history.clock, s.memory.workers, t,
                       s'.memory.replay, s'.history.clock, s'.memory.workers);
  }

  /** Arrivals and the session's journal check only take a reading. */
  lemma GuardedReading(s: State, step: Step)
    requires Guarded(s) && Enabled(s, step) && (step.Arrive? || step.CheckSession?)
    ensures Guarded(Apply(s, step))
  {
    var s' := Apply(s, step);
    OnlyOneMoves(s, step);
    assert s'.memory.replay == s.memory.replay && s.history.clock <= s'.history.clock && s'.disk == s.disk;
    WorkersStayGuarded(s.memory.replay, s.history.clock, s.memory.workers, step.t,
                       s'.memory.replay, s'.history.clock, s'.memory.workers);
  }

  lemma GuardedOther(s: State, step: Step)
    requires Guarded(s) && Enabled(s, step) && !TouchesGrants(step)
    ensures Guarded(Apply(s, step))
  {
    var s' := Apply(s, step);
    OtherStepsLeaveGrants(s, step);
    OnlyOneMoves(s, step);
    if step.t in s.memory.workers { assert WorkerGuarded(s.memory.replay, s.history.clock, s.memory.workers[step.t]); }
    WorkersStayGuarded(s.memory.replay, s.history.clock, s.memory.workers, step.t,
                       s'.memory.replay, s'.history.clock, s'.memory.workers);
  }

  lemma GuardedStep(s: State, step: Step)
    requires Guarded(s) && Enabled(s, step)
    requires Reading(step).Some? ==> Reading(step).value >= s.history.clock
    ensures Guarded(Apply(s, step))
  {
    if TouchesGrants(step) {
      GuardedTouching(s, step);
    } else {
      GuardedOther(s, step);
    }
  }

  lemma GuardedTouching(s: State, step: Step)
    requires Guarded(s) && Enabled(s, step) && TouchesGrants(step)
    requires Reading(step).Some? ==> Reading(step).value >= s.history.clock
    ensures Guarded(Apply(s, step))
  {
    match step
    case Arrive(_, _, _) => GuardedReading(s, step);
    case CheckSession(_, _) => GuardedReading(s, step);
    case ConsumeGrant(t) => GuardedServing(s, step, s.memory.workers[t].request.grant, s.memory.workers[t].now);
    case ConsumeSessionGrant(t, at) => GuardedServing(s, step, s.memory.workers[t].grant, at);
    case JournalGrant(_) => GuardedJournalling(s, step);
    case JournalSessionGrant(_) => GuardedJournalling(s, step);
    case JournalFails(t, written) => GuardedJournalFailing(s, t, written);
    case Restart(at) => GuardedRestart(s, at);
  }

  lemma GuardedRestart(s: State, at: Time)
    requires Guarded(s) && at >= s.history.clock
    ensures Guarded(Apply(s, Restart(at)))
  {
    BootRemembers(s.memory.replay, s.history.clock, s.disk.consumed, at);
  }

  lemma {:induction false} ForwardRunIsGuarded(s: State, steps: seq<Step>)
    requires Initial(s) && Forward(s, steps)
    ensures Guarded(After(s, steps))
    decreases |steps|
  {
    if steps != [] {
      var init, last := steps[..|steps| - 1], steps[|steps| - 1];
      ForwardRunIsGuarded(s, init);
      GuardedStep(After(s, init), last);
    }
  }

  // ---- Whole runs --------------------------------------------------------

  /**
   No replay across restarts: in every run under a clock that never goes back,
   in whatever order requests are served, a grant whose acceptance was
   journalled is refused to every request while no reading at or past its
   expiry has been taken, whatever grant is presented under its id.
   */
  lemma NoReplayAcrossRestarts(s: State, steps: seq<Step>, c: Consumed, g: Grant, at: Time)
    requires Initial(s) && Forward(s, steps)
    requires c in After(s, steps).disk.consumed && g.id == c.id
    requires After(s, steps).history.clock < c.expiresAt && at < c.expiresAt
    ensures var e := After(s, steps);
            && Consume(e.memory.replay, g, e.device, at).0.Err?
            && (Verify(g, e.device, at).Ok? ==> Consume(e.memory.replay, g, e.device, at).0 == Err(Replay))
            && (exists d :: d in LoadConsumed(e.disk.consumed, at) && d.id == g.id)
  {
    ForwardRunIsGuarded(s, steps);
    var e := After(s, steps);
    assert Remembered(e.memory.replay, e.history.clock, c);
    assert c in LoadConsumed(e.disk.consumed, at);
  }

  /** The live replay set never exceeds 4096 entries, although a restore has no cap of its own. */
  lemma ReplaySetStaysBounded(s: State, steps: seq<Step>)
    requires Initial(s) && Forward(s, steps)
    ensures |After(s, steps).memory.replay| <= MAX_REPLAY_ENTRIES
  {
    ForwardRunIsGuarded(s, steps);
  }

  /**
   A session reads the clock under the verifier's lock, so it is never a
   replay: a journalled grant presented before its expiry ends the session
   request at the journal check and at the verifier.
   */
  lemma SessionIsNeverAReplay(s: State, steps: seq<Step>, step: Step, c: Consumed)
    requires Initial(s) && Forward(s, steps + [step]) && IsRun(s, steps) && Enabled(After(s, steps), step)
    requires step.CheckSession? || step.ConsumeSessionGrant?
    requires c in After(s, steps).disk.consumed && c.id == After(s, steps).memory.workers[step.t].grant.id
    requires step.at < c.expiresAt
    ensures step.t !in Apply(After(s, steps), step).memory.workers
  {
    assert (steps + [step])[..|steps|] == steps;
    NoReplayAcrossRestarts(s, steps, c, After(s, steps).memory.workers[step.t].grant, step.at);
  }

  // ---- A grant is journalled before anything is done under it ------------

  /** The grant of a job request that has got past its grant steps. */
  function Spent(w: Worker): Option<Consumed> {
    if w.JobWorker? && !w.stage.ConsumingGrant? && !w.stage.JournallingGrant?
    then Some(Consumed(w.request.grant.id, w.request.grant.expiresAt)) else None
  }

  ghost predicate SpentIsJournalled(s: State) {
    forall t | t in s.memory.workers && Spent(s.memory.workers[t]).Some? ::
      Spent(s.memory.workers[t]).value in s.disk.consumed
  }

  /** The journal only grows, and a worker past its grant steps has just been journalled or was past them before. */
  predicate Spends(s: State, s': State, t: ThreadId) {
    && s.disk.consumed <= s'.disk.consumed
    && (t in s'.memory.workers && Spent(s'.memory.workers[t]).Some? ==>
          || Spent(s'.memory.workers[t]).value in s'.disk.consumed
          || (t in s.memory.workers && Spent(s.memory.workers[t]) == Spent(s'.memory.workers[t])))
  }

  lemma LookupSpends(s: State, t: ThreadId, found: Result<Option<Answer>, LedgerError>, next: Stage)
    requires t in s.memory.workers && Spent(s.memory.workers[t]).Some?
    ensures Spends(s, AfterLookup(s, t, found, next), t)
  {
  }

  lemma MarkSpends(s: State, t: ThreadId, compaction: Option<Compaction>, unrecorded: bool)
    requires t in s.memory.workers && Spent(s.memory.workers[t]).Some?
    ensures Spends(s, Marked(s, t, compaction, unrecorded), t)
  {
  }

  lemma RecordSpends(s: State, t: ThreadId, compaction: Option<Compaction>, operation: Option<Operation>)
    requires IsRecording(s, t)
    ensures Spends(s, Recorded(s, t, compaction, operation), t)
  {
  }

  lemma StepSpends(s: State, step: Step)
    requires Enabled(s, step) && !step.Restart?
    ensures Spends(s, Apply(s, step), step.t)
  {
    match step
    case LookupFirst(t) => LookupSpends(s, t, Found(s, t), AwaitingExecution);
    case LookupAgain(t) => LookupSpends(s, t, Found(s, t), Marking);
    case Mark(t, compaction) => MarkSpends(s, t, compaction, Found(s, t) == Ok(None));
    case RecordCompleted(t, compaction) => RecordSpends(s, t, compaction, RecordableOperation(s, t));
    case AppendFails(t, compaction, written) => FailureSpends(s, t, compaction, written);
    case _ =>
  }

  lemma FailureSpends(s: State, t: ThreadId, compaction: Option<Compaction>, written: bool)
    requires Appending(s, t)
    ensures Spends(s, AppendFailed(s, t, compaction, written), t)
  {
  }

  lemma SpentStep(s: State, step: Step)
    requires SpentIsJournalled(s) && Enabled(s, step)
    ensures SpentIsJournalled(Apply(s, step))
  {
    if !step.Restart? {
      StepSpends(s, step);
      OnlyOneMoves(s, step);
    }
  }

  /**
   Whatever is looked up, run or recorded for a job, in any run, its grant is
   in the journal by then.
   */
  lemma {:induction false} GrantIsJournalledBeforeUse(s: State, steps: seq<Step>)
    requires Initial(s) && IsRun(s, steps)
    ensures SpentIsJournalled(After(s, steps))
    decreases |steps|
  {
    if steps != [] {
      var init, last := steps[..|steps| - 1], steps[|steps| - 1];
      GrantIsJournalledBeforeUse(s, init);
      SpentStep(After(s, init), last);
    }
  }

  /**
   So, while no reading past its expiry has been taken, the grant of a request
   being served is refused to everyone else.
   */
  lemma GrantInUseIsRefused(s: State, steps: seq<Step>, t: ThreadId, g: Grant, at: Time)
    requires Initial(s) && Forward(s, steps)
    requires var e := After(s, steps);
             && t in e.memory.workers && Spent(e.memory.workers[t]).Some? && g.id == Spent(e.memory.workers[t]).value.id
             && e.history.clock < Spent(e.memory.workers[t]).value.expiresAt
             && at < Spent(e.memory.workers[t]).value.expiresAt
    ensures Consume(After(s, steps).memory.replay, g, After(s, steps).device, at).0.Err?
  {
    GrantIsJournalledBeforeUse(s, steps);
    NoReplayAcrossRestarts(s, steps, Spent(After(s, steps).memory.workers[t]).value, g, at);
  }

  // ---- A job request that waits ------------------------------------------

  /** The attempts the verifier serves during a run, in order. */
  ghost function Served(s: State, steps: seq<Step>): seq<Attempt>
    requires IsRun(s, steps)
    decreases |steps|
  {
    if steps == [] then []
    else
      var init, last := steps[..|steps| - 1], steps[|steps| - 1];
      var w := After(s, init).memory.workers;
      Served(s, init) +
      (match last
       case ConsumeGrant(t) => [Attempt(w[t].request.grant, w[t].now)]
       case ConsumeSessionGrant(t, at) => [Attempt(w[t].grant, at)]
       case _ => [])
  }

  predicate WithoutRestart(steps: seq<Step>) {
    forall i | 0 <= i < |steps| :: !steps[i].Restart?
  }

  lemma StepServes(s: State, step: Step)
    requires Enabled(s, step) && !step.Restart?
    ensures var s' := Apply(s, step); s'.device == s.device
    ensures var s' := Apply(s, step);
      match step
      case ConsumeGrant(t) =>
        s'.memory.replay ==
          Consume(s.memory.replay, s.memory.workers[t].request.grant, s.device, s.memory.workers[t].now).1
      case ConsumeSessionGrant(t, at) =>
        s'.memory.replay == Consume(s.memory.replay, s.memory.workers[t].grant, s.device, at).1
      case _ => s'.memory.replay == s.memory.replay
  {
    if !TouchesGrants(step) { OtherStepsLeaveGrants(s, step); }
  }

  lemma {:induction false} ReplaySetIsServed(s: State, steps: seq<Step>)
    requires IsRun(s, steps) && WithoutRestart(steps)
    ensures After(s, steps).device == s.device
    ensures After(s, steps).memory.replay == ConsumeAll(s.memory.replay, Served(s, steps), s.device)
    decreases |steps|
  {
    if steps != [] {
      var init, last := steps[..|steps| - 1], steps[|steps| - 1];
      ReplaySetIsServed(s, init);
      StepServes(After(s, init), last);
      if last.ConsumeGrant? || last.ConsumeSessionGrant? {
        assert Served(s, steps)[..|Served(s, init)|] == Served(s, init);
      } else {
        assert Served(s, steps) == Served(s, init);
      }
    }
  }

  /** The worker has just read the clock, before the expiry of a journalled grant that it presents again. */
  predicate JustArrivedWith(s: State, t: ThreadId, c: Consumed) {
    && AtStage(s, t, ConsumingGrant) && s.memory.workers[t].now == s.history.clock < c.expiresAt
    && c in s.disk.consumed && c.id == s.memory.workers[t].request.grant.id
  }

  /** Whether worker `w` is accepted after these attempts, given a journalled acceptance with this expiry. */
  ghost predicate AcceptanceDecided(
    before: ReplaySet, attempts: seq<Attempt>, device: DeviceId, w: Worker, expiresAt: Time, after: ReplaySet)
    requires w.JobWorker?
  {
    var g, now := w.request.grant, w.now;
    var accepted := Acceptances(before, attempts, device, g.id);
    && (Consume(after, g, device, now).0.Ok? <==>
          && Verify(g, device, now).Ok?
          && |Live(after, now)| < MAX_REPLAY_ENTRIES
          && !exists o, x :: HeldUntil(Some(expiresAt), accepted, attempts, device, o, x) && x > now)
    && (Consume(after, g, device, now).0.Ok? ==>
          exists p: nat :: p < |attempts| && Prunes(attempts, device, p, expiresAt))
  }

  /**
   A job request waits for the verifier between its reading and its service.
   Whatever happens in between, it is accepted exactly when its grant verifies,
   the set has room, and no entry of the grant from the journalled acceptance
   or a later one still holds past its reading; and that takes a valid request
   with a reading at or past the expiry, served while this one waited.
   */
  lemma WaitingJobAcceptedIff(s: State, before: seq<Step>, waiting: seq<Step>, t: ThreadId, c: Consumed)
    requires Initial(s) && Forward(s, before) && JustArrivedWith(After(s, before), t, c)
    requires IsRun(After(s, before), waiting) && WithoutRestart(waiting)
    requires var (e, w) := (After(After(s, before), waiting), After(s, before).memory.workers[t]);
             t in e.memory.workers && e.memory.workers[t] == w
    ensures var arrived := After(s, before);
      AcceptanceDecided(arrived.memory.replay, Served(arrived, waiting), arrived.device, arrived.memory.workers[t],
                        c.expiresAt, After(arrived, waiting).memory.replay)
  {
    var arrived := After(s, before);
    var w := arrived.memory.workers[t];
    ForwardRunIsGuarded(s, before);
    assert Remembered(arrived.memory.replay, arrived.history.clock, c);
    ReplaySetIsServed(arrived, waiting);
    AcceptedIff(arrived.memory.replay, Served(arrived, waiting), arrived.device, w.request.grant, w.now, c.expiresAt);
  }
}
