/**
 Exactly-once execution over whole runs of the broker: how often the runner is
 started for a job, and what the broker may answer.
 Sources: crates/centrald-client/src/broker.rs, crates/centrald-client/src/ledger.rs
 */
module BrokerSafety {
  import opened Wrappers
  import opened LedgerRecords
  import opened Grants
  import opened BrokerProtocol

  /** Only the holder of the execution lock is inside the locked section. */
  ghost predicate Exclusive(s: State) {
    forall t | t in s.memory.workers && InsideLock(s.memory.workers[t]) :: s.memory.execution == Held(t)
  }

  /** What a worker inside the locked section still owes to the counts of its job. */
  ghost predicate Owes(h: History, w: Worker) {
    var j := JobOf(w);
    w.JobWorker? ==>
      && (w.stage.StartingRunner? ==> Count(h.starts, j) < Count(h.marks, j))
      && (w.stage.Running? ==> |Responses(h.returned, j)| < Count(h.starts, j))
      && (w.stage.Recording? ==>
            && |Responses(h.recorded, j)| < |Responses(h.returned, j)|
            && w.stage.response in Responses(h.returned, j))
  }

  /** Every recorded result was returned by a run, every run was marked. */
  ghost predicate Tallied(h: History) {
    forall j: JobId ::
      && |Responses(h.recorded, j)| <= |Responses(h.returned, j)| <= Count(h.starts, j) <= Count(h.marks, j)
      && (forall r :: r in Responses(h.recorded, j) ==> r in Responses(h.returned, j))
      && (j in h.retention <==> Responses(h.recorded, j) != [])
  }

  ghost predicate AllOwe(h: History, workers: map<ThreadId, Worker>) {
    forall t | t in workers :: Owes(h, workers[t])
  }

  ghost predicate Counted(s: State) {
    Tallied(s.history) && AllOwe(s.history, s.memory.workers)
  }

  /** Completed records and Ok answers come from recorded results. */
  ghost predicate Sourced(s: State) {
    && (forall r | r in s.disk.ledger && r.state.Completed? ::
          r.response.Some? && r.response.value in Responses(s.history.recorded, r.job))
    && (forall a | a in s.history.answers :: a.1 in Responses(s.history.recorded, a.0))
  }

  /** Until its marker is removed, a marked job keeps it and is marked once. */
  ghost predicate Marks(s: State) {
    forall j: JobId :: j !in s.history.stripped ==>
      && Count(s.history.marks, j) <= 1
      && (Count(s.history.marks, j) == 1 ==> HasExecuting(s.disk.ledger, j))
  }

  ghost predicate Safe(s: State) {
    Exclusive(s) && Counted(s) && Sourced(s) && Marks(s)
  }

  /** One worker has ended, and with it its hold on the lock. */
  lemma ExclusiveEnded(s: State, s': State, t: ThreadId)
    requires Exclusive(s) && s'.memory.workers == s.memory.workers - {t}
    requires s.memory.execution != Held(t) ==> s'.memory.execution == s.memory.execution
    ensures Exclusive(s')
  {
  }

  /** One worker has moved on without coming into the locked section. */
  lemma ExclusiveMoved(s: State, s': State, t: ThreadId, w: Worker)
    requires Exclusive(s) && s'.memory.workers == s.memory.workers[t := w]
    requires s'.memory.execution == s.memory.execution
    requires InsideLock(w) ==> t in s.memory.workers && InsideLock(s.memory.workers[t])
    ensures Exclusive(s')
  {
  }

  lemma ExclusiveLookup(s: State, t: ThreadId, found: Result<Option<Answer>, LedgerError>, next: Stage)
    requires Exclusive(s) && t in s.memory.workers && s.memory.workers[t].JobWorker?
    requires next.Marking? ==> InsideLock(s.memory.workers[t])
    requires next.Marking? || next.AwaitingExecution?
    ensures Exclusive(AfterLookup(s, t, found, next))
  {
    var s' := AfterLookup(s, t, found, next);
    if found == Ok(None) {
      ExclusiveMoved(s, s', t, s.memory.workers[t].(stage := next));
    } else {
      ExclusiveEnded(s, s', t);
    }
  }

  lemma ExclusiveAppend(s: State, step: Step)
    requires Exclusive(s) && Enabled(s, step) && (step.Mark? || step.RecordCompleted? || step.AppendFails?)
    ensures Exclusive(Apply(s, step))
  {
    var t, s' := step.t, Apply(s, step);
    if step.Mark? && Found(s, t) == Ok(None) {
      ExclusiveMoved(s, s', t, s.memory.workers[t].(stage := StartingRunner));
    } else {
      ExclusiveEnded(s, s', t);
    }
  }

  lemma ExclusiveStep(s: State, step: Step)
    requires Exclusive(s) && Enabled(s, step)
    ensures Exclusive(Apply(s, step))
  {
    match step
    case LookupFirst(t) => ExclusiveLookup(s, t, Found(s, t), AwaitingExecution);
    case LookupAgain(t) => ExclusiveLookup(s, t, Found(s, t), Marking);
    case Mark(_, _) => ExclusiveAppend(s, step);
    case RecordCompleted(_, _) => ExclusiveAppend(s, step);
    case AppendFails(_, _, _) => ExclusiveAppend(s, step);
    case _ => ExclusiveOther(s, step);
  }

  lemma ExclusiveOther(s: State, step: Step)
    requires Exclusive(s) && Enabled(s, step) && !step.LookupFirst? && !step.LookupAgain?
    requires !step.Mark? && !step.RecordCompleted? && !step.AppendFails?
    ensures Exclusive(Apply(s, step))
  {
  }

  /** The history entries that the counts are about. */
  predicate SameTallies(h: History, h': History) {
    && h.marks == h'.marks && h.starts == h'.starts && h.returned == h'.returned
    && h.recorded == h'.recorded && h.retention == h'.retention
  }

  /** A worker that has not marked its job owes nothing. */
  predicate OwesNothing(w: Worker) {
    w.JobWorker? ==> !w.stage.StartingRunner? && !w.stage.Running? && !w.stage.Recording?
  }

  /** Every worker of `ws'` is one of `ws`, unchanged, or has not marked its job. */
  predicate NoNewMarks(ws: map<ThreadId, Worker>, ws': map<ThreadId, Worker>) {
    forall t | t in ws' :: OwesNothing(ws'[t]) || (t in ws && ws'[t] == ws[t])
  }

  predicate Quiet(step: Step) {
    !step.Mark? && !step.StartRunner? && !step.RunnerReturns? && !step.RecordCompleted? && !step.AppendFails?
  }

  predicate LeavesTallies(s: State, s': State) {
    SameTallies(s.history, s'.history) && NoNewMarks(s.memory.workers, s'.memory.workers)
  }

  lemma WorkersMove(ws: map<ThreadId, Worker>, t: ThreadId, w: Worker)
    ensures NoNewMarks(ws, ws - {t})
    ensures OwesNothing(w) ==> NoNewMarks(ws, ws[t := w])
  {
  }

  lemma QuietLookup(s: State, t: ThreadId, found: Result<Option<Answer>, LedgerError>, next: Stage)
    requires t in s.memory.workers && s.memory.workers[t].JobWorker?
    requires next.AwaitingExecution? || next.Marking?
    ensures LeavesTallies(s, AfterLookup(s, t, found, next))
  {
    var w := s.memory.workers[t];
    WorkersMove(s.memory.workers, t, w.(stage := next));
    var ws' := AfterLookup(s, t, found, next).memory.workers;
    assert ws' == s.memory.workers - {t} || ws' == s.memory.workers[t := w.(stage := next)];
  }

  lemma QuietGrant(s: State, step: Step)
    requires Enabled(s, step)
    requires step.ConsumeGrant? || step.JournalGrant?
    ensures LeavesTallies(s, Apply(s, step))
  {
    var w := s.memory.workers[step.t];
    var next := if step.ConsumeGrant? then JournallingGrant else FirstLookup;
    WorkersMove(s.memory.workers, step.t, w.(stage := next));
    var ws' := Apply(s, step).memory.workers;
    assert ws' == s.memory.workers - {step.t} || ws' == s.memory.workers[step.t := w.(stage := next)];
  }

  lemma QuietSession(s: State, step: Step)
    requires Enabled(s, step)
    requires step.CheckSession? || step.ConsumeSessionGrant? || step.JournalSessionGrant?
    ensures LeavesTallies(s, Apply(s, step))
  {
    var w := s.memory.workers[step.t];
    var next := if step.CheckSession? then ConsumingSessionGrant else JournallingSessionGrant;
    WorkersMove(s.memory.workers, step.t, w.(sessionStage := next));
    var ws' := Apply(s, step).memory.workers;
    assert ws' == s.memory.workers - {step.t} || ws' == s.memory.workers[step.t := w.(sessionStage := next)];
  }

  lemma QuietStep(s: State, step: Step)
    requires Enabled(s, step) && Quiet(step)
    ensures LeavesTallies(s, Apply(s, step))
  {
    match step
    case LookupFirst(t) => QuietLookup(s, t, Found(s, t), AwaitingExecution);
    case LookupAgain(t) => QuietLookup(s, t, Found(s, t), Marking);
    case ConsumeGrant(_) => QuietGrant(s, step);
    case JournalGrant(_) => QuietGrant(s, step);
    case CheckSession(_, _) => QuietSession(s, step);
    case ConsumeSessionGrant(_, _) => QuietSession(s, step);
    case JournalSessionGrant(_) => QuietSession(s, step);
    case _ =>
  }

  lemma SameTalliesCount(h: History, h': History)
    requires SameTallies(h, h') && Tallied(h)
    ensures Tallied(h')
    ensures forall w :: Owes(h, w) ==> Owes(h', w)
  {
  }

  lemma CountedQuiet(s: State, step: Step)
    requires Counted(s) && Enabled(s, step) && Quiet(step)
    ensures Counted(Apply(s, step))
  {
    QuietStep(s, step);
    SameTalliesCount(s.history, Apply(s, step).history);
  }

  /** While one worker is inside the locked section, no other owes anything. */
  lemma OthersOweNothing(s: State, t: ThreadId, h': History)
    requires Exclusive(s) && t in s.memory.workers && InsideLock(s.memory.workers[t])
    ensures AllOwe(h', s.memory.workers - {t})
    ensures forall w :: Owes(h', w) ==> AllOwe(h', s.memory.workers[t := w])
  {
    forall u | u in s.memory.workers && u != t ensures Owes(h', s.memory.workers[u]) {
      assert !InsideLock(s.memory.workers[u]);
    }
  }

  lemma TallyMark(h: History, h': History, j: JobId)
    requires Tallied(h)
    requires SameTallies(h.(marks := h.marks[j := Count(h.marks, j) + 1]), h')
    ensures Tallied(h') && Count(h'.starts, j) < Count(h'.marks, j)
  {
    assert forall k: JobId :: Count(h.marks, k) <= Count(h'.marks, k) && Count(h.starts, k) == Count(h'.starts, k);
  }

  lemma MarkIsTallied(s: State, t: ThreadId, compaction: Option<Compaction>)
    requires Counted(s) && AtStage(s, t, Marking)
    ensures var h := MarkWritten(s, t, compaction).history; var j := JobOf(s.memory.workers[t]);
      Tallied(h) && Count(h.starts, j) < Count(h.marks, j)
  {
    TallyMark(s.history, MarkWritten(s, t, compaction).history, JobOf(s.memory.workers[t]));
  }

  lemma CountedMark(s: State, t: ThreadId, compaction: Option<Compaction>, unrecorded: bool)
    requires Exclusive(s) && Counted(s) && AtStage(s, t, Marking)
    ensures Counted(Marked(s, t, compaction, unrecorded))
  {
    var s' := Marked(s, t, compaction, unrecorded);
    var w := s.memory.workers[t];
    OthersOweNothing(s, t, s'.history);
    if !unrecorded {
      SameTalliesCount(s.history, s'.history);
      assert s'.memory.workers == s.memory.workers - {t};
    } else {
      MarkIsTallied(s, t, compaction);
      assert s'.memory.workers == s.memory.workers[t := w.(stage := StartingRunner)];
      assert Owes(s'.history, w.(stage := StartingRunner));
    }
  }

  lemma TallyStart(h: History, h': History, j: JobId)
    requires Tallied(h) && Count(h.starts, j) < Count(h.marks, j)
    requires SameTallies(h.(starts := h.starts[j := Count(h.starts, j) + 1]), h')
    ensures Tallied(h') && |Responses(h'.returned, j)| < Count(h'.starts, j)
  {
    assert forall k: JobId :: Count(h.starts, k) <= Count(h'.starts, k) <= Count(h'.marks, k) == Count(h.marks, k);
  }

  lemma CountedStart(s: State, t: ThreadId)
    requires Exclusive(s) && Counted(s) && Enabled(s, StartRunner(t))
    ensures Counted(Apply(s, StartRunner(t)))
  {
    var s' := Apply(s, StartRunner(t));
    var w := s.memory.workers[t];
    assert Owes(s.history, w);
    TallyStart(s.history, s'.history, JobOf(w));
    OthersOweNothing(s, t, s'.history);
    assert s'.memory.workers == s.memory.workers[t := w.(stage := Running)];
    assert Owes(s'.history, w.(stage := Running));
  }

  lemma TallyReturn(h: History, h': History, j: JobId, response: Response)
    requires Tallied(h) && |Responses(h.returned, j)| < Count(h.starts, j)
    requires SameTallies(h.(returned := h.returned[j := Responses(h.returned, j) + [response]]), h')
    ensures Tallied(h') && response in Responses(h'.returned, j)
    ensures |Responses(h'.recorded, j)| < |Responses(h'.returned, j)|
  {
    assert forall k: JobId, r :: r in Responses(h.returned, k) ==> r in Responses(h'.returned, k);
    assert forall k: JobId :: Responses(h'.recorded, k) == Responses(h.recorded, k);
  }

  lemma CountedReturn(s: State, t: ThreadId, outcome: Option<Response>)
    requires Exclusive(s) && Counted(s) && Enabled(s, RunnerReturns(t, outcome))
    ensures Counted(Apply(s, RunnerReturns(t, outcome)))
  {
    var s' := Apply(s, RunnerReturns(t, outcome));
    var w := s.memory.workers[t];
    assert Owes(s.history, w);
    OthersOweNothing(s, t, s'.history);
    match outcome
    case None =>
      SameTalliesCount(s.history, s'.history);
      assert s'.memory.workers == s.memory.workers - {t};
    case Some(response) =>
      TallyReturn(s.history, s'.history, JobOf(w), response);
      assert s'.memory.workers == s.memory.workers[t := w.(stage := Recording(response))];
      assert Owes(s'.history, w.(stage := Recording(response)));
  }

  lemma TallyRecord(h: History, h': History, j: JobId, response: Response, expiresAt: Time)
    requires Tallied(h) && |Responses(h.recorded, j)| < |Responses(h.returned, j)|
        && response in Responses(h.returned, j)
    requires SameTallies(h.(recorded := h.recorded[j := Responses(h.recorded, j) + [response]],
                            retention := if j in h.retention then h.retention else h.retention[j := expiresAt]), h')
    ensures Tallied(h')
  {
    assert forall k: JobId :: Responses(h'.returned, k) == Responses(h.returned, k);
    assert forall k: JobId :: k != j ==> Responses(h'.recorded, k) == Responses(h.recorded, k);
  }

  lemma RecordIsTallied(s: State, t: ThreadId, compaction: Option<Compaction>, operation: Operation)
    requires Counted(s) && IsRecording(s, t)
    ensures Tallied(RecordWritten(s, t, compaction, operation).history)
  {
    var w := s.memory.workers[t];
    assert Owes(s.history, w);
    TallyRecord(s.history, RecordWritten(s, t, compaction, operation).history, JobOf(w), w.stage.response,
                w.now + RECORD_RETENTION);
  }

  lemma CountedRecord(s: State, t: ThreadId, compaction: Option<Compaction>, operation: Option<Operation>)
    requires Exclusive(s) && Counted(s) && IsRecording(s, t)
    ensures Counted(Recorded(s, t, compaction, operation))
  {
    var s' := Recorded(s, t, compaction, operation);
    OthersOweNothing(s, t, s'.history);
    assert s'.memory.workers == s.memory.workers - {t};
    if operation.None? {
      SameTalliesCount(s.history, s'.history);
    } else {
      RecordIsTallied(s, t, compaction, operation.value);
      SameTalliesCount(RecordWritten(s, t, compaction, operation.value).history, s'.history);
    }
  }

  lemma CountedAppendFails(s: State, t: ThreadId, compaction: Option<Compaction>, written: bool)
    requires Exclusive(s) && Counted(s) && Appending(s, t)
    ensures Counted(AppendFailed(s, t, compaction, written))
  {
    var s' := AppendFailed(s, t, compaction, written);
    OthersOweNothing(s, t, s'.history);
    assert s'.memory.workers == s.memory.workers - {t};
    if !written {
      SameTalliesCount(s.history, s'.history);
    } else if AtStage(s, t, Marking) {
      MarkIsTallied(s, t, compaction);
    } else {
      RecordIsTallied(s, t, compaction, RecordableOperation(s, t).value);
    }
  }

  lemma CountedStep(s: State, step: Step)
    requires Exclusive(s) && Counted(s) && Enabled(s, step)
    ensures Counted(Apply(s, step))
  {
    match step
    case Mark(t, compaction) => CountedMark(s, t, compaction, Found(s, t) == Ok(None));
    case StartRunner(t) => CountedStart(s, t);
    case RunnerReturns(t, outcome) => CountedReturn(s, t, outcome);
    case RecordCompleted(t, compaction) => CountedRecord(s, t, compaction, RecordableOperation(s, t));
    case AppendFails(t, compaction, written) => CountedAppendFails(s, t, compaction, written);
    case _ => CountedQuiet(s, step);
  }

  lemma SourcedStep(s: State, step: Step)
    requires Sourced(s) && Enabled(s, step)
    ensures Sourced(Apply(s, step))
  {
    match step
    case Mark(t, compaction) => SourcedMark(s, t, compaction);
    case RecordCompleted(t, compaction) =>
      if RecordableOperation(s, t).Some? { SourcedRecord(s, t, compaction, RecordableOperation(s, t).value); }
    case AppendFails(t, compaction, written) => SourcedAppendFails(s, t, compaction, written);
    case RecoveryStops(t, keep) => SourcedTruncated(s, t, keep);
    case _ => SourcedQuiet(s, step);
  }

  /** A lookup that finds a completion returns a recorded result. */
  lemma LookupIsSourced(s: State, job: JobId, now: Time)
    requires Sourced(s)
    ensures Lookup(s.disk.ledger, job, now).Ok?
    ensures var found := Lookup(s.disk.ledger, job, now).value;
            found.Some? && found.value.Done? ==> found.value.response in Responses(s.history.recorded, job)
  {
  }

  lemma SourcedQuiet(s: State, step: Step)
    requires Sourced(s) && Enabled(s, step)
    requires !step.Mark? && !step.RecordCompleted? && !step.AppendFails? && !step.RecoveryStops?
    ensures Sourced(Apply(s, step))
  {
    if step.LookupFirst? || step.LookupAgain? {
      var w := s.memory.workers[step.t];
      LookupIsSourced(s, w.request.grant.job, w.now);
    }
  }

  lemma CompactedIsSmaller(s: State, compaction: Option<Compaction>)
    requires CompactionFits(s, compaction)
    ensures forall r :: r in Compacted(s, compaction).disk.ledger ==> r in s.disk.ledger
  {
    if compaction.Some? {
      CompactionKeeps(s.disk.ledger, compaction.value.at, compaction.value.kept, compaction.value.after, 0);
    }
  }

  lemma SourcedMark(s: State, t: ThreadId, compaction: Option<Compaction>)
    requires Sourced(s) && AtStage(s, t, Marking) && CompactionFits(s, compaction)
    ensures Sourced(MarkWritten(s, t, compaction))
  {
    CompactedIsSmaller(s, compaction);
  }

  lemma SourcedRecord(s: State, t: ThreadId, compaction: Option<Compaction>, operation: Operation)
    requires Sourced(s) && IsRecording(s, t) && CompactionFits(s, compaction)
    ensures Sourced(RecordWritten(s, t, compaction, operation))
    ensures Sourced(Recorded(s, t, compaction, Some(operation)))
  {
    CompactedIsSmaller(s, compaction);
    var h, h' := s.history, RecordWritten(s, t, compaction, operation).history;
    assert forall j: JobId, r :: r in Responses(h.recorded, j) ==> r in Responses(h'.recorded, j);
  }

  lemma SourcedTruncated(s: State, t: ThreadId, keep: nat)
    requires Sourced(s) && keep <= |s.disk.ledger|
    ensures Sourced(Refuse(Truncated(s, keep), t))
  {
    assert forall r :: r in s.disk.ledger[..keep] ==> r in s.disk.ledger;
  }

  lemma SourcedAppendFails(s: State, t: ThreadId, compaction: Option<Compaction>, written: bool)
    requires Sourced(s) && Appending(s, t) && CompactionFits(s, compaction)
    ensures Sourced(AppendFailed(s, t, compaction, written))
  {
    CompactedIsSmaller(s, compaction);
    if AtStage(s, t, Marking) {
      SourcedMark(s, t, compaction);
    } else {
      SourcedRecord(s, t, compaction, RecordableOperation(s, t).value);
    }
  }

  // ---- The retention window ---------------------------------------------

  /**
   The ledger may have forgotten the job: its marker was evicted, a compaction
   dropped it as expired, it was marked past its expiry, or a stopped recovery
   lost a record of it.
   */
  predicate Forgotten(h: History, j: JobId) {
    j in h.evicted || j in h.lapsed || j in h.late || j in h.lost
  }

  /** The job is marked at most once, and while it is marked it has a record. */
  ghost predicate Shielded(s: State, j: JobId) {
    var n := Count(s.history.marks, j);
    && n <= 1
    && (n == 1 <==> exists r :: r in s.disk.ledger && r.job == j)
    && (forall r :: r in s.disk.ledger && r.job == j && r.state.Completed? ==>
          j in s.history.retention && r.expiresAt == s.history.retention[j])
  }

  ghost predicate Retained(s: State) {
    forall j: JobId :: Forgotten(s.history, j) || Shielded(s, j)
  }

  lemma RetainedCompacted(s: State, compaction: Option<Compaction>)
    requires Retained(s) && CompactionFits(s, compaction)
    ensures Retained(Compacted(s, compaction))
  {
    if compaction.Some? {
      var c := compaction.value;
      var s' := Compacted(s, compaction);
      forall j: JobId | !Forgotten(s'.history, j) ensures Shielded(s', j) {
        assert Shielded(s, j);
        ShieldSurvives(s, c, j);
      }
    }
  }

  /** A compaction that neither evicts the job nor finds it expired keeps a record of it. */
  lemma ShieldSurvives(s: State, c: Compaction, j: JobId)
    requires CompactionFits(s, Some(c)) && Shielded(s, j) && !Forgotten(Compacted(s, Some(c)).history, j)
    ensures Shielded(Compacted(s, Some(c)), j)
  {
    var ledger := s.disk.ledger;
    CompactionKeeps(ledger, c.at, c.kept, c.after, j);
    if Count(s.history.marks, j) == 1 {
      var r :| r in ledger && r.job == j;
      assert j in JobsOf(ledger) && !Evicted(ledger, c.at, c.kept, j);
      NothingVisibleIff(ledger, j, c.at);
      assert LatestVisible(ledger, j, c.at).None? ==> !Visible(r, c.at) && j !in JobsOf(c.after);
    }
  }

  /** A marked and shielded job that looks unknown at `at` has reached its retention. */
  lemma UnknownIsLate(s: State, j: JobId, at: Time)
    requires Shielded(s, j) && Count(s.history.marks, j) == 1
    requires LatestVisible(s.disk.ledger, j, at).None?
    ensures j in s.history.retention && s.history.retention[j] <= at
  {
    NothingVisibleIff(s.disk.ledger, j, at);
    var r :| r in s.disk.ledger && r.job == j;
    assert !Visible(r, at);
  }

  lemma RetainedMark(s: State, t: ThreadId, compaction: Option<Compaction>)
    requires Retained(s) && AtStage(s, t, Marking) && CompactionFits(s, compaction)
    requires LatestVisible(s.disk.ledger, JobOf(s.memory.workers[t]), s.memory.workers[t].now).None?
    ensures Retained(MarkWritten(s, t, compaction))
  {
    var w := s.memory.workers[t];
    var job := JobOf(w);
    var s' := MarkWritten(s, t, compaction);
    RetainedCompacted(s, compaction);
    var mid := Compacted(s, compaction);
    var r := ExecutingRecord(job, w.request.grant.operation, w.now);
    forall j: JobId | !Forgotten(s'.history, j) ensures Shielded(s', j) {
      assert !Forgotten(mid.history, j) && Shielded(mid, j);
      if j == job {
        assert Shielded(s, j);
        if Count(s.history.marks, j) == 1 { UnknownIsLate(s, j, w.now); }
        NewMarkShields(mid, s', job, r);
      } else {
        OtherJobShield(mid, s', j, r);
      }
    }
  }

  predicate SameLedger(s: State, s': State) {
    && s'.disk.ledger == s.disk.ledger
    && s'.history.marks == s.history.marks && s'.history.retention == s.history.retention
    && s'.history.lapsed == s.history.lapsed && s'.history.late == s.history.late
    && s'.history.lost == s.history.lost
    && s'.history.evicted == s.history.evicted && s'.history.stripped == s.history.stripped
  }

  lemma SameShield(s: State, s': State)
    requires Retained(s) && SameLedger(s, s')
    ensures Retained(s')
  {
    forall j: JobId ensures Forgotten(s'.history, j) || Shielded(s', j) {
      assert Shielded(s, j) ==> Shielded(s', j);
    }
  }

  lemma NewMarkShields(mid: State, s': State, job: JobId, r: Record)
    requires Shielded(mid, job) && Count(mid.history.marks, job) == 0
    requires r.job == job && r.state.Executing? && s'.disk.ledger == mid.disk.ledger + [r]
    requires Count(s'.history.marks, job) == 1 && s'.history.retention == mid.history.retention
    ensures Shielded(s', job)
  {
    assert r in s'.disk.ledger;
  }

  lemma OtherJobShield(mid: State, s': State, j: JobId, r: Record)
    requires Shielded(mid, j) && r.job != j && s'.disk.ledger == mid.disk.ledger + [r]
    requires Count(s'.history.marks, j) == Count(mid.history.marks, j)
    requires j in s'.history.retention <==> j in mid.history.retention
    requires j in mid.history.retention ==> s'.history.retention[j] == mid.history.retention[j]
    ensures Shielded(s', j)
  {
    forall q ensures q in s'.disk.ledger && q.job == j <==> q in mid.disk.ledger && q.job == j {
    }
  }

  lemma RetainedRecord(s: State, t: ThreadId, compaction: Option<Compaction>, operation: Operation)
    requires Counted(s) && Retained(s) && IsRecording(s, t) && CompactionFits(s, compaction)
    ensures Retained(RecordWritten(s, t, compaction, operation))
  {
    var w := s.memory.workers[t];
    var job := JobOf(w);
    var s' := RecordWritten(s, t, compaction, operation);
    RetainedCompacted(s, compaction);
    var mid := Compacted(s, compaction);
    forall j: JobId | !Forgotten(s'.history, j) ensures Shielded(s', j) {
      assert !Forgotten(mid.history, j) && Shielded(mid, j);
      if j == job {
        assert Owes(s.history, w);
        assert Responses(s.history.recorded, job) == [];
        FirstCompletionShields(mid, s', job, CompletionOf(w, operation));
      } else {
        OtherJobShield(mid, s', j, CompletionOf(w, operation));
      }
    }
  }

  lemma FirstCompletionShields(mid: State, s': State, job: JobId, r: Record)
    requires Shielded(mid, job) && job !in mid.history.retention
    requires r.job == job && r.state.Completed? && s'.disk.ledger == mid.disk.ledger + [r]
    requires s'.history.marks == mid.history.marks && Count(mid.history.marks, job) == 1
    requires s'.history.retention == mid.history.retention[job := r.expiresAt]
    ensures Shielded(s', job)
  {
    assert r in s'.disk.ledger;
  }

  lemma LookupKeepsLedger(s: State, t: ThreadId, found: Result<Option<Answer>, LedgerError>, next: Stage)
    requires t in s.memory.workers && s.memory.workers[t].JobWorker?
    ensures SameLedger(s, AfterLookup(s, t, found, next))
  {
  }

  predicate Appends(step: Step) {
    step.Mark? || step.RecordCompleted? || step.AppendFails?
  }

  lemma OtherStepKeepsLedger(s: State, step: Step)
    requires Enabled(s, step) && !Appends(step) && !step.RecoveryStops?
    ensures SameLedger(s, Apply(s, step))
  {
    match step
    case LookupFirst(t) => LookupKeepsLedger(s, t, Found(s, t), AwaitingExecution);
    case LookupAgain(t) => LookupKeepsLedger(s, t, Found(s, t), Marking);
    case CheckSession(_, _) => SessionKeepsLedger(s, step);
    case ConsumeSessionGrant(_, _) => SessionKeepsLedger(s, step);
    case JournalSessionGrant(_) => SessionKeepsLedger(s, step);
    case ConsumeGrant(_) => GrantKeepsLedger(s, step);
    case JournalGrant(_) => GrantKeepsLedger(s, step);
    case JournalFails(_, _) => GrantKeepsLedger(s, step);
    case StartRunner(_) => RunKeepsLedger(s, step);
    case RunnerReturns(_, _) => RunKeepsLedger(s, step);
    case _ => ThreadKeepsLedger(s, step);
  }

  lemma GrantKeepsLedger(s: State, step: Step)
    requires Enabled(s, step) && (step.ConsumeGrant? || step.JournalGrant? || step.JournalFails?)
    ensures SameLedger(s, Apply(s, step))
  {
  }

  lemma RunKeepsLedger(s: State, step: Step)
    requires Enabled(s, step) && (step.StartRunner? || step.RunnerReturns?)
    ensures SameLedger(s, Apply(s, step))
  {
  }

  lemma ThreadKeepsLedger(s: State, step: Step)
    requires Enabled(s, step)
    requires step.Arrive? || step.ArriveSession? || step.AcquireExecution? || step.Panic? || step.Restart?
    ensures SameLedger(s, Apply(s, step))
  {
  }

  /**
   An appending step leaves the ledger as it was, compacts it, or compacts it
   and adds the marker or the completion; workers and answers apart.
   */
  lemma AppendLeaves(s: State, step: Step)
    requires Enabled(s, step) && Appends(step)
    ensures var s' := Apply(s, step); var t := step.t;
      || SameLedger(s, s')
      || SameLedger(Compacted(s, step.compaction), s')
      || (AtStage(s, t, Marking) && Found(s, t) == Ok(None) && SameLedger(MarkWritten(s, t, step.compaction), s'))
      || (IsRecording(s, t) && RecordableOperation(s, t).Some?
          && SameLedger(RecordWritten(s, t, step.compaction, RecordableOperation(s, t).value), s'))
  {
  }

  lemma SessionKeepsLedger(s: State, step: Step)
    requires Enabled(s, step)
    requires step.CheckSession? || step.ConsumeSessionGrant? || step.JournalSessionGrant?
    ensures SameLedger(s, Apply(s, step))
  {
  }

  lemma MarksSame(s: State, s': State)
    requires Marks(s) && SameLedger(s, s')
    ensures Marks(s')
  {
  }

  lemma MarksCompacted(s: State, compaction: Option<Compaction>)
    requires Marks(s)
    ensures Marks(Compacted(s, compaction))
  {
    var s' := Compacted(s, compaction);
    forall j: JobId | j !in s'.history.stripped && Count(s'.history.marks, j) == 1
      ensures HasExecuting(s'.disk.ledger, j) {
      MarkerStays(s, compaction, j);
    }
  }

  lemma MarksTruncated(s: State, t: ThreadId, keep: nat)
    requires Marks(s) && keep <= |s.disk.ledger|
    ensures Marks(Refuse(Truncated(s, keep), t))
  {
    var s' := Refuse(Truncated(s, keep), t);
    forall j: JobId | j !in s'.history.stripped && Count(s'.history.marks, j) == 1
      ensures HasExecuting(s'.disk.ledger, j)
    {
      MarkerSurvives(s, keep, j);
    }
  }

  /** A marker that no stopped recovery reported as stripped is still there. */
  lemma MarkerSurvives(s: State, keep: nat, j: JobId)
    requires keep <= |s.disk.ledger| && HasExecuting(s.disk.ledger, j)
    requires j !in Truncated(s, keep).history.stripped
    ensures HasExecuting(s.disk.ledger[..keep], j)
  {
    var q :| q in s.disk.ledger && q.job == j && q.state.Executing?;
    assert j in JobsOf(s.disk.ledger);
  }

  /** A job that lost no record keeps its shield. */
  lemma RetainedTruncated(s: State, t: ThreadId, keep: nat)
    requires Retained(s) && keep <= |s.disk.ledger|
    ensures Retained(Refuse(Truncated(s, keep), t))
  {
    var s' := Refuse(Truncated(s, keep), t);
    forall j: JobId | !Forgotten(s'.history, j) ensures Shielded(s', j) {
      assert Shielded(s, j);
      KeptRecords(s.disk.ledger, keep, j);
    }
  }

  lemma KeptRecords(ledger: seq<Record>, keep: nat, j: JobId)
    requires keep <= |ledger| && j !in JobsOf(ledger[keep..])
    ensures forall r: Record | r.job == j :: r in ledger[..keep] <==> r in ledger
  {
    assert ledger == ledger[..keep] + ledger[keep..];
  }

  lemma MarksMark(s: State, t: ThreadId, compaction: Option<Compaction>)
    requires Marks(s) && AtStage(s, t, Marking)
    requires !HasExecuting(s.disk.ledger, JobOf(s.memory.workers[t]))
    ensures Marks(MarkWritten(s, t, compaction))
  {
    var w := s.memory.workers[t];
    var s' := MarkWritten(s, t, compaction);
    var r := ExecutingRecord(JobOf(w), w.request.grant.operation, w.now);
    MarksCompacted(s, compaction);
    forall j: JobId | j !in s'.history.stripped
      ensures Count(s'.history.marks, j) <= 1
      ensures Count(s'.history.marks, j) == 1 ==> HasExecuting(s'.disk.ledger, j)
    {
      MarkerAppended(Compacted(s, compaction).disk.ledger, r, j);
    }
  }

  lemma MarksRecord(s: State, t: ThreadId, compaction: Option<Compaction>, operation: Operation)
    requires Marks(s) && IsRecording(s, t)
    ensures Marks(RecordWritten(s, t, compaction, operation))
  {
    var w := s.memory.workers[t];
    var s' := RecordWritten(s, t, compaction, operation);
    MarksCompacted(s, compaction);
    forall j: JobId | j !in s'.history.stripped && Count(s'.history.marks, j) == 1
      ensures HasExecuting(s'.disk.ledger, j)
    {
      MarkerAppended(Compacted(s, compaction).disk.ledger, CompletionOf(w, operation), j);
    }
  }

  /** A marker that no compaction reported as stripped is still there. */
  lemma MarkerStays(s: State, compaction: Option<Compaction>, j: JobId)
    requires HasExecuting(s.disk.ledger, j)
    requires j !in Compacted(s, compaction).history.stripped
    ensures HasExecuting(Compacted(s, compaction).disk.ledger, j)
  {
    var q :| q in s.disk.ledger && q.job == j && q.state.Executing?;
    assert j in JobsOf(s.disk.ledger);
  }

  lemma MarkerAppended(rs: seq<Record>, r: Record, j: JobId)
    ensures HasExecuting(rs, j) ==> HasExecuting(rs + [r], j)
    ensures r.job == j && r.state.Executing? ==> HasExecuting(rs + [r], j)
  {
    if HasExecuting(rs, j) {
      var q :| q in rs && q.job == j && q.state.Executing?;
      assert q in rs + [r];
    }
    assert r in rs + [r];
  }

  /** What looks unknown has no marker. */
  lemma UnknownHasNoMarker(s: State, t: ThreadId)
    requires t in s.memory.workers && s.memory.workers[t].JobWorker? && Found(s, t) == Ok(None)
    ensures !HasExecuting(s.disk.ledger, JobOf(s.memory.workers[t]))
    ensures LatestVisible(s.disk.ledger, JobOf(s.memory.workers[t]), s.memory.workers[t].now).None?
  {
    var w := s.memory.workers[t];
    if HasExecuting(s.disk.ledger, JobOf(w)) { MarkerAlwaysAnswers(s.disk.ledger, JobOf(w), w.now); }
  }

  lemma MarksStep(s: State, step: Step)
    requires Marks(s) && Enabled(s, step)
    ensures Marks(Apply(s, step))
  {
    var s' := Apply(s, step);
    if step.RecoveryStops? {
      MarksTruncated(s, step.t, step.keep);
    } else if !Appends(step) {
      OtherStepKeepsLedger(s, step);
      MarksSame(s, s');
    } else {
      var t, compaction := step.t, step.compaction;
      AppendLeaves(s, step);
      if SameLedger(s, s') {
        MarksSame(s, s');
      } else if SameLedger(Compacted(s, compaction), s') {
        MarksCompacted(s, compaction);
        MarksSame(Compacted(s, compaction), s');
      } else if AtStage(s, t, Marking) {
        UnknownHasNoMarker(s, t);
        MarksMark(s, t, compaction);
        MarksSame(MarkWritten(s, t, compaction), s');
      } else {
        MarksRecord(s, t, compaction, RecordableOperation(s, t).value);
        MarksSame(RecordWritten(s, t, compaction, RecordableOperation(s, t).value), s');
      }
    }
  }

  lemma RetainedStep(s: State, step: Step)
    requires Safe(s) && Retained(s) && Enabled(s, step)
    ensures Retained(Apply(s, step))
  {
    var s' := Apply(s, step);
    if step.RecoveryStops? {
      RetainedTruncated(s, step.t, step.keep);
    } else if !Appends(step) {
      OtherStepKeepsLedger(s, step);
      SameShield(s, s');
    } else {
      var t, compaction := step.t, step.compaction;
      AppendLeaves(s, step);
      if SameLedger(s, s') {
        SameShield(s, s');
      } else if SameLedger(Compacted(s, compaction), s') {
        RetainedCompacted(s, compaction);
        SameShield(Compacted(s, compaction), s');
      } else if AtStage(s, t, Marking) {
        UnknownHasNoMarker(s, t);
        RetainedMark(s, t, compaction);
        SameShield(MarkWritten(s, t, compaction), s');
      } else {
        RetainedRecord(s, t, compaction, RecordableOperation(s, t).value);
        SameShield(RecordWritten(s, t, compaction, RecordableOperation(s, t).value), s');
      }
    }
  }

  lemma SafeStep(s: State, step: Step)
    requires Safe(s) && Enabled(s, step)
    ensures Safe(Apply(s, step))
  {
    ExclusiveStep(s, step);
    CountedStep(s, step);
    SourcedStep(s, step);
    MarksStep(s, step);
  }

  // ---- Whole runs --------------------------------------------------------

  lemma {:induction false} RunIsSafe(s: State, steps: seq<Step>)
    requires Initial(s) && IsRun(s, steps)
    ensures Safe(After(s, steps)) && Retained(After(s, steps))
    decreases |steps|
  {
    if steps == [] {
    } else {
      var init, last := steps[..|steps| - 1], steps[|steps| - 1];
      RunIsSafe(s, init);
      SafeStep(After(s, init), last);
      RetainedStep(After(s, init), last);
    }
  }

  /**
   At most one run per job, under every interleaving, every crash and every
   failed write. Whatever the clock does, the runner starts at most once for a
   job unless a compaction or a stopped recovery has removed its executing
   marker. A second start after that needs an evicted marker, a compaction that
   read the clock at or past the expiry of the job's completion and dropped it,
   a mark of the job itself at such a reading, or a recovery of the ledger that
   was stopped before it had written the job's records back.
   */
  lemma AtMostOneRunPerJob(s: State, steps: seq<Step>, j: JobId)
    requires Initial(s) && IsRun(s, steps)
    ensures var h := After(s, steps).history;
            && (Count(h.starts, j) <= 1 || j in h.stripped)
            && (Count(h.starts, j) <= 1 || j in h.evicted || j in h.lapsed || j in h.late || j in h.lost)
  {
    RunIsSafe(s, steps);
    var end := After(s, steps);
    assert Forgotten(end.history, j) || Shielded(end, j);
  }

  /**
   Exactly when a worker's request marks its job, for the first time or again:
   the ledger holds no marker of the job, and every completion of it has expired
   at the worker's own reading.
   */
  lemma MarksAgainIff(s: State, t: ThreadId, compaction: Option<Compaction>)
    requires Safe(s) && Enabled(s, Mark(t, compaction))
    ensures var w := s.memory.workers[t]; var j := JobOf(w);
            Count(Apply(s, Mark(t, compaction)).history.marks, j) == Count(s.history.marks, j) + 1 <==>
            (forall r :: r in s.disk.ledger && r.job == j ==> r.state.Completed? && r.expiresAt <= w.now)
  {
    UnseenIff(s, t);
  }

  lemma UnseenIff(s: State, t: ThreadId)
    requires Sourced(s) && t in s.memory.workers && s.memory.workers[t].JobWorker?
    ensures var w := s.memory.workers[t];
            Found(s, t) == Ok(None) <==>
            (forall r :: r in s.disk.ledger && r.job == JobOf(w) ==> r.state.Completed? && r.expiresAt <= w.now)
  {
    var w := s.memory.workers[t];
    LookupIsSourced(s, JobOf(w), w.now);
    NothingVisibleIff(s.disk.ledger, JobOf(w), w.now);
  }

  /**
   Replay faithfulness: every Ok answer ever given for a job, on any thread and
   after any restart, is a response that a run of the job returned and the
   broker recorded. While the job has run at most once it is the one response.
   */
  lemma AnswersAreTheRunsResponse(s: State, steps: seq<Step>, j: JobId, response: Response)
    requires Initial(s) && IsRun(s, steps)
    requires (j, response) in After(s, steps).history.answers
    ensures var h := After(s, steps).history;
            && response in Responses(h.recorded, j) && response in Responses(h.returned, j)
            && (j !in h.stripped || !Forgotten(h, j)
                ==> Responses(h.returned, j) == [response] && Count(h.starts, j) == 1)
  {
    RunIsSafe(s, steps);
    AtMostOneRunPerJob(s, steps, j);
    AnswerIsReturned(After(s, steps), j, response);
  }

  lemma AnswerIsReturned(s: State, j: JobId, response: Response)
    requires Counted(s) && Sourced(s) && (j, response) in s.history.answers
    ensures response in Responses(s.history.recorded, j) && response in Responses(s.history.returned, j)
    ensures Count(s.history.starts, j) >= 1
    ensures Count(s.history.starts, j) <= 1 ==> Responses(s.history.returned, j) == [response]
  {
    assert (j, response).1 in Responses(s.history.recorded, j);
  }

  /** Nothing of the job is in flight and its outcome was not recorded. */
  ghost predicate OutcomeUnknown(s: State, j: JobId) {
    && HasExecuting(s.disk.ledger, j)
    && Responses(s.history.recorded, j) == []
    && forall t | t in s.memory.workers && JobOf(s.memory.workers[t]) == j :: OwesNothing(s.memory.workers[t])
  }

  ghost predicate StillUnknown(s: State, s': State, j: JobId) {
    OutcomeUnknown(s', j) && Count(s'.history.starts, j) == Count(s.history.starts, j)
  }

  lemma UnknownOutcomeStep(s: State, step: Step, j: JobId)
    requires Safe(s) && OutcomeUnknown(s, j) && Enabled(s, step)
    requires j !in Apply(s, step).history.stripped
    ensures StillUnknown(s, Apply(s, step), j)
  {
    match step
    case StartRunner(_) => UnknownOutcomeRun(s, step, j);
    case RunnerReturns(_, _) => UnknownOutcomeRun(s, step, j);
    case Mark(_, _) => UnknownOutcomeAppend(s, step, j);
    case RecordCompleted(_, _) => UnknownOutcomeAppend(s, step, j);
    case AppendFails(_, _, _) => UnknownOutcomeAppend(s, step, j);
    case RecoveryStops(t, keep) => UnknownOutcomeTruncated(s, t, keep, j);
    case _ => UnknownOutcomeQuiet(s, step, j);
  }

  /** Whoever starts or has run is at work on another job. */
  lemma UnknownOutcomeRun(s: State, step: Step, j: JobId)
    requires OutcomeUnknown(s, j) && Enabled(s, step) && (step.StartRunner? || step.RunnerReturns?)
    ensures StillUnknown(s, Apply(s, step), j)
  {
    assert JobOf(s.memory.workers[step.t]) != j;
  }

  lemma UnknownOutcomeTruncated(s: State, t: ThreadId, keep: nat, j: JobId)
    requires OutcomeUnknown(s, j) && keep <= |s.disk.ledger|
    requires j !in Truncated(s, keep).history.stripped
    ensures StillUnknown(s, Refuse(Truncated(s, keep), t), j)
  {
    MarkerSurvives(s, keep, j);
  }

  lemma UnknownOutcomeQuiet(s: State, step: Step, j: JobId)
    requires OutcomeUnknown(s, j) && Enabled(s, step) && Quiet(step) && !step.RecoveryStops?
    ensures StillUnknown(s, Apply(s, step), j)
  {
    QuietStep(s, step);
    OtherStepKeepsLedger(s, step);
  }

  /** Nothing about `j` but the ledger and the compactions changes; its workers stay or leave. */
  predicate SparesJob(s: State, s': State, j: JobId) {
    && Count(s'.history.starts, j) == Count(s.history.starts, j)
    && Responses(s'.history.recorded, j) == Responses(s.history.recorded, j)
    && (forall u | u in s'.memory.workers && JobOf(s'.memory.workers[u]) == j ::
          u in s.memory.workers && s'.memory.workers[u] == s.memory.workers[u])
  }

  lemma MarkSpares(s: State, t: ThreadId, compaction: Option<Compaction>, unrecorded: bool, j: JobId)
    requires AtStage(s, t, Marking) && (unrecorded ==> JobOf(s.memory.workers[t]) != j)
    ensures SparesJob(s, Marked(s, t, compaction, unrecorded), j)
    ensures SparesJob(s, Refuse(MarkWritten(s, t, compaction), t), j)
  {
  }

  lemma RecordSpares(s: State, t: ThreadId, compaction: Option<Compaction>, operation: Option<Operation>, j: JobId)
    requires IsRecording(s, t) && JobOf(s.memory.workers[t]) != j
    ensures SparesJob(s, Recorded(s, t, compaction, operation), j)
    ensures operation.Some? ==> SparesJob(s, Refuse(RecordWritten(s, t, compaction, operation.value), t), j)
  {
  }

  lemma CompactionSpares(s: State, t: ThreadId, compaction: Option<Compaction>, j: JobId)
    ensures SparesJob(s, Refuse(Compacted(s, compaction), t), j)
  {
  }

  lemma AppendSpares(s: State, step: Step, j: JobId)
    requires Enabled(s, step) && Appends(step)
    requires AtStage(s, step.t, Marking) ==> Found(s, step.t) != Ok(None) || JobOf(s.memory.workers[step.t]) != j
    requires IsRecording(s, step.t) ==> JobOf(s.memory.workers[step.t]) != j
    ensures SparesJob(s, Apply(s, step), j)
  {
    match step
    case Mark(t, compaction) => MarkSpares(s, t, compaction, Found(s, t) == Ok(None), j);
    case RecordCompleted(t, compaction) => RecordSpares(s, t, compaction, RecordableOperation(s, t), j);
    case AppendFails(t, compaction, written) =>
      CompactionSpares(s, t, compaction, j);
      if AtStage(s, t, Marking) {
        MarkSpares(s, t, compaction, true, j);
      } else {
        RecordSpares(s, t, compaction, RecordableOperation(s, t), j);
      }
  }

  /** An append is about another job: this one's marker turns its own requests away. */
  lemma UnknownOutcomeAppend(s: State, step: Step, j: JobId)
    requires OutcomeUnknown(s, j) && Enabled(s, step) && Appends(step)
    requires j !in Apply(s, step).history.stripped
    ensures StillUnknown(s, Apply(s, step), j)
  {
    var t, compaction := step.t, step.compaction;
    var w := s.memory.workers[t];
    if AtStage(s, t, Marking) && Found(s, t) == Ok(None) { UnknownHasNoMarker(s, t); }
    AppendSpares(s, step, j);
    AppendLeaves(s, step);
    UnknownOutcomeKept(s, compaction, ExecutingRecord(JobOf(w), w.request.grant.operation, w.now), j);
    if IsRecording(s, t) && RecordableOperation(s, t).Some? {
      UnknownOutcomeKept(s, compaction, CompletionOf(w, RecordableOperation(s, t).value), j);
    }
  }

  lemma UnknownOutcomeKept(s: State, compaction: Option<Compaction>, r: Record, j: JobId)
    requires HasExecuting(s.disk.ledger, j)
    ensures j !in Compacted(s, compaction).history.stripped ==>
      HasExecuting(Compacted(s, compaction).disk.ledger, j)
      && HasExecuting(Compacted(s, compaction).disk.ledger + [r], j)
  {
    if j !in Compacted(s, compaction).history.stripped {
      MarkerStays(s, compaction, j);
      MarkerAppended(Compacted(s, compaction).disk.ledger, r, j);
    }
  }

  lemma StrippedStep(s: State, step: Step, j: JobId)
    requires Enabled(s, step) && j in s.history.stripped
    ensures j in Apply(s, step).history.stripped
  {
    if Appends(step) { AppendLeaves(s, step); } else if !step.RecoveryStops? { OtherStepKeepsLedger(s, step); }
  }

  /**
   Fail closed: once a job is marked, nothing of it is in flight and its result
   was never recorded (a crash, a runner error or oversized output), then until
   a compaction or a stopped recovery removes its marker it is never started
   again and never answered Ok, through any further interleaving, crash and
   restart.
   */
  lemma {:induction false} UnknownOutcomeFailsClosed(s: State, steps: seq<Step>, j: JobId)
    requires Safe(s) && OutcomeUnknown(s, j) && IsRun(s, steps)
    requires j !in After(s, steps).history.stripped
    ensures var e := After(s, steps);
            && Safe(e) && OutcomeUnknown(e, j)
            && Count(e.history.starts, j) == Count(s.history.starts, j)
            && (forall response :: (j, response) !in e.history.answers)
    decreases |steps|
  {
    if steps != [] {
      var init, last := steps[..|steps| - 1], steps[|steps| - 1];
      var before := After(s, init);
      if j in before.history.stripped { StrippedStep(before, last, j); }
      UnknownOutcomeFailsClosed(s, init, j);
      UnknownOutcomeStep(before, last, j);
      SafeStep(before, last);
    }
  }

  /** A restart while a job is marked and unrecorded leaves exactly that situation. */
  lemma CrashLeavesUnknownOutcome(s: State, j: JobId, at: Time)
    requires Safe(s) && j !in s.history.stripped
    requires Count(s.history.marks, j) >= 1 && Responses(s.history.recorded, j) == []
    ensures Safe(Apply(s, Restart(at))) && OutcomeUnknown(Apply(s, Restart(at)), j)
  {
    SafeStep(s, Restart(at));
  }

  /** The worker has marked its job and is on its way to recording the result. */
  predicate PastMark(s: State, t: ThreadId) {
    t in s.memory.workers && !OwesNothing(s.memory.workers[t])
  }

  /** How a worker ends past its mark without an answer: a runner error, oversized output, a failed write, a panic. */
  predicate Abandons(s: State, step: Step)
    requires Enabled(s, step)
  {
    match step
    case RunnerReturns(_, outcome) => outcome.None?
    case RecordCompleted(t, _) => |s.memory.workers[t].stage.response.output| > MAX_RECORDED_OUTPUT_BYTES
    case AppendFails(_, _, written) => !written
    case RecoveryStops(_, _) => true
    case Panic(_) => true
    case _ => false
  }

  /** Each of them leads into that situation too. */
  lemma AbandonedJobIsUnknown(s: State, step: Step)
    requires Safe(s) && Enabled(s, step) && Abandons(s, step) && PastMark(s, step.t)
    requires JobOf(s.memory.workers[step.t]) !in Apply(s, step).history.stripped
    ensures Safe(Apply(s, step)) && OutcomeUnknown(Apply(s, step), JobOf(s.memory.workers[step.t]))
  {
    var t, s' := step.t, Apply(s, step);
    var w := s.memory.workers[t];
    var j := JobOf(w);
    SafeStep(s, step);
    if j in s.history.stripped { StrippedStep(s, step, j); }
    assert Owes(s.history, w);
    AbandonLeaves(s, step);
    assert Responses(s.history.recorded, j) == [];
    forall u | u in s'.memory.workers && JobOf(s'.memory.workers[u]) == j ensures OwesNothing(s'.memory.workers[u]) {
      assert u != t && !InsideLock(s.memory.workers[u]);
    }
  }

  lemma AbandonLeaves(s: State, step: Step)
    requires Enabled(s, step) && Abandons(s, step)
    ensures var s' := Apply(s, step);
      && s'.memory.workers == s.memory.workers - {step.t}
      && s'.history.marks == s.history.marks && s'.history.recorded == s.history.recorded
  {
  }
}
