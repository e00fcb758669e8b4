/**
 Runs from the start in which the broker's promises fail, each under a clock
 that never goes back and with no compaction but of a large ledger. They show
 that the conditions of the theorems about runs are needed.
 Sources: crates/centrald-client/src/broker.rs, crates/centrald-client/src/ledger.rs
 */
module BrokerFailures {
  import opened Wrappers
  import opened LedgerRecords
  import opened Grants
  import opened BrokerProtocol
  import opened GrantSafety
  import opened Runs
  import opened BrokerRuns

  function Marker(job: JobId, now: Time): Record {
    ExecutingRecord(job, CheckOsUpdates, now)
  }

  function Completion(job: JobId, response: Response, now: Time): Record {
    CompletedRecord(job, CheckOsUpdates, response, now)
  }

  // ---- Large ledgers -----------------------------------------------------

  /** A result of the largest size that is recorded. */
  predicate IsLarge(response: Response) {
    |response.output| == MAX_RECORDED_OUTPUT_BYTES
  }

  lemma LargeResponse() returns (response: Response)
    ensures IsLarge(response)
  {
    response := Response(true, seq(MAX_RECORDED_OUTPUT_BYTES, i => 0), 0);
  }

  /** As many such results as exceed the bound of the ledger. */
  lemma Enough() returns (n: nat)
    ensures n * MAX_RECORDED_OUTPUT_BYTES > MAX_LEDGER_BYTES && n <= 100
  {
    n := 65;
  }

  /** `base` and the records of `n` jobs from `first` on, each run with a large result. */
  function Filled(base: seq<Record>, first: JobId, n: nat, now: Time, large: Response): seq<Record> {
    if n == 0 then base
    else
      Filled(base, first, n - 1, now, large) + [Marker(first + n - 1, now)] + [Completion(first + n - 1, large, now)]
  }

  lemma OutputBytesAppend(rs: seq<Record>, r: Record)
    ensures OutputBytes(rs + [r]) == OutputBytes(rs) + OutputSize(r)
  {
    AppendedInit(rs, r);
  }

  /** `r`, if it is a visible record of the job, and else what was found before it. */
  function Newest(r: Record, j: JobId, at: Time, found: Option<Record>): Option<Record> {
    if r.job == j && Visible(r, at) then Some(r) else found
  }

  lemma LatestOfTwo(rs: seq<Record>, a: Record, b: Record, j: JobId, at: Time)
    ensures LatestVisible(rs + [a] + [b], j, at) == Newest(b, j, at, Newest(a, j, at, LatestVisible(rs, j, at)))
  {
    LatestOfAppend(rs, a, j, at);
    LatestOfAppend(rs + [a], b, j, at);
  }

  lemma {:induction false} FilledIsLarge(base: seq<Record>, first: JobId, n: nat, now: Time, large: Response)
    requires IsLarge(large)
    ensures OutputBytes(Filled(base, first, n, now, large)) == OutputBytes(base) + n * MAX_RECORDED_OUTPUT_BYTES
  {
    if n > 0 {
      var init, job := Filled(base, first, n - 1, now, large), first + n - 1;
      FilledIsLarge(base, first, n - 1, now, large);
      OutputBytesAppend(init, Marker(job, now));
      OutputBytesAppend(init + [Marker(job, now)], Completion(job, large, now));
    }
  }

  /** Each of these jobs is completed; nothing else has changed. */
  lemma {:induction false} LatestOfFilled(base: seq<Record>, first: JobId, n: nat, now: Time, large: Response,
                                          j: JobId, at: Time)
    requires at < now + RECORD_RETENTION
    ensures LatestVisible(Filled(base, first, n, now, large), j, at) ==
      if first <= j < first + n then Some(Completion(j, large, now)) else LatestVisible(base, j, at)
  {
    if n > 0 {
      var init, job := Filled(base, first, n - 1, now, large), first + n - 1;
      LatestOfFilled(base, first, n - 1, now, large, j, at);
      LatestOfTwo(init, Marker(job, now), Completion(job, large, now), j, at);
    }
  }

  predicate JobsBelow(rs: seq<Record>, job: JobId) {
    forall r | r in rs :: r.job < job
  }

  /** One more job than the ledger has seen is run; `j` is any other. */
  lemma RunsNew(s: State, ids: nat, job: JobId, now: Time, response: Response, j: JobId) returns (e: State)
    requires Idle(s, ids, now) && ids < MAX_REPLAY_ENTRIES && |response.output| <= MAX_RECORDED_OUTPUT_BYTES
    requires JobsBelow(s.disk.ledger, job) && j < job
    ensures Reaches(s, e) && Idle(e, ids + 1, now) && JobsBelow(e.disk.ledger, job + 1)
    ensures e.disk.ledger == s.disk.ledger + [Marker(job, now)] + [Completion(job, response, now)]
    ensures Count(e.history.starts, j) == Count(s.history.starts, j)
  {
    e := RunsOne(s, ids, job, now, response, j);
  }

  /** One more job is run; `j` is any other. */
  lemma RunsOne(s: State, ids: nat, job: JobId, now: Time, response: Response, j: JobId) returns (e: State)
    requires Idle(s, ids, now) && ids < MAX_REPLAY_ENTRIES && |response.output| <= MAX_RECORDED_OUTPUT_BYTES
    requires LatestVisible(s.disk.ledger, job, now).None?
    ensures Reaches(s, e) && Idle(e, ids + 1, now)
    ensures e.disk.ledger == s.disk.ledger + [Marker(job, now)] + [Completion(job, response, now)]
    ensures Count(e.history.starts, j) == Count(s.history.starts, j) + if j == job then 1 else 0
  {
    e := ServesFreshGrant(s, ids, job, now, response, None, s.disk.ledger);
  }

  /** An idle broker runs `n` jobs one after the other, `j` not among them. */
  lemma {:induction false} Fills(s: State, ids: nat, first: JobId, n: nat, now: Time, large: Response, j: JobId)
      returns (e: State)
    requires Idle(s, ids, now) && ids + n <= MAX_REPLAY_ENTRIES && IsLarge(large)
    requires JobsBelow(s.disk.ledger, first) && j < first
    ensures Reaches(s, e) && Idle(e, ids + n, now) && JobsBelow(e.disk.ledger, first + n)
    ensures e.disk.ledger == Filled(s.disk.ledger, first, n, now, large)
    ensures Count(e.history.starts, j) == Count(s.history.starts, j)
    decreases n
  {
    if n == 0 {
      e := s;
      LeadsToItself(ForwardSteps(), s);
    } else {
      var before := Fills(s, ids, first, n - 1, now, large, j);
      e := RunsNew(before, ids + n - 1, first + n - 1, now, large, j);
      Join(s, before, e);
    }
  }

  /** The mark of a new job compacts a large ledger; `j` is any other job. */
  lemma MarkCompacts(s: State, ids: nat, job: JobId, now: Time, kept: set<JobId>, after: seq<Record>, j: JobId)
    returns (e: State)
    requires Idle(s, ids, now) && ids < MAX_REPLAY_ENTRIES && OutputBytes(s.disk.ledger) > MAX_LEDGER_BYTES
    requires LatestVisible(s.disk.ledger, job, now).None? && IsCompaction(s.disk.ledger, now, kept, after)
    requires j != job
    ensures Reaches(s, e) && Idle(e, ids + 1, now) && Count(e.history.starts, j) == Count(s.history.starts, j)
    ensures forall r :: r in e.disk.ledger && r.job == j ==> r in after
  {
    e := ServesFreshGrant(s, ids, job, now, OUTCOME, Some(Compaction(now, kept, after)), after);
  }

  // ---- A second run after the retention window ---------------------------

  /** The records of a first job, run at `now`. */
  function First(now: Time): seq<Record> {
    [Marker(1, now)] + [Completion(1, OUTCOME, now)]
  }

  lemma LatestOfFirst(now: Time, j: JobId)
    ensures LatestVisible(First(now), j, now) == if j == 1 then Some(Completion(1, OUTCOME, now)) else None
    ensures OutputBytes(First(now)) == 0 && JobsBelow(First(now), 2)
  {
    LatestOfAppend([Marker(1, now)], Completion(1, OUTCOME, now), j, now);
    LatestOfAppend([], Marker(1, now), j, now);
    OutputBytesAppend([Marker(1, now)], Completion(1, OUTCOME, now));
    OutputBytesAppend([], Marker(1, now));
    assert [] + [Marker(1, now)] == [Marker(1, now)];
  }

  /** Compacting the first job's ledger, once others have filled it, keeps no marker and of the job its completion. */
  lemma FirstIsCompacted(n: nat, now: Time, large: Response, full: seq<Record>) returns (after: seq<Record>)
    requires full == Filled(First(now), 2, n, now, large)
    ensures IsCompaction(full, now, {}, after)
    ensures forall r :: r in after && r.job == 1 ==> r == Completion(1, OUTCOME, now)
  {
    forall j: JobId ensures LatestVisible(full, j, now).Some? ==> LatestVisible(full, j, now).value.state.Completed? {
      LatestOfFirst(now, j);
      LatestOfFilled(First(now), 2, n, now, large, j, now);
    }
    assert MarkedJobs(LatestByJob(full, now)) == {};
    after := CompactionExists(full, now, {});
    CompactionKeeps(full, now, {}, after, 1);
    LatestOfFirst(now, 1);
    LatestOfFilled(First(now), 2, n, now, large, 1, now);
  }

  /** A job is run and recorded and others fill the ledger. */
  lemma FirstAndFilled(s: State, n: nat, now: Time, large: Response) returns (e: State)
    requires Initial(s) && now == s.history.clock && IsLarge(large) && n < 1000
    ensures Reaches(s, e) && Idle(e, n + 1, now) && Count(e.history.starts, 1) == 1
    ensures e.disk.ledger == Filled(First(now), 2, n, now, large)
  {
    var first := RunsOne(s, 0, 1, now, OUTCOME, 1);
    assert first.disk.ledger == First(now);
    LatestOfFirst(now, 1);
    e := Fills(first, 1, 2, n, now, large, 1);
    Join(s, first, e);
  }

  /**
   The retention window matters. A job is run and recorded, a compaction keeps
   its completion alone, and a request for the same job that reads the clock at
   the completion's expiry runs it a second time, though no marker is evicted.
   */
  lemma SecondRunAfterLapse(s: State)
    requires Initial(s)
    ensures exists steps :: Happened(s, steps) && Count(After(s, steps).history.starts, 1) == 2
  {
    var now := s.history.clock;
    var large := LargeResponse();
    var n := Enough();
    var full := FirstAndFilled(s, n, now, large);
    LatestOfFirst(now, n + 2);
    FilledIsLarge(First(now), 2, n, now, large);
    LatestOfFilled(First(now), 2, n, now, large, n + 2, now);
    var after := FirstIsCompacted(n, now, large, full.disk.ledger);
    var mid := MarkCompacts(full, n + 1, n + 2, now, {}, after, 1);
    Join(s, full, mid);
    var later := now + RECORD_RETENTION;
    assert LatestVisible(mid.disk.ledger, 1, later).None?;
    var e := RunsOne(mid, n + 2, 1, later, OUTCOME, 1);
    Join(s, mid, e);
    var steps := ReachedByRun(s, e);
  }

  // ---- A second run after an eviction ------------------------------------

  /** `base` and the markers of `n` jobs from `first` on. */
  function Marked(base: seq<Record>, first: JobId, n: nat, now: Time): seq<Record> {
    if n == 0 then base else Marked(base, first, n - 1, now) + [Marker(first + n - 1, now)]
  }

  lemma {:induction false} LatestOfMarked(base: seq<Record>, first: JobId, n: nat, now: Time, j: JobId, at: Time)
    ensures LatestVisible(Marked(base, first, n, now), j, at) ==
      if first <= j < first + n then Some(Marker(j, now)) else LatestVisible(base, j, at)
  {
    if n > 0 {
      LatestOfMarked(base, first, n - 1, now, j, at);
      LatestOfAppend(Marked(base, first, n - 1, now), Marker(first + n - 1, now), j, at);
    }
  }

  /** One more job than the ledger has seen is started and its runner fails; `j` is any job. */
  lemma FailsNew(s: State, ids: nat, job: JobId, now: Time, j: JobId) returns (e: State)
    requires Idle(s, ids, now) && ids < MAX_REPLAY_ENTRIES && JobsBelow(s.disk.ledger, job)
    ensures Reaches(s, e) && Idle(e, ids + 1, now) && JobsBelow(e.disk.ledger, job + 1)
    ensures e.disk.ledger == s.disk.ledger + [Marker(job, now)]
    ensures Count(e.history.starts, j) == Count(s.history.starts, j) + if j == job then 1 else 0
  {
    e := FailsFreshGrant(s, ids, job, now);
  }

  /** `n` jobs are started whose runner fails; `j` is another. */
  lemma {:induction false} Fails(s: State, ids: nat, first: JobId, n: nat, now: Time, j: JobId) returns (e: State)
    requires Idle(s, ids, now) && ids + n <= MAX_REPLAY_ENTRIES && JobsBelow(s.disk.ledger, first) && j < first
    ensures Reaches(s, e) && Idle(e, ids + n, now) && JobsBelow(e.disk.ledger, first + n)
    ensures e.disk.ledger == Marked(s.disk.ledger, first, n, now)
    ensures Count(e.history.starts, j) == Count(s.history.starts, j)
    decreases n
  {
    if n == 0 {
      e := s;
      LeadsToItself(ForwardSteps(), s);
    } else {
      var before := Fails(s, ids, first, n - 1, now, j);
      e := FailsNew(before, ids + n - 1, first + n - 1, now, j);
      Join(s, before, e);
    }
  }

  lemma {:induction false} Range(lo: nat, n: nat) returns (range: set<nat>)
    ensures |range| == n && forall j :: j in range <==> lo <= j < lo + n
  {
    if n == 0 {
      range := {};
    } else {
      var before := Range(lo, n - 1);
      range := before + {lo + n - 1};
    }
  }

  /** The markers of a first job and of `k` later ones. */
  function Markers(k: nat, now: Time): seq<Record> {
    Marked([] + [Marker(1, now)], 2, k, now + 1)
  }

  lemma LatestOfMarkers(k: nat, now: Time, j: JobId)
    ensures LatestVisible(Markers(k, now), j, now + 1) ==
      if j == 1 then Some(Marker(1, now)) else if 2 <= j < k + 2 then Some(Marker(j, now + 1)) else None
  {
    LatestOfMarked([] + [Marker(1, now)], 2, k, now + 1, j, now + 1);
    LatestOfAppend([], Marker(1, now), j, now + 1);
  }

  /** They stay the newest of their jobs when `n` others fill the ledger. */
  lemma LatestOfAll(k: nat, ledger: seq<Record>, n: nat, now: Time, large: Response, j: JobId)
    requires ledger == Filled(Markers(k, now), k + 2, n, now + 1, large)
    ensures LatestVisible(ledger, j, now + 1) ==
      if j == 1 then Some(Marker(1, now))
      else if 2 <= j < k + 2 then Some(Marker(j, now + 1))
      else if k + 2 <= j < k + 2 + n then Some(Completion(j, large, now + 1)) else None
  {
    LatestOfMarkers(k, now, j);
    LatestOfFilled(Markers(k, now), k + 2, n, now + 1, large, j, now + 1);
  }

  /** A compaction of that ledger keeps the later ones. */
  lemma FirstIsEvicted(k: nat, ledger: seq<Record>, n: nat, now: Time, large: Response)
      returns (kept: set<JobId>, after: seq<Record>)
    requires ledger == Filled(Markers(k, now), k + 2, n, now + 1, large)
    requires k == MAX_RETAINED_INTERRUPTED_MARKERS
    ensures IsCompaction(ledger, now + 1, kept, after)
    ensures forall r :: r in after ==> r.job != 1
  {
    var m := LatestByJob(ledger, now + 1);
    forall j: JobId ensures InMap(k, m, n, now, j) {
      LatestInMap(k, ledger, n, now, large, j);
    }
    kept := NewestMarkers(k, m, n, now);
    after := CompactionExists(ledger, now + 1, kept);
    assert InMap(k, m, n, now, 1);
    CompactionKeeps(ledger, now + 1, kept, after, 1);
    LatestOfAll(k, ledger, n, now, large, 1);
  }

  /** What the newest records of that ledger say of a job. */
  predicate InMap(k: nat, m: map<JobId, Record>, n: nat, now: Time, j: JobId) {
    && (j in m <==> 1 <= j < k + 2 + n)
    && (j in m ==> (m[j].state.Executing? <==> j < k + 2))
    && (j in m && j < k + 2 ==> m[j].recordedAt == if j == 1 then now else now + 1)
  }

  lemma LatestInMap(k: nat, ledger: seq<Record>, n: nat, now: Time, large: Response, j: JobId)
    requires ledger == Filled(Markers(k, now), k + 2, n, now + 1, large)
    ensures InMap(k, LatestByJob(ledger, now + 1), n, now, j)
  {
    LatestOfAll(k, ledger, n, now, large, j);
    var latest := LatestVisible(ledger, j, now + 1);
    if latest.Some? { assert latest.value in ledger && latest.value.job == j; }
  }

  /** The later markers are the newest ones. */
  lemma NewestMarkers(k: nat, m: map<JobId, Record>, n: nat, now: Time) returns (kept: set<JobId>)
    requires k == MAX_RETAINED_INTERRUPTED_MARKERS && forall j: JobId :: InMap(k, m, n, now, j)
    ensures IsNewest(m, kept) && 1 !in kept
  {
    var marked := Range(1, k + 1);
    assert MarkedJobs(m) == marked by {
      forall j: JobId ensures j in MarkedJobs(m) <==> j in marked { assert InMap(k, m, n, now, j); }
    }
    kept := Range(2, k);
    assert kept <= MarkedJobs(m);
    forall j, e | j in kept && e in MarkedJobs(m) - kept ensures m[e].recordedAt <= m[j].recordedAt {
      assert InMap(k, m, n, now, j) && InMap(k, m, n, now, e);
    }
  }

  /** So many jobs are started whose runner fails, and others fill the ledger. */
  lemma OneTooManyFail(s: State, k: nat, n: nat, now: Time, large: Response) returns (e: State)
    requires Initial(s) && now == s.history.clock && IsLarge(large) && n + k < 1000
    ensures Reaches(s, e) && Idle(e, n + k + 1, now + 1) && Count(e.history.starts, 1) == 1
    ensures e.disk.ledger == Filled(Markers(k, now), k + 2, n, now + 1, large)
  {
    var one := FailsNew(s, 0, 1, now, 1);
    var many := Fails(one, 1, 2, k, now + 1, 1);
    Join(s, one, many);
    e := Fills(many, k + 1, k + 2, n, now + 1, large, 1);
    Join(s, many, e);
  }

  /**
   The bound on markers matters. A job is started and its runner fails, 32
   others follow, a compaction keeps the markers of those 32, and the first job
   is started again.
   */
  lemma SecondRunAfterEviction(s: State)
    requires Initial(s)
    ensures exists steps :: Happened(s, steps) && Count(After(s, steps).history.starts, 1) == 2
  {
    var now := s.history.clock;
    var large := LargeResponse();
    var n := Enough();
    var k: nat := MAX_RETAINED_INTERRUPTED_MARKERS;
    var many := OneTooManyFail(s, k, n, now, large);
    FilledIsLarge(Markers(k, now), k + 2, n, now + 1, large);
    LatestOfAll(k, many.disk.ledger, n, now, large, n + k + 2);
    var kept, after := FirstIsEvicted(k, many.disk.ledger, n, now, large);
    var mid := MarkCompacts(many, n + k + 1, n + k + 2, now + 1, kept, after, 1);
    Join(s, many, mid);
    assert LatestVisible(mid.disk.ledger, 1, now + 1).None?;
    var e := RunsOne(mid, n + k + 2, 1, now + 1, OUTCOME, 1);
    Join(s, mid, e);
    var steps := ReachedByRun(s, e);
  }

  // ---- A second run after a stopped recovery -----------------------------

  /** The mark of a job is not written: the broker is idle again, and its ledger ends in a torn line. */
  lemma MarkIsLost(s: State, ids: nat, job: JobId, now: Time) returns (e: State)
    requires Idle(s, ids, now) && ids < MAX_REPLAY_ENTRIES && LatestVisible(s.disk.ledger, job, now).None?
    ensures Reaches(s, e) && Idle(e, ids + 1, now)
    ensures e.history.starts == s.history.starts && e.disk.ledger == s.disk.ledger
  {
    var request := FreshIsServable(s, ids, job, now);
    var marking := With(Locked(Admitted(s, request.grant, now), 0), 0, request, now, Marking);
    ReachesMark(s, 0, request, now);
    e := Refuse(marking, 0);
    One(marking, AppendFails(0, None, false), e);
    Join(s, marking, e);
  }

  /** The next request finds that line and is stopped while it repairs the ledger. */
  lemma RepairIsStopped(s: State, ids: nat, job: JobId, now: Time, keep: nat) returns (e: State)
    requires Idle(s, ids, now) && ids < MAX_REPLAY_ENTRIES && LatestVisible(s.disk.ledger, job, now).None?
    requires keep <= |s.disk.ledger|
    ensures Reaches(s, e) && Idle(e, ids + 1, now)
    ensures e.history.starts == s.history.starts && e.disk.ledger == s.disk.ledger[..keep]
  {
    var request := FreshIsServable(s, ids, job, now);
    var looking := With(Admitted(s, request.grant, now), 0, request, now, FirstLookup);
    ReachesLookup(s, 0, request, now);
    e := Refuse(Truncated(looking, keep), 0);
    One(looking, RecoveryStops(0, keep), e);
    Join(s, looking, e);
  }

  /**
   Repairing a torn line must not be stopped. A job is run and recorded, the
   mark of another is torn, the repair that follows is stopped after truncating
   the ledger, and the first job runs again, all at one reading of the clock.
   */
  lemma SecondRunAfterStoppedRecovery(s: State)
    requires Initial(s)
    ensures exists steps :: Happened(s, steps) && Count(After(s, steps).history.starts, 1) == 2
  {
    var now := s.history.clock;
    var first := RunsOne(s, 0, 1, now, OUTCOME, 1);
    assert first.disk.ledger == First(now);
    LatestOfFirst(now, 2);
    var torn := MarkIsLost(first, 1, 2, now);
    Join(s, first, torn);
    var stopped := RepairIsStopped(torn, 2, 2, now, 0);
    Join(s, torn, stopped);
    var e := RunsOne(stopped, 3, 1, now, OUTCOME, 1);
    Join(s, stopped, e);
    var steps := ReachedByRun(s, e);
  }

  // ---- A grant consumed twice --------------------------------------------

  /** The same workers, whichever of two came first. */
  lemma WithCommutes(s: State, t: ThreadId, a: Request, x: Time, u: ThreadId, b: Request, y: Time, p: Stage, q: Stage)
    requires t != u
    ensures With(With(s, t, a, x, p), u, b, y, q) == With(With(s, u, b, y, q), t, a, x, p)
  {
    var ws: map<ThreadId, Worker> := s.memory.workers;
    var left: map<ThreadId, Worker> := ws[t := JobWorker(a, x, p)];
    var right: map<ThreadId, Worker> := ws[u := JobWorker(b, y, q)];
    assert left[u := JobWorker(b, y, q)] == right[t := JobWorker(a, x, p)];
  }

  /** The request that is repeated, and the one that reads the clock at its expiry. */
  function Repeated(device: DeviceId, now: Time): Request {
    Request(MinuteGrant(1, device, 1, now), true)
  }

  function Late(device: DeviceId, now: Time): Request {
    Request(MinuteGrant(2, device, 2, now + 60 * SECOND), true)
  }

  lemma ReplaysOfTwo(g: Grant, h: Grant, device: DeviceId, now: Time)
    requires g == Repeated(device, now).grant && h == Late(device, now).grant
    ensures Consume(map[], g, device, now) == (Ok(()), map[1 := g.expiresAt])
    ensures Consume(map[1 := g.expiresAt], h, device, h.issuedAt) == (Ok(()), map[2 := h.expiresAt])
    ensures Consume(map[2 := h.expiresAt], g, device, now + 1).0.Ok?
  {
    var none: ReplaySet := map[];
    assert Live(none, now) == none;
    assert Live(map[1 := g.expiresAt], h.issuedAt) == none;
    assert Live(map[2 := h.expiresAt], now + 1) == map[2 := h.expiresAt];
    assert |map[2 := h.expiresAt]| == 1;
  }

  /**
   A first request has consumed and journalled a grant; two more wait, one
   with the same grant, one with a later reading.
   */
  lemma TwoWait(s: State, first: Request, late: Request, now: Time) returns (e: State, x: State)
    requires Initial(s) && s.history.clock == now
    requires first == Repeated(s.device, now) && late == Late(s.device, now)
    ensures Reaches(s, e)
    ensures e == With(With(x, 2, first, now + 1, ConsumingGrant), 3, late, late.grant.issuedAt, ConsumingGrant)
    ensures x.device == s.device && x.memory.replay == map[1 := first.grant.expiresAt]
    ensures x.memory.workers == map[1 := JobWorker(first, now, FirstLookup)]
  {
    ReplaysOfTwo(first.grant, late.grant, s.device, now);
    var taken := Taken(s, now);
    var consumed := Consuming(taken, first.grant, now);
    var journalled := With(Journalling(consumed, first.grant), 1, first, now, FirstLookup);
    Arrives(s, 1, first, now);
    Consumes(taken, 1, first, now);
    Join(s, With(taken, 1, first, now, ConsumingGrant), With(consumed, 1, first, now, JournallingGrant));
    Journals(consumed, 1, first, now);
    Join(s, With(consumed, 1, first, now, JournallingGrant), journalled);
    var one := With(Taken(journalled, now + 1), 2, first, now + 1, ConsumingGrant);
    Arrives(journalled, 2, first, now + 1);
    Join(s, journalled, one);
    var at := late.grant.issuedAt;
    Arrives(one, 3, late, at);
    e := With(Taken(one, at), 3, late, at, ConsumingGrant);
    Join(s, one, e);
    x := Taken(Taken(journalled, now + 1), at);
  }

  lemma LateIsServedFirst(waiting: State, x: State, first: Request, late: Request, now: Time) returns (e: State)
    requires first == Repeated(x.device, now) && late == Late(x.device, now)
    requires waiting == With(With(x, 2, first, now + 1, ConsumingGrant), 3, late, late.grant.issuedAt, ConsumingGrant)
    requires x.memory.replay == map[1 := first.grant.expiresAt]
    requires x.memory.workers == map[1 := JobWorker(first, now, FirstLookup)]
    ensures Reaches(waiting, e)
    ensures e.memory.workers.Keys == {1, 2, 3} && e.memory.workers[1] == JobWorker(first, now, FirstLookup)
    ensures e.memory.workers[2] == JobWorker(first, now + 1, JournallingGrant)
  {
    var at, y := late.grant.issuedAt, Consuming(x, late.grant, late.grant.issuedAt);
    ReplaysOfTwo(first.grant, late.grant, x.device, now);
    Consumes(With(x, 2, first, now + 1, ConsumingGrant), 3, late, at);
    WithCommutes(y, 2, first, now + 1, 3, late, at, ConsumingGrant, JournallingGrant);
    var z := With(y, 3, late, at, JournallingGrant);
    Consumes(z, 2, first, now + 1);
    e := With(Consuming(z, first.grant, now + 1), 2, first, now + 1, JournallingGrant);
    Join(waiting, With(z, 2, first, now + 1, ConsumingGrant), e);
  }

  /**
   Why a job request's wait matters: two requests with one grant, both with
   readings before its expiry, consume it one after the other, because a request
   that read the clock at the expiry was served in between.
   */
  lemma GrantConsumedTwice(s: State)
    requires Initial(s)
    ensures var request, now := Repeated(s.device, s.history.clock), s.history.clock;
      exists steps :: Happened(s, steps)
        && After(s, steps).memory.workers.Keys == {1, 2, 3}
        && After(s, steps).memory.workers[1] == JobWorker(request, now, FirstLookup)
        && After(s, steps).memory.workers[2] == JobWorker(request, now + 1, JournallingGrant)
        && now + 1 < request.grant.expiresAt
  {
    var now := s.history.clock;
    var first, late := Repeated(s.device, now), Late(s.device, now);
    var waiting, x := TwoWait(s, first, late, now);
    var e := LateIsServedFirst(waiting, x, first, late, now);
    Join(s, waiting, e);
    var steps := ReachedByRun(s, e);
  }
}
