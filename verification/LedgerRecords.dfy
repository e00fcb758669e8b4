/**
 The broker ledger as a list of committed records: which record answers a
 lookup at a given clock reading, and what compaction may do to the list.
 Source: crates/centrald-client/src/ledger.rs
 */
module LedgerRecords {
  import opened Wrappers

  type JobId = nat

  /** A clock reading in nanoseconds. */
  type Time = int

  const SECOND: int := 1_000_000_000
  const RECORD_RETENTION: int := 7 * 24 * 3600 * SECOND
  const EXECUTING_MARKER_TTL: int := 30 * 60 * SECOND
  const MAX_LEDGER_BYTES: int := 4 * 1024 * 1024
  const MAX_RETAINED_INTERRUPTED_MARKERS: int := 32
  const MAX_RECORDED_OUTPUT_BYTES: int := 64 * 1024

  datatype Operation =
    | RestartClientService
    | RestartMachine
    | CheckOsUpdates
    | ApplyOsUpdates
    | UpdateClient
    | OpenLowShell
    | OpenElevatedShell

  datatype Response = Response(success: bool, output: Bytes, exitCode: int)

  datatype LedgerState = Executing | Completed

  datatype Record = Record(
    job: JobId,
    operation: Operation,
    state: LedgerState,
    response: Option<Response>,
    expiresAt: Time,
    recordedAt: Time)

  datatype Answer = InProgress(interrupted: bool) | Done(response: Response)

  datatype LedgerError =
    | MissingResponse
    | AlreadyRecorded
    | NotMarked
    | OutputTooLarge
    | Unparsable
    | UnsupportedVersion
    | ChecksumMismatch
    | NotWritten

  function ExecutingRecord(job: JobId, operation: Operation, now: Time): Record {
    Record(job, operation, Executing, None, now + EXECUTING_MARKER_TTL, now)
  }

  function CompletedRecord(job: JobId, operation: Operation, response: Response, now: Time): Record {
    Record(job, operation, Completed, Some(response), now + RECORD_RETENTION, now)
  }

  /** Completed records expire; executing markers stay visible for ever. */
  predicate Visible(r: Record, now: Time) {
    r.expiresAt > now || r.state.Executing?
  }

  /** The records a reading at `now` returns, in file order. */
  function Committed(rs: seq<Record>, now: Time): (out: seq<Record>)
    ensures forall r :: r in out <==> r in rs && Visible(r, now)
  {
    if rs == [] then []
    else
      var rest := Committed(rs[..|rs| - 1], now);
      if Visible(rs[|rs| - 1], now) then rest + [rs[|rs| - 1]] else rest
  }

  /** The last record of `job` that is visible at `now`. */
  function LatestVisible(rs: seq<Record>, job: JobId, now: Time): (found: Option<Record>)
    ensures found.Some? ==> found.value in rs && found.value.job == job && Visible(found.value, now)
  {
    if rs == [] then None
    else
      var last := rs[|rs| - 1];
      if last.job == job && Visible(last, now) then Some(last)
      else LatestVisible(rs[..|rs| - 1], job, now)
  }

  /** Nothing is found exactly when no record of the job is visible. */
  lemma {:induction false} NothingVisibleIff(rs: seq<Record>, job: JobId, now: Time)
    ensures LatestVisible(rs, job, now).None? <==> forall r :: r in rs && r.job == job ==> !Visible(r, now)
  {
    if rs != [] {
      var init, last := rs[..|rs| - 1], rs[|rs| - 1];
      NothingVisibleIff(init, job, now);
      assert rs == init + [last];
    }
  }

  /** It is the newest: no later record of the job is visible. */
  lemma {:induction false} LatestIsNewest(rs: seq<Record>, job: JobId, now: Time)
    requires LatestVisible(rs, job, now).Some?
    ensures exists i :: 0 <= i < |rs| && rs[i] == LatestVisible(rs, job, now).value
                        && forall k | i < k < |rs| :: rs[k].job == job ==> !Visible(rs[k], now)
  {
    var n := |rs| - 1;
    if rs[n].job == job && Visible(rs[n], now) {
      assert rs[n] == LatestVisible(rs, job, now).value;
    } else {
      LatestIsNewest(rs[..n], job, now);
      var i :| 0 <= i < n && rs[..n][i] == LatestVisible(rs[..n], job, now).value
               && forall k | i < k < n :: rs[..n][k].job == job ==> !Visible(rs[..n][k], now);
      assert rs[i] == LatestVisible(rs, job, now).value;
      forall k | i < k < |rs| && rs[k].job == job ensures !Visible(rs[k], now) {
        if k < n { assert rs[..n][k] == rs[k]; }
      }
    }
  }

  /** The records a reading returns are in file order: reading one part after the other is reading the whole. */
  lemma {:induction false} CommittedInOrder(a: seq<Record>, b: seq<Record>, now: Time)
    ensures Committed(a + b, now) == Committed(a, now) + Committed(b, now)
  {
    if b == [] {
      assert a + b == a;
    } else {
      var n := |b| - 1;
      assert (a + b)[..|a + b| - 1] == a + b[..n];
      CommittedInOrder(a, b[..n], now);
    }
  }

  function AnswerOf(r: Record, now: Time): Result<Option<Answer>, LedgerError> {
    match r.state
    case Executing => Ok(Some(InProgress(r.expiresAt <= now)))
    case Completed =>
      match r.response
      case Some(response) => Ok(Some(Done(response)))
      case None => Err(MissingResponse)
  }

  function Lookup(rs: seq<Record>, job: JobId, now: Time): Result<Option<Answer>, LedgerError> {
    match LatestVisible(rs, job, now)
    case None => Ok(None)
    case Some(r) => AnswerOf(r, now)
  }

  predicate HasExecuting(rs: seq<Record>, job: JobId) {
    exists r :: r in rs && r.job == job && r.state.Executing?
  }

  /** An executing marker shields its job from a second start at every clock reading. */
  lemma MarkerAlwaysAnswers(rs: seq<Record>, job: JobId, now: Time)
    requires HasExecuting(rs, job)
    ensures Lookup(rs, job, now) != Ok(None)
  {
    var r :| r in rs && r.job == job && r.state.Executing?;
    assert Visible(r, now);
    NothingVisibleIff(rs, job, now);
  }

  lemma {:induction false} LatestOfCommitted(rs: seq<Record>, job: JobId, now: Time, at: Time)
    requires forall r :: r in rs ==> Visible(r, now) ==> Visible(r, at)
    ensures LatestVisible(Committed(rs, now), job, at) == LatestVisible(rs, job, now)
  {
    if rs != [] {
      var init := rs[..|rs| - 1];
      var last := rs[|rs| - 1];
      LatestOfCommitted(init, job, now, at);
      if Visible(last, now) {
        assert Visible(last, at);
        assert (Committed(init, now) + [last])[..|Committed(init, now)|] == Committed(init, now);
      }
    }
  }

  lemma {:induction false} LatestOfAppend(rs: seq<Record>, r: Record, job: JobId, now: Time)
    ensures LatestVisible(rs + [r], job, now)
            == if r.job == job && Visible(r, now) then Some(r) else LatestVisible(rs, job, now)
  {
    assert (rs + [r])[..|rs|] == rs;
  }

  // ---- Compaction ------------------------------------------------------

  function JobsOf(rs: seq<Record>): set<JobId> {
    set r | r in rs :: r.job
  }

  /** The map filled by inserting every committed record under its job. */
  function LatestByJob(rs: seq<Record>, now: Time): map<JobId, Record> {
    map j | j in JobsOf(rs) && LatestVisible(rs, j, now).Some? :: LatestVisible(rs, j, now).value
  }

  function MarkedJobs(m: map<JobId, Record>): set<JobId> {
    set j | j in m && m[j].state.Executing?
  }

  /** `kept` are the newest executing markers of `m`, at most 32 of them; ties are open. */
  ghost predicate IsNewest(m: map<JobId, Record>, kept: set<JobId>) {
    && kept <= MarkedJobs(m)
    && |kept| == Min(MAX_RETAINED_INTERRUPTED_MARKERS, |MarkedJobs(m)|)
    && forall k, e | k in kept && e in MarkedJobs(m) - kept :: m[e].recordedAt <= m[k].recordedAt
  }

  function Retained(m: map<JobId, Record>, kept: set<JobId>): map<JobId, Record> {
    map j | j in m && (m[j].state.Completed? || j in kept) :: m[j]
  }

  /** `rs` lists every value of `m` once, in any order, each under its own job. */
  ghost predicate Lists(m: map<JobId, Record>, rs: seq<Record>) {
    && (forall j :: j in m ==> m[j].job == j && m[j] in rs)
    && (forall r :: r in rs ==> r.job in m && m[r.job] == r)
    && (forall i, k | 0 <= i < k < |rs| :: rs[i].job != rs[k].job)
  }

  /** `after` is a ledger that a compaction of `before` at clock reading `at` may leave. */
  ghost predicate IsCompaction(before: seq<Record>, at: Time, kept: set<JobId>, after: seq<Record>) {
    && IsNewest(LatestByJob(before, at), kept)
    && Lists(Retained(LatestByJob(before, at), kept), after)
  }

  /** The job's newest visible record is a marker that compaction dropped. */
  predicate Evicted(before: seq<Record>, at: Time, kept: set<JobId>, job: JobId) {
    var r := LatestVisible(before, job, at);
    r.Some? && r.value.state.Executing? && job !in kept
  }

  lemma CompactionKeeps(before: seq<Record>, at: Time, kept: set<JobId>, after: seq<Record>, job: JobId)
    requires IsCompaction(before, at, kept, after)
    ensures forall r :: r in after && r.job == job ==> LatestVisible(before, job, at) == Some(r)
    ensures LatestVisible(before, job, at).Some? && !Evicted(before, at, kept, job)
            ==> LatestVisible(before, job, at).value in after
    ensures Evicted(before, at, kept, job) ==> forall r :: r in after ==> r.job != job
    ensures forall r :: r in after ==> r in before
  {
    var m := LatestByJob(before, at);
    var latest := LatestVisible(before, job, at);
    if latest.Some? {
      assert latest.value in before;
      assert job in JobsOf(before);
      assert m[job] == latest.value;
      assert !Evicted(before, at, kept, job) ==> job in Retained(m, kept);
    }
    forall r | r in after ensures r in before {
      assert Retained(m, kept)[r.job] == r;
    }
  }

  /** Expiry only ever hides records, so the newest visible one at `at` stays newest while visible. */
  lemma {:induction false} LatestStaysLatest(rs: seq<Record>, job: JobId, at: Time, t: Time)
    requires at <= t
    requires LatestVisible(rs, job, at).Some? && Visible(LatestVisible(rs, job, at).value, t)
    ensures LatestVisible(rs, job, t) == LatestVisible(rs, job, at)
  {
    var last := rs[|rs| - 1];
    if !(last.job == job && Visible(last, at)) {
      LatestStaysLatest(rs[..|rs| - 1], job, at, t);
    }
  }

  /**
   Compaction preserves meaning: at every reading from the compaction on, a
   job's lookup is unchanged exactly when the job was not an evicted marker and
   its retained completion is not yet expired or nothing older of the job is
   still visible behind it.
   */
  lemma CompactionPreservesLookup(
    before: seq<Record>, at: Time, kept: set<JobId>, after: seq<Record>, job: JobId, t: Time)
    requires IsCompaction(before, at, kept, after)
    requires at <= t
    ensures Lookup(after, job, t) == Lookup(before, job, t) <==>
            var latest := LatestVisible(before, job, at);
            && !Evicted(before, at, kept, job)
            && (latest.Some? && latest.value.state.Completed? && latest.value.expiresAt <= t
                ==> LatestVisible(before, job, t).None?)
  {
    CompactionKeeps(before, at, kept, after, job);
    LookupAfterKeeping(before, at, job, after, t, Evicted(before, at, kept, job));
  }

  /** The same statement from the effect of compaction on one job alone. */
  lemma LookupAfterKeeping(before: seq<Record>, at: Time, job: JobId, after: seq<Record>, t: Time, evicted: bool)
    requires at <= t
    requires forall r :: r in after && r.job == job ==> LatestVisible(before, job, at) == Some(r)
    requires evicted ==> LatestVisible(before, job, at).Some? && LatestVisible(before, job, at).value.state.Executing?
                         && forall r :: r in after ==> r.job != job
    requires LatestVisible(before, job, at).Some? && !evicted ==> LatestVisible(before, job, at).value in after
    ensures Lookup(after, job, t) == Lookup(before, job, t) <==>
            var latest := LatestVisible(before, job, at);
            && !evicted
            && (latest.Some? && latest.value.state.Completed? && latest.value.expiresAt <= t
                ==> LatestVisible(before, job, t).None?)
  {
    var latest := LatestVisible(before, job, at);
    if latest.None? {
      NothingVisibleIff(before, job, at);
      NothingVisibleIff(before, job, t);
      NothingVisibleIff(after, job, t);
    } else if evicted {
      EvictedJobIsForgotten(before, at, job, after, t);
    } else {
      KeptRecordAnswers(before, at, job, after, t);
    }
  }

  lemma EvictedJobIsForgotten(before: seq<Record>, at: Time, job: JobId, after: seq<Record>, t: Time)
    requires LatestVisible(before, job, at).Some? && LatestVisible(before, job, at).value.state.Executing?
    requires forall r :: r in after ==> r.job != job
    ensures Lookup(after, job, t) == Ok(None) != Lookup(before, job, t)
  {
    NothingVisibleIff(after, job, t);
    assert HasExecuting(before, job);
    MarkerAlwaysAnswers(before, job, t);
  }

  /** The one record kept for a job answers for it until it expires. */
  lemma KeptRecordAnswers(before: seq<Record>, at: Time, job: JobId, after: seq<Record>, t: Time)
    requires at <= t && LatestVisible(before, job, at).Some?
    requires LatestVisible(before, job, at).value in after
    requires forall r :: r in after && r.job == job ==> LatestVisible(before, job, at) == Some(r)
    ensures var r := LatestVisible(before, job, at).value;
            if Visible(r, t) then LatestVisible(after, job, t) == LatestVisible(before, job, t) == Some(r)
            else LatestVisible(after, job, t).None?
  {
    NothingVisibleIff(after, job, t);
    if Visible(LatestVisible(before, job, at).value, t) {
      LatestStaysLatest(before, job, at, t);
    }
  }

  lemma {:induction false} ListOf(m: map<JobId, Record>) returns (rs: seq<Record>)
    requires forall j | j in m :: m[j].job == j
    ensures Lists(m, rs)
    decreases |m|
  {
    if m == map[] {
      rs := [];
    } else {
      var j :| j in m;
      var rest := m - {j};
      assert m.Keys == rest.Keys + {j};
      var before := ListOf(rest);
      rs := before + [m[j]];
    }
  }

  /** Whatever the newest markers are, a compaction can keep them. */
  lemma CompactionExists(before: seq<Record>, at: Time, kept: set<JobId>) returns (after: seq<Record>)
    requires IsNewest(LatestByJob(before, at), kept)
    ensures IsCompaction(before, at, kept, after)
  {
    after := ListOf(Retained(LatestByJob(before, at), kept));
  }

  // ---- Sizes ---------------------------------------------------------------

  function OutputSize(r: Record): nat {
    match r.response
    case None => 0
    case Some(response) => |response.output|
  }

  /** The output bytes of all records. */
  function OutputBytes(rs: seq<Record>): nat {
    if rs == [] then 0 else OutputBytes(rs[..|rs| - 1]) + OutputSize(rs[|rs| - 1])
  }

  /** Compacting the marker and the completion of one job keeps the completion alone. */
  lemma CompactsToCompletion(job: JobId, operation: Operation, response: Response, now: Time, at: Time)
    requires at < now + RECORD_RETENTION
    ensures var completed := CompletedRecord(job, operation, response, now);
      IsCompaction([ExecutingRecord(job, operation, now)] + [completed], at, {}, [completed])
  {
    var executing, completed := ExecutingRecord(job, operation, now), CompletedRecord(job, operation, response, now);
    var before := [executing] + [completed];
    forall j ensures LatestVisible(before, j, at) == if j == job then Some(completed) else None {
      LatestOfAppend([executing], completed, j, at);
      assert forall r | r in [executing] :: r.job == job;
    }
    var m := LatestByJob(before, at);
    assert completed in before;
    assert m == map[job := completed];
    assert MarkedJobs(m) == {};
    assert Retained(m, {}) == map[job := completed];
  }

  /**
   The exception in `CompactionPreservesLookup` is real: at the expiry of the
   kept completion the job is forgotten.
   */
  lemma CompactionCanForgetAJob(job: JobId, operation: Operation, response: Response, now: Time, at: Time)
    requires at < now + RECORD_RETENTION
    ensures var completed := CompletedRecord(job, operation, response, now);
      var before := [ExecutingRecord(job, operation, now)] + [completed];
      && IsCompaction(before, at, {}, [completed])
      && Lookup(before, job, completed.expiresAt) == Ok(Some(InProgress(true)))
      && Lookup([completed], job, completed.expiresAt) == Ok(None)
  {
    var executing, completed := ExecutingRecord(job, operation, now), CompletedRecord(job, operation, response, now);
    CompactsToCompletion(job, operation, response, now, at);
    LatestOfAppend([executing], completed, job, completed.expiresAt);
    LatestOfAppend([], executing, job, completed.expiresAt);
    assert [] + [executing] == [executing];
  }

  /** A compacted ledger has one record per job and at most 32 executing markers. */
  lemma CompactionIsBounded(before: seq<Record>, at: Time, kept: set<JobId>, after: seq<Record>)
    requires IsCompaction(before, at, kept, after)
    ensures forall i, k | 0 <= i < k < |after| :: after[i].job != after[k].job
    ensures MarkedJobs(LatestByJob(after, at)) == kept
    ensures |set r | r in after && r.state.Executing?| <= MAX_RETAINED_INTERRUPTED_MARKERS
  {
    var m := LatestByJob(before, at);
    var survivors := set r | r in after && r.state.Executing?;
    forall r | r in survivors ensures r.job in kept && m[r.job] == r {
      assert Retained(m, kept)[r.job] == r;
    }
    ImageIsNoLarger(survivors, kept, m);
    forall j ensures j in MarkedJobs(LatestByJob(after, at)) <==> j in kept {
      KeptIsLatest(before, at, kept, after, j);
    }
  }

  /** A job is marked in the compacted ledger exactly when its marker was kept. */
  lemma KeptIsLatest(before: seq<Record>, at: Time, kept: set<JobId>, after: seq<Record>, j: JobId)
    requires IsCompaction(before, at, kept, after)
    ensures j in MarkedJobs(LatestByJob(after, at)) <==> j in kept
  {
    var m, latest := LatestByJob(before, at), LatestVisible(after, j, at);
    NothingVisibleIff(after, j, at);
    if j in kept {
      assert j in Retained(m, kept);
      assert m[j] in after && m[j].job == j && j in JobsOf(after);
    }
    if latest.Some? { assert Retained(m, kept)[j] == latest.value; }
  }

  lemma {:induction false} ImageIsNoLarger(rs: set<Record>, keys: set<JobId>, m: map<JobId, Record>)
    requires forall r :: r in rs ==> r.job in keys && r.job in m && m[r.job] == r
    ensures |rs| <= |keys|
  {
    if rs != {} {
      var r :| r in rs;
      forall q | q in rs - {r} ensures q.job in keys - {r.job} {
        assert q == m[q.job] && r == m[r.job];
      }
      ImageIsNoLarger(rs - {r}, keys - {r.job}, m);
    }
  }
}
