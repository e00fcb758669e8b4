/**
 The durable broker ledger: an append-only file of records with torn-tail
 recovery and size-triggered compaction, proved against the record list.
 Source: crates/centrald-client/src/ledger.rs
 */
module DurableLedger {
  import opened Wrappers
  import opened LedgerRecords
  import opened LedgerJournal
  import opened Grants
  import opened GrantJournal
  import opened JsonLines

  // ---- Compaction, step by step -----------------------------------------

  lemma LatestByJobAppend(rs: seq<Record>, r: Record, now: Time)
    requires Visible(r, now)
    ensures LatestByJob(rs + [r], now) == LatestByJob(rs, now)[r.job := r]
  {
    forall j: JobId
      ensures LatestVisible(rs + [r], j, now) == if j == r.job then Some(r) else LatestVisible(rs, j, now)
    {
      LatestOfAppend(rs, r, j, now);
    }
    assert r in rs + [r];
    assert JobsOf(rs + [r]) == JobsOf(rs) + {r.job};
  }

  /** Inserting the committed records one by one keeps the latest of each job. */
  method CollectLatest(rs: seq<Record>, now: Time) returns (latest: map<JobId, Record>)
    requires forall r :: r in rs ==> Visible(r, now)
    ensures latest == LatestByJob(rs, now)
  {
    latest := map[];
    for i := 0 to |rs|
      invariant latest == LatestByJob(rs[..i], now)
    {
      LatestByJobAppend(rs[..i], rs[i], now);
      assert rs[..i] + [rs[i]] == rs[..i + 1];
      latest := latest[rs[i].job := rs[i]];
    }
    assert rs[..|rs|] == rs;
  }

  /** The values of a map whose keys are the records' jobs, in any order. */
  method ListValues(m: map<JobId, Record>) returns (rs: seq<Record>)
    requires forall j :: j in m ==> m[j].job == j
    ensures Lists(m, rs)
  {
    rs := [];
    var todo := m.Keys;
    while todo != {}
      invariant todo <= m.Keys
      invariant forall j :: j in m && j !in todo ==> m[j] in rs
      invariant forall r :: r in rs ==> r.job in m && r.job !in todo && m[r.job] == r
      invariant forall i, k | 0 <= i < k < |rs| :: rs[i].job != rs[k].job
      decreases |todo|
    {
      var j :| j in todo;
      assert forall i | 0 <= i < |rs| :: rs[i] in rs && rs[i].job != j;
      rs := rs + [m[j]];
      todo := todo - {j};
    }
  }

  predicate NewestFirst(rs: seq<Record>) {
    forall i, k | 0 <= i < k < |rs| :: rs[k].recordedAt <= rs[i].recordedAt
  }

  method InsertByAge(sorted: seq<Record>, r: Record) returns (out: seq<Record>)
    requires NewestFirst(sorted)
    ensures NewestFirst(out) && multiset(out) == multiset(sorted) + multiset{r}
  {
    var at := 0;
    while at < |sorted| && sorted[at].recordedAt >= r.recordedAt
      invariant 0 <= at <= |sorted|
      invariant forall k | 0 <= k < at :: sorted[k].recordedAt >= r.recordedAt
    {
      at := at + 1;
    }
    out := sorted[..at] + [r] + sorted[at..];
    InsertionKeepsOrder(sorted, at, r);
    InsertionAddsOne(sorted, at, r);
  }

  lemma InsertionAddsOne(sorted: seq<Record>, at: nat, r: Record)
    requires at <= |sorted|
    ensures multiset(sorted[..at] + [r] + sorted[at..]) == multiset(sorted) + multiset{r}
  {
    assert sorted == sorted[..at] + sorted[at..];
  }

  lemma InsertionKeepsOrder(sorted: seq<Record>, at: nat, r: Record)
    requires NewestFirst(sorted) && at <= |sorted|
    requires forall k | 0 <= k < at :: sorted[k].recordedAt >= r.recordedAt
    requires at < |sorted| ==> sorted[at].recordedAt <= r.recordedAt
    ensures NewestFirst(sorted[..at] + [r] + sorted[at..])
  {
    var out := sorted[..at] + [r] + sorted[at..];
    forall i, k | 0 <= i < k < |out| ensures out[k].recordedAt <= out[i].recordedAt {
      if k > at { assert out[k] == sorted[k - 1]; }
      if i > at { assert out[i] == sorted[i - 1]; }
    }
  }

  /** Orders records by age, the newest first. */
  method SortNewestFirst(rs: seq<Record>) returns (sorted: seq<Record>)
    ensures NewestFirst(sorted) && multiset(sorted) == multiset(rs)
  {
    sorted := [];
    for i := 0 to |rs|
      invariant NewestFirst(sorted) && multiset(sorted) == multiset(rs[..i])
    {
      assert rs[..i + 1] == rs[..i] + [rs[i]];
      sorted := InsertByAge(sorted, rs[i]);
    }
    assert rs[..|rs|] == rs;
  }

  lemma {:induction false} DistinctJobsCount(rs: seq<Record>)
    requires forall i, k | 0 <= i < k < |rs| :: rs[i].job != rs[k].job
    ensures |JobsOf(rs)| == |rs|
  {
    if rs != [] {
      var init, last := rs[..|rs| - 1], rs[|rs| - 1];
      DistinctJobsCount(init);
      assert JobsOf(rs) == JobsOf(init) + {last.job} by {
        assert rs == init + [last];
      }
      assert last.job !in JobsOf(init);
    }
  }

  lemma PermutationKeepsJobsDistinct(rs: seq<Record>, sorted: seq<Record>)
    requires multiset(rs) == multiset(sorted)
    requires forall i, k | 0 <= i < k < |rs| :: rs[i].job != rs[k].job
    ensures forall i, k | 0 <= i < k < |sorted| :: sorted[i].job != sorted[k].job
    ensures |sorted| == |rs| && forall r :: r in sorted <==> r in rs
  {
    forall r ensures r in sorted <==> r in rs {
      assert r in sorted <==> r in multiset(sorted);
      assert r in rs <==> r in multiset(rs);
    }
    assert |sorted| == |multiset(sorted)| == |multiset(rs)| == |rs|;
    forall i, k | 0 <= i < k < |sorted| ensures sorted[i].job != sorted[k].job {
      assert sorted[i] in rs && sorted[k] in rs;
      var a, b :| 0 <= a < |rs| && 0 <= b < |rs| && rs[a] == sorted[i] && rs[b] == sorted[k];
      if a == b {
        TwiceIsTwo(sorted, i, k);
        OnceIsOne(rs, a);
      }
    }
  }

  lemma TwiceIsTwo(rs: seq<Record>, i: int, k: int)
    requires 0 <= i < k < |rs| && rs[i] == rs[k]
    ensures multiset(rs)[rs[i]] >= 2
  {
    assert rs == rs[..k] + [rs[k]] + rs[k + 1..];
    assert rs[i] in rs[..k];
  }

  lemma OnceIsOne(rs: seq<Record>, a: int)
    requires 0 <= a < |rs| && forall i, k | 0 <= i < k < |rs| :: rs[i].job != rs[k].job
    ensures multiset(rs)[rs[a]] == 1
  {
    assert rs == rs[..a] + [rs[a]] + rs[a + 1..];
    assert rs[a] !in rs[..a] && rs[a] !in rs[a + 1..];
  }

  /** The jobs of the first 32 records, newest first, are the newest markers. */
  lemma PrefixIsNewest(latest: map<JobId, Record>, sorted: seq<Record>, n: nat, kept: set<JobId>)
    requires NewestFirst(sorted) && n == Min(MAX_RETAINED_INTERRUPTED_MARKERS, |sorted|)
    requires forall i, k | 0 <= i < k < |sorted| :: sorted[i].job != sorted[k].job
    requires forall r :: r in sorted <==> r.job in latest && latest[r.job] == r && r.state.Executing?
    requires forall j :: j in latest ==> latest[j].job == j
    requires kept == JobsOf(sorted[..n])
    ensures IsNewest(latest, kept)
  {
    DistinctJobsCount(sorted[..n]);
    DistinctJobsCount(sorted);
    forall j ensures j in JobsOf(sorted) <==> j in MarkedJobs(latest) {
      if j in MarkedJobs(latest) { assert latest[j] in sorted; }
    }
    assert JobsOf(sorted) == MarkedJobs(latest);
    assert forall q | 0 <= q < n :: sorted[q] == sorted[..n][q] && sorted[q].job in kept;
    forall k, e | k in kept && e in MarkedJobs(latest) - kept ensures latest[e].recordedAt <= latest[k].recordedAt {
      var i :| 0 <= i < n && sorted[..n][i].job == k;
      assert sorted[i] in sorted && latest[k] == sorted[i];
      assert latest[e] in sorted;
      var m :| 0 <= m < |sorted| && sorted[m] == latest[e];
    }
  }

  /** The jobs of the newest 32 executing markers. */
  method NewestMarkers(latest: map<JobId, Record>) returns (kept: set<JobId>)
    requires forall j :: j in latest ==> latest[j].job == j
    ensures IsNewest(latest, kept)
  {
    var marked := map j | j in latest && latest[j].state.Executing? :: latest[j];
    var interrupted := ListValues(marked);
    var sorted := SortNewestFirst(interrupted);
    PermutationKeepsJobsDistinct(interrupted, sorted);
    var n := Min(MAX_RETAINED_INTERRUPTED_MARKERS, |sorted|);
    var newest := sorted[..n];
    kept := set r | r in newest :: r.job;
    forall r ensures r in sorted <==> r.job in latest && latest[r.job] == r && r.state.Executing? {
      if r.job in latest && latest[r.job] == r && r.state.Executing? { assert marked[r.job] in interrupted; }
    }
    PrefixIsNewest(latest, sorted, n, kept);
  }

  /** Fills, filters and lists the map of latest records. */
  method Compact(records: seq<Record>, at: Time) returns (after: seq<Record>, kept: set<JobId>)
    requires forall r :: r in records ==> Visible(r, at)
    ensures IsCompaction(records, at, kept, after)
  {
    var latest := CollectLatest(records, at);
    kept := NewestMarkers(latest);
    after := ListValues(Retained(latest, kept));
  }

  // ---- Reading and writing lines -----------------------------------------

  function Prepend<T>(read: seq<T>, rest: Result<seq<T>, LedgerError>): Result<seq<T>, LedgerError> {
    match rest
    case Err(e) => Err(e)
    case Ok(rs) => Ok(read + rs)
  }

  lemma PrependNothing<T>(rest: Result<seq<T>, LedgerError>)
    ensures Prepend([], rest) == rest
  {
    if rest.Ok? {
      assert [] + rest.value == rest.value;
    }
  }

  method ParseAll(codec: Codec, lines: seq<Bytes>, now: Time) returns (rs: Result<seq<Record>, LedgerError>)
    ensures rs == ParseLines(codec, lines, now)
  {
    var read: seq<Record> := [];
    assert lines[0..] == lines;
    PrependNothing(ParseLines(codec, lines, now));
    for i := 0 to |lines|
      invariant ParseLines(codec, lines, now) == Prepend(read, ParseLines(codec, lines[i..], now))
    {
      assert lines[i..][1..] == lines[i + 1..];
      ghost var rest := ParseLines(codec, lines[i + 1..], now);
      if !Blank(lines[i]) {
        var parsed := ParseLine(codec, lines[i]);
        if parsed.Err? {
          return Err(parsed.error);
        }
        var shown := if Visible(parsed.value, now) then [parsed.value] else [];
        assert rest.Ok? ==> read + (shown + rest.value) == (read + shown) + rest.value;
        read := read + shown;
      }
    }
    assert lines[|lines|..] == [];
    assert read + [] == read;
    rs := Ok(read);
  }

  method ParseAllGrants(codec: GrantCodec, lines: seq<Bytes>, now: Time)
      returns (live: Result<seq<Consumed>, LedgerError>)
    ensures live == ParseGrants(codec, lines, now)
  {
    var read: seq<Consumed> := [];
    assert lines[0..] == lines;
    PrependNothing(ParseGrants(codec, lines, now));
    for i := 0 to |lines|
      invariant ParseGrants(codec, lines, now) == Prepend(read, ParseGrants(codec, lines[i..], now))
    {
      assert lines[i..][1..] == lines[i + 1..];
      ghost var rest := ParseGrants(codec, lines[i + 1..], now);
      if !Blank(lines[i]) {
        var parsed := codec.decode(lines[i]);
        if parsed.None? {
          return Err(Unparsable);
        }
        var live := if parsed.value.expiresAt > now then [parsed.value] else [];
        assert rest.Ok? ==> read + (live + rest.value) == (read + live) + rest.value;
        read := read + live;
      }
    }
    assert lines[|lines|..] == [];
    assert read + [] == read;
    live := Ok(read);
  }

  /** Searches from the end, as the newest record of a job is the one that counts. */
  method FindLatest(rs: seq<Record>, job: JobId, ghost now: Time) returns (latest: Option<Record>)
    requires forall r :: r in rs ==> Visible(r, now)
    ensures latest == LatestVisible(rs, job, now)
  {
    var i := |rs|;
    assert rs[..|rs|] == rs;
    while i > 0
      invariant 0 <= i <= |rs|
      invariant LatestVisible(rs[..i], job, now) == LatestVisible(rs, job, now)
    {
      assert rs[..i][..i - 1] == rs[..i - 1];
      if rs[i - 1].job == job {
        return Some(rs[i - 1]);
      }
      i := i - 1;
    }
    latest := None;
  }

  method Encode(codec: Codec, rs: seq<Record>) returns (raw: Bytes)
    ensures raw == Journal(codec, rs)
  {
    raw := [];
    for i := 0 to |rs|
      invariant raw == Journal(codec, rs[..i])
    {
      JournalAppend(codec, rs[..i], rs[i]);
      assert rs[..i + 1] == rs[..i] + [rs[i]];
      raw := raw + Line(codec, rs[i]);
    }
    assert rs[..|rs|] == rs;
  }

  lemma {:induction false} ParsedRecordsAreVisible(codec: Codec, lines: seq<Bytes>, now: Time)
    ensures var rs := ParseLines(codec, lines, now);
            rs.Ok? ==> forall r :: r in rs.value ==> Visible(r, now)
  {
    if lines != [] {
      ParsedRecordsAreVisible(codec, lines[1..], now);
    }
  }

  /** What marking a job leaves of the file: a known job is refused, else the marker is appended. */
  ghost predicate MarkLeaves(codec: Codec, file: Option<Bytes>, marker: Record, now: Time, at: Time,
                             fails: Option<nat>, file': Option<Bytes>, ok: Result<(), LedgerError>,
                             compaction: Option<(set<JobId>, seq<Record>)>)
  {
    match LookupBytes(codec, file, marker.job, now)
    case Err(e) => ok == Err(e) && file' == RecoveredFile(file)
    case Ok(Some(_)) => ok == Err(AlreadyRecorded) && file' == RecoveredFile(file)
    case Ok(None) => Appended(codec, RecoveredFile(file), marker, at, fails, file', ok, compaction)
  }

  /** What recording a completion leaves of the file: an unknown job is refused, else the completion is appended. */
  ghost predicate CompletionLeaves(codec: Codec, file: Option<Bytes>, job: JobId, response: Response, now: Time,
                                   at: Time, fails: Option<nat>, file': Option<Bytes>, ok: Result<(), LedgerError>,
                                   compaction: Option<(set<JobId>, seq<Record>)>)
  {
    match LookupBytes(codec, file, job, now)
    case Err(e) => ok == Err(e) && file' == RecoveredFile(file)
    case Ok(None) => ok == Err(NotMarked) && file' == RecoveredFile(file)
    case Ok(Some(_)) =>
      var latest := LatestInBytes(codec, file, job, now);
      && latest.Ok? && latest.value.Some?
      && Appended(codec, RecoveredFile(file), CompletedRecord(job, latest.value.value.operation, response, now),
                  at, fails, file', ok, compaction)
  }

  // ---- The file ----------------------------------------------------------

  class BrokerLedger {
    const codec: Codec
    const grantCodec: GrantCodec

    /** The ledger file, or none before the first record. */
    var file: Option<Bytes>
    /** Torn tails set aside by recovery. */
    var quarantine: seq<Bytes>
    /** The consumed-grant journal, or none before the first grant. */
    var grantFile: Option<Bytes>

    constructor (codec: Codec, grantCodec: GrantCodec)
      ensures this.codec == codec && this.grantCodec == grantCodec
      ensures file == None && quarantine == [] && grantFile == None
    {
      this.codec, this.grantCodec := codec, grantCodec;
      file, quarantine, grantFile := None, [], None;
    }

    /** Appends one line to the consumed-grant journal; `fails` is how much of it a failing write gets to. */
    method RecordConsumedGrant(id: GrantId, expiresAt: Time, fails: Option<nat>) returns (ok: Result<(), LedgerError>)
      modifies this`grantFile
      ensures var line := GrantLine(grantCodec, Consumed(id, expiresAt));
              grantFile == Some(FileBytes(old(grantFile)) + Reaching(line, fails))
      ensures ok == if fails.None? then Ok(()) else Err(NotWritten)
    {
      grantFile := Some(FileBytes(grantFile) + Reaching(GrantLine(grantCodec, Consumed(id, expiresAt)), fails));
      ok := if fails.None? then Ok(()) else Err(NotWritten);
    }

    /** Reads the unexpired grants; a line that does not decode is an error. */
    method LoadConsumedGrants(now: Time) returns (live: Result<seq<Consumed>, LedgerError>)
      ensures live == ReadGrants(grantCodec, FileBytes(grantFile), now)
    {
      if grantFile.None? {
        NothingJournalled(grantCodec, now);
        return Ok([]);
      }
      live := ParseAllGrants(grantCodec, SplitLines(grantFile.value), now);
    }

    method GrantWasConsumed(id: GrantId, now: Time) returns (consumed: Result<bool, LedgerError>)
      ensures match ReadGrants(grantCodec, FileBytes(grantFile), now)
              case Err(e) => consumed == Err(e)
              case Ok(live) => consumed.Ok? && (consumed.value <==> exists c :: c in live && c.id == id)
    {
      var live := LoadConsumedGrants(now);
      if live.Err? {
        return Err(live.error);
      }
      consumed := Ok(exists c :: c in live.value && c.id == id);
    }

    /**
     Sets a torn final line aside, truncates the file and writes the whole lines
     back; `stops` is how much of them a failing write gets to.
     */
    method RecoverTornFinalRecord(stops: Option<nat>) returns (raw: Result<Bytes, LedgerError>)
      requires file.Some?
      modifies this`file, this`quarantine
      ensures if RepairFails(old(file), stops)
              then raw == Err(NotWritten) && file == PartlyRepaired(old(file), stops.value)
              else raw == Ok(Recovered(old(file).value)) && file == RecoveredFile(old(file))
      ensures var whole := Recovered(old(file).value);
              quarantine == old(quarantine) + (if whole == old(file).value then [] else [old(file).value[|whole|..]])
    {
      var read := file.value;
      if read == [] || read[|read| - 1] == NEWLINE {
        assert read[..|read|] == read;
        SameCompleteLength(read, |read|);
        return Ok(read);
      }
      var complete := |read|;
      while complete > 0 && read[complete - 1] != NEWLINE
        invariant 0 <= complete <= |read|
        invariant forall i | complete <= i < |read| :: read[i] != NEWLINE
      {
        complete := complete - 1;
      }
      SameCompleteLength(read, complete);
      quarantine := quarantine + [read[complete..]];
      file := Some([]);
      var whole := read[..complete];
      file := Some(Reaching(whole, stops));
      raw := if stops.None? then Ok(whole) else Err(NotWritten);
    }

    /** Reads the committed records that are visible at `now`. */
    method ReadCommitted(now: Time, stops: Option<nat>) returns (rs: Result<seq<Record>, LedgerError>)
      requires file.Some?
      modifies this`file, this`quarantine
      ensures if RepairFails(old(file), stops)
              then rs == Err(NotWritten) && file == PartlyRepaired(old(file), stops.value)
              else rs == ReadBytes(codec, old(file).value, now) && file == RecoveredFile(old(file))
      ensures rs.Ok? ==> forall r :: r in rs.value ==> Visible(r, now)
    {
      var raw := RecoverTornFinalRecord(stops);
      if raw.Err? {
        return Err(raw.error);
      }
      ParsedRecordsAreVisible(codec, SplitLines(raw.value), now);
      rs := ParseAll(codec, SplitLines(raw.value), now);
    }

    method Lookup(job: JobId, now: Time, stops: Option<nat>) returns (found: Result<Option<Answer>, LedgerError>)
      modifies this`file, this`quarantine
      ensures if RepairFails(old(file), stops)
              then found == Err(NotWritten) && file == PartlyRepaired(old(file), stops.value)
              else found == LookupBytes(codec, old(file), job, now) && file == RecoveredFile(old(file))
    {
      if file.None? {
        return Ok(None);
      }
      var read := ReadCommitted(now, stops);
      if read.Err? {
        return Err(read.error);
      }
      var latest := FindLatest(read.value, job, now);
      found := if latest.None? then Ok(None) else AnswerOf(latest.value, now);
    }

    /** Rewrites the ledger when it exceeds its bound; `at` is the clock reading it takes. */
    method CompactIfNeeded(at: Time)
        returns (ok: Result<(), LedgerError>, ghost compaction: Option<(set<JobId>, seq<Record>)>)
      modifies this`file, this`quarantine
      ensures if |FileBytes(old(file))| <= MAX_LEDGER_BYTES then ok.Ok? && compaction.None? && file == old(file)
              else match ReadBytes(codec, FileBytes(old(file)), at)
                   case Err(e) => ok == Err(e) && compaction.None? && file == RecoveredFile(old(file))
                   case Ok(rs) =>
                     && ok.Ok? && compaction.Some?
                     && IsCompaction(rs, at, compaction.value.0, compaction.value.1)
                     && file == Some(Journal(codec, compaction.value.1))
    {
      compaction := None;
      if file.None? || |file.value| <= MAX_LEDGER_BYTES {
        return Ok(()), None;
      }
      var read := ReadCommitted(at, None);
      if read.Err? {
        return Err(read.error), None;
      }
      var after, kept := Compact(read.value, at);
      var staged := Encode(codec, after);
      file := Some(staged);
      return Ok(()), Some((kept, after));
    }

    /** Compacts if needed, then appends; `fails` is how much of the line a failing write gets to. */
    method Append(r: Record, at: Time, fails: Option<nat>)
      returns (ok: Result<(), LedgerError>, ghost compaction: Option<(set<JobId>, seq<Record>)>)
      modifies this`file, this`quarantine
      ensures Appended(codec, old(file), r, at, fails, file, ok, compaction)
    {
      ok, compaction := CompactIfNeeded(at);
      if ok.Err? {
        return;
      }
      file := Some(FileBytes(file) + Reaching(Line(codec, r), fails));
      ok := if fails.None? then Ok(()) else Err(NotWritten);
    }

    method MarkExecuting(job: JobId, operation: Operation, now: Time, stops: Option<nat>, at: Time, fails: Option<nat>)
      returns (ok: Result<(), LedgerError>, ghost compaction: Option<(set<JobId>, seq<Record>)>)
      modifies this`file, this`quarantine
      ensures RepairFails(old(file), stops) ==> ok == Err(NotWritten) && file == PartlyRepaired(old(file), stops.value)
      ensures !RepairFails(old(file), stops) ==>
              MarkLeaves(codec, old(file), ExecutingRecord(job, operation, now), now, at, fails, file, ok, compaction)
    {
      compaction := None;
      var found := Lookup(job, now, stops);
      if found.Err? {
        return Err(found.error), None;
      }
      if found.value.Some? {
        return Err(AlreadyRecorded), None;
      }
      ok, compaction := Append(ExecutingRecord(job, operation, now), at, fails);
    }

    method RecordCompleted(job: JobId, response: Response, now: Time, stops: Option<nat>, at: Time, fails: Option<nat>)
      returns (ok: Result<(), LedgerError>, ghost compaction: Option<(set<JobId>, seq<Record>)>)
      modifies this`file, this`quarantine
      ensures |response.output| > MAX_RECORDED_OUTPUT_BYTES ==> ok == Err(OutputTooLarge) && file == old(file)
      ensures |response.output| <= MAX_RECORDED_OUTPUT_BYTES && RepairFails(old(file), stops) ==>
                ok == Err(NotWritten) && file == PartlyRepaired(old(file), stops.value)
      ensures |response.output| <= MAX_RECORDED_OUTPUT_BYTES && !RepairFails(old(file), stops) ==>
                CompletionLeaves(codec, old(file), job, response, now, at, fails, file, ok, compaction)
    {
      compaction := None;
      if |response.output| > MAX_RECORDED_OUTPUT_BYTES {
        return Err(OutputTooLarge), None;
      }
      var found := Lookup(job, now, stops);
      if found.Err? {
        return Err(found.error), None;
      }
      if found.value.None? {
        return Err(NotMarked), None;
      }
      RecoveryIsIdempotent(old(file).value);
      var read := ReadCommitted(now, None);
      var latest := FindLatest(read.value, job, now);
      ok, compaction := Append(CompletedRecord(job, latest.value.operation, response, now), at, fails);
    }
  }

  lemma RecoveryIsIdempotent(raw: Bytes)
    ensures Recovered(Recovered(raw)) == Recovered(raw)
  {
    SameCompleteLength(Recovered(raw), |Recovered(raw)|);
  }
}
