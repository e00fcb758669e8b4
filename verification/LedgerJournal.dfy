/**
 The ledger file as bytes: one JSON envelope per line, torn-tail recovery, and
 the reading of committed records. The JSON codec and the record checksum are
 parameters with stated laws.
 Source: crates/centrald-client/src/ledger.rs
 */
module LedgerJournal {
  import opened Wrappers
  import opened LedgerRecords
  import opened JsonLines

  const LEDGER_VERSION: int := 1

  datatype Envelope = Envelope(version: int, record: Record, checksum: string)

  datatype Codec = Codec(
    encode: Envelope -> Bytes,
    decode: Bytes -> Option<Envelope>,
    checksum: Record -> string)

  /** JSON round-trips, and its text is one non-blank line. */
  ghost predicate Lawful(codec: Codec) {
    forall e: Envelope ::
      && codec.decode(codec.encode(e)) == Some(e)
      && NEWLINE !in codec.encode(e)
      && !Blank(codec.encode(e))
  }

  function Body(codec: Codec, r: Record): Bytes {
    codec.encode(Envelope(LEDGER_VERSION, r, codec.checksum(r)))
  }

  function Encoder(codec: Codec): Record -> Bytes {
    (r: Record) => Body(codec, r)
  }

  function Line(codec: Codec, r: Record): Bytes {
    Body(codec, r) + [NEWLINE]
  }

  function Journal(codec: Codec, rs: seq<Record>): Bytes {
    Text(Encoder(codec), rs)
  }

  lemma JournalAppend(codec: Codec, rs: seq<Record>, r: Record)
    ensures Journal(codec, rs + [r]) == Journal(codec, rs) + Line(codec, r)
  {
    TextAppend(Encoder(codec), rs, r);
  }

  /** A file is at least as large as the outputs in it, if no line is shorter than its own output. */
  lemma {:induction false} OutputsFillTheFile(codec: Codec, rs: seq<Record>)
    requires forall r: Record :: OutputSize(r) <= |Line(codec, r)|
    ensures OutputBytes(rs) <= |Journal(codec, rs)|
  {
    if rs != [] {
      var init, last := rs[..|rs| - 1], rs[|rs| - 1];
      OutputsFillTheFile(codec, init);
      JournalAppend(codec, init, last);
      assert rs == init + [last];
    }
  }

  function ParseLine(codec: Codec, line: Bytes): Result<Record, LedgerError> {
    match codec.decode(line)
    case None => Err(Unparsable)
    case Some(e) =>
      if e.version != LEDGER_VERSION then Err(UnsupportedVersion)
      else if e.checksum != codec.checksum(e.record) then Err(ChecksumMismatch)
      else Ok(e.record)
  }

  /** Every non-blank line must parse; the first that does not is the error. */
  function ParseLines(codec: Codec, lines: seq<Bytes>, now: Time): Result<seq<Record>, LedgerError> {
    if lines == [] then Ok([])
    else if Blank(lines[0]) then ParseLines(codec, lines[1..], now)
    else
      match ParseLine(codec, lines[0])
      case Err(e) => Err(e)
      case Ok(r) =>
        match ParseLines(codec, lines[1..], now)
        case Err(e) => Err(e)
        case Ok(rest) => Ok((if Visible(r, now) then [r] else []) + rest)
  }

  /** Parsing the lines of records, and then a blank one, gives the visible records. */
  lemma {:induction false} ParsesRecords(codec: Codec, rs: seq<Record>, now: Time)
    requires Lawful(codec)
    ensures ParseLines(codec, Encoded(Encoder(codec), rs) + [[]], now) == Ok(Committed(rs, now))
  {
    var lines := Encoded(Encoder(codec), rs) + [[]];
    if rs == [] {
      assert lines == [[]] && lines[1..] == [];
    } else {
      var body := Body(codec, rs[0]);
      assert codec.decode(body) == Some(Envelope(LEDGER_VERSION, rs[0], codec.checksum(rs[0])));
      assert lines[0] == body && lines[1..] == Encoded(Encoder(codec), rs[1..]) + [[]];
      ParsesRecords(codec, rs[1..], now);
      CommittedInOrder([rs[0]], rs[1..], now);
      assert [rs[0]] + rs[1..] == rs;
      assert Committed([rs[0]], now) == if Visible(rs[0], now) then [rs[0]] else [] by { assert [rs[0]][..0] == []; }
      assert !Blank(body) && ParseLine(codec, body) == Ok(rs[0]);
    }
  }

  /** Reading a file of whole lines returns exactly the visible records. */
  lemma ReadsWhatWasWritten(codec: Codec, rs: seq<Record>, now: Time)
    requires Lawful(codec)
    ensures ParseLines(codec, SplitLines(Journal(codec, rs)), now) == Ok(Committed(rs, now))
  {
    SplitText(Encoder(codec), rs, []);
    assert Journal(codec, rs) + [] == Journal(codec, rs);
    ParsesRecords(codec, rs, now);
  }

  /**
   Torn-tail recovery: whatever fragment of one more line follows the committed
   lines, recovery leaves exactly those lines, reading returns exactly the
   committed records, a second recovery changes nothing, and the next append
   is read back as its own record.
   */
  lemma TornTailRecovery(codec: Codec, rs: seq<Record>, torn: Bytes, next: Record, now: Time)
    requires Lawful(codec) && NEWLINE !in torn
    ensures Recovered(Journal(codec, rs) + torn) == Journal(codec, rs)
    ensures Recovered(Recovered(Journal(codec, rs) + torn)) == Recovered(Journal(codec, rs) + torn)
    ensures ParseLines(codec, SplitLines(Recovered(Journal(codec, rs) + torn)), now) == Ok(Committed(rs, now))
    ensures ParseLines(codec, SplitLines(Recovered(Journal(codec, rs) + torn) + Line(codec, next)), now)
            == Ok(Committed(rs + [next], now))
  {
    RecoveryDropsTail(codec, rs, torn);
    RecoveryDropsTail(codec, rs, []);
    assert Journal(codec, rs) + [] == Journal(codec, rs);
    ReadsWhatWasWritten(codec, rs, now);
    JournalAppend(codec, rs, next);
    ReadsWhatWasWritten(codec, rs + [next], now);
  }

  lemma RecoveryDropsTail(codec: Codec, rs: seq<Record>, torn: Bytes)
    requires NEWLINE !in torn
    ensures CompleteLength(Journal(codec, rs) + torn) == |Journal(codec, rs)|
    ensures Recovered(Journal(codec, rs) + torn) == Journal(codec, rs)
  {
    TextEndsInNewline(Encoder(codec), rs);
    DropTail(Journal(codec, rs), torn);
  }

  /**
   A crash inside an append: any proper prefix of the new line may have reached
   the file, and it reads as if the append had not begun.
   */
  lemma InterruptedAppendReadsAsBefore(codec: Codec, rs: seq<Record>, r: Record, cut: nat, now: Time)
    requires Lawful(codec) && cut < |Line(codec, r)|
    ensures Recovered(Journal(codec, rs) + Line(codec, r)[..cut]) == Journal(codec, rs)
    ensures ParseLines(codec, SplitLines(Recovered(Journal(codec, rs) + Line(codec, r)[..cut])), now) ==
        Ok(Committed(rs, now))
  {
    assert Line(codec, r)[..cut] == Body(codec, r)[..cut];
    TornTailRecovery(codec, rs, Body(codec, r)[..cut], r, now);
  }

  // ---- What the ledger's methods compute from the bytes ------------------

  /** The records that a read at `now` returns, after torn-tail recovery. */
  function ReadBytes(codec: Codec, raw: Bytes, now: Time): Result<seq<Record>, LedgerError> {
    ParseLines(codec, SplitLines(Recovered(raw)), now)
  }

  /**
   Recovery truncates the file before it writes the whole lines back. Stopped
   after `k` bytes of them it leaves a ledger of the first records only, and
   all of them exactly when it had written everything.
   */
  lemma InterruptedRecovery(codec: Codec, rs: seq<Record>, torn: Bytes, k: nat, now: Time) returns (kept: nat)
    requires Lawful(codec) && NEWLINE !in torn && k <= |Recovered(Journal(codec, rs) + torn)|
    ensures kept <= |rs| && (kept == |rs| <==> k == |Recovered(Journal(codec, rs) + torn)|)
    ensures ReadBytes(codec, Recovered(Journal(codec, rs) + torn)[..k], now) == Ok(Committed(rs[..kept], now))
  {
    RecoveryDropsTail(codec, rs, torn);
    var rest;
    kept, rest := BeginningOfText(Encoder(codec), rs, k);
    RecoveryDropsTail(codec, rs[..kept], rest);
    ReadsWhatWasWritten(codec, rs[..kept], now);
  }

  function LatestInBytes(codec: Codec, file: Option<Bytes>, job: JobId, now: Time)
    : Result<Option<Record>, LedgerError>
  {
    match file
    case None => Ok(None)
    case Some(raw) =>
      match ReadBytes(codec, raw, now)
      case Err(e) => Err(e)
      case Ok(rs) => Ok(LatestVisible(rs, job, now))
  }

  function LookupBytes(codec: Codec, file: Option<Bytes>, job: JobId, now: Time): Result<Option<Answer>, LedgerError> {
    match LatestInBytes(codec, file, job, now)
    case Err(e) => Err(e)
    case Ok(None) => Ok(None)
    case Ok(Some(r)) => AnswerOf(r, now)
  }

  function RecoveredFile(file: Option<Bytes>): Option<Bytes> {
    match file
    case None => None
    case Some(raw) => Some(Recovered(raw))
  }

  function FileBytes(file: Option<Bytes>): Bytes {
    match file
    case None => []
    case Some(raw) => raw
  }

  /** The file stands for these records, with or without a torn line behind them. */
  ghost predicate Stores(codec: Codec, file: Option<Bytes>, rs: seq<Record>) {
    match file
    case None => rs == []
    case Some(raw) => exists torn :: NEWLINE !in torn && raw == Journal(codec, rs) + torn
  }

  /** The file holds these records and nothing else. */
  predicate StoresWhole(codec: Codec, file: Option<Bytes>, rs: seq<Record>) {
    FileBytes(file) == Journal(codec, rs)
  }

  lemma WholeIsStored(codec: Codec, file: Option<Bytes>, rs: seq<Record>)
    requires StoresWhole(codec, file, rs)
    ensures Stores(codec, file, rs)
  {
    if file.None? {
      TextEndsInNewline(Encoder(codec), rs);
    } else {
      assert file.value == Journal(codec, rs) + [];
    }
  }

  /** Reading bytes is reading records. */
  lemma StoredLookup(codec: Codec, file: Option<Bytes>, rs: seq<Record>, job: JobId, now: Time)
    requires Lawful(codec) && Stores(codec, file, rs)
    ensures file.Some? ==> ReadBytes(codec, file.value, now) == Ok(Committed(rs, now))
    ensures LatestInBytes(codec, file, job, now) == Ok(LatestVisible(rs, job, now))
    ensures LookupBytes(codec, file, job, now) == Lookup(rs, job, now)
    ensures StoresWhole(codec, RecoveredFile(file), rs)
  {
    if file.Some? {
      var torn :| NEWLINE !in torn && file.value == Journal(codec, rs) + torn;
      RecoveryDropsTail(codec, rs, torn);
      ReadsWhatWasWritten(codec, rs, now);
      LatestOfCommitted(rs, job, now, now);
    }
  }

  /** A repair has something to do and fails on the way. */
  predicate RepairFails(file: Option<Bytes>, stops: Option<nat>) {
    file.Some? && stops.Some? && Recovered(file.value) != file.value
  }

  /** What a repair leaves that fails after writing back `count` bytes. */
  function PartlyRepaired(file: Option<Bytes>, count: nat): Option<Bytes>
    requires file.Some?
  {
    var whole := Recovered(file.value);
    Some(whole[..Min(count, |whole|)])
  }

  /** It stands for the first records. */
  lemma RepairRefines(codec: Codec, file: Option<Bytes>, rs: seq<Record>, count: nat) returns (keep: nat)
    requires Lawful(codec) && Stores(codec, file, rs) && file.Some?
    ensures keep <= |rs| && Stores(codec, PartlyRepaired(file, count), rs[..keep])
  {
    var torn :| NEWLINE !in torn && file.value == Journal(codec, rs) + torn;
    RecoveryDropsTail(codec, rs, torn);
    var rest;
    keep, rest := BeginningOfText(Encoder(codec), rs, Min(count, |Journal(codec, rs)|));
  }

  /** What of a line reaches the file: all of it, or what a failing write gets to. */
  function Reaching(line: Bytes, fails: Option<nat>): Bytes {
    match fails
    case None => line
    case Some(count) => line[..Min(count, |line|)]
  }

  /** The new line is in the file, though a failure may have followed. */
  predicate IsWritten(line: Bytes, fails: Option<nat>) {
    fails.None? || fails.value >= |line|
  }

  /**
   What an append of `r` may leave of the file: `at` is the reading a compaction
   takes, and a failing write leaves the compacted file and a part of the line.
   */
  ghost predicate Appended(codec: Codec, file: Option<Bytes>, r: Record, at: Time, fails: Option<nat>,
                           file': Option<Bytes>, ok: Result<(), LedgerError>,
                           compaction: Option<(set<JobId>, seq<Record>)>)
  {
    var outcome := if fails.None? then Ok(()) else Err(NotWritten);
    if |FileBytes(file)| <= MAX_LEDGER_BYTES then
      ok == outcome && compaction.None? && file' == Some(FileBytes(file) + Reaching(Line(codec, r), fails))
    else
      match ReadBytes(codec, FileBytes(file), at)
      case Err(e) => ok == Err(e) && compaction.None? && file' == RecoveredFile(file)
      case Ok(rs) =>
        && ok == outcome && compaction.Some?
        && IsCompaction(rs, at, compaction.value.0, compaction.value.1)
        && file' == Some(Journal(codec, compaction.value.1) + Reaching(Line(codec, r), fails))
  }

  lemma CommittedHasSameLatest(before: seq<Record>, now: Time)
    ensures LatestByJob(Committed(before, now), now) == LatestByJob(before, now)
  {
    var rs := Committed(before, now);
    forall j: JobId ensures LatestVisible(rs, j, now) == LatestVisible(before, j, now) {
      LatestOfCommitted(before, j, now, now);
    }
    forall j ensures j in LatestByJob(rs, now) <==> j in LatestByJob(before, now) {
      if LatestVisible(before, j, now).Some? {
        var r := LatestVisible(before, j, now).value;
        assert r in before && r in rs && r.job == j;
      }
    }
  }

  /** The records an append adds to: the old ones, or what a compaction leaves of them. */
  function AppendBase(rs: seq<Record>, compaction: Option<(set<JobId>, seq<Record>)>): seq<Record> {
    if compaction.Some? then compaction.value.1 else rs
  }

  /**
   On a whole file an append adds the record, to the old list or to a compaction
   of it. A failing one leaves that list, with a torn line or with the record.
   */
  lemma AppendRefines(codec: Codec, file: Option<Bytes>, rs: seq<Record>, r: Record, at: Time, fails: Option<nat>,
                      file': Option<Bytes>, ok: Result<(), LedgerError>, compaction: Option<(set<JobId>, seq<Record>)>)
    requires Lawful(codec) && StoresWhole(codec, file, rs)
    requires Appended(codec, file, r, at, fails, file', ok, compaction)
    ensures ok == if fails.None? then Ok(()) else Err(NotWritten)
    ensures compaction.Some? ==> IsCompaction(rs, at, compaction.value.0, compaction.value.1)
    ensures if IsWritten(Line(codec, r), fails) then StoresWhole(codec, file', AppendBase(rs, compaction) + [r])
            else Stores(codec, file', AppendBase(rs, compaction))
  {
    AppendedBytes(codec, file, rs, r, at, fails, file', ok, compaction);
    LineStores(codec, AppendBase(rs, compaction), r, fails, file');
  }

  /** What an append leaves of a whole file: the lines it appends to, and what reaches the file of the new one. */
  lemma AppendedBytes(codec: Codec, file: Option<Bytes>, rs: seq<Record>, r: Record, at: Time, fails: Option<nat>,
                      file': Option<Bytes>, ok: Result<(), LedgerError>, compaction: Option<(set<JobId>, seq<Record>)>)
    requires Lawful(codec) && StoresWhole(codec, file, rs)
    requires Appended(codec, file, r, at, fails, file', ok, compaction)
    ensures ok == if fails.None? then Ok(()) else Err(NotWritten)
    ensures compaction.Some? ==> IsCompaction(rs, at, compaction.value.0, compaction.value.1)
    ensures file' == Some(Journal(codec, AppendBase(rs, compaction)) + Reaching(Line(codec, r), fails))
  {
    if |FileBytes(file)| > MAX_LEDGER_BYTES {
      WholeIsStored(codec, file, rs);
      StoredLookup(codec, file, rs, 0, at);
      CommittedHasSameLatest(rs, at);
    }
  }

  /** The new record is stored when its line was written, and else a torn line is left. */
  lemma LineStores(codec: Codec, base: seq<Record>, r: Record, fails: Option<nat>, file: Option<Bytes>)
    requires Lawful(codec) && file == Some(Journal(codec, base) + Reaching(Line(codec, r), fails))
    ensures if IsWritten(Line(codec, r), fails) then StoresWhole(codec, file, base + [r])
            else Stores(codec, file, base)
  {
    var line := Line(codec, r);
    if IsWritten(line, fails) {
      assert Reaching(line, fails) == line;
      JournalAppend(codec, base, r);
    } else {
      assert Reaching(line, fails) == Body(codec, r)[..fails.value];
    }
  }
}
