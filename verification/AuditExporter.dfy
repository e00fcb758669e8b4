/**
 The exporter over whole runs: rows are appended to the table while one
 exporter writes verified windows of it, and the files always hold a verified
 prefix of the table without gaps.
 Source: crates/centrald-server/src/audit_export.rs
 */
module AuditExporter {
  import opened Wrappers
  import opened AuditChain
  import opened AuditExport
  import opened JsonLines
  import AuditFileNames
  import Hex

  /**
   The table, the export files in the order they were written, the rows in
   each, and the unrelated entries of the directory.
   */
  datatype State = State(table: seq<Row>, files: seq<Entry>, counts: seq<nat>, others: seq<Entry>)

  function Sum(counts: seq<nat>): nat {
    if counts == [] then 0 else Sum(counts[..|counts| - 1]) + counts[|counts| - 1]
  }

  /** How many rows the files hold. */
  function Exported(st: State): nat {
    Sum(st.counts)
  }

  predicate Inv(h: Hashing, f: Format, st: State) {
    && IsTable(st.table)
    && Covers(f, st.files, st.counts, st.table, Exported(st))
    && Exported(st) <= |st.table|
    && Chained(h, st.table[..Exported(st)], None)
    && forall e | e in st.others :: f.layout.naming(e.name).Unrelated?
  }

  function Clamp(maxEntries: nat): nat {
    Min(Max(maxEntries, 1), MAX_BATCH_ENTRIES)
  }

  /** How far the next export would reach. */
  function Reach(st: State, maxEntries: nat): (m: nat)
    requires Exported(st) <= |st.table|
    ensures Exported(st) <= m <= |st.table| && (m == Exported(st) <==> Exported(st) == |st.table|)
  {
    Min(Exported(st) + Clamp(maxEntries), |st.table|)
  }

  /** The rows the next export is about. */
  function Window(st: State, maxEntries: nat): seq<Row>
    requires Exported(st) <= |st.table|
  {
    st.table[Exported(st)..Reach(st, maxEntries)]
  }

  /** The hash of the last exported row. */
  function Tail(st: State): Option<Bytes>
    requires Exported(st) <= |st.table|
  {
    if Exported(st) == 0 then None else Some(st.table[Exported(st) - 1].entryHash)
  }

  predicate Accepts(h: Hashing, st: State, maxEntries: nat)
    requires Exported(st) <= |st.table|
  {
    |st.files| + |st.others| <= MAX_EXPORT_DIRECTORY_ENTRIES && Chained(h, Window(st, maxEntries), Tail(st))
  }

  /** A new file for the rows, if there are any. */
  function WithWindow(f: Format, st: State, window: seq<Row>): State {
    if window == [] then st
    else st.(files := st.files + [FileOf(f, window)], counts := st.counts + [|window|])
  }

  /** One export: a new file for a window that verifies, and nothing otherwise. */
  function ExportOnce(h: Hashing, f: Format, st: State, maxEntries: nat): State
    requires Exported(st) <= |st.table|
  {
    if Accepts(h, st, maxEntries) then WithWindow(f, st, Window(st, maxEntries)) else st
  }

  // ---- What an export does -----------------------------------------------

  /** Verifying the next window is verifying the table from its start through that window. */
  lemma WindowedIsOneShot(h: Hashing, f: Format, st: State, maxEntries: nat)
    requires Inv(h, f, st)
    ensures Chained(h, Window(st, maxEntries), Tail(st)) <==> Chained(h, st.table[..Reach(st, maxEntries)], None)
  {
    NextStretch(h, st.table, Exported(st), Reach(st, maxEntries));
  }

  lemma NextStretch(h: Hashing, table: seq<Row>, n: nat, m: nat)
    requires n <= m <= |table| && Chained(h, table[..n], None)
    ensures Chained(h, table[n..m], if n == 0 then None else Some(table[n - 1].entryHash)) <==>
        Chained(h, table[..m], None)
  {
    if n == 0 {
      assert table[n..m] == table[..m];
    } else {
      WindowsCompose(h, table[..n], table[n..m], None);
      assert table[..m] == table[..n] + table[n..m];
    }
  }

  lemma ExportKeepsInvariant(h: Hashing, f: Format, st: State, maxEntries: nat)
    requires Inv(h, f, st)
    ensures Inv(h, f, ExportOnce(h, f, st, maxEntries))
    ensures Exported(ExportOnce(h, f, st, maxEntries)) ==
      if Accepts(h, st, maxEntries) then Reach(st, maxEntries) else Exported(st)
  {
    WindowedIsOneShot(h, f, st, maxEntries);
    if Window(st, maxEntries) != [] && Accepts(h, st, maxEntries) {
      ExtendedKeepsInvariant(h, f, st, ExportOnce(h, f, st, maxEntries), Reach(st, maxEntries));
    }
  }

  /** A file for the next rows of a table that verifies so far. */
  lemma ExtendedKeepsInvariant(h: Hashing, f: Format, st: State, st': State, m: nat)
    requires Inv(h, f, st) && Exported(st) < m <= |st.table| && Chained(h, st.table[..m], None)
    requires st' == WithWindow(f, st, st.table[Exported(st)..m])
    ensures Inv(h, f, st') && Exported(st') == m
  {
    var n := Exported(st);
    CoversOneMore(f, st.files, FileOf(f, st.table[n..m]), st.counts, m - n, st.table, m);
    SumOfOneMore(st.counts, m - n);
  }

  lemma CoversOneMore(f: Format, files: seq<Entry>, file: Entry, counts: seq<nat>, count: nat, table: seq<Row>, m: nat)
    requires 0 < count <= m <= |table| && file == FileOf(f, table[m - count..m])
    requires Covers(f, files, counts, table, m - count)
    ensures Covers(f, files + [file], counts + [count], table, m)
  {
    var files', counts' := files + [file], counts + [count];
    AppendedInit(files, file);
    AppendedInit(counts, count);
    CoversBoth(f, files, counts, table, m - count);
    assert |files'| == |counts'| && files'[..|files'| - 1] == files && counts'[..|counts'| - 1] == counts;
  }

  lemma CoversBoth(f: Format, files: seq<Entry>, counts: seq<nat>, table: seq<Row>, n: nat)
    requires Covers(f, files, counts, table, n)
    ensures |files| == |counts|
  {
  }

  lemma SumOfOneMore(counts: seq<nat>, count: nat)
    ensures Sum(counts + [count]) == Sum(counts) + count
  {
    AppendedInit(counts, count);
  }

  // ---- Whole runs --------------------------------------------------------

  /** A file that could not be written leaves at most an entry under a temporary name. */
  datatype Step = Append(row: Row) | Export(maxEntries: nat) | LeaveTemporary(entry: Entry)

  predicate Enabled(f: Format, st: State, step: Step) {
    match step
    case LeaveTemporary(entry) => f.layout.naming(entry.name).Unrelated?
    case Append(row) => IsTable(st.table + [row])
    case Export(_) => true
  }

  function Apply(h: Hashing, f: Format, st: State, step: Step): State
    requires Exported(st) <= |st.table|
  {
    match step
    case Append(row) => st.(table := st.table + [row])
    case Export(maxEntries) => ExportOnce(h, f, st, maxEntries)
    case LeaveTemporary(entry) => st.(others := st.others + [entry])
  }

  lemma StepKeepsInvariant(h: Hashing, f: Format, st: State, step: Step)
    requires Inv(h, f, st) && Enabled(f, st, step)
    ensures Inv(h, f, Apply(h, f, st, step))
  {
    match step {
      case Append(row) =>
        AppendKeepsCoverage(f, st.files, st.counts, st.table, Exported(st), row);
        assert (st.table + [row])[..Exported(st)] == st.table[..Exported(st)];
      case Export(maxEntries) =>
        ExportKeepsInvariant(h, f, st, maxEntries);
      case LeaveTemporary(_) =>
    }
  }

  /** `w` is reached from `st` by these appends and exports. */
  predicate Run(h: Hashing, f: Format, st: State, steps: seq<Step>, w: State)
    decreases |steps|
  {
    if steps == [] then st == w
    else
      && Exported(st) <= |st.table|
      && Enabled(f, st, steps[0])
      && Run(h, f, Apply(h, f, st, steps[0]), steps[1..], w)
  }

  lemma {:induction false} RunKeepsInvariant(h: Hashing, f: Format, st: State, steps: seq<Step>, w: State)
    requires Inv(h, f, st) && Run(h, f, st, steps, w)
    ensures Inv(h, f, w)
    decreases |steps|
  {
    if steps != [] {
      StepKeepsInvariant(h, f, st, steps[0]);
      RunKeepsInvariant(h, f, Apply(h, f, st, steps[0]), steps[1..], w);
    }
  }

  /** An empty export directory beside any table. */
  predicate Initial(f: Format, st: State) {
    && IsTable(st.table) && st.files == [] && st.counts == []
    && forall e | e in st.others :: f.layout.naming(e.name).Unrelated?
  }

  /** The files hold the first rows of the table, without gaps, and those rows verify from the start. */
  predicate HoldsVerifiedPrefix(h: Hashing, f: Format, st: State) {
    && Exported(st) <= |st.table|
    && Contents(st.files) == f.text(LinesOf(st.table[..Exported(st)]))
    && Chained(h, st.table[..Exported(st)], None)
  }

  /**
   After any interleaving of appends and exports, the files in the order of
   their end sequences concatenate to a gap-free prefix of the table, and that
   prefix verifies in one go from the start.
   */
  lemma FilesHoldVerifiedPrefix(h: Hashing, f: Format, st: State, steps: seq<Step>, w: State)
    requires LawfulFormat(f) && Initial(f, st) && Run(h, f, st, steps, w)
    ensures HoldsVerifiedPrefix(h, f, w)
    ensures forall k | 0 <= k < |w.files| :: IsExport(f, w.files[k])
    ensures forall j, k | 0 <= j < k < |w.files| :: IsExport(f, w.files[j]) && IsExport(f, w.files[k]) ==>
        EndOf(f, w.files[j]) < EndOf(f, w.files[k])
  {
    RunKeepsInvariant(h, f, st, steps, w);
    CoveredContents(f, w.files, w.counts, w.table, Exported(w));
    forall k | 0 <= k < |w.files| ensures IsExport(f, w.files[k]) {
      FilesEndInOrder(f, w.files, w.counts, w.table, Exported(w), k);
    }
    forall j, k | 0 <= j < k < |w.files| && IsExport(f, w.files[j]) && IsExport(f, w.files[k])
      ensures EndOf(f, w.files[j]) < EndOf(f, w.files[k])
    {
      EndsIncrease(f, w.files, w.counts, w.table, Exported(w), j, k);
    }
  }

  lemma {:induction false} EndsIncrease(f: Format, files: seq<Entry>, counts: seq<nat>, table: seq<Row>, n: nat,
      j: nat, k: nat)
    requires AuditFileNames.Lawful(f.layout) && IsTable(table) && Covers(f, files, counts, table, n) && j < k < |files|
    ensures IsExport(f, files[j]) && IsExport(f, files[k]) && EndOf(f, files[j]) < EndOf(f, files[k])
    decreases |files|
  {
    FilesEndInOrder(f, files, counts, table, n, j);
    FilesEndInOrder(f, files, counts, table, n, k);
    if k < |files| - 1 {
      EndsIncrease(f, files[..|files| - 1], counts[..|counts| - 1], table, n - counts[|counts| - 1], j, k);
    }
  }

  /**
   An export makes all the progress it is asked for if and only if the table
   verifies that far and the directory has room.
   */
  lemma ExportAdvancesIff(h: Hashing, f: Format, st: State, maxEntries: nat)
    requires Inv(h, f, st)
    ensures Exported(ExportOnce(h, f, st, maxEntries)) ==
      if |st.files| + |st.others| <= MAX_EXPORT_DIRECTORY_ENTRIES && Chained(h, st.table[..Reach(st, maxEntries)], None)
      then Reach(st, maxEntries) else Exported(st)
  {
    ExportKeepsInvariant(h, f, st, maxEntries);
    WindowedIsOneShot(h, f, st, maxEntries);
  }

  lemma NewestTail(f: Format, files: seq<Entry>, counts: seq<nat>, table: seq<Row>, n: nat)
    requires ReadsTails(f) && Covers(f, files, counts, table, n) && files != []
    ensures 0 < n <= |table| && f.tailOf(files[|files| - 1].raw) == Ok(Hex.Encode(TailHash(table[..n])))
  {
    FilesCarryTails(f, files, counts, table, n, |files| - 1);
    assert table[..n][n - 1] == table[n - 1];
  }

  /** The rows a directory holds, their bytes and the tail its newest file carries. */
  lemma ExportedRows(h: Hashing, f: Format, st: State) returns (rows: seq<Row>)
    requires LawfulFormat(f) && Inv(h, f, st) && st.files != []
    ensures rows == st.table[..Exported(st)] && rows != [] && Chained(h, rows, None)
    ensures Contents(st.files) == f.text(LinesOf(rows))
    ensures f.tailOf(st.files[|st.files| - 1].raw) == Ok(Hex.Encode(TailHash(rows)))
  {
    rows := st.table[..Exported(st)];
    NewestTail(f, st.files, st.counts, st.table, Exported(st));
    CoveredContents(f, st.files, st.counts, st.table, Exported(st));
  }

  /** Two export directories whose newest files end with the same hash hold the same bytes, or the digest collides. */
  lemma ExportedTailFixesContents(h: Hashing, f: Format, a: State, b: State)
    requires AuditChain.Lawful(h) && LawfulFormat(f) && Inv(h, f, a) && Inv(h, f, b)
    requires a.files != [] && b.files != []
    requires f.tailOf(a.files[|a.files| - 1].raw) == f.tailOf(b.files[|b.files| - 1].raw)
    ensures Contents(a.files) == Contents(b.files) || Collides(h, a.table[..Exported(a)], b.table[..Exported(b)])
  {
    var rowsA := ExportedRows(h, f, a);
    var rowsB := ExportedRows(h, f, b);
    TailFixesLines(h, rowsA, rowsB);
  }

  lemma TailFixesLines(h: Hashing, a: seq<Row>, b: seq<Row>)
    requires AuditChain.Lawful(h) && a != [] && b != []
    requires Chained(h, a, None) && Chained(h, b, None)
    requires Hex.Encode(TailHash(a)) == Hex.Encode(TailHash(b))
    ensures LinesOf(a) == LinesOf(b) || Collides(h, a, b)
  {
    Hex.EncodeIsInjective(TailHash(a), TailHash(b));
    TailHashFixesHistory(h, a, b);
    if SameRecords(a, b) { SameRecordsSameLines(h, a, b); }
  }

  lemma SameRecordsSameLines(h: Hashing, a: seq<Row>, b: seq<Row>)
    requires Chained(h, a, None) && Chained(h, b, None) && SameRecords(a, b)
    ensures LinesOf(a) == LinesOf(b)
  {
    forall i | 0 <= i < |a| ensures LineOf(a[i]) == LineOf(b[i]) {
      assert RowHolds(h, a, None, i) && RowHolds(h, b, None, i);
    }
  }

  // ---- The exporter ------------------------------------------------------

  /** Export files are created exclusively; the name of a new one is never taken. */
  lemma NewNameIsFree(h: Hashing, f: Format, st: State, maxEntries: nat, e: Entry)
    requires AuditFileNames.Lawful(f.layout) && Inv(h, f, st) && Window(st, maxEntries) != []
    requires e in st.files + st.others
    ensures e.name != FileOf(f, Window(st, maxEntries)).name
  {
    var n, window := Exported(st), Window(st, maxEntries);
    assert window[0] == st.table[n] && window[|window| - 1] == st.table[n + |window| - 1];
    var from, to := window[0].sequence, window[|window| - 1].sequence;
    assert f.layout.naming(f.layout.fileName(from, to)) == AuditFileNames.Export(from, to);
    if e in st.files {
      var k :| 0 <= k < |st.files| && st.files[k] == e;
      FilesEndInOrder(f, st.files, st.counts, st.table, n, k);
      assert st.table[n - 1].sequence < to;
    }
  }

  /** The newest file of a listed directory is the one written last and ends where the exported rows end. */
  lemma NewestIsLast(h: Hashing, f: Format, st: State, e: Entry)
    requires AuditFileNames.Lawful(f.layout) && Inv(h, f, st)
    requires e in st.files + st.others && IsNewest(f, st.files + st.others, e)
    ensures st.files != [] && e == st.files[|st.files| - 1]
    ensures Exported(st) > 0 && EndOf(f, e) == st.table[Exported(st) - 1].sequence
  {
    var all := st.files + st.others;
    var i :| 0 <= i < |all| && all[i] == e;
    assert i < |st.files|;
    var last := |st.files| - 1;
    FilesEndInOrder(f, st.files, st.counts, st.table, Exported(st), i);
    FilesEndInOrder(f, st.files, st.counts, st.table, Exported(st), last);
    assert all[last] == st.files[last];
  }

  /** It carries the tail of the exported rows. */
  lemma NewestEndsExport(h: Hashing, f: Format, st: State, e: Entry)
    requires LawfulFormat(f) && Inv(h, f, st)
    requires e in st.files + st.others && IsNewest(f, st.files + st.others, e)
    ensures Exported(st) > 0 && EndOf(f, e) == st.table[Exported(st) - 1].sequence
    ensures f.tailOf(e.raw) == Ok(Hex.Encode(st.table[Exported(st) - 1].entryHash))
  {
    NewestIsLast(h, f, st, e);
    FilesCarryTails(f, st.files, st.counts, st.table, Exported(st), |st.files| - 1);
  }

  lemma NothingExported(h: Hashing, f: Format, st: State)
    requires AuditFileNames.Lawful(f.layout) && Inv(h, f, st)
    requires forall e | e in st.files + st.others :: !IsExport(f, e)
    ensures st.files == [] && Exported(st) == 0
  {
    if st.files != [] {
      FilesEndInOrder(f, st.files, st.counts, st.table, Exported(st), 0);
    }
  }

  lemma NoFileIsMalformed(h: Hashing, f: Format, st: State, e: Entry)
    requires LawfulFormat(f) && Inv(h, f, st) && e in st.files + st.others
    ensures !IsMisnamed(f, e) && (IsExport(f, e) ==> f.tailOf(e.raw).Ok?)
  {
    if e in st.files {
      var k :| 0 <= k < |st.files| && st.files[k] == e;
      FilesEndInOrder(f, st.files, st.counts, st.table, Exported(st), k);
      FilesCarryTails(f, st.files, st.counts, st.table, Exported(st), k);
    }
  }

  /** Any order in which the directory may be listed. */
  ghost predicate IsListing(st: State, listing: seq<Entry>) {
    |listing| == |st.files| + |st.others| && forall e :: e in listing <==> e in st.files + st.others
  }

  lemma NewestInAnyOrder(f: Format, a: seq<Entry>, b: seq<Entry>, e: Entry)
    requires IsNewest(f, a, e) && forall x :: x in a <==> x in b
    ensures IsNewest(f, b, e)
  {
    forall k | 0 <= k < |b| && IsExport(f, b[k]) ensures EndOf(f, b[k]) <= EndOf(f, e) {
      assert b[k] in a;
    }
  }

  lemma NothingInListing(h: Hashing, f: Format, st: State, listing: seq<Entry>)
    requires AuditFileNames.Lawful(f.layout) && Inv(h, f, st) && IsListing(st, listing)
    requires forall e | e in listing :: !IsExport(f, e)
    ensures Exported(st) == 0
  {
    NothingExported(h, f, st);
  }

  lemma ListingIsSound(h: Hashing, f: Format, st: State, listing: seq<Entry>)
    requires LawfulFormat(f) && Inv(h, f, st) && IsListing(st, listing)
    ensures forall e | e in listing :: !IsMisnamed(f, e) && (IsExport(f, e) ==> f.tailOf(e.raw).Ok?)
  {
    forall e | e in listing ensures !IsMisnamed(f, e) && (IsExport(f, e) ==> f.tailOf(e.raw).Ok?) {
      NoFileIsMalformed(h, f, st, e);
    }
  }

  /** The newest file says where to continue and after which hash. */
  lemma ContinuesAfter(h: Hashing, f: Format, st: State, listing: seq<Entry>, e: Entry, hash: string)
    requires LawfulFormat(f) && Inv(h, f, st) && IsListing(st, listing)
    requires e in listing && IsNewest(f, listing, e) && f.tailOf(e.raw) == Ok(hash)
    ensures LinkBefore(Some(hash)) == Some(Tail(st))
    ensures Exported(st) > 0 && EndOf(f, e) == st.table[Exported(st) - 1].sequence
  {
    NewestInAnyOrder(f, listing, st.files + st.others, e);
    NewestEndsExport(h, f, st, e);
    Hex.DecodeUndoesEncode(st.table[Exported(st) - 1].entryHash);
  }

  // ---- What an export reports --------------------------------------------

  datatype Summary = Summary(exportedFrom: int, exportedTo: int, count: nat, tail: string)

  /** The sequence and the hash of the last of the first `n` rows. */
  function EndAt(table: seq<Row>, n: nat): int
    requires n <= |table|
  {
    if n == 0 then 0 else table[n - 1].sequence
  }

  function TailAt(table: seq<Row>, n: nat): string
    requires n <= |table|
  {
    if n == 0 then "" else Hex.Encode(table[n - 1].entryHash)
  }

  function SummaryOf(from: int, previousTail: Option<string>, rows: seq<Row>): Summary {
    if rows == [] then Summary(from, from, 0, previousTail.GetOr(""))
    else Summary(from, rows[|rows| - 1].sequence, |rows|, Hex.Encode(rows[|rows| - 1].entryHash))
  }

  lemma TailIsItsText(table: seq<Row>, n: nat, previousTail: Option<string>)
    requires n <= |table|
    requires LinkBefore(previousTail) == Some(if n == 0 then None else Some(table[n - 1].entryHash))
    ensures previousTail.GetOr("") == TailAt(table, n)
  {
  }

  /** The report on a window spans it. */
  lemma SummarySpans(table: seq<Row>, n: nat, m: nat, previousTail: Option<string>)
    requires n <= m <= |table| && previousTail.GetOr("") == TailAt(table, n)
    ensures SummaryOf(EndAt(table, n), previousTail, table[n..m]) ==
      Summary(EndAt(table, n), EndAt(table, m), m - n, TailAt(table, m))
  {
    if n < m { LastOfSlice(table, n, m); }
  }

  lemma LastOfSlice(table: seq<Row>, n: nat, m: nat)
    requires n < m <= |table|
    ensures |table[n..m]| == m - n && table[n..m][m - n - 1] == table[m - 1]
  {
  }

  lemma ExportIsReported(h: Hashing, f: Format, st: State, st': State, maxEntries: nat, previousTail: Option<string>)
    requires Inv(h, f, st) && Accepts(h, st, maxEntries) && LinkBefore(previousTail) == Some(Tail(st))
    requires st' == ExportOnce(h, f, st, maxEntries)
    ensures var n, m := Exported(st), Exported(st');
      && n <= m <= |st.table|
      && SummaryOf(EndAt(st.table, n), previousTail, Window(st, maxEntries)) ==
         Summary(EndAt(st.table, n), EndAt(st.table, m), m - n, TailAt(st.table, m))
  {
    ExportKeepsInvariant(h, f, st, maxEntries);
    TailIsItsText(st.table, Exported(st), previousTail);
    SummarySpans(st.table, Exported(st), Reach(st, maxEntries), previousTail);
  }

  class Exporter {
    const h: Hashing
    const encode: Line -> Bytes
    const f: Format
    var table: seq<Row>
    var files: seq<Entry>
    var others: seq<Entry>
    ghost var counts: seq<nat>

    constructor (h: Hashing, layout: AuditFileNames.Layout, encode: Line -> Bytes, hashIn: HashReader, st: State)
      ensures this.h == h && this.encode == encode
      ensures f == CurrentFormat(layout, encode, hashIn) && Current() == st
    {
      this.h, this.encode, f := h, encode, CurrentFormat(layout, encode, hashIn);
      table, files, others := st.table, st.files, st.others;
      counts := st.counts;
    }

    ghost function Current(): State
      reads this
    {
      State(table, files, counts, others)
    }

    /** Where the export continues: exactly at the end of what is exported. */
    method FindTail(listing: seq<Entry>) returns (r: Result<(int, Option<string>), ExportError>)
      requires LawfulFormat(f)
      requires Inv(h, f, Current()) && IsListing(Current(), listing)
      ensures r.Ok? <==> |listing| <= MAX_EXPORT_DIRECTORY_ENTRIES
      ensures r.Ok? ==>
        LinkBefore(r.value.1) == Some(Tail(Current())) && r.value.0 == EndAt(table, Exported(Current()))
    {
      r := ExistingExportTail(f, listing);
      ListingIsSound(h, f, Current(), listing);
      if r.Ok? && r.value.1.None? {
        NothingInListing(h, f, Current(), listing);
      } else if r.Ok? {
        ghost var e :| e in listing && IsNewest(f, listing, e) && EndOf(f, e) == r.value.0
                       && f.tailOf(e.raw) == Ok(r.value.1.value);
        ContinuesAfter(h, f, Current(), listing, e, r.value.1.value);
      }
    }

    /** Export the next window: the directory becomes exactly what `ExportOnce` says, and what was added is reported. */
    method ExportAuditChain(listing: seq<Entry>, maxEntries: nat) returns (r: Result<Summary, ExportError>)
      requires f.text == TextWriter(encode) && LawfulFormat(f)
      requires Inv(h, f, Current()) && IsListing(Current(), listing)
      modifies this
      ensures Current() == ExportOnce(h, f, old(Current()), maxEntries) && Inv(h, f, Current())
      ensures r.Ok? <==> Accepts(h, old(Current()), maxEntries)
      ensures r.Ok? ==> var n, m := Exported(old(Current())), Exported(Current());
        n <= m <= |table| && r.value == Summary(EndAt(table, n), EndAt(table, m), m - n, TailAt(table, m))
    {
      ghost var was := Current();
      ExportKeepsInvariant(h, f, was, maxEntries);
      var tail := FindTail(listing);
      if tail.Err? { return Err(tail.error); }
      var (from, previousTail) := tail.value;
      r := VerifyAndWrite(from, previousTail, maxEntries);
      if r.Ok? { ExportIsReported(h, f, was, Current(), maxEntries, previousTail); }
    }

    /** Fetch, verify and write one window. */
    method VerifyAndWrite(from: int, previousTail: Option<string>, maxEntries: nat)
        returns (r: Result<Summary, ExportError>)
      requires f.text == TextWriter(encode) && IsTable(table) && Exported(Current()) <= |table|
      requires LinkBefore(previousTail) == Some(Tail(Current()))
      requires from == EndAt(table, Exported(Current()))
      modifies this`files, this`counts
      ensures var was := old(Current());
        if Chained(h, Window(was, maxEntries), Tail(was))
        then r == Ok(SummaryOf(from, previousTail, Window(was, maxEntries)))
             && Current() == WithWindow(f, was, Window(was, maxEntries))
        else r.Err? && Current() == was
    {
      var rows := FetchWindow(table, from, Clamp(maxEntries));
      FetchedIsWindow(Current(), from, maxEntries);
      if |rows| == 0 { return Ok(SummaryOf(from, previousTail, rows)); }
      var verified := VerifyChain(h, rows, from, previousTail);
      if verified.Err? { return Err(Unverified(verified.error)); }
      var raw := WriteLines(encode, rows);
      var name := f.layout.fileName(rows[0].sequence, rows[|rows| - 1].sequence);
      files, counts := files + [Entry(name, raw)], counts + [|rows|];
      return Ok(SummaryOf(from, previousTail, rows));
    }
  }

  lemma FetchedIsWindow(st: State, from: int, maxEntries: nat)
    requires IsTable(st.table) && Exported(st) <= |st.table|
    requires from == EndAt(st.table, Exported(st))
    ensures FetchWindow(st.table, from, Clamp(maxEntries)) == Window(st, maxEntries)
    ensures Window(st, maxEntries) != [] ==> Window(st, maxEntries)[0].sequence > from
  {
    WindowAfter(st.table, Exported(st), from, Clamp(maxEntries));
  }
}
