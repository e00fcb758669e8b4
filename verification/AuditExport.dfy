/**
 Append-only export of the audit table in verified windows: the tail of
 the newest file, and the exporter, one export at a time.
 Source: crates/centrald-server/src/audit_export.rs
 */
module AuditExport {
  import opened Wrappers
  import opened AuditChain
  import opened AuditFileNames
  import opened JsonLines
  import Hex

  const MAX_EXPORT_DIRECTORY_ENTRIES := 4096
  const MAX_BATCH_ENTRIES := 50_000

  /** One exported line: the hashed record and, beside it, the stored hash. */
  datatype Line = Line(record: Record, entryHash: string)

  datatype Entry = Entry(name: string, raw: Bytes)

  /** The names of export files, the text of their lines, and the reader of a file's tail. */
  datatype Format = Format(
    layout: Layout, text: seq<Line> -> Bytes, tailOf: Bytes -> Result<string, ExportError>)

  /** The tail of a file of whole lines is the hash in the last one. */
  ghost predicate ReadsTails(f: Format) {
    forall lines: seq<Line> {:trigger f.text(lines)} | lines != [] ::
      f.tailOf(f.text(lines)) == Ok(lines[|lines| - 1].entryHash)
  }

  /** Texts are put behind each other line by line. */
  ghost predicate JoinsTexts(f: Format) {
    f.text([]) == [] && forall a, b {:trigger f.text(a + b)} :: f.text(a + b) == f.text(a) + f.text(b)
  }

  ghost predicate LawfulFormat(f: Format) {
    AuditFileNames.Lawful(f.layout) && ReadsTails(f) && JoinsTexts(f)
  }

  function LineOf(row: Row): Line {
    Line(Canonical(row), Hex.Encode(row.entryHash))
  }

  function LinesOf(rows: seq<Row>): seq<Line> {
    seq(|rows|, i requires 0 <= i < |rows| => LineOf(rows[i]))
  }

  // ---- The newest file ---------------------------------------------------

  datatype ExportError = TooManyEntries | InvalidName | EmptyFile | NoTailHash | Unverified(error: ChainError)

  function LastLine(lines: seq<Bytes>): Option<Bytes> {
    if lines == [] then None
    else if !Blank(lines[|lines| - 1]) then Some(lines[|lines| - 1])
    else LastLine(lines[..|lines| - 1])
  }

  /** The hash a JSON text carries, if the text is JSON and has one. */
  type HashReader = Bytes -> Option<string>

  /** The hash in the last line of a file that is not blank. */
  function TailIn(hashIn: HashReader, raw: Bytes): Result<string, ExportError> {
    match LastLine(SplitLines(raw))
    case None => Err(EmptyFile)
    case Some(line) => if hashIn(line).Some? then Ok(hashIn(line).value) else Err(NoTailHash)
  }

  function TailReader(hashIn: HashReader): Bytes -> Result<string, ExportError> {
    raw => TailIn(hashIn, raw)
  }

  /** The line found is the last that is not blank, and none is found only where all are. */
  lemma {:induction false} LastLineIsLast(lines: seq<Bytes>)
    ensures LastLine(lines).None? <==> forall i | 0 <= i < |lines| :: Blank(lines[i])
    ensures LastLine(lines).Some? ==> exists i :: 0 <= i < |lines| && lines[i] == LastLine(lines).value
                                                  && !Blank(lines[i]) && forall j | i < j < |lines| :: Blank(lines[j])
  {
    if lines != [] && Blank(lines[|lines| - 1]) {
      var rest := lines[..|lines| - 1];
      LastLineIsLast(rest);
      assert forall i | 0 <= i < |rest| :: rest[i] == lines[i];
    }
  }

  lemma {:induction false} LastOfEncoded<T>(encode: T -> Bytes, xs: seq<T>)
    requires xs != []
    ensures |Encoded(encode, xs)| == |xs| && Encoded(encode, xs)[|xs| - 1] == encode(xs[|xs| - 1])
  {
    if |xs| > 1 { LastOfEncoded(encode, xs[1..]); }
  }

  lemma LastLineOfText(encode: Line -> Bytes, lines: seq<Line>)
    requires OneLine(encode) && lines != []
    ensures LastLine(SplitLines(Text(encode, lines))) == Some(encode(lines[|lines| - 1]))
  {
    var text, texts := Text(encode, lines), Encoded(encode, lines);
    SplitText(encode, lines, []);
    LastOfEncoded(encode, lines);
    var split := SplitLines(text);
    assert text + [] == text && split == texts + [[]];
    assert Blank(split[|split| - 1]) && split[..|split| - 1] == texts;
    assert LastLine(split) == LastLine(texts);
  }

  // ---- The lines of a file -----------------------------------------------

  function TextWriter(encode: Line -> Bytes): seq<Line> -> Bytes {
    lines => Text(encode, lines)
  }

  method WriteLines(encode: Line -> Bytes, rows: seq<Row>) returns (raw: Bytes)
    ensures raw == TextWriter(encode)(LinesOf(rows))
  {
    raw := [];
    assert LinesOf(rows[..0]) == [];
    for i := 0 to |rows|
      invariant raw == Text(encode, LinesOf(rows[..i]))
    {
      assert LinesOf(rows[..i + 1]) == LinesOf(rows[..i]) + [LineOf(rows[i])];
      TextAppend(encode, LinesOf(rows[..i]), LineOf(rows[i]));
      raw := raw + (encode(LineOf(rows[i])) + [NEWLINE]);
    }
    assert rows[..|rows|] == rows;
  }

  function CurrentFormat(layout: Layout, encode: Line -> Bytes, hashIn: HashReader): Format {
    Format(layout, TextWriter(encode), TailReader(hashIn))
  }

  /** The format in use, if the JSON text of a line is one line and carries its hash. */
  lemma CurrentFormatIsLawful(layout: Layout, encode: Line -> Bytes, hashIn: HashReader)
    requires AuditFileNames.Lawful(layout)
    requires OneLine(encode) && forall line :: hashIn(encode(line)) == Some(line.entryHash)
    ensures LawfulFormat(CurrentFormat(layout, encode, hashIn))
  {
    var f := CurrentFormat(layout, encode, hashIn);
    forall lines: seq<Line> | lines != [] ensures f.tailOf(f.text(lines)) == Ok(lines[|lines| - 1].entryHash) {
      LastLineOfText(encode, lines);
    }
    forall a, b ensures f.text(a + b) == f.text(a) + f.text(b) {
      TextConcat(encode, a, b);
    }
  }

  predicate IsMisnamed(f: Format, e: Entry) {
    f.layout.naming(e.name).Misnamed?
  }

  predicate IsExport(f: Format, e: Entry) {
    f.layout.naming(e.name).Export?
  }

  function EndOf(f: Format, e: Entry): int
    requires IsExport(f, e)
  {
    f.layout.naming(e.name).to
  }

  predicate IsNewest(f: Format, listing: seq<Entry>, e: Entry) {
    IsExport(f, e) && forall k | 0 <= k < |listing| :: IsExport(f, listing[k]) ==> EndOf(f, listing[k]) <= EndOf(f, e)
  }

  /** Next sequence to export and the tail hash to continue from, whatever order the directory is listed in. */
  method ExistingExportTail(f: Format, listing: seq<Entry>)
    returns (r: Result<(int, Option<string>), ExportError>)
    ensures |listing| > MAX_EXPORT_DIRECTORY_ENTRIES || (exists e :: e in listing && IsMisnamed(f, e)) ==> r.Err?
    ensures r.Err? ==>
      || |listing| > MAX_EXPORT_DIRECTORY_ENTRIES
      || (exists e :: e in listing && IsMisnamed(f, e))
      || (exists e :: e in listing && IsNewest(f, listing, e) && f.tailOf(e.raw).Err?)
    ensures r.Ok? && r.value.1.None? ==> r.value.0 == 0 && forall e | e in listing :: !IsExport(f, e)
    ensures r.Ok? && r.value.1.Some? ==>
      exists e :: e in listing && IsNewest(f, listing, e) && EndOf(f, e) == r.value.0
                  && f.tailOf(e.raw) == Ok(r.value.1.value)
  {
    var newest: Option<Entry> := None;
    var i := 0;
    while i < |listing|
      invariant 0 <= i <= |listing| && i <= MAX_EXPORT_DIRECTORY_ENTRIES
      invariant forall k | 0 <= k < i :: !IsMisnamed(f, listing[k])
      invariant newest.None? ==> forall k | 0 <= k < i :: !IsExport(f, listing[k])
      invariant newest.Some? ==> newest.value in listing && IsNewest(f, listing[..i], newest.value)
    {
      if i + 1 > MAX_EXPORT_DIRECTORY_ENTRIES { return Err(TooManyEntries); }
      var entry := listing[i];
      assert listing[..i + 1] == listing[..i] + [entry];
      match f.layout.naming(entry.name) {
        case Unrelated =>
        case Misnamed =>
          assert IsMisnamed(f, entry);
          return Err(InvalidName);
        case Export(_, to) =>
          if newest.None? || to > EndOf(f, newest.value) {
            newest := Some(entry);
          }
      }
      i := i + 1;
    }
    assert listing[..|listing|] == listing;
    if newest.None? { return Ok((0, None)); }
    var tail := f.tailOf(newest.value.raw);
    if tail.Err? { return Err(tail.error); }
    return Ok((EndOf(f, newest.value), Some(tail.value)));
  }

  // ---- The table and its export ------------------------------------------

  /** The rows by sequence, as the database hands them out. */
  predicate IsTable(table: seq<Row>) {
    && (forall i | 0 <= i < |table| :: 0 < table[i].sequence <= I64_MAX)
    && (forall i, j | 0 <= i < j < |table| :: table[i].sequence < table[j].sequence)
  }

  /** Rows after `from` in sequence order, at most `limit`. */
  function FetchWindow(table: seq<Row>, from: int, limit: nat): seq<Row> {
    if table == [] || limit == 0 then []
    else if table[0].sequence > from then [table[0]] + FetchWindow(table[1..], from, limit - 1)
    else FetchWindow(table[1..], from, limit)
  }

  function FileOf(f: Format, rows: seq<Row>): Entry
    requires rows != []
  {
    Entry(f.layout.fileName(rows[0].sequence, rows[|rows| - 1].sequence), f.text(LinesOf(rows)))
  }

  /** The files, in the order they were written, hold `counts` rows each, together the first `n` of the table. */
  predicate Covers(f: Format, files: seq<Entry>, counts: seq<nat>, table: seq<Row>, n: nat)
    decreases |files|
  {
    if files == [] then n == 0 && counts == []
    else
      && |counts| == |files|
      && var count := counts[|counts| - 1];
      && 0 < count <= n <= |table|
      && files[|files| - 1] == FileOf(f, table[n - count..n])
      && Covers(f, files[..|files| - 1], counts[..|counts| - 1], table, n - count)
  }

  /** The bytes of all files, one file after the other. */
  function Contents(files: seq<Entry>): Bytes {
    if files == [] then [] else Contents(files[..|files| - 1]) + files[|files| - 1].raw
  }

  lemma LinesOfBoth(a: seq<Row>, b: seq<Row>)
    ensures LinesOf(a + b) == LinesOf(a) + LinesOf(b)
  {
  }

  lemma {:induction false} CoveredContents(f: Format, files: seq<Entry>, counts: seq<nat>, table: seq<Row>, n: nat)
    requires JoinsTexts(f) && Covers(f, files, counts, table, n)
    ensures n <= |table| && Contents(files) == f.text(LinesOf(table[..n]))
    decreases |files|
  {
    if files == [] {
      assert LinesOf(table[..n]) == [];
    } else {
      var count := counts[|counts| - 1];
      var before, rows := table[..n - count], table[n - count..n];
      CoveredContents(f, files[..|files| - 1], counts[..|counts| - 1], table, n - count);
      LinesOfBoth(before, rows);
      assert table[..n] == before + rows;
      assert f.text(LinesOf(before) + LinesOf(rows)) == f.text(LinesOf(before)) + f.text(LinesOf(rows));
    }
  }

  /** The end in the name of a file is the sequence of its last row; later files end later. */
  lemma {:induction false} FilesEndInOrder(f: Format, files: seq<Entry>, counts: seq<nat>, table: seq<Row>, n: nat,
      k: nat)
    requires AuditFileNames.Lawful(f.layout) && IsTable(table) && Covers(f, files, counts, table, n) && k < |files|
    ensures 0 < n <= |table| && IsExport(f, files[k])
    ensures EndOf(f, files[k]) <= table[n - 1].sequence
    ensures k == |files| - 1 <==> EndOf(f, files[k]) == table[n - 1].sequence
    decreases |files|
  {
    var count := counts[|counts| - 1];
    var rows := table[n - count..n];
    assert rows[|rows| - 1] == table[n - 1];
    if k < |files| - 1 {
      FilesEndInOrder(f, files[..|files| - 1], counts[..|counts| - 1], table, n - count, k);
      assert table[n - count - 1].sequence < table[n - 1].sequence;
    }
  }

  lemma TailOfRows(f: Format, rows: seq<Row>)
    requires ReadsTails(f) && rows != []
    ensures f.tailOf(FileOf(f, rows).raw) == Ok(Hex.Encode(rows[|rows| - 1].entryHash))
  {
    var lines := LinesOf(rows);
    assert f.tailOf(f.text(lines)) == Ok(lines[|lines| - 1].entryHash);
    assert lines[|lines| - 1] == LineOf(rows[|rows| - 1]);
  }

  /** The rows a file was written from; the last row of the newest file is the last one covered. */
  lemma {:induction false} RowsIn(f: Format, files: seq<Entry>, counts: seq<nat>, table: seq<Row>, n: nat, k: nat)
      returns (rows: seq<Row>)
    requires Covers(f, files, counts, table, n) && k < |files|
    ensures 0 < n <= |table| && rows != [] && files[k] == FileOf(f, rows)
    ensures k == |files| - 1 ==> rows[|rows| - 1] == table[n - 1]
    decreases |files|
  {
    var count := counts[|counts| - 1];
    if k < |files| - 1 {
      rows := RowsIn(f, files[..|files| - 1], counts[..|counts| - 1], table, n - count, k);
    } else {
      rows := table[n - count..n];
    }
  }

  /** Every file carries a hash in its last line; the newest carries that of the last row covered. */
  lemma FilesCarryTails(f: Format, files: seq<Entry>, counts: seq<nat>, table: seq<Row>, n: nat, k: nat)
    requires ReadsTails(f) && Covers(f, files, counts, table, n) && k < |files|
    ensures 0 < n <= |table| && f.tailOf(files[k].raw).Ok?
    ensures k == |files| - 1 ==> f.tailOf(files[k].raw).value == Hex.Encode(table[n - 1].entryHash)
  {
    var rows := RowsIn(f, files, counts, table, n, k);
    TailOfRows(f, rows);
  }

  lemma {:induction false} AppendKeepsCoverage(f: Format, files: seq<Entry>, counts: seq<nat>, table: seq<Row>, n: nat,
      row: Row)
    requires Covers(f, files, counts, table, n)
    ensures Covers(f, files, counts, table + [row], n)
    decreases |files|
  {
    if files != [] {
      var count := counts[|counts| - 1];
      assert (table + [row])[n - count..n] == table[n - count..n];
      AppendKeepsCoverage(f, files[..|files| - 1], counts[..|counts| - 1], table, n - count, row);
    }
  }

  lemma SliceOfRest(table: seq<Row>, lo: nat, hi: nat)
    requires 0 < lo <= hi <= |table|
    ensures table[1..][lo - 1..hi - 1] == table[lo..hi]
  {
  }

  /** From the end of the covered rows on, the window is the next stretch of the table. */
  lemma {:induction false} WindowAfter(table: seq<Row>, n: nat, from: int, limit: nat)
    requires IsTable(table) && n <= |table|
    requires forall i | 0 <= i < |table| :: table[i].sequence > from <==> i >= n
    ensures FetchWindow(table, from, limit) == table[n..Min(n + limit, |table|)]
    decreases |table|, limit
  {
    if table != [] && limit > 0 {
      var rest, hi := table[1..], Min(n + limit, |table|);
      assert forall i | 0 <= i < |rest| :: rest[i] == table[i + 1];
      if n == 0 {
        assert table[0].sequence > from;
        WindowAfter(rest, 0, from, limit - 1);
        SliceOfRest(table, 1, hi);
      } else {
        assert table[0].sequence <= from;
        WindowAfter(rest, n - 1, from, limit);
        SliceOfRest(table, n, hi);
      }
    }
  }
}
