/**
 The hash chain of the audit table: verification of a window of rows, how
 windows compose, and what a tail hash says about the rows before it.
 Source: crates/centrald-server/src/audit_export.rs
 */
module AuditChain {
  import opened Wrappers
  import Hex

  /** A row of `audit_entries`; times in nanoseconds. */
  datatype Row = Row(
    sequence: int,
    id: string, actorId: Option<string>, actorLabel: string, action: string, targetId: Option<string>,
    outcome: string, metadata: string,
    previousHash: Option<Bytes>,
    entryHash: Bytes,
    createdAt: int)

  /** What is hashed: every field but the sequence and the hash itself, the time in whole microseconds. */
  datatype Record = Record(
    id: string, actorId: Option<string>, actorLabel: string, action: string, targetId: Option<string>,
    outcome: string, metadata: string,
    previousHash: Option<string>,
    createdAt: int)

  /** The JSON encoding of a record and the digest. */
  datatype Hashing = Hashing(encode: Record -> Bytes, digest: Bytes -> Bytes)

  /** Different records have different encodings. Nothing is assumed of the digest. */
  ghost predicate Lawful(h: Hashing) {
    forall x, y :: h.encode(x) == h.encode(y) ==> x == y
  }

  function NormalizedMicros(nanos: int): (r: int)
    ensures r % 1000 == 0 && r <= nanos < r + 1000
  {
    nanos / 1000 * 1000
  }

  function Canonical(row: Row): Record {
    Record(row.id, row.actorId, row.actorLabel, row.action, row.targetId, row.outcome, row.metadata,
           if row.previousHash.None? then None else Some(Hex.Encode(row.previousHash.value)),
           NormalizedMicros(row.createdAt))
  }

  function HashOf(h: Hashing, row: Row): Bytes {
    h.digest(h.encode(Canonical(row)))
  }

  // ---- Verification ------------------------------------------------------

  /** The link the row at `i` must carry. */
  function ExpectedLink(rows: seq<Row>, before: Option<Bytes>, i: nat): Option<Bytes>
    requires i < |rows|
  {
    if i == 0 then before else Some(rows[i - 1].entryHash)
  }

  predicate RowHolds(h: Hashing, rows: seq<Row>, before: Option<Bytes>, i: nat)
    requires i < |rows|
  {
    rows[i].previousHash == ExpectedLink(rows, before, i) && rows[i].entryHash == HashOf(h, rows[i])
  }

  /** Every row carries its predecessor's hash and its own; `before` is what precedes the first. */
  predicate Chained(h: Hashing, rows: seq<Row>, before: Option<Bytes>) {
    forall i | 0 <= i < |rows| :: RowHolds(h, rows, before, i)
  }

  /** The bytes a tail text stands for: none at the start of the table, and not every text is one. */
  function LinkBefore(tail: Option<string>): Option<Option<Bytes>> {
    if tail.None? then Some(None)
    else
      var bytes := Hex.Decode(tail.value);
      if bytes.Some? && Hex.Encode(bytes.value) == tail.value then Some(bytes) else None
  }

  /** What verification is for: a chained window strictly after the previous one that continues its tail. */
  predicate Continues(h: Hashing, rows: seq<Row>, from: int, tail: Option<string>) {
    && rows != []
    && rows[0].sequence > from
    && LinkBefore(tail).Some?
    && Chained(h, rows, LinkBefore(tail).value)
  }

  datatype ChainError = EmptyWindow | NotAfter | GapBeforeWindow | BrokenLink(at: nat) | BadHash(at: nat)

  /** The loop over the rows: accepts chained rows and names the first one that fails. */
  method VerifyRows(h: Hashing, rows: seq<Row>, before: Option<Bytes>) returns (r: Result<(), ChainError>)
    ensures r.Ok? <==> Chained(h, rows, before)
    ensures r.Err? ==>
      && (r.error.BrokenLink? || r.error.BadHash?) && r.error.at < |rows|
      && (forall k | 0 <= k < r.error.at :: RowHolds(h, rows, before, k))
      && !RowHolds(h, rows, before, r.error.at)
      && (r.error.BrokenLink? <==> rows[r.error.at].previousHash != ExpectedLink(rows, before, r.error.at))
  {
    var expected := before;
    var i := 0;
    while i < |rows|
      invariant 0 <= i <= |rows|
      invariant expected == if i == 0 then before else Some(rows[i - 1].entryHash)
      invariant forall k | 0 <= k < i :: RowHolds(h, rows, before, k)
    {
      assert RowHolds(h, rows, before, i) <==>
        rows[i].previousHash == expected && rows[i].entryHash == HashOf(h, rows[i]);
      if rows[i].previousHash != expected { return Err(BrokenLink(i)); }
      if h.digest(h.encode(Canonical(rows[i]))) != rows[i].entryHash { return Err(BadHash(i)); }
      expected := Some(rows[i].entryHash);
      i := i + 1;
    }
    return Ok(());
  }

  /** Verification of one window accepts exactly the windows that continue the previous export. */
  method VerifyChain(h: Hashing, rows: seq<Row>, from: int, tail: Option<string>) returns (r: Result<(), ChainError>)
    ensures r.Ok? <==> Continues(h, rows, from, tail)
  {
    if |rows| == 0 { return Err(EmptyWindow); }
    if rows[0].sequence <= from { return Err(NotAfter); }
    var expected: Option<Bytes> := None;
    if tail.Some? {
      LinkedTailIsHex(rows[0], tail.value);
      var link := if rows[0].previousHash.None? then None else Some(Hex.Encode(rows[0].previousHash.value));
      if link != tail {
        UnlinkedWindow(h, rows, tail);
        return Err(GapBeforeWindow);
      }
      // A tail that equals an encoded link always decodes.
      expected := Hex.Decode(tail.value);
    }
    r := VerifyRows(h, rows, expected);
  }

  /** A first row links to a tail text exactly when it holds the bytes that text stands for. */
  lemma LinkedTailIsHex(row: Row, tail: string)
    ensures row.previousHash.Some? && Hex.Encode(row.previousHash.value) == tail <==>
      LinkBefore(Some(tail)).Some? && row.previousHash == LinkBefore(Some(tail)).value
  {
    if row.previousHash.Some? { Hex.DecodeUndoesEncode(row.previousHash.value); }
  }

  lemma UnlinkedWindow(h: Hashing, rows: seq<Row>, tail: Option<string>)
    requires rows != [] && LinkBefore(tail).Some? ==> rows[0].previousHash != LinkBefore(tail).value
    ensures rows != [] && LinkBefore(tail).Some? ==> !Chained(h, rows, LinkBefore(tail).value)
  {
    if rows != [] && LinkBefore(tail).Some? { assert !RowHolds(h, rows, LinkBefore(tail).value, 0); }
  }

  // ---- Composition -------------------------------------------------------

  function TailHash(rows: seq<Row>): Bytes
    requires rows != []
  {
    rows[|rows| - 1].entryHash
  }

  /** A window and then its continuation verify exactly when the two together do. */
  lemma WindowsCompose(h: Hashing, first: seq<Row>, second: seq<Row>, before: Option<Bytes>)
    requires first != []
    ensures Chained(h, first + second, before) <==>
        Chained(h, first, before) && Chained(h, second, Some(TailHash(first)))
  {
    var both := first + second;
    forall i | 0 <= i < |first| ensures RowHolds(h, both, before, i) <==> RowHolds(h, first, before, i) {
    }
    forall i | 0 <= i < |second|
      ensures RowHolds(h, both, before, |first| + i) <==> RowHolds(h, second, Some(TailHash(first)), i) {
      assert both[|first| + i] == second[i];
      if i > 0 { assert both[|first| + i - 1] == second[i - 1]; }
    }
    if Chained(h, both, before) {
      forall i | 0 <= i < |second| ensures RowHolds(h, second, Some(TailHash(first)), i) {
        assert RowHolds(h, both, before, |first| + i);
      }
    }
    if Chained(h, first, before) && Chained(h, second, Some(TailHash(first))) {
      forall i | 0 <= i < |both| ensures RowHolds(h, both, before, i) {
        if i >= |first| { assert RowHolds(h, second, Some(TailHash(first)), i - |first|); }
      }
    }
  }

  lemma ChainedPrefix(h: Hashing, rows: seq<Row>, before: Option<Bytes>, n: nat)
    requires n <= |rows| && Chained(h, rows, before)
    ensures Chained(h, rows[..n], before)
  {
    forall i | 0 <= i < n ensures RowHolds(h, rows[..n], before, i) {
      assert RowHolds(h, rows, before, i);
    }
  }

  // ---- A tail hash fixes the history -------------------------------------

  predicate SameRecords(a: seq<Row>, b: seq<Row>) {
    |a| == |b| && forall i | 0 <= i < |a| :: Canonical(a[i]) == Canonical(b[i])
  }

  /** Two different encodings of records of the two lists with one digest. */
  predicate Collides(h: Hashing, a: seq<Row>, b: seq<Row>) {
    exists i, j | 0 <= i < |a| && 0 <= j < |b| ::
      h.encode(Canonical(a[i])) != h.encode(Canonical(b[j])) && HashOf(h, a[i]) == HashOf(h, b[j])
  }

  /**
   Two tables that verify from the start and end in the same hash hold the
   same records throughout, or show a collision of the digest. The sequence
   numbers may differ: they are not hashed.
   */
  lemma {:induction false} TailHashFixesHistory(h: Hashing, a: seq<Row>, b: seq<Row>)
    requires Lawful(h) && a != [] && b != []
    requires Chained(h, a, None) && Chained(h, b, None) && TailHash(a) == TailHash(b)
    ensures SameRecords(a, b) || Collides(h, a, b)
    decreases |a|
  {
    var m, n := |a| - 1, |b| - 1;
    assert RowHolds(h, a, None, m) && RowHolds(h, b, None, n);
    if h.encode(Canonical(a[m])) == h.encode(Canonical(b[n])) {
      RecordFixesRow(a[m], b[n]);
      if m > 0 && n > 0 {
        ChainedPrefix(h, a, None, m);
        ChainedPrefix(h, b, None, n);
        TailHashFixesHistory(h, a[..m], b[..n]);
        EarlierHistory(h, a, b);
      }
    }
  }

  /** A record fixes every column of its row but the sequence, the stored hash and what is below a microsecond. */
  lemma RecordFixesRow(x: Row, y: Row)
    ensures Canonical(x) == Canonical(y) <==>
      && x.id == y.id && x.actorId == y.actorId && x.actorLabel == y.actorLabel
      && x.action == y.action && x.targetId == y.targetId && x.outcome == y.outcome && x.metadata == y.metadata
      && x.previousHash == y.previousHash
      && x.createdAt / 1000 == y.createdAt / 1000
  {
    if x.previousHash.Some? && y.previousHash.Some? && Canonical(x) == Canonical(y) {
      Hex.EncodeIsInjective(x.previousHash.value, y.previousHash.value);
    }
  }

  lemma EarlierHistory(h: Hashing, a: seq<Row>, b: seq<Row>)
    requires a != [] && b != [] && Canonical(a[|a| - 1]) == Canonical(b[|b| - 1])
    requires SameRecords(a[..|a| - 1], b[..|b| - 1]) || Collides(h, a[..|a| - 1], b[..|b| - 1])
    ensures SameRecords(a, b) || Collides(h, a, b)
  {
    var a', b' := a[..|a| - 1], b[..|b| - 1];
    if SameRecords(a', b') {
      assert forall i | 0 <= i < |a'| :: a'[i] == a[i] && b'[i] == b[i];
    } else {
      var i, j :| 0 <= i < |a'| && 0 <= j < |b'| && h.encode(Canonical(a'[i])) != h.encode(Canonical(b'[j]))
        && HashOf(h, a'[i]) == HashOf(h, b'[j]);
      assert a'[i] == a[i] && b'[j] == b[j];
    }
  }

  /** Conversely, verified tables with the same records end in the same hash, whatever their sequence numbers. */
  lemma SameHistorySameTail(h: Hashing, a: seq<Row>, b: seq<Row>)
    requires a != [] && b != []
    requires Chained(h, a, None) && Chained(h, b, None) && SameRecords(a, b)
    ensures TailHash(a) == TailHash(b)
  {
    var last := |a| - 1;
    assert RowHolds(h, a, None, last) && RowHolds(h, b, None, last);
    assert Canonical(a[last]) == Canonical(b[last]);
  }
}
