/**
 The journal of consumed grants as bytes: one checksummed JSON object per
 line, read line by line and never repaired.
 Source: crates/centrald-client/src/ledger.rs
 */
module GrantJournal {
  import opened Wrappers
  import opened LedgerRecords
  import opened Grants
  import opened JsonLines

  /** The JSON text of a line with its checksum, and its reader, which refuses whatever is not such a text. */
  datatype GrantCodec = GrantCodec(encode: Consumed -> Bytes, decode: Bytes -> Option<Consumed>)

  /**
   A text is one non-blank line and decodes to its grant. No beginning of a text
   decodes, and none decodes once another text follows it on its line, because
   its outermost brace is then unmatched or something follows that brace.
   */
  ghost predicate LawfulGrants(codec: GrantCodec) {
    && OneLine(codec.encode)
    && (forall c :: codec.decode(codec.encode(c)) == Some(c))
    && (forall c, k | 0 < k < |codec.encode(c)| ::
      codec.decode(codec.encode(c)[..k]).None? && !Blank(codec.encode(c)[..k]))
    && (forall c, d, k | 0 < k <= |codec.encode(c)| :: codec.decode(codec.encode(c)[..k] + codec.encode(d)).None?)
  }

  function GrantLine(codec: GrantCodec, c: Consumed): Bytes {
    codec.encode(c) + [NEWLINE]
  }

  function GrantText(codec: GrantCodec, journal: seq<Consumed>): Bytes {
    Text(codec.encode, journal)
  }

  /** Every non-blank line must decode; the unexpired ones are returned. */
  function ParseGrants(codec: GrantCodec, lines: seq<Bytes>, now: Time): Result<seq<Consumed>, LedgerError> {
    if lines == [] then Ok([])
    else if Blank(lines[0]) then ParseGrants(codec, lines[1..], now)
    else
      match codec.decode(lines[0])
      case None => Err(Unparsable)
      case Some(c) =>
        match ParseGrants(codec, lines[1..], now)
        case Err(e) => Err(e)
        case Ok(rest) => Ok((if c.expiresAt > now then [c] else []) + rest)
  }

  function ReadGrants(codec: GrantCodec, raw: Bytes, now: Time): Result<seq<Consumed>, LedgerError> {
    ParseGrants(codec, SplitLines(raw), now)
  }

  lemma NothingJournalled(codec: GrantCodec, now: Time)
    ensures ReadGrants(codec, [], now) == Ok([])
  {
    var lines := SplitLines([]);
    assert lines == [[]] && Blank(lines[0]);
    assert ParseGrants(codec, lines, now) == ParseGrants(codec, lines[1..], now);
  }

  /** A journal is read exactly when all its non-blank lines decode. */
  lemma {:induction false} ReadsIff(codec: GrantCodec, lines: seq<Bytes>, now: Time)
    ensures ParseGrants(codec, lines, now).Ok? <==>
      forall i | 0 <= i < |lines| :: Blank(lines[i]) || codec.decode(lines[i]).Some?
  {
    if lines != [] {
      ReadsIff(codec, lines[1..], now);
      assert forall i | 1 <= i < |lines| :: lines[i] == lines[1..][i - 1];
    }
  }

  lemma {:induction false} ParsesGrants(codec: GrantCodec, journal: seq<Consumed>, now: Time)
    requires LawfulGrants(codec)
    ensures ParseGrants(codec, Encoded(codec.encode, journal) + [[]], now) == Ok(LoadConsumed(journal, now))
  {
    var lines := Encoded(codec.encode, journal) + [[]];
    if journal == [] {
      assert lines == [[]] && lines[1..] == [];
    } else {
      assert lines[0] == codec.encode(journal[0]) && lines[1..] == Encoded(codec.encode, journal[1..]) + [[]];
      ParsesGrants(codec, journal[1..], now);
      LoadsInOrder([journal[0]], journal[1..], now);
      assert [journal[0]] + journal[1..] == journal;
      assert LoadConsumed([journal[0]], now) == if journal[0].expiresAt > now then [journal[0]] else [] by {
        assert [journal[0]][..0] == [];
      }
    }
  }

  /** A journal of whole lines is read back: exactly the unexpired grants, in order. */
  lemma ReadsJournalledGrants(codec: GrantCodec, journal: seq<Consumed>, now: Time)
    requires LawfulGrants(codec)
    ensures ReadGrants(codec, GrantText(codec, journal), now) == Ok(LoadConsumed(journal, now))
  {
    SplitText(codec.encode, journal, []);
    assert GrantText(codec, journal) + [] == GrantText(codec, journal);
    ParsesGrants(codec, journal, now);
  }

  lemma SplitsAtTear(codec: GrantCodec, journal: seq<Consumed>, part: Bytes, more: seq<Consumed>)
    requires LawfulGrants(codec)
    ensures SplitLines(GrantText(codec, journal) + part + GrantText(codec, more)) ==
      Encoded(codec.encode, journal) + SplitLines(part + GrantText(codec, more))
  {
    SplitText(codec.encode, journal, part + GrantText(codec, more));
    assert GrantText(codec, journal) + part + GrantText(codec, more) ==
      GrantText(codec, journal) + (part + GrantText(codec, more));
  }

  /** When all other lines can be read, it is the first of the last ones that decides. */
  lemma ReadsLastIff(codec: GrantCodec, lines: seq<Bytes>, last: seq<Bytes>, now: Time)
    requires last != []
    requires forall i | 0 <= i < |lines| :: codec.decode(lines[i]).Some?
    requires forall i | 1 <= i < |last| :: Blank(last[i]) || codec.decode(last[i]).Some?
    ensures ParseGrants(codec, lines + last, now).Ok? <==> Blank(last[0]) || codec.decode(last[0]).Some?
  {
    var all := lines + last;
    ReadsIff(codec, all, now);
    assert all[|lines|] == last[0];
    assert forall i | |lines| < i < |all| :: all[i] == last[i - |lines|];
  }

  /**
   Exactly when the journal can still be read after an append that stopped after
   `cut` bytes and any number of later appends: when nothing of the line was
   written, or all of it but its newline and nothing since. There is no repair,
   so in every other case every later start of the broker fails.
   */
  lemma BootSucceedsIff(codec: GrantCodec, journal: seq<Consumed>, torn: Consumed, cut: nat, more: seq<Consumed>,
      now: Time)
    requires LawfulGrants(codec) && cut <= |codec.encode(torn)|
    ensures
      ReadGrants(codec, GrantText(codec, journal) + codec.encode(torn)[..cut] + GrantText(codec, more), now).Ok? <==>
      cut == 0 || (cut == |codec.encode(torn)| && more == [])
  {
    var part := codec.encode(torn)[..cut];
    var lines := Encoded(codec.encode, journal);
    var last := LastLines(codec, part, more);
    SplitsAtTear(codec, journal, part, more);
    EncodedDecode(codec, journal);
    ReadsLastIff(codec, lines, last, now);
    TornLineReadsIff(codec, torn, cut, more);
  }

  /** The first line from the cut on: blank or decodable. */
  lemma TornLineReadsIff(codec: GrantCodec, torn: Consumed, cut: nat, more: seq<Consumed>)
    requires LawfulGrants(codec) && cut <= |codec.encode(torn)|
    ensures var line := codec.encode(torn)[..cut] + (if more == [] then [] else codec.encode(more[0]));
      Blank(line) || codec.decode(line).Some? <==> cut == 0 || (cut == |codec.encode(torn)| && more == [])
  {
    var text := codec.encode(torn);
    var part := text[..cut];
    var line := part + (if more == [] then [] else codec.encode(more[0]));
    assert cut == |text| ==> part == text;
    if cut == 0 {
      assert part == [] && line == if more == [] then [] else codec.encode(more[0]);
    } else {
      assert !Blank(part);
      assert Blank(line) ==> Blank(part) by {
        assert forall i | 0 <= i < |part| :: part[i] == line[i];
      }
      if more == [] { assert line == part; }
    }
  }

  lemma {:induction false} EncodedDecode(codec: GrantCodec, journal: seq<Consumed>)
    requires LawfulGrants(codec)
    ensures forall i | 0 <= i < |Encoded(codec.encode, journal)| ::
        codec.decode(Encoded(codec.encode, journal)[i]).Some?
  {
    if journal != [] { EncodedDecode(codec, journal[1..]); }
  }

  /** The lines from the torn one on, and whether they all read. */
  lemma LastLines(codec: GrantCodec, part: Bytes, more: seq<Consumed>) returns (last: seq<Bytes>)
    requires LawfulGrants(codec) && NEWLINE !in part
    ensures last == SplitLines(part + GrantText(codec, more))
    ensures last != [] && last[0] == part + (if more == [] then [] else codec.encode(more[0]))
    ensures forall i | 1 <= i < |last| :: Blank(last[i]) || codec.decode(last[i]).Some?
  {
    last := SplitLines(part + GrantText(codec, more));
    if more == [] {
      assert part + GrantText(codec, more) == part;
      SplitsToItself(part);
    } else {
      var first, rest := part + codec.encode(more[0]), GrantText(codec, more[1..]);
      assert part + GrantText(codec, more) == first + [NEWLINE] + rest;
      SplitFirstLine(first, rest);
      SplitText(codec.encode, more[1..], []);
      assert rest + [] == rest;
      EncodedDecode(codec, more[1..]);
      assert SplitLines(rest) == Encoded(codec.encode, more[1..]) + [[]];
    }
  }

  lemma {:induction false} SplitsToItself(line: Bytes)
    requires NEWLINE !in line
    ensures SplitLines(line) == [line]
  {
    if line != [] {
      SplitsToItself(line[1..]);
      assert [line[0]] + line[1..] == line;
    }
  }
}
