/**
 The text form of a version: the strict parser, and the proof that it accepts
 exactly the texts of valid versions, ignoring build metadata.
 Source: scripts/lib/release-metadata.js
 */
module SemVerText {
  import opened Wrappers
  import opened Texts
  import opened SemVer

  function Split(s: string, c: char): (parts: seq<string>)
    ensures parts != []
    decreases |s|
  {
    var i := IndexOf(s, c);
    if i == |s| then [s] else [s[..i]] + Split(s[i + 1..], c)
  }

  predicate AllIn(parts: seq<string>, p: string -> bool) {
    forall i | 0 <= i < |parts| :: p(parts[i])
  }

  /** The identifiers of an optional dotted suffix. */
  function ParseIdentifiers(suffix: Option<string>): Option<seq<string>> {
    match suffix
    case None => Some([])
    case Some(text) =>
      var ids := Split(text, '.');
      if AllIn(ids, IsIdentifier) then Some(ids) else None
  }

  function ParseNumbers(core: string): Option<(nat, nat, nat)> {
    var numbers := Split(core, '.');
    if |numbers| != 3 || !AllIn(numbers, IsCanonical) then None
    else Some((ToNat(numbers[0]), ToNat(numbers[1]), ToNat(numbers[2])))
  }

  function ParseHead(head: string): Option<Version> {
    var (core, suffix) := Cut(head, '-');
    match (ParseNumbers(core), ParseIdentifiers(suffix))
    case (Some(n), Some(ids)) =>
      if AllIn(ids, IsPrereleaseIdentifier) then Some(Version(n.0, n.1, n.2, ids)) else None
    case _ => None
  }

  /** Strict parsing; a build suffix must be well formed and is then dropped. */
  function Parse(value: string): Option<Version> {
    var (head, build) := Cut(value, '+');
    if ParseIdentifiers(build).None? then None else ParseHead(head)
  }

  // ---- The text of a version ---------------------------------------------

  function Join(parts: seq<string>, c: char): string
    requires parts != []
  {
    if |parts| == 1 then parts[0] else parts[0] + [c] + Join(parts[1..], c)
  }

  function CoreText(v: Version): string {
    Join([Decimal(v.major), Decimal(v.minor), Decimal(v.patch)], '.')
  }

  function IdentifiersText(ids: seq<string>): Option<string> {
    if ids == [] then None else Some(Join(ids, '.'))
  }

  function HeadText(v: Version): string {
    Glue(CoreText(v), '-', IdentifiersText(v.prerelease))
  }

  /** `major.minor.patch`, then `-prerelease` and `+build` when not empty. */
  function Text(v: Version, build: seq<string>): string {
    Glue(HeadText(v), '+', IdentifiersText(build))
  }

  // ---- The pieces are inverse to each other ------------------------------

  lemma {:induction false} SplitUndoesJoin(parts: seq<string>, c: char)
    requires parts != [] && forall i | 0 <= i < |parts| :: c !in parts[i]
    ensures Split(Join(parts, c), c) == parts
  {
    if |parts| == 1 {
      CutUndoesGlue(parts[0], c, None);
    } else {
      CutUndoesGlue(parts[0], c, Some(Join(parts[1..], c)));
      SplitUndoesJoin(parts[1..], c);
    }
  }

  lemma {:induction false} JoinUndoesSplit(s: string, c: char)
    ensures Join(Split(s, c), c) == s
    decreases |s|
  {
    var i := IndexOf(s, c);
    if i < |s| {
      JoinUndoesSplit(s[i + 1..], c);
      JoinFirst(s[..i], Split(s[i + 1..], c), c);
      assert s == s[..i] + [c] + s[i + 1..];
    }
  }

  lemma JoinFirst(first: string, rest: seq<string>, c: char)
    requires rest != []
    ensures Join([first] + rest, c) == first + [c] + Join(rest, c)
  {
    assert ([first] + rest)[1..] == rest;
  }

  /** No mark appears in a join of texts free of it, other than the separator. */
  lemma {:induction false} JoinIsFreeOf(parts: seq<string>, c: char, mark: char)
    requires parts != [] && mark != c && forall i | 0 <= i < |parts| :: mark !in parts[i]
    ensures mark !in Join(parts, c)
  {
    if |parts| > 1 { JoinIsFreeOf(parts[1..], c, mark); }
  }

  lemma IdentifiersAreFreeOf(ids: seq<string>)
    requires AllIn(ids, IsIdentifier)
    ensures forall i | 0 <= i < |ids| :: '.' !in ids[i] && '+' !in ids[i]
  {
    forall i | 0 <= i < |ids| ensures '.' !in ids[i] && '+' !in ids[i] {
      assert IsIdentifier(ids[i]);
    }
  }

  lemma IdentifiersRoundTrip(ids: seq<string>)
    requires AllIn(ids, IsIdentifier)
    ensures ParseIdentifiers(IdentifiersText(ids)) == Some(ids)
    ensures ids != [] ==> '+' !in IdentifiersText(ids).value
  {
    IdentifiersAreFreeOf(ids);
    if ids != [] {
      SplitUndoesJoin(ids, '.');
      JoinIsFreeOf(ids, '.', '+');
    }
  }

  lemma TextOfIdentifiers(suffix: Option<string>)
    requires ParseIdentifiers(suffix).Some?
    ensures IdentifiersText(ParseIdentifiers(suffix).value) == suffix
    ensures AllIn(ParseIdentifiers(suffix).value, IsIdentifier)
  {
    if suffix.Some? { JoinUndoesSplit(suffix.value, '.'); }
  }

  lemma NumbersRoundTrip(v: Version)
    ensures ParseNumbers(CoreText(v)) == Some((v.major, v.minor, v.patch))
    ensures '-' !in CoreText(v) && '+' !in CoreText(v)
  {
    DecimalIsCanonical(v.major);
    DecimalIsCanonical(v.minor);
    DecimalIsCanonical(v.patch);
    var numbers := [Decimal(v.major), Decimal(v.minor), Decimal(v.patch)];
    NumericIsFreeOfMarks(numbers[0]);
    NumericIsFreeOfMarks(numbers[1]);
    NumericIsFreeOfMarks(numbers[2]);
    SplitUndoesJoin(numbers, '.');
    JoinIsFreeOf(numbers, '.', '-');
    JoinIsFreeOf(numbers, '.', '+');
  }

  lemma NumericIsFreeOfMarks(number: string)
    requires IsNumeric(number)
    ensures '.' !in number && '-' !in number && '+' !in number
  {
  }

  lemma TextOfNumbers(core: string)
    requires ParseNumbers(core).Some?
    ensures var n := ParseNumbers(core).value; Join([Decimal(n.0), Decimal(n.1), Decimal(n.2)], '.') == core
  {
    var numbers := Split(core, '.');
    CanonicalIsDecimal(numbers[0]);
    CanonicalIsDecimal(numbers[1]);
    CanonicalIsDecimal(numbers[2]);
    JoinUndoesSplit(core, '.');
    assert numbers == [numbers[0], numbers[1], numbers[2]];
  }

  lemma HeadRoundTrip(v: Version)
    requires Valid(v)
    ensures ParseHead(HeadText(v)) == Some(v) && '+' !in HeadText(v)
  {
    NumbersRoundTrip(v);
    IdentifiersRoundTrip(v.prerelease);
    CutUndoesGlue(CoreText(v), '-', IdentifiersText(v.prerelease));
  }

  lemma TextOfHead(head: string)
    requires ParseHead(head).Some?
    ensures Valid(ParseHead(head).value) && HeadText(ParseHead(head).value) == head
  {
    GlueUndoesCut(head, '-');
    TextOfNumbers(Cut(head, '-').0);
    TextOfIdentifiers(Cut(head, '-').1);
  }

  // ---- The parser --------------------------------------------------------

  /** The parser accepts the text of every valid version, and build metadata does not matter. */
  lemma ParseUndoesText(v: Version, build: seq<string>)
    requires Valid(v) && AllIn(build, IsIdentifier)
    ensures Parse(Text(v, build)) == Some(v)
  {
    HeadRoundTrip(v);
    IdentifiersRoundTrip(build);
    CutUndoesGlue(HeadText(v), '+', IdentifiersText(build));
  }

  /** And it accepts nothing else: what it accepts is the text of the valid version it returns. */
  lemma TextUndoesParse(value: string) returns (build: seq<string>)
    requires Parse(value).Some?
    ensures Valid(Parse(value).value) && AllIn(build, IsIdentifier)
    ensures value == Text(Parse(value).value, build)
  {
    GlueUndoesCut(value, '+');
    TextOfHead(Cut(value, '+').0);
    TextOfIdentifiers(Cut(value, '+').1);
    build := ParseIdentifiers(Cut(value, '+').1).value;
  }

  lemma ParsedIsValid(value: string)
    requires Parse(value).Some?
    ensures Valid(Parse(value).value)
  {
    var _ := TextUndoesParse(value);
  }

  // ---- Comparing texts ---------------------------------------------------

  /** `compareSemver`: an invalid text on either side is an error. */
  method CompareSemver(left: string, right: string) returns (r: Option<int>)
    ensures r.Some? <==> Parse(left).Some? && Parse(right).Some?
    ensures r.Some? ==> r.value == Compare(Parse(left).value, Parse(right).value)
    ensures r.Some? ==> (r.value < 0 <==> Precedes(Parse(left).value, Parse(right).value))
    ensures r.Some? ==> (r.value > 0 <==> Precedes(Parse(right).value, Parse(left).value))
    ensures r.Some? ==> (r.value == 0 <==> Parse(left) == Parse(right))
  {
    var a, b := Parse(left), Parse(right);
    if a.None? || b.None? { return None; }
    ParsedIsValid(left);
    ParsedIsValid(right);
    CompareAgreesWithSection11(a.value, b.value);
    CompareAgreesWithSection11(b.value, a.value);
    CompareIsAntisymmetric(a.value, b.value);
    var c := CompareVersions(a.value, b.value);
    return Some(c);
  }
}
