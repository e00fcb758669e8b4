/**
 Names of export files. The exporter works with any naming whose file names
 can be read back; the one below is the one in use.
 Source: crates/centrald-server/src/audit_export.rs
 */
module AuditFileNames {
  import opened Wrappers
  import opened Texts

  const EXPORT_FILE_PREFIX := "centrald-audit-"
  const EXPORT_FILE_SUFFIX := ".jsonl"
  const I64_MIN := -0x8000_0000_0000_0000
  const I64_MAX := 0x7fff_ffff_ffff_ffff

  /** How a directory entry is read by its name. */
  datatype Naming = Unrelated | Misnamed | Export(from: int, to: int)

  datatype Layout = Layout(naming: string -> Naming, fileName: (int, int) -> string)

  ghost predicate Lawful(layout: Layout) {
    forall from: int, to: int | 0 < from <= to <= I64_MAX ::
      layout.naming(layout.fileName(from, to)) == Export(from, to)
  }

  /** A 64-bit integer with an optional sign. */
  function ParseI64(text: string): Option<int> {
    if text == "" then None
    else
      var digits := if text[0] == '-' || text[0] == '+' then text[1..] else text;
      if !IsNumeric(digits) then None
      else
        var magnitude: int := ToNat(digits);
        var value := if text[0] == '-' then -magnitude else magnitude;
        if I64_MIN <= value <= I64_MAX then Some(value) else None
  }

  function ParseExportRange(range: string): Option<(int, int)> {
    var (left, right) := Cut(range, '-');
    if right.None? then None
    else
      match (ParseI64(left), ParseI64(right.value))
      case (Some(from), Some(to)) => if from > to || from <= 0 || to <= 0 then None else Some((from, to))
      case _ => None
  }

  function FileName(from: int, to: int): string {
    EXPORT_FILE_PREFIX + (Glue(IntegerText(from), '-', Some(IntegerText(to))) + EXPORT_FILE_SUFFIX)
  }

  /** What stands between the prefix and the suffix; they share no character, so they never overlap. */
  function StripName(name: string): Option<string> {
    if && |EXPORT_FILE_PREFIX| + |EXPORT_FILE_SUFFIX| <= |name|
       && name[..|EXPORT_FILE_PREFIX|] == EXPORT_FILE_PREFIX
       && name[|name| - |EXPORT_FILE_SUFFIX|..] == EXPORT_FILE_SUFFIX
    then Some(name[|EXPORT_FILE_PREFIX|..|name| - |EXPORT_FILE_SUFFIX|])
    else None
  }

  function NamingOfRange(range: Option<string>): Naming {
    if range.None? then Unrelated
    else
      match ParseExportRange(range.value)
      case None => Misnamed
      case Some(ends) => Export(ends.0, ends.1)
  }

  function NamingOf(name: string): Naming {
    NamingOfRange(StripName(name))
  }

  /** The naming in use. */
  const CURRENT := Layout(NamingOf, FileName)

  lemma ParseDecimal(n: nat)
    requires n <= I64_MAX
    ensures ParseI64(Decimal(n)) == Some(n) && '-' !in Decimal(n)
  {
    DecimalIsCanonical(n);
    assert IsDigit(Decimal(n)[0]);
  }

  lemma RangeRoundTrip(from: nat, to: nat)
    requires 0 < from <= to <= I64_MAX
    ensures ParseExportRange(Glue(Decimal(from), '-', Some(Decimal(to)))) == Some((from, to))
  {
    ParseDecimal(from);
    ParseDecimal(to);
    CutUndoesGlue(Decimal(from), '-', Some(Decimal(to)));
  }

  lemma StripUndoesName(range: string)
    ensures StripName(EXPORT_FILE_PREFIX + (range + EXPORT_FILE_SUFFIX)) == Some(range)
  {
    var name := EXPORT_FILE_PREFIX + (range + EXPORT_FILE_SUFFIX);
    assert name[..|EXPORT_FILE_PREFIX|] == EXPORT_FILE_PREFIX;
    assert name[|name| - |EXPORT_FILE_SUFFIX|..] == EXPORT_FILE_SUFFIX;
    assert name[|EXPORT_FILE_PREFIX|..|name| - |EXPORT_FILE_SUFFIX|] == range;
  }

  lemma ReadRange(name: string, range: string, from: int, to: int)
    requires StripName(name) == Some(range) && ParseExportRange(range) == Some((from, to))
    ensures NamingOf(name) == Export(from, to)
  {
  }

  /** The range can be read back from the name of every export file. */
  lemma FileNameRoundTrip(from: int, to: int)
    requires 0 < from <= to <= I64_MAX
    ensures NamingOf(FileName(from, to)) == Export(from, to)
  {
    var range := Glue(Decimal(from), '-', Some(Decimal(to)));
    RangeRoundTrip(from, to);
    StripUndoesName(range);
    ReadRange(FileName(from, to), range, from, to);
  }

  lemma CurrentIsLawful()
    ensures Lawful(CURRENT)
  {
    forall from: int, to: int | 0 < from <= to <= I64_MAX
      ensures CURRENT.naming(CURRENT.fileName(from, to)) == Export(from, to) {
      FileNameRoundTrip(from, to);
    }
  }
}
