/**
 Plain text tools shared by the version parser and the export file names:
 decimal numbers, and cutting a text at its first mark.
 */
module Texts {
  import opened Wrappers

  predicate IsDigit(c: char) {
    '0' <= c <= '9'
  }

  predicate IsNumeric(id: string) {
    id != "" && forall i | 0 <= i < |id| :: IsDigit(id[i])
  }

  /** A number without a leading zero. */
  predicate IsCanonical(id: string) {
    IsNumeric(id) && (|id| > 1 ==> id[0] != '0')
  }

  function DigitValue(c: char): nat
    requires IsDigit(c)
  {
    c as int - '0' as int
  }

  function ToNat(id: string): nat
    requires forall i | 0 <= i < |id| :: IsDigit(id[i])
  {
    if id == "" then 0 else 10 * ToNat(id[..|id| - 1]) + DigitValue(id[|id| - 1])
  }

  function DigitChar(d: nat): (c: char)
    requires d < 10
    ensures IsDigit(c) && DigitValue(c) == d && (c == '0' <==> d == 0)
  {
    "0123456789"[d]
  }

  function Decimal(n: nat): string {
    if n < 10 then [DigitChar(n)] else Decimal(n / 10) + [DigitChar(n % 10)]
  }

  function IntegerText(n: int): string {
    if n < 0 then "-" + Decimal(-n) else Decimal(n)
  }

  /** A number without leading zeros is determined by its value. */
  lemma {:induction false} CanonicalDecimalIsUnique(a: string, b: string)
    requires IsCanonical(a) && IsCanonical(b) && ToNat(a) == ToNat(b)
    ensures a == b
  {
    var a', b' := a[..|a| - 1], b[..|b| - 1];
    assert a == a' + [a[|a| - 1]] && b == b' + [b[|b| - 1]];
    assert DigitValue(a[|a| - 1]) == ToNat(a) % 10 && DigitValue(b[|b| - 1]) == ToNat(b) % 10;
    if a' != "" && b' != "" {
      CanonicalDecimalIsUnique(a', b');
    } else {
      if a' != "" { PositiveDecimal(a'); }
      if b' != "" { PositiveDecimal(b'); }
    }
  }

  lemma {:induction false} PositiveDecimal(a: string)
    requires IsNumeric(a) && a[0] != '0'
    ensures ToNat(a) > 0
  {
    if |a| > 1 {
      PositiveDecimal(a[..|a| - 1]);
    }
  }

  lemma {:induction false} DecimalIsCanonical(n: nat)
    ensures IsCanonical(Decimal(n)) && ToNat(Decimal(n)) == n
    ensures n > 0 ==> Decimal(n)[0] != '0'
  {
    if n < 10 {
      assert Decimal(n)[..0] == "";
    } else {
      DecimalIsCanonical(n / 10);
      assert Decimal(n)[..|Decimal(n)| - 1] == Decimal(n / 10);
    }
  }

  lemma CanonicalIsDecimal(s: string)
    requires IsCanonical(s)
    ensures s == Decimal(ToNat(s))
  {
    DecimalIsCanonical(ToNat(s));
    CanonicalDecimalIsUnique(s, Decimal(ToNat(s)));
  }

  // ---- Cutting at a mark --------------------------------------------------

  /** Position of the first `c`, or the length when there is none. */
  function IndexOf(s: string, c: char): (i: nat)
    ensures i <= |s| && c !in s[..i]
    ensures i < |s| ==> s[i] == c
  {
    if s == "" || s[0] == c then 0
    else
      var i := IndexOf(s[1..], c);
      assert s[..i + 1] == [s[0]] + s[1..][..i];
      i + 1
  }

  /** The text before the first mark, and the text after it if there is one. */
  function Cut(s: string, mark: char): (string, Option<string>) {
    var i := IndexOf(s, mark);
    if i == |s| then (s, None) else (s[..i], Some(s[i + 1..]))
  }

  function Glue(s: string, mark: char, suffix: Option<string>): string {
    match suffix
    case None => s
    case Some(text) => s + [mark] + text
  }

  lemma CutUndoesGlue(s: string, mark: char, suffix: Option<string>)
    requires mark !in s
    ensures Cut(Glue(s, mark, suffix), mark) == (s, suffix)
  {
    if suffix.Some? {
      var t := s + [mark] + suffix.value;
      assert t[|s|] == mark && forall k | 0 <= k < |s| :: t[k] == s[k];
      assert forall i | |s| < i <= |t| :: t[..i][|s|] == mark;
      assert IndexOf(t, mark) == |s|;
      assert t[..|s|] == s && t[|s| + 1..] == suffix.value;
    }
  }

  lemma GlueUndoesCut(s: string, mark: char)
    ensures Glue(Cut(s, mark).0, mark, Cut(s, mark).1) == s
  {
  }

  // ---- Texts as bytes -----------------------------------------------------

  predicate IsAscii(s: string) {
    forall i | 0 <= i < |s| :: s[i] as int < 128
  }

  /** The UTF-8 bytes of an ASCII text. */
  function Utf8(s: string): (bytes: Bytes)
    requires IsAscii(s)
    ensures |bytes| == |s| && TextOf(bytes) == s
  {
    seq(|s|, i requires 0 <= i < |s| => s[i] as int)
  }

  function TextOf(bytes: Bytes): string {
    seq(|bytes|, i requires 0 <= i < |bytes| => bytes[i] as char)
  }

  lemma {:induction false} DecimalIsAscii(n: nat)
    ensures IsAscii(Decimal(n))
  {
    DecimalIsCanonical(n);
  }
}
