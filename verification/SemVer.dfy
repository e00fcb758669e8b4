/**
 Semantic Versioning 2.0.0 precedence: the comparison used for releases, its
 order laws, and its agreement with section 11 of Semantic Versioning 2.0.0.
 Source: scripts/lib/release-metadata.js
 */
module SemVer {
  import opened Wrappers
  import opened Texts

  datatype Version = Version(major: nat, minor: nat, patch: nat, prerelease: seq<string>)

  predicate IsIdentifierChar(c: char) {
    IsDigit(c) || 'a' <= c <= 'z' || 'A' <= c <= 'Z' || c == '-'
  }

  predicate IsIdentifier(id: string) {
    id != "" && forall i | 0 <= i < |id| :: IsIdentifierChar(id[i])
  }

  predicate IsPrereleaseIdentifier(id: string) {
    IsIdentifier(id) && (IsNumeric(id) ==> IsCanonical(id))
  }

  /** What the parser lets through. */
  predicate Valid(v: Version) {
    forall i | 0 <= i < |v.prerelease| :: IsPrereleaseIdentifier(v.prerelease[i])
  }

  // ---- The comparison ----------------------------------------------------

  function CompareNat(a: nat, b: nat): int {
    if a < b then -1 else if a > b then 1 else 0
  }

  /** Strings by code unit, a proper prefix being lower. */
  function CompareText(a: string, b: string): int {
    if a == "" then (if b == "" then 0 else -1)
    else if b == "" then 1
    else if a[0] < b[0] then -1
    else if a[0] > b[0] then 1
    else CompareText(a[1..], b[1..])
  }

  function CompareIdentifier(a: string, b: string): int {
    if IsNumeric(a) && IsNumeric(b) then CompareNat(ToNat(a), ToNat(b))
    else if IsNumeric(a) then -1
    else if IsNumeric(b) then 1
    else CompareText(a, b)
  }

  function ComparePrerelease(a: seq<string>, b: seq<string>): int {
    if a == [] then (if b == [] then 0 else -1)
    else if b == [] then 1
    else if CompareIdentifier(a[0], b[0]) != 0 then CompareIdentifier(a[0], b[0])
    else ComparePrerelease(a[1..], b[1..])
  }

  function CompareCore(a: Version, b: Version): int {
    if a.major != b.major then CompareNat(a.major, b.major)
    else if a.minor != b.minor then CompareNat(a.minor, b.minor)
    else CompareNat(a.patch, b.patch)
  }

  function Compare(a: Version, b: Version): int {
    if CompareCore(a, b) != 0 then CompareCore(a, b)
    else if a.prerelease == [] && b.prerelease == [] then 0
    else if a.prerelease == [] then 1
    else if b.prerelease == [] then -1
    else ComparePrerelease(a.prerelease, b.prerelease)
  }

  /** The comparison as it is programmed: three fields, then one pass over the identifiers. */
  method CompareVersions(a: Version, b: Version) returns (c: int)
    ensures c == Compare(a, b)
  {
    if a.major < b.major { return -1; }
    if a.major > b.major { return 1; }
    if a.minor < b.minor { return -1; }
    if a.minor > b.minor { return 1; }
    if a.patch < b.patch { return -1; }
    if a.patch > b.patch { return 1; }
    if |a.prerelease| == 0 && |b.prerelease| == 0 { return 0; }
    if |a.prerelease| == 0 { return 1; }
    if |b.prerelease| == 0 { return -1; }
    var length := Max(|a.prerelease|, |b.prerelease|);
    var index := 0;
    assert a.prerelease[0..] == a.prerelease && b.prerelease[0..] == b.prerelease;
    while index < length
      invariant 0 <= index <= |a.prerelease| && index <= |b.prerelease|
      invariant ComparePrerelease(a.prerelease[index..], b.prerelease[index..]) ==
          ComparePrerelease(a.prerelease, b.prerelease)
    {
      if index >= |a.prerelease| { return -1; }
      if index >= |b.prerelease| { return 1; }
      var left, right := a.prerelease[index], b.prerelease[index];
      assert a.prerelease[index..][1..] == a.prerelease[index + 1..];
      assert b.prerelease[index..][1..] == b.prerelease[index + 1..];
      var leftNumeric, rightNumeric := IsNumeric(left), IsNumeric(right);
      if leftNumeric && rightNumeric {
        if ToNat(left) < ToNat(right) { return -1; }
        if ToNat(left) > ToNat(right) { return 1; }
      } else {
        if leftNumeric != rightNumeric { return if leftNumeric then -1 else 1; }
        var text := CompareText(left, right);
        CompareTextValues(left, right);
        if text < 0 { return -1; }
        if text > 0 { return 1; }
      }
      index := index + 1;
    }
    return 0;
  }

  // ---- Order laws --------------------------------------------------------

  lemma {:induction false} CompareTextValues(a: string, b: string)
    ensures CompareText(a, b) == -1 || CompareText(a, b) == 0 || CompareText(a, b) == 1
    ensures CompareText(a, b) == 0 <==> a == b
    ensures CompareText(b, a) == -CompareText(a, b)
  {
    if a != "" && b != "" && a[0] == b[0] {
      CompareTextValues(a[1..], b[1..]);
      assert a == [a[0]] + a[1..] && b == [b[0]] + b[1..];
    }
  }

  lemma {:induction false} CompareTextTransitive(a: string, b: string, c: string)
    requires CompareText(a, b) <= 0 && CompareText(b, c) <= 0
    ensures CompareText(a, c) <= 0
    ensures CompareText(a, b) < 0 || CompareText(b, c) < 0 ==> CompareText(a, c) < 0
  {
    if a != "" && b != "" && c != "" && a[0] == b[0] == c[0] {
      CompareTextTransitive(a[1..], b[1..], c[1..]);
    }
  }

  lemma IdentifierOrder(a: string, b: string)
    requires IsPrereleaseIdentifier(a) && IsPrereleaseIdentifier(b)
    ensures CompareIdentifier(a, b) == -1 || CompareIdentifier(a, b) == 0 || CompareIdentifier(a, b) == 1
    ensures CompareIdentifier(a, b) == 0 <==> a == b
    ensures CompareIdentifier(b, a) == -CompareIdentifier(a, b)
  {
    if IsNumeric(a) && IsNumeric(b) {
      if ToNat(a) == ToNat(b) { CanonicalDecimalIsUnique(a, b); }
    } else {
      CompareTextValues(a, b);
    }
  }

  lemma IdentifierTransitive(a: string, b: string, c: string)
    requires CompareIdentifier(a, b) <= 0 && CompareIdentifier(b, c) <= 0
    ensures CompareIdentifier(a, c) <= 0
    ensures CompareIdentifier(a, b) < 0 || CompareIdentifier(b, c) < 0 ==> CompareIdentifier(a, c) < 0
  {
    if !IsNumeric(a) && !IsNumeric(b) && !IsNumeric(c) {
      CompareTextTransitive(a, b, c);
    }
  }

  predicate AllIdentifiers(ids: seq<string>) {
    forall i | 0 <= i < |ids| :: IsPrereleaseIdentifier(ids[i])
  }

  lemma {:induction false} PrereleaseOrder(a: seq<string>, b: seq<string>)
    requires AllIdentifiers(a) && AllIdentifiers(b)
    ensures ComparePrerelease(a, b) == -1 || ComparePrerelease(a, b) == 0 || ComparePrerelease(a, b) == 1
    ensures ComparePrerelease(a, b) == 0 <==> a == b
    ensures ComparePrerelease(b, a) == -ComparePrerelease(a, b)
  {
    if a != [] && b != [] {
      IdentifierOrder(a[0], b[0]);
      PrereleaseOrder(a[1..], b[1..]);
      assert a == [a[0]] + a[1..] && b == [b[0]] + b[1..];
    }
  }

  lemma {:induction false} PrereleaseTransitive(a: seq<string>, b: seq<string>, c: seq<string>)
    requires AllIdentifiers(a) && AllIdentifiers(b) && AllIdentifiers(c)
    requires ComparePrerelease(a, b) <= 0 && ComparePrerelease(b, c) <= 0
    ensures ComparePrerelease(a, c) <= 0
    ensures ComparePrerelease(a, b) < 0 || ComparePrerelease(b, c) < 0 ==> ComparePrerelease(a, c) < 0
  {
    if a != [] && b != [] && c != [] {
      IdentifierTransitive(a[0], b[0], c[0]);
      IdentifierOrder(a[0], b[0]);
      IdentifierOrder(b[0], c[0]);
      IdentifierOrder(a[0], c[0]);
      if a[0] == b[0] == c[0] {
        PrereleaseTransitive(a[1..], b[1..], c[1..]);
      }
    }
  }

  /**
   On parsed versions the comparison is a total order: it returns -1, 0 or 1,
   swapping the arguments negates it, and it is 0 exactly for equal core
   numbers and equal prerelease lists.
   */
  lemma CompareIsAntisymmetric(a: Version, b: Version)
    requires Valid(a) && Valid(b)
    ensures Compare(a, b) == -1 || Compare(a, b) == 0 || Compare(a, b) == 1
    ensures Compare(a, b) == 0 <==> a == b
    ensures Compare(b, a) == -Compare(a, b)
  {
    PrereleaseOrder(a.prerelease, b.prerelease);
  }

  lemma CompareIsTransitive(a: Version, b: Version, c: Version)
    requires Valid(a) && Valid(b) && Valid(c)
    requires Compare(a, b) <= 0 && Compare(b, c) <= 0
    ensures Compare(a, c) <= 0
    ensures Compare(a, b) < 0 || Compare(b, c) < 0 ==> Compare(a, c) < 0
  {
    CoreTransitive(a, b, c);
    CompareIsAntisymmetric(a, b);
    CompareIsAntisymmetric(b, c);
    if CompareCore(a, b) == 0 && CompareCore(b, c) == 0
       && a.prerelease != [] && b.prerelease != [] && c.prerelease != [] {
      PrereleaseTransitive(a.prerelease, b.prerelease, c.prerelease);
    }
  }

  lemma CoreTransitive(a: Version, b: Version, c: Version)
    requires CompareCore(a, b) <= 0 && CompareCore(b, c) <= 0
    ensures CompareCore(a, c) <= 0
    ensures CompareCore(a, b) < 0 || CompareCore(b, c) < 0 ==> CompareCore(a, c) < 0
  {
  }

  // ---- Section 11 of Semantic Versioning 2.0.0 ---------------------------

  /** ASCII order of two identifiers: the first difference decides, a proper prefix is lower. */
  predicate TextLower(a: string, b: string) {
    exists k: nat :: k <= |a| && TextLowerAt(a, b, k)
  }

  predicate TextLowerAt(a: string, b: string, k: nat) {
    k <= |a| && k < |b| && a[..k] == b[..k] && (k == |a| || a[k] < b[k])
  }

  /** 11.4: numbers numerically, other identifiers by ASCII, numbers below the others. */
  predicate IdentifierLower(a: string, b: string) {
    if IsNumeric(a) && IsNumeric(b) then ToNat(a) < ToNat(b)
    else if IsNumeric(a) || IsNumeric(b) then IsNumeric(a)
    else TextLower(a, b)
  }

  /** 11.4: the first different identifier decides; 11.4.4: a longer list is higher. */
  predicate PrereleaseLower(a: seq<string>, b: seq<string>) {
    exists k: nat :: k <= |a| && PrereleaseLowerAt(a, b, k)
  }

  predicate PrereleaseLowerAt(a: seq<string>, b: seq<string>, k: nat) {
    k <= |a| && k < |b| && a[..k] == b[..k] && (k == |a| || IdentifierLower(a[k], b[k]))
  }

  predicate CoreLower(a: Version, b: Version) {
    || a.major < b.major
    || (a.major == b.major && a.minor < b.minor)
    || (a.major == b.major && a.minor == b.minor && a.patch < b.patch)
  }

  predicate SameCore(a: Version, b: Version) {
    a.major == b.major && a.minor == b.minor && a.patch == b.patch
  }

  /** 11.2 to 11.4: core numbers first, a prerelease below its release, then the identifiers. */
  predicate Precedes(a: Version, b: Version) {
    || CoreLower(a, b)
    || (SameCore(a, b) && a.prerelease != [] && b.prerelease == [])
    || (SameCore(a, b) && a.prerelease != [] && b.prerelease != [] && PrereleaseLower(a.prerelease, b.prerelease))
  }

  /** Common prefixes one element shorter. */
  lemma PrefixTail<T>(a: seq<T>, b: seq<T>, k: nat)
    requires 0 < k <= |a| && k <= |b|
    ensures a[..k] == b[..k] <==> a[0] == b[0] && a[1..][..k - 1] == b[1..][..k - 1]
  {
    assert a[..k] == [a[0]] + a[1..][..k - 1];
    assert b[..k] == [b[0]] + b[1..][..k - 1];
  }

  lemma TextLowerShifts(a: string, b: string, k: nat)
    requires a != "" && b != "" && a[0] == b[0]
    ensures TextLowerAt(a, b, k + 1) <==> TextLowerAt(a[1..], b[1..], k)
  {
    if k + 1 <= |a| && k + 1 <= |b| { PrefixTail(a, b, k + 1); }
  }

  lemma TextLowerUnfolds(a: string, b: string)
    requires a != "" && b != ""
    ensures TextLower(a, b) <==> a[0] < b[0] || (a[0] == b[0] && TextLower(a[1..], b[1..]))
  {
    if a[0] < b[0] { assert TextLowerAt(a, b, 0); }
    if a[0] == b[0] && TextLower(a[1..], b[1..]) {
      var k: nat :| k <= |a[1..]| && TextLowerAt(a[1..], b[1..], k);
      TextLowerShifts(a, b, k);
    }
    if TextLower(a, b) {
      var k: nat :| k <= |a| && TextLowerAt(a, b, k);
      if k > 0 {
        PrefixTail(a, b, k);
        TextLowerShifts(a, b, k - 1);
      }
    }
  }

  lemma {:induction false} TextLowerAgrees(a: string, b: string)
    ensures CompareText(a, b) < 0 <==> TextLower(a, b)
  {
    if a == "" && b != "" {
      assert TextLowerAt(a, b, 0);
    } else if a != "" && b != "" {
      TextLowerAgrees(a[1..], b[1..]);
      TextLowerUnfolds(a, b);
    }
  }

  lemma IdentifierLowerAgrees(a: string, b: string)
    ensures CompareIdentifier(a, b) < 0 <==> IdentifierLower(a, b)
  {
    TextLowerAgrees(a, b);
  }

  lemma {:induction false} PrereleaseLowerAgrees(a: seq<string>, b: seq<string>)
    requires AllIdentifiers(a) && AllIdentifiers(b)
    ensures ComparePrerelease(a, b) < 0 <==> PrereleaseLower(a, b)
  {
    if a == [] && b != [] {
      assert PrereleaseLowerAt(a, b, 0);
    } else if a != [] && b != [] {
      IdentifierLowerAgrees(a[0], b[0]);
      IdentifierOrder(a[0], b[0]);
      PrereleaseLowerAgrees(a[1..], b[1..]);
      PrereleaseLowerUnfolds(a, b);
    }
  }

  lemma PrereleaseLowerShifts(a: seq<string>, b: seq<string>, k: nat)
    requires a != [] && b != [] && a[0] == b[0]
    ensures PrereleaseLowerAt(a, b, k + 1) <==> PrereleaseLowerAt(a[1..], b[1..], k)
  {
    if k + 1 <= |a| && k + 1 <= |b| { PrefixTail(a, b, k + 1); }
  }

  lemma PrereleaseLowerUnfolds(a: seq<string>, b: seq<string>)
    requires a != [] && b != []
    ensures PrereleaseLower(a, b) <==> IdentifierLower(a[0], b[0]) || (a[0] == b[0] && PrereleaseLower(a[1..], b[1..]))
  {
    if IdentifierLower(a[0], b[0]) { assert PrereleaseLowerAt(a, b, 0); }
    if a[0] == b[0] && PrereleaseLower(a[1..], b[1..]) {
      var k: nat :| k <= |a[1..]| && PrereleaseLowerAt(a[1..], b[1..], k);
      PrereleaseLowerShifts(a, b, k);
    }
    if PrereleaseLower(a, b) {
      var k: nat :| k <= |a| && PrereleaseLowerAt(a, b, k);
      if k > 0 {
        PrefixTail(a, b, k);
        PrereleaseLowerShifts(a, b, k - 1);
      }
    }
  }

  /** The comparison is the precedence of section 11. */
  lemma CompareAgreesWithSection11(a: Version, b: Version)
    requires Valid(a) && Valid(b)
    ensures Compare(a, b) < 0 <==> Precedes(a, b)
  {
    PrereleaseLowerAgrees(a.prerelease, b.prerelease);
  }
}
