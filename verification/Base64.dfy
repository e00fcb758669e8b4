/** Base64 with padding, section 4 of RFC 4648, as session data travels in frames. */
module Base64 {
  import opened Wrappers

  function DigitOf(d: nat): (c: char)
    requires d < 64
    ensures ValueOf(c) == Some(d) && c != '='
  {
    if d < 26 then 'A' + d as char
    else if d < 52 then 'a' + (d - 26) as char
    else if d < 62 then '0' + (d - 52) as char
    else if d == 62 then '+' else '/'
  }

  function ValueOf(c: char): (v: Option<nat>)
    ensures v.Some? ==> v.value < 64
  {
    if 'A' <= c <= 'Z' then Some(c as int - 'A' as int)
    else if 'a' <= c <= 'z' then Some(c as int - 'a' as int + 26)
    else if '0' <= c <= '9' then Some(c as int - '0' as int + 52)
    else if c == '+' then Some(62)
    else if c == '/' then Some(63)
    else None
  }

  lemma DigitIsUnique(c: char)
    requires ValueOf(c).Some?
    ensures DigitOf(ValueOf(c).value) == c
  {
  }

  datatype Digits = Digits(p: nat, q: nat, r: nat, s: nat)

  /** Three bytes as four groups of six bits. */
  function DigitsOf(a: Byte, b: Byte, c: Byte): (d: Digits)
    ensures d.p < 64 && d.q < 64 && d.r < 64 && d.s < 64
  {
    Digits(a / 4, a % 4 * 16 + b / 16, b % 16 * 4 + c / 64, c % 64)
  }

  function BytesOf(p: nat, q: nat, r: nat, s: nat): (Byte, Byte, Byte)
    requires p < 64 && q < 64 && r < 64 && s < 64
  {
    (p * 4 + q / 16, q % 16 * 16 + r / 4, r % 4 * 64 + s)
  }

  lemma BitsRoundTrip(a: Byte, b: Byte, c: Byte)
    ensures var d := DigitsOf(a, b, c); BytesOf(d.p, d.q, d.r, d.s) == (a, b, c)
  {
    FirstByte(a, b);
    SecondByte(a, b, c);
    ThirdByte(b, c);
  }

  /** Where bytes are missing, the bits that stand for them are zero. */
  lemma PaddingIsZero(a: Byte, b: Byte)
    ensures DigitsOf(a, 0, 0).q % 16 == 0 && DigitsOf(a, 0, 0).r == 0
    ensures DigitsOf(a, b, 0).r % 4 == 0 && DigitsOf(a, b, 0).s == 0
  {
    Pack16(a % 4, 0);
    Pack4(b % 16, 0);
  }

  lemma FirstByte(a: Byte, b: Byte)
    ensures a / 4 * 4 + (a % 4 * 16 + b / 16) / 16 == a
  {
    Pack16(a % 4, b / 16);
  }

  lemma SecondByte(a: Byte, b: Byte, c: Byte)
    ensures (a % 4 * 16 + b / 16) % 16 * 16 + (b % 16 * 4 + c / 64) / 4 == b
  {
    Pack16(a % 4, b / 16);
    Pack4(b % 16, c / 64);
  }

  lemma ThirdByte(b: Byte, c: Byte)
    ensures (b % 16 * 4 + c / 64) % 4 * 64 + c % 64 == c
  {
    Pack4(b % 16, c / 64);
  }

  lemma Pack16(high: nat, low: nat)
    requires low < 16
    ensures (high * 16 + low) / 16 == high && (high * 16 + low) % 16 == low
  {
  }

  lemma Pack4(high: nat, low: nat)
    requires low < 4
    ensures (high * 4 + low) / 4 == high && (high * 4 + low) % 4 == low
  {
  }

  lemma BitsAreUnique(p: nat, q: nat, r: nat, s: nat)
    requires p < 64 && q < 64 && r < 64 && s < 64
    ensures var t := BytesOf(p, q, r, s); DigitsOf(t.0, t.1, t.2) == Digits(p, q, r, s)
  {
    var x, y, z := q / 16, q % 16, r / 4;
    var u := r % 4;
    assert (p * 4 + x) / 4 == p && (p * 4 + x) % 4 == x;
    assert (y * 16 + z) / 16 == y && (y * 16 + z) % 16 == z;
    assert (u * 64 + s) / 64 == u && (u * 64 + s) % 64 == s;
  }

  /** Four characters for one to three bytes. */
  function EncodeGroup(g: Bytes): (quad: string)
    requires 1 <= |g| <= 3
    ensures |quad| == 4
  {
    var d := DigitsOf(g[0], if |g| > 1 then g[1] else 0, if |g| > 2 then g[2] else 0);
    [DigitOf(d.p), DigitOf(d.q), if |g| > 1 then DigitOf(d.r) else '=', if |g| > 2 then DigitOf(d.s) else '=']
  }

  function Encode(bytes: Bytes): string {
    if bytes == [] then ""
    else if |bytes| <= 3 then EncodeGroup(bytes)
    else EncodeGroup(bytes[..3]) + Encode(bytes[3..])
  }

  /** Strict: padding only in the last group, and no stray bits before it. */
  function DecodeGroup(quad: string, last: bool): Option<Bytes>
    requires |quad| == 4
  {
    match (ValueOf(quad[0]), ValueOf(quad[1]), ValueOf(quad[2]), ValueOf(quad[3]))
    case (Some(p), Some(q), Some(r), Some(s)) =>
      var t := BytesOf(p, q, r, s);
      Some([t.0, t.1, t.2])
    case (Some(p), Some(q), Some(r), None) =>
      if last && quad[3] == '=' && r % 4 == 0 then Some([BytesOf(p, q, r, 0).0, BytesOf(p, q, r, 0).1]) else None
    case (Some(p), Some(q), None, None) =>
      if last && quad[2] == '=' && quad[3] == '=' && q % 16 == 0 then Some([BytesOf(p, q, 0, 0).0]) else None
    case _ => None
  }

  function Decode(text: string): Option<Bytes> {
    if |text| == 0 then Some([])
    else if |text| < 4 then None
    else
      match (DecodeGroup(text[..4], |text| == 4), Decode(text[4..]))
      case (Some(group), Some(rest)) => Some(group + rest)
      case _ => None
  }

  lemma GroupRoundTrip(g: Bytes, last: bool)
    requires 1 <= |g| <= 3 && (|g| == 3 || last)
    ensures DecodeGroup(EncodeGroup(g), last) == Some(g)
  {
    if |g| == 1 {
      OneByte(g[0], last);
      assert g == [g[0]];
    } else if |g| == 2 {
      TwoBytes(g[0], g[1], last);
      assert g == [g[0], g[1]];
    } else {
      ThreeBytes(g[0], g[1], g[2], last);
      assert g == [g[0], g[1], g[2]];
    }
  }

  lemma OneByte(a: Byte, last: bool)
    requires last
    ensures DecodeGroup(EncodeGroup([a]), last) == Some([a])
  {
    BitsRoundTrip(a, 0, 0);
    PaddingIsZero(a, 0);
    assert ValueOf('=').None?;
  }

  lemma TwoBytes(a: Byte, b: Byte, last: bool)
    requires last
    ensures DecodeGroup(EncodeGroup([a, b]), last) == Some([a, b])
  {
    BitsRoundTrip(a, b, 0);
    PaddingIsZero(a, b);
    assert ValueOf('=').None?;
  }

  lemma ThreeBytes(a: Byte, b: Byte, c: Byte, last: bool)
    ensures DecodeGroup(EncodeGroup([a, b, c]), last) == Some([a, b, c])
  {
    BitsRoundTrip(a, b, c);
  }

  lemma GroupIsUnique(quad: string, last: bool)
    requires |quad| == 4 && DecodeGroup(quad, last).Some?
    ensures var g := DecodeGroup(quad, last).value;
      1 <= |g| <= 3 && (|g| == 3 || last) && EncodeGroup(g) == quad
  {
    var p, q := ValueOf(quad[0]).value, ValueOf(quad[1]).value;
    var r, s := ValueOf(quad[2]).GetOr(0), ValueOf(quad[3]).GetOr(0);
    DigitIsUnique(quad[0]);
    DigitIsUnique(quad[1]);
    if ValueOf(quad[2]).Some? { DigitIsUnique(quad[2]); }
    if ValueOf(quad[3]).Some? { DigitIsUnique(quad[3]); }
    BitsAreUnique(p, q, r, s);
  }

  /** What is encoded is decoded exactly. */
  lemma {:induction false} DecodeUndoesEncode(bytes: Bytes)
    ensures Decode(Encode(bytes)) == Some(bytes)
  {
    if 0 < |bytes| <= 3 {
      GroupRoundTrip(bytes, true);
      assert EncodeGroup(bytes)[..4] == EncodeGroup(bytes) && EncodeGroup(bytes)[4..] == "";
      assert Decode("") == Some([]) && bytes + [] == bytes;
    } else if |bytes| > 3 {
      var text := Encode(bytes);
      GroupRoundTrip(bytes[..3], false);
      DecodeUndoesEncode(bytes[3..]);
      EncodedLength(bytes[3..]);
      assert text[..4] == EncodeGroup(bytes[..3]) && text[4..] == Encode(bytes[3..]);
      assert bytes == bytes[..3] + bytes[3..];
    }
  }

  /** The first three bytes of a value of section 10 of RFC 4648. */
  lemma KnownValue(g: Bytes)
    requires |g| == 3 && g[0] == 102 && g[1] == 111 && g[2] == 111
    ensures Encode(g) == ['Z', 'm', '9', 'v']
  {
    var d := DigitsOf(g[0], g[1], g[2]);
    assert d == Digits(25, 38, 61, 47);
    assert DigitOf(25) == 'Z' && DigitOf(38) == 'm' && DigitOf(61) == '9' && DigitOf(47) == 'v';
  }

  /** And every text that decodes is the encoding of what it decodes to. */
  lemma {:induction false} EncodeUndoesDecode(text: string)
    requires Decode(text).Some?
    ensures Encode(Decode(text).value) == text
    ensures text != "" ==> Decode(text).value != []
  {
    if |text| > 0 {
      GroupIsUnique(text[..4], |text| == 4);
      EncodeUndoesDecode(text[4..]);
      var group := DecodeGroup(text[..4], |text| == 4).value;
      var rest := Decode(text[4..]).value;
      assert text == text[..4] + text[4..];
      if |text| == 4 {
        assert group + rest == group;
      } else {
        assert (group + rest)[..3] == group && (group + rest)[3..] == rest;
      }
    }
  }

  lemma {:induction false} EncodedLength(bytes: Bytes)
    ensures |Encode(bytes)| == (|bytes| + 2) / 3 * 4
  {
    if |bytes| > 3 {
      EncodedLength(bytes[3..]);
      assert (|bytes| + 2) / 3 == (|bytes[3..]| + 2) / 3 + 1;
    }
  }
}
