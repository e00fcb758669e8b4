/** Hexadecimal text of bytes, as tail hashes are stored in export files. */
module Hex {
  import opened Wrappers

  function DigitOf(d: nat): (c: char)
    requires d < 16
    ensures ValueOf(c) == Some(d)
  {
    "0123456789abcdef"[d]
  }

  /** Both cases are read. */
  function ValueOf(c: char): Option<nat> {
    if '0' <= c <= '9' then Some(c as int - '0' as int)
    else if 'a' <= c <= 'f' then Some(c as int - 'a' as int + 10)
    else if 'A' <= c <= 'F' then Some(c as int - 'A' as int + 10)
    else None
  }

  function Encode(bytes: Bytes): string {
    if bytes == [] then "" else [DigitOf(bytes[0] / 16), DigitOf(bytes[0] % 16)] + Encode(bytes[1..])
  }

  function Decode(text: string): Option<Bytes> {
    if text == "" then Some([])
    else if |text| == 1 then None
    else
      var high, low, rest := ValueOf(text[0]), ValueOf(text[1]), Decode(text[2..]);
      if high.Some? && low.Some? && rest.Some? then Some([(16 * high.value + low.value) as Byte] + rest.value) else None
  }

  lemma DecodesPair(b: Byte, text: string, bytes: Bytes)
    requires Decode(text) == Some(bytes)
    ensures Decode([DigitOf(b / 16), DigitOf(b % 16)] + text) == Some([b] + bytes)
  {
    var whole := [DigitOf(b / 16), DigitOf(b % 16)] + text;
    assert whole[0] == DigitOf(b / 16) && whole[1] == DigitOf(b % 16) && whole[2..] == text;
    assert 16 * (b / 16) + b % 16 == b;
  }

  lemma {:induction false} DecodeUndoesEncode(bytes: Bytes)
    ensures Decode(Encode(bytes)) == Some(bytes)
  {
    if bytes != [] {
      DecodeUndoesEncode(bytes[1..]);
      DecodesPair(bytes[0], Encode(bytes[1..]), bytes[1..]);
      assert bytes == [bytes[0]] + bytes[1..];
    }
  }

  lemma KnownValue()
    ensures Encode([0x0f, 0xde]) == "0fde"
  {
    assert [0x0f, 0xde][1..] == [0xde] && [0xde][1..] == [];
  }

  lemma EncodeIsInjective(a: Bytes, b: Bytes)
    requires Encode(a) == Encode(b)
    ensures a == b
  {
    DecodeUndoesEncode(a);
    DecodeUndoesEncode(b);
  }
}
