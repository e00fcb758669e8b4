/**
 Files of lines: one JSON text per line. Splitting, joining, and dropping an
 unfinished last line.
 */
module JsonLines {
  import opened Wrappers

  const NEWLINE: Byte := 10

  predicate IsAsciiWhitespace(b: Byte) {
    b == 9 || b == 10 || b == 12 || b == 13 || b == 32
  }

  predicate Blank(line: Bytes) {
    forall i | 0 <= i < |line| :: IsAsciiWhitespace(line[i])
  }

  /** The pieces between newlines; a text that ends in a newline has an empty last piece. */
  function SplitLines(raw: Bytes): (lines: seq<Bytes>)
    ensures |lines| >= 1
  {
    if raw == [] then [[]]
    else
      var rest := SplitLines(raw[1..]);
      if raw[0] == NEWLINE then [[]] + rest
      else [[raw[0]] + rest[0]] + rest[1..]
  }

  lemma {:induction false} SplitFirstLine(line: Bytes, rest: Bytes)
    requires NEWLINE !in line
    ensures SplitLines(line + [NEWLINE] + rest) == [line] + SplitLines(rest)
  {
    var raw := line + [NEWLINE] + rest;
    if line == [] {
      assert raw[1..] == rest;
    } else {
      assert raw[1..] == line[1..] + [NEWLINE] + rest;
      SplitFirstLine(line[1..], rest);
      assert [line[0]] + line[1..] == line;
    }
  }

  /** The texts of `xs`, each on its line. */
  function Text<T>(encode: T -> Bytes, xs: seq<T>): Bytes {
    if xs == [] then [] else encode(xs[0]) + [NEWLINE] + Text(encode, xs[1..])
  }

  function Encoded<T>(encode: T -> Bytes, xs: seq<T>): seq<Bytes> {
    if xs == [] then [] else [encode(xs[0])] + Encoded(encode, xs[1..])
  }

  /** No text holds a newline or is blank. */
  ghost predicate OneLine<T(!new)>(encode: T -> Bytes) {
    forall x :: NEWLINE !in encode(x) && !Blank(encode(x))
  }

  lemma {:induction false} TextConcat<T>(encode: T -> Bytes, a: seq<T>, b: seq<T>)
    ensures Text(encode, a + b) == Text(encode, a) + Text(encode, b)
  {
    if a == [] {
      assert a + b == b;
    } else {
      assert (a + b)[1..] == a[1..] + b;
      TextConcat(encode, a[1..], b);
    }
  }

  lemma TextAppend<T>(encode: T -> Bytes, xs: seq<T>, x: T)
    ensures Text(encode, xs + [x]) == Text(encode, xs) + (encode(x) + [NEWLINE])
  {
    TextConcat(encode, xs, [x]);
    assert Text(encode, [x]) == encode(x) + [NEWLINE] + Text(encode, [x][1..]);
  }

  lemma {:induction false} SplitText<T(!new)>(encode: T -> Bytes, xs: seq<T>, rest: Bytes)
    requires OneLine(encode)
    ensures SplitLines(Text(encode, xs) + rest) == Encoded(encode, xs) + SplitLines(rest)
  {
    if xs == [] {
      assert Text(encode, xs) + rest == rest;
    } else {
      var tail := Text(encode, xs[1..]) + rest;
      assert Text(encode, xs) + rest == encode(xs[0]) + [NEWLINE] + tail;
      SplitFirstLine(encode(xs[0]), tail);
      SplitText(encode, xs[1..], rest);
    }
  }

  lemma {:induction false} TextEndsInNewline<T>(encode: T -> Bytes, xs: seq<T>)
    ensures xs != [] ==> |Text(encode, xs)| > 0 && Text(encode, xs)[|Text(encode, xs)| - 1] == NEWLINE
  {
    if xs != [] { TextEndsInNewline(encode, xs[1..]); }
  }

  /** Every beginning of a text is the lines of its first elements and an unfinished line; only the whole holds all. */
  lemma {:induction false} BeginningOfText<T(!new)>(encode: T -> Bytes, xs: seq<T>, k: nat)
      returns (m: nat, torn: Bytes)
    requires OneLine(encode) && k <= |Text(encode, xs)|
    ensures m <= |xs| && (m == |xs| <==> k == |Text(encode, xs)|)
    ensures NEWLINE !in torn && Text(encode, xs)[..k] == Text(encode, xs[..m]) + torn
  {
    if xs == [] {
      m, torn := 0, [];
    } else {
      var line, rest := encode(xs[0]) + [NEWLINE], Text(encode, xs[1..]);
      assert Text(encode, xs) == line + rest;
      if k < |line| {
        m, torn := 0, encode(xs[0])[..k];
        assert (line + rest)[..k] == torn && Text(encode, xs[..0]) == [];
      } else {
        m, torn := BeginningOfText(encode, xs[1..], k - |line|);
        assert (line + rest)[..k] == line + rest[..k - |line|];
        assert xs[..m + 1][1..] == xs[1..][..m] && xs[..m + 1][0] == xs[0];
        m := m + 1;
      }
    }
  }

  // ---- An unfinished last line -------------------------------------------

  /** The length of the text up to and including its last newline. */
  function CompleteLength(raw: Bytes): (n: nat)
    ensures n <= |raw|
    ensures n > 0 ==> raw[n - 1] == NEWLINE
    ensures NEWLINE !in raw[n..]
  {
    if raw == [] then 0
    else if raw[|raw| - 1] == NEWLINE then |raw|
    else
      var n := CompleteLength(raw[..|raw| - 1]);
      assert raw[n..] == raw[..|raw| - 1][n..] + [raw[|raw| - 1]];
      n
  }

  /** What torn-tail recovery keeps. */
  function Recovered(raw: Bytes): Bytes {
    raw[..CompleteLength(raw)]
  }

  /** The last newline is where nothing behind it is a newline. */
  lemma SameCompleteLength(raw: Bytes, n: nat)
    requires n <= |raw| && (n > 0 ==> raw[n - 1] == NEWLINE)
    requires forall i | n <= i < |raw| :: raw[i] != NEWLINE
    ensures n == CompleteLength(raw)
  {
    var m := CompleteLength(raw);
    forall i | m <= i < |raw| ensures raw[i] != NEWLINE {
      assert raw[i] == raw[m..][i - m];
      assert raw[i] in raw[m..];
    }
  }

  lemma DropTail(whole: Bytes, torn: Bytes)
    requires whole == [] || whole[|whole| - 1] == NEWLINE
    requires NEWLINE !in torn
    ensures CompleteLength(whole + torn) == |whole| && Recovered(whole + torn) == whole
  {
    var raw := whole + torn;
    assert forall i | |whole| <= i < |raw| :: raw[i] == torn[i - |whole|] && raw[i] in torn;
    SameCompleteLength(raw, |whole|);
    assert raw[..|whole|] == whole;
  }
}
