/**
 The text of an active-pointer file: which names are accepted, and what comes
 back when an accepted name is written as a line and read again.
 Source: crates/centrald-common/src/active_pointer.rs
 */
module PointerValues {
  import opened Wrappers

  datatype PointerError = InvalidValue | Missing | PendingPublication | IoFailed

  /** The Unicode White_Space property. */
  predicate IsWhitespace(c: char) {
    var n := c as int;
    || 9 <= n <= 13 || n == 0x20 || n == 0x85 || n == 0xA0 || n == 0x1680
    || 0x2000 <= n <= 0x200A || n == 0x2028 || n == 0x2029 || n == 0x202F || n == 0x205F || n == 0x3000
  }

  function TrimStart(s: string): string {
    if s != [] && IsWhitespace(s[0]) then TrimStart(s[1..]) else s
  }

  function TrimEnd(s: string): string {
    if s != [] && IsWhitespace(s[|s| - 1]) then TrimEnd(s[..|s| - 1]) else s
  }

  function Trim(s: string): string {
    TrimEnd(TrimStart(s))
  }

  /** The length of a text in UTF-8 bytes. */
  function Utf8Length(s: string): nat {
    if s == [] then 0
    else
      var n := s[0] as int;
      (if n < 0x80 then 1 else if n < 0x800 then 2 else if n < 0x1_0000 then 3 else 4) + Utf8Length(s[1..])
  }

  /** One simple relative file name. */
  predicate ValidValue(v: string) {
    && v != "" && Utf8Length(v) <= 255
    && '\0' !in v && '/' !in v && '\\' !in v
    && v != "." && v != ".."
  }

  function Line(v: string): string {
    v + "\n"
  }

  /** What reading a pointer file returns. */
  function ReadValue(content: string): Result<string, PointerError> {
    var value := Trim(content);
    if ValidValue(value) then Ok(value) else Err(InvalidValue)
  }

  lemma {:induction false} TrimStartOfLine(v: string)
    ensures if TrimStart(v) == "" then TrimStart(Line(v)) == "" else TrimStart(Line(v)) == Line(TrimStart(v))
  {
    if v != [] && IsWhitespace(v[0]) {
      assert Line(v)[1..] == Line(v[1..]);
      TrimStartOfLine(v[1..]);
    } else if v == [] {
      assert Line(v) == "\n" && Line(v)[1..] == "";
      assert TrimStart("") == "";
    }
  }

  /** The newline of a written line is trimmed with whatever whitespace precedes it. */
  lemma TrimOfLine(v: string)
    ensures Trim(Line(v)) == Trim(v)
  {
    TrimStartOfLine(v);
    var head := TrimStart(v);
    if head != "" {
      assert Line(head)[..|head|] == head;
    }
  }

  /**
   The exact condition for reading back a published name: it must not begin or
   end with whitespace. The name check on publication does not ask for that.
   */
  lemma ReadsBackExactlyTrimmedNames(v: string)
    requires ValidValue(v)
    ensures ReadValue(Line(v)) == Ok(v) <==> Trim(v) == v
  {
    TrimOfLine(v);
  }

  /** Accepted names that do not come back: one is shortened, one becomes unreadable. */
  lemma SomeAcceptedNamesDoNotComeBack()
    ensures ValidValue("a ") && ReadValue(Line("a ")) == Ok("a")
    ensures ValidValue(" ") && ReadValue(Line(" ")) == Err(InvalidValue)
  {
    TrimOfLine("a ");
    TrimOfLine(" ");
    assert Utf8Length("a ") == 1 + Utf8Length(" ") && "a "[1..] == " " && " "[1..] == "";
    assert TrimStart("a ") == "a " && "a "[..1] == "a";
    assert TrimEnd("a ") == TrimEnd("a") == "a";
    assert TrimStart(" ") == TrimStart("") == "";
    assert Utf8Length("a") == 1 + Utf8Length("") && "a"[1..] == "";
  }
}
