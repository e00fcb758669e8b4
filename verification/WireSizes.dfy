/**
 Size bounds of what the broker sends: the text of a full response and of a
 full terminal chunk fit the frames that carry them.
 Source: crates/centrald-platform/src/broker.rs, crates/centrald-client/src/broker_session.rs
 */
module WireSizes {
  import opened Wrappers
  import opened Texts
  import opened LedgerRecords
  import Framing
  import Base64

  const MAX_WIRE_RESPONSE_BYTES := 384 * 1024
  const MAX_SESSION_WIRE_FRAME_BYTES := 1_500_000
  const MAX_FRAME_BYTES := 1024 * 1024

  // ---- A broker response -------------------------------------------------

  /** Bytes as a JSON array of numbers, without the brackets. */
  function Elements(bytes: Bytes): string {
    if bytes == [] then ""
    else if |bytes| == 1 then Decimal(bytes[0])
    else Decimal(bytes[0]) + "," + Elements(bytes[1..])
  }

  const RESULT_START := "{\"result\":\"ok\","
  const RESPONSE_START := "\"response\":{\"success\":"
  const OUTPUT_START := ",\"output\":["

  function ResponseHead(success: bool): string {
    RESULT_START + RESPONSE_START + (if success then "true" else "false") + OUTPUT_START
  }

  const EXIT_CODE_START := "],\"exit_code\":"

  /** The JSON text of a response to an accepted request. */
  function ResponseText(r: Response): string {
    ResponseHead(r.success) + Elements(r.output) + (EXIT_CODE_START + IntegerText(r.exitCode) + "}}")
  }

  function PowerOfTen(k: nat): nat {
    if k == 0 then 1 else 10 * PowerOfTen(k - 1)
  }

  lemma {:induction false} DecimalLength(n: nat, k: nat)
    requires k > 0 && n < PowerOfTen(k)
    ensures 0 < |Decimal(n)| <= k
  {
    if n >= 10 { DecimalLength(n / 10, k - 1); }
  }

  /** A byte takes at most three digits and a comma. */
  lemma {:induction false} ElementsLength(bytes: Bytes)
    ensures |Elements(bytes)| <= 4 * |bytes|
  {
    if bytes != [] {
      assert PowerOfTen(3) == 1000 by { assert PowerOfTen(1) == 10 && PowerOfTen(2) == 100; }
      DecimalLength(bytes[0], 3);
      if |bytes| > 1 { ElementsLength(bytes[1..]); }
    }
  }

  lemma IntegerLength(n: int)
    requires -0x8000_0000 <= n < 0x8000_0000
    ensures |IntegerText(n)| <= 11
  {
    assert PowerOfTen(10) == 10_000_000_000 by {
      assert PowerOfTen(3) == 1000 && PowerOfTen(6) == 1_000_000 && PowerOfTen(9) == 1_000_000_000;
    }
    DecimalLength(if n < 0 then -n else n, 10);
  }

  lemma {:induction false} ElementsAreAscii(bytes: Bytes)
    ensures IsAscii(Elements(bytes))
  {
    if bytes != [] {
      DecimalIsAscii(bytes[0]);
      if |bytes| > 1 { ElementsAreAscii(bytes[1..]); }
    }
  }

  lemma HeadIsAscii(success: bool)
    ensures IsAscii(ResponseHead(success)) && |ResponseHead(success)| < 60
  {
    AsciiParts(RESULT_START, RESPONSE_START);
    AsciiParts(RESULT_START + RESPONSE_START, if success then "true" else "false");
    AsciiParts(RESULT_START + RESPONSE_START + (if success then "true" else "false"), OUTPUT_START);
  }

  lemma TailIsAscii(exitCode: int)
    ensures IsAscii(EXIT_CODE_START + IntegerText(exitCode) + "}}")
  {
    DecimalIsAscii(if exitCode < 0 then -exitCode else exitCode);
    AsciiParts(EXIT_CODE_START, IntegerText(exitCode));
    AsciiParts(EXIT_CODE_START + IntegerText(exitCode), "}}");
  }

  lemma AsciiParts(a: string, b: string)
    requires IsAscii(a) && IsAscii(b)
    ensures IsAscii(a + b)
  {
  }

  lemma ResponseIsAscii(r: Response)
    ensures IsAscii(ResponseText(r))
  {
    HeadIsAscii(r.success);
    ElementsAreAscii(r.output);
    TailIsAscii(r.exitCode);
    AsciiParts(ResponseHead(r.success), Elements(r.output));
    AsciiParts(ResponseHead(r.success) + Elements(r.output), EXIT_CODE_START + IntegerText(r.exitCode) + "}}");
  }

  /** A text within the bound is read back from its frame. */
  lemma FramedTextIsReadBack(text: string, max: nat)
    requires IsAscii(text) && 0 < |text| <= max < Framing.U32_LIMIT
    ensures var body := Utf8(text);
      && Framing.Fits(body, max) && TextOf(body) == text
      && Framing.TakeFrame(Framing.Frame(body), max) == Ok((body, []))
      && Framing.UnframeBytes(Framing.Frame(body), max) == Ok((body, 4 + |body|))
  {
    var body := Utf8(text);
    Framing.TakeFrameIff(Framing.Frame(body), max, body, []);
    assert Framing.Frame(body) + [] == Framing.Frame(body);
    Framing.UnframeBytesIff(Framing.Frame(body), max, body, 4 + |body|);
  }

  /** Every response with recordable output fits the response bound, so its frame is read back as the same text. */
  lemma ResponseFits(r: Response)
    requires |r.output| <= MAX_RECORDED_OUTPUT_BYTES && -0x8000_0000 <= r.exitCode < 0x8000_0000
    ensures IsAscii(ResponseText(r)) && |ResponseText(r)| <= 4 * MAX_RECORDED_OUTPUT_BYTES + 100
    ensures var body := Utf8(ResponseText(r));
      && Framing.UnframeBytes(Framing.Frame(body), MAX_WIRE_RESPONSE_BYTES) == Ok((body, 4 + |body|))
      && TextOf(body) == ResponseText(r)
  {
    HeadIsAscii(r.success);
    ElementsLength(r.output);
    IntegerLength(r.exitCode);
    ResponseIsAscii(r);
    FramedTextIsReadBack(ResponseText(r), MAX_WIRE_RESPONSE_BYTES);
  }

  // ---- A terminal chunk --------------------------------------------------

  const DATA_START := "{\"kind\":\"data\",\"data_base64\":\""

  /** The JSON text of a data frame; no character of the encoding needs an escape. */
  function DataFrameText(chunk: Bytes): string {
    DATA_START + Base64.Encode(chunk) + "\"}"
  }

  lemma {:induction false} Base64IsAscii(chunk: Bytes)
    ensures IsAscii(Base64.Encode(chunk))
  {
    if |chunk| > 3 {
      Base64IsAscii(chunk[3..]);
      AsciiParts(Base64.EncodeGroup(chunk[..3]), Base64.Encode(chunk[3..]));
    }
  }

  lemma DataFrameIsAscii(chunk: Bytes)
    ensures IsAscii(DataFrameText(chunk))
  {
    Base64IsAscii(chunk);
    AsciiParts(DATA_START, Base64.Encode(chunk));
    AsciiParts(DATA_START + Base64.Encode(chunk), "\"}");
  }

  /**
   A chunk of up to 1 MiB fits the session frame bound, so its text is read
   back, and its data decodes to the chunk.
   */
  lemma DataFrameFits(chunk: Bytes)
    requires |chunk| <= MAX_FRAME_BYTES
    ensures IsAscii(DataFrameText(chunk)) && |DataFrameText(chunk)| <= MAX_SESSION_WIRE_FRAME_BYTES
    ensures var body := Utf8(DataFrameText(chunk));
      && Framing.TakeFrame(Framing.Frame(body), MAX_SESSION_WIRE_FRAME_BYTES) == Ok((body, []))
      && TextOf(body) == DataFrameText(chunk)
    ensures Base64.Decode(Base64.Encode(chunk)) == Some(chunk)
  {
    DataFrameIsAscii(chunk);
    DataFrameLength(chunk);
    FramedTextIsReadBack(DataFrameText(chunk), MAX_SESSION_WIRE_FRAME_BYTES);
    Base64.DecodeUndoesEncode(chunk);
  }

  lemma DataFrameLength(chunk: Bytes)
    requires |chunk| <= MAX_FRAME_BYTES
    ensures 0 < |DataFrameText(chunk)| <= MAX_SESSION_WIRE_FRAME_BYTES
  {
    Base64.EncodedLength(chunk);
  }
}
