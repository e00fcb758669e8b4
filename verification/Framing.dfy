/**
 Length-prefixed frames on the broker's local channel: four bytes of length,
 most significant first, then the body.
 Source: crates/centrald-client/src/broker_session.rs, crates/centrald-client/src/broker.rs
 */
module Framing {
  import opened Wrappers

  const U32_LIMIT := 0x1_0000_0000
  const MAX_FIRST_FRAME_BYTES := 128 * 1024

  function ToBigEndian(n: nat): (b: Bytes)
    requires n < U32_LIMIT
    ensures |b| == 4
  {
    [n / 0x100_0000, n / 0x1_0000 % 0x100, n / 0x100 % 0x100, n % 0x100]
  }

  function FromBigEndian(b: Bytes): (n: nat)
    requires |b| == 4
    ensures n < U32_LIMIT
  {
    var w: int, x: int, y: int, z: int := b[0], b[1], b[2], b[3];
    w * 0x100_0000 + x * 0x1_0000 + y * 0x100 + z
  }

  lemma LengthRoundTrip(n: nat)
    requires n < U32_LIMIT
    ensures FromBigEndian(ToBigEndian(n)) == n
  {
    var a, b := n / 0x100, n / 0x1_0000;
    assert n == 0x100 * a + n % 0x100;
    assert a / 0x100 == b && a == 0x100 * b + a % 0x100;
    assert b / 0x100 == n / 0x100_0000 && b == 0x100 * (n / 0x100_0000) + b % 0x100;
  }

  lemma LengthIsUnique(b: Bytes)
    requires |b| == 4
    ensures ToBigEndian(FromBigEndian(b)) == b
  {
    var w: int, x: int, y: int, z: int := b[0], b[1], b[2], b[3];
    var n := FromBigEndian(b);
    assert n / 0x100_0000 == w;
    assert n / 0x1_0000 == w * 0x100 + x;
    assert n / 0x100 == w * 0x1_0000 + x * 0x100 + y;
  }

  lemma MostSignificantFirst()
    ensures ToBigEndian(0x01020304) == [1, 2, 3, 4]
  {
  }

  /** The bytes of one frame. */
  function Frame(body: Bytes): Bytes
    requires |body| < U32_LIMIT
  {
    ToBigEndian(|body|) + body
  }

  /** A body the reader accepts under a bound. */
  predicate Fits(body: Bytes, max: nat) {
    0 < |body| <= max && |body| < U32_LIMIT
  }

  datatype FrameError = TooLarge | Truncated | BadLength | TrailingBytes

  /** The first frame of a stream and what follows it. */
  function TakeFrame(stream: Bytes, max: nat): Result<(Bytes, Bytes), FrameError> {
    if |stream| < 4 then Err(Truncated)
    else
      var size := FromBigEndian(stream[..4]);
      if size == 0 || size > max then Err(BadLength)
      else if |stream| < 4 + size then Err(Truncated)
      else Ok((stream[4..4 + size], stream[4 + size..]))
  }

  /** Reading inverts writing: a stream starts with a frame of an acceptable body exactly when that body is read. */
  lemma TakeFrameIff(stream: Bytes, max: nat, body: Bytes, rest: Bytes)
    ensures TakeFrame(stream, max) == Ok((body, rest)) <==> Fits(body, max) && stream == Frame(body) + rest
  {
    if Fits(body, max) && stream == Frame(body) + rest {
      LengthRoundTrip(|body|);
      assert stream[..4] == ToBigEndian(|body|);
      assert stream[4..4 + |body|] == body && stream[4 + |body|..] == rest;
    }
    if TakeFrame(stream, max) == Ok((body, rest)) {
      LengthIsUnique(stream[..4]);
      assert stream == stream[..4] + stream[4..4 + |body|] + stream[4 + |body|..];
    }
  }

  // ---- Whole streams -----------------------------------------------------

  predicate AllFit(bodies: seq<Bytes>, max: nat) {
    forall i {:trigger bodies[i]} | 0 <= i < |bodies| :: Fits(bodies[i], max)
  }

  function Frames(bodies: seq<Bytes>, max: nat): Bytes
    requires AllFit(bodies, max)
  {
    if bodies == [] then [] else Frame(bodies[0]) + Frames(bodies[1..], max)
  }

  /** Read frames until the stream ends. */
  function TakeAll(stream: Bytes, max: nat): Result<seq<Bytes>, FrameError>
    decreases |stream|
  {
    if stream == [] then Ok([])
    else
      match TakeFrame(stream, max)
      case Err(error) => Err(error)
      case Ok((body, rest)) =>
        match TakeAll(rest, max)
        case Err(error) => Err(error)
        case Ok(bodies) => Ok([body] + bodies)
  }

  /** Any list of acceptable bodies is read back exactly. */
  lemma {:induction false} StreamRoundTrip(bodies: seq<Bytes>, max: nat)
    requires AllFit(bodies, max)
    ensures TakeAll(Frames(bodies, max), max) == Ok(bodies)
  {
    if bodies != [] {
      TakeFrameIff(Frames(bodies, max), max, bodies[0], Frames(bodies[1..], max));
      StreamRoundTrip(bodies[1..], max);
      assert bodies == [bodies[0]] + bodies[1..];
    }
  }

  /** And a stream that is read to its end is the frames of what was read, and nothing else. */
  lemma {:induction false} StreamIsItsFrames(stream: Bytes, max: nat)
    requires TakeAll(stream, max).Ok?
    ensures AllFit(TakeAll(stream, max).value, max) && Frames(TakeAll(stream, max).value, max) == stream
    decreases |stream|
  {
    if stream != [] {
      var (body, rest) := TakeFrame(stream, max).value;
      TakeFrameIff(stream, max, body, rest);
      StreamIsItsFrames(rest, max);
      assert TakeAll(stream, max).value == [body] + TakeAll(rest, max).value;
      assert ([body] + TakeAll(rest, max).value)[1..] == TakeAll(rest, max).value;
    }
  }

  /** No frame is a proper prefix of another: a cut frame is an error, never another body. */
  lemma CutFrameIsRefused(body: Bytes, max: nat, k: nat)
    requires Fits(body, max) && k < |Frame(body)|
    ensures TakeFrame(Frame(body)[..k], max) == Err(Truncated)
  {
    LengthRoundTrip(|body|);
    if k >= 4 { assert Frame(body)[..k][..4] == ToBigEndian(|body|); }
  }

  // ---- Single messages ---------------------------------------------------

  /** One message holding exactly one frame. */
  function UnframeMessage(framed: Bytes, max: nat): Result<Bytes, FrameError> {
    if |framed| < 4 then Err(Truncated)
    else
      var size := FromBigEndian(framed[..4]);
      if size == 0 || size > max || 4 + size != |framed| then Err(TrailingBytes) else Ok(framed[4..4 + size])
  }

  lemma UnframeMessageIff(framed: Bytes, max: nat, body: Bytes)
    ensures UnframeMessage(framed, max) == Ok(body) <==> Fits(body, max) && framed == Frame(body)
  {
    TakeFrameIff(framed, max, body, []);
    if Fits(body, max) { assert Frame(body) + [] == Frame(body); }
    if |framed| >= 4 {
      var size := FromBigEndian(framed[..4]);
      if |framed| == 4 + size { assert framed[4 + size..] == []; }
    }
  }

  /** A body and the number of bytes its frame takes; trailing bytes are the caller's. */
  function UnframeBytes(framed: Bytes, max: nat): Result<(Bytes, nat), FrameError> {
    if |framed| < 4 then Err(Truncated)
    else
      var size := FromBigEndian(framed[..4]);
      if size == 0 || size > max then Err(BadLength)
      else if 4 + size > |framed| then Err(Truncated)
      else Ok((framed[4..4 + size], 4 + size))
  }

  lemma UnframeBytesIff(framed: Bytes, max: nat, body: Bytes, total: nat)
    ensures UnframeBytes(framed, max) == Ok((body, total)) <==>
      Fits(body, max) && total == |Frame(body)| && Frame(body) <= framed
  {
    if Fits(body, max) && Frame(body) <= framed {
      TakeFrameIff(framed, max, body, framed[|Frame(body)|..]);
      assert framed == Frame(body) + framed[|Frame(body)|..];
    }
    if UnframeBytes(framed, max) == Ok((body, total)) {
      TakeFrameIff(framed, max, body, framed[total..]);
    }
  }

  // ---- Streams in place --------------------------------------------------

  /** A byte stream: writing appends at its end, reading takes from its front. */
  class ByteStream {
    var data: Bytes

    constructor ()
      ensures data == []
    {
      data := [];
    }

    /** Exactly `count` bytes or an error; a short read leaves nothing to read. */
    method ReadExact(count: nat) returns (r: Result<Bytes, FrameError>)
      modifies this
      ensures |old(data)| >= count ==> r == Ok(old(data)[..count]) && data == old(data)[count..]
      ensures |old(data)| < count ==> r == Err(Truncated) && data == []
    {
      if |data| < count {
        data := [];
        return Err(Truncated);
      }
      r := Ok(data[..count]);
      data := data[count..];
    }

    method ReadFrame(max: nat) returns (r: Result<Bytes, FrameError>)
      modifies this
      ensures match TakeFrame(old(data), max)
        case Ok((body, rest)) => r == Ok(body) && data == rest
        case Err(error) => r == Err(error) && data == if error.BadLength? then old(data)[4..] else []
    {
      var length := ReadExact(4);
      if length.Err? { return length; }
      var size := FromBigEndian(length.value);
      if size == 0 || size > max { return Err(BadLength); }
      assert |old(data)| >= 4 + size ==>
        old(data)[4..][..size] == old(data)[4..4 + size] && old(data)[4..][size..] == old(data)[4 + size..];
      r := ReadExact(size);
    }

    method WriteFrame(body: Bytes) returns (r: Result<(), FrameError>)
      modifies this
      ensures |body| < U32_LIMIT ==> r.Ok? && data == old(data) + Frame(body)
      ensures |body| >= U32_LIMIT ==> r == Err(TooLarge) && data == old(data)
    {
      if |body| >= U32_LIMIT { return Err(TooLarge); }
      data := data + ToBigEndian(|body|);
      data := data + body;
      return Ok(());
    }
  }

  // ---- Polling for the first frame ---------------------------------------

  /** What one poll of the pipe yields. */
  datatype Poll = Chunk(bytes: Bytes) | Nothing(timedOut: bool) | Failure

  datatype PollError = Bound | Trailing | TimedOut | Broken | StillWaiting

  predicate Harmless(polls: seq<Poll>) {
    forall i | 0 <= i < |polls| :: polls[i].Chunk? || (polls[i].Nothing? && !polls[i].timedOut)
  }

  function Received(polls: seq<Poll>): Bytes {
    if polls == [] then []
    else Received(polls[..|polls| - 1]) + (if polls[|polls| - 1].Chunk? then polls[|polls| - 1].bytes else [])
  }

  lemma {:induction false} ReceivedGrows(polls: seq<Poll>, m: nat, n: nat)
    requires m <= n <= |polls|
    ensures Received(polls[..m]) <= Received(polls[..n])
    decreases n
  {
    if m < n {
      ReceivedGrows(polls, m, n - 1);
      assert polls[..n][..n - 1] == polls[..n - 1];
    }
  }

  /** The first `n` polls bring exactly one acceptable frame, in any pieces, before any failure or timeout. */
  predicate Delivers(polls: seq<Poll>, n: nat, body: Bytes) {
    n <= |polls| && Harmless(polls[..n]) && Fits(body, MAX_FIRST_FRAME_BYTES) && Received(polls[..n]) == Frame(body)
  }

  /** What has arrived is a prefix of the frame under way, so its length is known once four bytes are here. */
  lemma DeliveryUnderWay(polls: seq<Poll>, i: nat, n: nat, body: Bytes)
    requires Delivers(polls, n, body) && i <= n
    ensures var frame := Received(polls[..i]);
      && |frame| <= |Frame(body)|
      && (|frame| >= 4 ==> FromBigEndian(frame[..4]) == |body|)
      && (|frame| == |Frame(body)| ==> frame == Frame(body))
    ensures i < n ==> polls[i].Chunk? || (polls[i].Nothing? && !polls[i].timedOut)
    ensures i < n && polls[i].Chunk? ==> |Received(polls[..i]) + polls[i].bytes| <= |Frame(body)|
  {
    var frame := Received(polls[..i]);
    ReceivedGrows(polls, i, n);
    LengthRoundTrip(|body|);
    if |frame| >= 4 { assert frame[..4] == Frame(body)[..4]; }
    if i < n {
      assert polls[..n][i] == polls[i];
      ReceivedGrows(polls, i + 1, n);
      ReceivedNext(polls, i);
    }
  }

  lemma ReceivedNext(polls: seq<Poll>, i: nat)
    requires i < |polls|
    ensures Received(polls[..i + 1]) == Received(polls[..i]) + (if polls[i].Chunk? then polls[i].bytes else [])
  {
    assert polls[..i + 1][..i] == polls[..i];
  }

  /** No acceptable frame has been complete before poll `i`. */
  ghost predicate NoneBefore(polls: seq<Poll>, i: nat) {
    forall n: nat, body: Bytes :: Delivers(polls, n, body) ==> n >= i
  }

  /** The frame so far shows that nothing acceptable can come, or that it is not complete yet. */
  lemma NotCompleteYet(polls: seq<Poll>, i: nat)
    requires i <= |polls| && NoneBefore(polls, i)
    requires var frame := Received(polls[..i]); |frame| >= 4 ==> |frame| != 4 + FromBigEndian(frame[..4])
    ensures NoneBefore(polls, i + 1)
  {
    forall n: nat, body: Bytes | Delivers(polls, n, body) ensures n >= i + 1 {
      DeliveryUnderWay(polls, i, n, body);
    }
  }

  lemma CompleteNow(polls: seq<Poll>, i: nat, n: nat, now: Bytes, body: Bytes)
    requires Delivers(polls, i, now) && Delivers(polls, n, body) && i <= n
    ensures body == now
  {
    DeliveryUnderWay(polls, i, n, body);
    LengthRoundTrip(|now|);
    assert Frame(now)[..4] == ToBigEndian(|now|);
    assert Frame(now)[4..] == now && Frame(body)[4..] == body;
  }

  /** The polling loop returns a body exactly when some number of polls deliver it. */
  method PollFirstFrame(polls: seq<Poll>) returns (r: Result<Bytes, PollError>)
    ensures r.Ok? ==> exists n :: Delivers(polls, n, r.value)
    ensures forall n: nat, body: Bytes :: Delivers(polls, n, body) ==> r == Ok(body)
  {
    var frame: Bytes := [];
    var i := 0;
    while true
      invariant 0 <= i <= |polls| && frame == Received(polls[..i]) && Harmless(polls[..i])
      invariant NoneBefore(polls, i)
      decreases |polls| - i
    {
      forall n: nat, body: Bytes | Delivers(polls, n, body)
        ensures |frame| <= 4 + |body| && (|frame| >= 4 ==> FromBigEndian(frame[..4]) == |body|)
      {
        DeliveryUnderWay(polls, i, n, body);
      }
      if |frame| >= 4 {
        var size := FromBigEndian(frame[..4]);
        if size == 0 || size > MAX_FIRST_FRAME_BYTES { return Err(Bound); }
        if |frame| == 4 + size {
          var body := UnframeMessage(frame, MAX_FIRST_FRAME_BYTES).value;
          UnframeMessageIff(frame, MAX_FIRST_FRAME_BYTES, body);
          assert Delivers(polls, i, body);
          forall n: nat, other: Bytes | Delivers(polls, n, other) ensures other == body {
            CompleteNow(polls, i, n, body, other);
          }
          return Ok(body);
        }
        if |frame| > 4 + size { return Err(Trailing); }
      }
      NotCompleteYet(polls, i);
      forall n: nat, body: Bytes | Delivers(polls, n, body)
        ensures i < |polls| && (polls[i].Chunk? || (polls[i].Nothing? && !polls[i].timedOut))
        ensures polls[i].Chunk? ==> |frame + polls[i].bytes| <= 4 + |body|
      {
        DeliveryUnderWay(polls, i, n, body);
      }
      if i == |polls| { return Err(StillWaiting); }
      ReceivedNext(polls, i);
      assert polls[..i + 1] == polls[..i] + [polls[i]];
      match polls[i] {
        case Chunk(bytes) =>
          frame := frame + bytes;
          if |frame| > 4 + MAX_FIRST_FRAME_BYTES { return Err(Bound); }
        case Nothing(timedOut) =>
          if timedOut { return Err(TimedOut); }
        case Failure =>
          return Err(Broken);
      }
      i := i + 1;
    }
  }
}
