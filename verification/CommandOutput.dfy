/**
 What a privileged command's output becomes: two bounded readers, one queue,
 and the merge of what arrived.
 Source: crates/centrald-client/src/runners.rs
 */
module CommandOutput {
  import opened Wrappers
  import LedgerRecords

  const MAX_OPERATION_OUTPUT_BYTES: nat := 64 * 1024

  /** One read of a pipe; no bytes means its end. */
  datatype PipeRead = Data(bytes: Bytes) | Failed

  /** Everything the pipe yields up to its end. */
  function Stream(pipe: seq<PipeRead>): Bytes {
    if pipe == [] || pipe[0].Failed? || pipe[0].bytes == [] then []
    else pipe[0].bytes + Stream(pipe[1..])
  }

  function Joined(chunks: seq<Bytes>): Bytes {
    if chunks == [] then [] else Joined(chunks[..|chunks| - 1]) + chunks[|chunks| - 1]
  }

  lemma JoinedNext(chunks: seq<Bytes>, chunk: Bytes)
    ensures Joined(chunks + [chunk]) == Joined(chunks) + chunk
  {
    assert (chunks + [chunk])[..|chunks|] == chunks;
  }

  lemma {:induction false} JoinedPrefix(chunks: seq<Bytes>, n: nat)
    requires n <= |chunks|
    ensures Joined(chunks[..n]) <= Joined(chunks)
    decreases |chunks|
  {
    if n < |chunks| {
      JoinedPrefix(chunks[..|chunks| - 1], n);
      assert chunks[..|chunks| - 1][..n] == chunks[..n];
    } else {
      assert chunks[..n] == chunks;
    }
  }

  /**
   One reader sends the pipe's bytes in order, at most `max` of them; while
   the receiver takes every chunk (`accepts` counts those it takes), it sends
   all there are up to `max`.
   */
  method DrainPipe(pipe: seq<PipeRead>, max: nat, accepts: nat) returns (sent: seq<Bytes>)
    ensures IsDrained(pipe, max, accepts, sent)
  {
    sent := [];
    var total, i := 0, 0;
    ghost var rest := Stream(pipe);
    assert pipe[0..] == pipe && rest[0..] == rest;
    while i < |pipe|
      invariant 0 <= i <= |pipe| && |sent| <= accepts && |sent| <= i
      invariant total <= max && (i > 0 ==> total < max)
      invariant rest == Stream(pipe[i..]) && Drained(pipe, sent, total, rest)
    {
      StreamFrom(pipe, i);
      if pipe[i].Failed? || |pipe[i].bytes| == 0 {
        DrainedToItsEnd(pipe, max, accepts, sent, total);
        return;
      }
      var bytes := pipe[i].bytes;
      rest := Stream(pipe[i + 1..]);
      var take := Min(|bytes|, max - total);
      if take > 0 {
        if |sent| >= accepts {
          DrainedInPart(pipe, max, accepts, sent, total);
          return;
        }
        sent := SendChunk(pipe, sent, total, bytes, take, rest);
        total := total + take;
      }
      if total >= max {
        DrainedInPart(pipe, max, accepts, sent, total);
        return;
      }
      i := i + 1;
    }
    DrainedToItsEnd(pipe, max, accepts, sent, total);
  }

  /**
   What was sent is a beginning of the stream within the bound, in no more
   chunks than were read or taken, and all of it that the bound allows while the
   receiver takes every chunk.
   */
  predicate IsDrained(pipe: seq<PipeRead>, max: nat, accepts: nat, sent: seq<Bytes>) {
    var stream, joined := Stream(pipe), Joined(sent);
    && joined <= stream && |joined| <= max
    && |sent| <= accepts && |sent| <= |pipe|
    && (|sent| < accepts ==> |joined| == Min(max, |stream|))
  }

  lemma DrainedToItsEnd(pipe: seq<PipeRead>, max: nat, accepts: nat, sent: seq<Bytes>, total: nat)
    requires Drained(pipe, sent, total, []) && total <= max && |sent| <= accepts && |sent| <= |pipe|
    ensures IsDrained(pipe, max, accepts, sent)
  {
    var stream := Stream(pipe);
    assert total == |stream| by { assert |stream[total..]| == 0; }
  }

  lemma DrainedInPart(pipe: seq<PipeRead>, max: nat, accepts: nat, sent: seq<Bytes>, total: nat)
    requires total <= |Stream(pipe)| && Joined(sent) == Stream(pipe)[..total]
    requires total <= max && |sent| <= accepts && |sent| <= |pipe| && (total == max || |sent| == accepts)
    ensures IsDrained(pipe, max, accepts, sent)
  {
  }

  lemma StreamFrom(pipe: seq<PipeRead>, i: nat)
    requires i < |pipe|
    ensures Stream(pipe[i..]) ==
      if pipe[i].Failed? || pipe[i].bytes == [] then [] else pipe[i].bytes + Stream(pipe[i + 1..])
  {
    assert pipe[i..][0] == pipe[i] && pipe[i..][1..] == pipe[i + 1..];
  }

  /** The first `total` bytes of the pipe are sent and `rest` is left. */
  predicate Drained(pipe: seq<PipeRead>, sent: seq<Bytes>, total: nat, rest: Bytes) {
    var stream := Stream(pipe);
    total <= |stream| && Joined(sent) == stream[..total] && stream[total..] == rest
  }

  /** A chunk of the next read is sent, all of it or as much as the bound allows. */
  method SendChunk(ghost pipe: seq<PipeRead>, sent: seq<Bytes>, ghost total: nat, bytes: Bytes, take: nat,
                   ghost rest: Bytes)
    returns (sent': seq<Bytes>)
    requires Drained(pipe, sent, total, bytes + rest) && take <= |bytes|
    ensures |sent'| == |sent| + 1
    ensures total + take <= |Stream(pipe)| && Joined(sent') == Stream(pipe)[..total + take]
    ensures take == |bytes| ==> Drained(pipe, sent', total + take, rest)
  {
    SliceStep(Stream(pipe), total, bytes, rest, take);
    JoinedNext(sent, bytes[..take]);
    sent' := sent + [bytes[..take]];
  }

  lemma SliceStep(stream: Bytes, total: nat, bytes: Bytes, rest: Bytes, take: nat)
    requires total <= |stream| && stream[total..] == bytes + rest && take <= |bytes|
    ensures total + take <= |stream| && stream[..total + take] == stream[..total] + bytes[..take]
    ensures take == |bytes| ==> stream[total + take..] == rest
  {
    assert forall k | 0 <= k < take :: stream[total + k] == stream[total..][k];
    if take == |bytes| { assert stream[total + take..] == stream[total..][take..]; }
  }

  /** Chunks come off the queue in the order `arrival` says, each reader's own chunks in order. */
  method CollectChunks(outChunks: seq<Bytes>, errChunks: seq<Bytes>, arrival: seq<bool>)
      returns (outBytes: Bytes, errBytes: Bytes)
    ensures outBytes == Joined(outChunks[..Min(Count(arrival, true), |outChunks|)])
    ensures errBytes == Joined(errChunks[..Min(Count(arrival, false), |errChunks|)])
  {
    outBytes, errBytes := [], [];
    var o, e := 0, 0;
    var i := 0;
    while i < |arrival|
      invariant 0 <= i <= |arrival|
      invariant o == Min(Count(arrival[..i], true), |outChunks|) && outBytes == Joined(outChunks[..o])
      invariant e == Min(Count(arrival[..i], false), |errChunks|) && errBytes == Joined(errChunks[..e])
    {
      CountNext(arrival, i);
      if arrival[i] && o < |outChunks| {
        assert outChunks[..o + 1] == outChunks[..o] + [outChunks[o]];
        JoinedNext(outChunks[..o], outChunks[o]);
        outBytes := outBytes + outChunks[o];
        o := o + 1;
      } else if !arrival[i] && e < |errChunks| {
        assert errChunks[..e + 1] == errChunks[..e] + [errChunks[e]];
        JoinedNext(errChunks[..e], errChunks[e]);
        errBytes := errBytes + errChunks[e];
        e := e + 1;
      }
      i := i + 1;
    }
    assert arrival[..|arrival|] == arrival;
  }

  /** All of stdout, then as much of stderr as the bound leaves room for. */
  method MergeOutput(outBytes: Bytes, errBytes: Bytes) returns (output: Bytes)
    ensures outBytes <= output && output[|outBytes|..] <= errBytes
    ensures |output| == Max(|outBytes|, Min(|outBytes| + |errBytes|, MAX_OPERATION_OUTPUT_BYTES))
  {
    output := outBytes;
    if |output| < MAX_OPERATION_OUTPUT_BYTES {
      var remaining := MAX_OPERATION_OUTPUT_BYTES - |output|;
      var take := Min(|errBytes|, remaining);
      output := output + errBytes[..take];
    }
  }

  /** How the command ended; one that never does within its time is terminated. */
  datatype Exit = Exited(code: Option<int>) | TimedOut

  datatype BoundedOutput = BoundedOutput(success: bool, exitCode: int, output: Bytes)

  /**
   A command that ends in time yields a prefix of its stdout and then a prefix of
   its stderr, of at most 64 KiB together, which the ledger always records; when
   every chunk is taken and arrives in time and the two fit, it is all of both.
   A command that does not end yields nothing but the error.
   */
  method RunBounded(exit: Exit, stdout: seq<PipeRead>, stderr: seq<PipeRead>, takesOut: nat, takesErr: nat,
      arrival: seq<bool>)
    returns (r: Result<BoundedOutput, ()>, ghost split: nat)
    ensures r.Err? <==> exit.TimedOut?
    ensures r.Ok? ==> r.value.success == (exit.code == Some(0)) && r.value.exitCode == exit.code.GetOr(1)
    ensures r.Ok? ==> var output := r.value.output;
      && split <= |output| && output[..split] <= Stream(stdout) && output[split..] <= Stream(stderr)
      && |output| <= MAX_OPERATION_OUTPUT_BYTES && |output| <= LedgerRecords.MAX_RECORDED_OUTPUT_BYTES
    ensures && r.Ok? && takesOut > |stdout| && takesErr > |stderr|
            && Count(arrival, true) >= |stdout| && Count(arrival, false) >= |stderr|
            && |Stream(stdout)| + |Stream(stderr)| <= MAX_OPERATION_OUTPUT_BYTES
            ==> r.value.output == Stream(stdout) + Stream(stderr)
  {
    split := 0;
    var outChunks := DrainPipe(stdout, MAX_OPERATION_OUTPUT_BYTES, takesOut);
    var errChunks := DrainPipe(stderr, MAX_OPERATION_OUTPUT_BYTES, takesErr);
    if exit.TimedOut? {
      return Err(()), 0;
    }
    var outBytes, errBytes := CollectChunks(outChunks, errChunks, arrival);
    JoinedPrefix(outChunks, Min(Count(arrival, true), |outChunks|));
    JoinedPrefix(errChunks, Min(Count(arrival, false), |errChunks|));
    var output := MergeOutput(outBytes, errBytes);
    split := |outBytes|;
    PrefixOfPrefix(outBytes, Joined(outChunks), Stream(stdout));
    PrefixOfPrefix(errBytes, Joined(errChunks), Stream(stderr));
    PrefixOfPrefix(output[split..], errBytes, Stream(stderr));
    AllOfBoth(output, split, outBytes, errBytes, Stream(stdout), Stream(stderr));
    if Count(arrival, true) >= |stdout| && Count(arrival, false) >= |stderr| {
      assert outChunks[..|outChunks|] == outChunks && errChunks[..|errChunks|] == errChunks;
    }
    r := Ok(BoundedOutput(exit.code == Some(0), exit.code.GetOr(1), output));
  }

  lemma PrefixOfPrefix(a: Bytes, b: Bytes, c: Bytes)
    requires a <= b && |b| <= |c| && b == c[..|b|]
    ensures a <= c && a == c[..|a|]
  {
  }

  lemma AllOfBoth(output: Bytes, split: nat, a: Bytes, b: Bytes, c: Bytes, d: Bytes)
    requires split == |a| && a <= output && output[split..] <= b && a <= c && b <= d
    ensures |a| == |c| && |b| == |d| && |output| == |a| + |b| ==> output == c + d
  {
    if |a| == |c| && |b| == |d| && |output| == |a| + |b| {
      assert output == output[..split] + output[split..];
    }
  }

  function Count(flags: seq<bool>, flag: bool): nat {
    if flags == [] then 0 else Count(flags[..|flags| - 1], flag) + if flags[|flags| - 1] == flag then 1 else 0
  }

  lemma CountNext(flags: seq<bool>, i: nat)
    requires i < |flags|
    ensures forall flag :: Count(flags[..i + 1], flag) == Count(flags[..i], flag) + if flags[i] == flag then 1 else 0
  {
    assert flags[..i + 1][..i] == flags[..i];
  }
}
