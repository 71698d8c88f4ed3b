/**
  The buffered writer seen from the logger, and the logger's `write`
  helper that keeps handing it the unwritten suffix of a byte string.

  The writer itself is opaque. It is modelled as an oracle: given every
  call made to it so far and the chunk offered now, it answers how many
  bytes it accepted and which error, if any, it reports. Quantifying over
  all oracles covers every behaviour of the real writer.
 */
module Writer {
  import opened Base

  /** `io.ErrShortWrite`, or any other error (distinguished by a code). */
  datatype WriteError = ShortWrite | Failure(code: nat)

  /** What one `Write` call returns: `(n, err)`, `err == None` for `nil`. */
  datatype Reply = Reply(n: nat, err: Option<WriteError>)

  /** One call of the writer: the chunk offered and the reply. */
  datatype Call = Call(chunk: seq<byte>, reply: Reply)

  /** The writer's answer to a chunk, given the calls made before it. */
  type Oracle = (seq<Call>, seq<byte>) -> Reply

  /** The `io.Writer` contract: a call never reports more bytes than offered. */
  ghost predicate Bounded(w: Oracle)
  {
    forall trace, chunk :: w(trace, chunk).n <= |chunk|
  }

  /**
    A call with a non-empty chunk that reports no error accepts at least one
    byte. The Go loop of `write` does not guard against `(0, nil)`; without
    this it would spin forever.
   */
  ghost predicate Progress(w: Oracle)
  {
    forall trace, chunk :: |chunk| > 0 && w(trace, chunk).err == None ==> w(trace, chunk).n > 0
  }

  /** A writer that never reports an error. */
  ghost predicate Reliable(w: Oracle)
  {
    forall trace, chunk :: w(trace, chunk).err == None
  }

  /**
    Each call's reply is what the writer answered to that chunk, given the
    calls in `trace` and the ones before it in `calls`.
   */
  ghost predicate Answered(w: Oracle, trace: seq<Call>, calls: seq<Call>)
    decreases |calls|
  {
    |calls| == 0 ||
    (calls[0].reply == w(trace, calls[0].chunk) && Answered(w, trace + [calls[0]], calls[1..]))
  }

  /** Answers to two runs of calls: the second continues after the first. */
  lemma {:induction false} AnsweredAppend(w: Oracle, trace: seq<Call>, a: seq<Call>, b: seq<Call>)
    ensures Answered(w, trace, a + b) <==> Answered(w, trace, a) && Answered(w, trace + a, b)
    decreases |a|
  {
    if |a| == 0 {
      assert a + b == b && trace + a == trace;
    } else {
      assert (a + b)[0] == a[0] && (a + b)[1..] == a[1..] + b;
      assert trace + [a[0]] + a[1..] == trace + a;
      AnsweredAppend(w, trace + [a[0]], a[1..], b);
    }
  }

  /** The bytes of a call's chunk that the writer reported as accepted. */
  function Accepted(c: Call): seq<byte>
  {
    if c.reply.n <= |c.chunk| then c.chunk[..c.reply.n] else c.chunk
  }

  /**
    Every byte the writer accepted, in call order: what the buffered writer
    took in, which reaches the sink only when it is flushed.
   */
  function Output(calls: seq<Call>): seq<byte>
  {
    if |calls| == 0 then [] else Accepted(calls[0]) + Output(calls[1..])
  }

  /** The bytes accepted by calls that reported no error: what `write` counts. */
  function Counted(calls: seq<Call>): seq<byte>
  {
    if |calls| == 0 then []
    else (if calls[0].reply.err == None then Accepted(calls[0]) else []) + Counted(calls[1..])
  }

  /** No call in `calls` reported an error. */
  predicate Clean(calls: seq<Call>)
  {
    |calls| == 0 || (calls[0].reply.err == None && Clean(calls[1..]))
  }

  /**
    The calls offer consecutive suffixes of `s`: the first one offers
    `s[from..]`, and each later one starts where the bytes accepted by the
    one before it end.
   */
  predicate Chunked(s: seq<byte>, from: nat, calls: seq<Call>)
    decreases |calls|
  {
    |calls| == 0 ||
    (from < |s| && calls[0].chunk == s[from..] && from + calls[0].reply.n <= |s|
     && Chunked(s, from + calls[0].reply.n, calls[1..]))
  }

  /**
    What `write` returns, `(bytesWritten, err)`, together with the calls it
    made: the error-free ones, then the failing one if there was one.
   */
  datatype Written = Written(count: nat, err: Option<WriteError>, clean: seq<Call>, failed: Option<Call>)
  {
    /** Every call made, in order. */
    function Calls(): seq<Call>
    {
      clean + (if failed.Some? then [failed.value] else [])
    }
  }

  /**
    The loop of `write`, entered with `written` bytes of `s` already
    accepted: offer `s[written..]`, return at once on an error without
    adding that call's count, otherwise add it and go round again.
   */
  function WriteFrom(w: Oracle, trace: seq<Call>, s: seq<byte>, written: nat): (r: Written)
    requires Bounded(w) && Progress(w)
    requires written <= |s|
    ensures written <= r.count <= |s|
    ensures r.err == None <==> r.count == |s|
    ensures r.err == None <==> r.failed == None
    ensures Clean(r.clean)
    ensures r.failed.Some? ==> r.failed.value.reply.err == r.err && r.failed.value.chunk == s[r.count..]
    ensures Answered(w, trace, r.Calls())
    decreases |s| - written
  {
    if written >= |s| then
      Written(written, None, [], None)
    else
      var c := Call(s[written..], w(trace, s[written..]));
      if c.reply.err != None then
        Written(written, c.reply.err, [], Some(c))
      else
        var rest := WriteFrom(w, trace + [c], s, written + c.reply.n);
        assert ([c] + rest.clean)[1..] == rest.clean;
        var r := Written(rest.count, rest.err, [c] + rest.clean, rest.failed);
        assert r.Calls() == [c] + rest.Calls() && r.Calls()[1..] == rest.Calls();
        r
  }

  /**
    The error-free calls of the loop of `write` accepted, between them,
    exactly the bytes from `written` up to the returned count.
   */
  lemma {:induction false} WriteFromOutput(w: Oracle, trace: seq<Call>, s: seq<byte>, written: nat)
    requires Bounded(w) && Progress(w)
    requires written <= |s|
    ensures var r := WriteFrom(w, trace, s, written);
            Output(r.clean) == s[written..r.count]
    decreases |s| - written
  {
    if written < |s| {
      var c := Call(s[written..], w(trace, s[written..]));
      if c.reply.err == None {
        var mid := written + c.reply.n;
        var rest := WriteFrom(w, trace + [c], s, mid);
        WriteFromOutput(w, trace + [c], s, mid);
        OutputStep(s, written, c, rest.clean, rest.count);
      }
    }
  }

  lemma {:induction false} OutputStep(s: seq<byte>, written: nat, c: Call, rest: seq<Call>, count: nat)
    requires written + c.reply.n <= count <= |s| && c.chunk == s[written..]
    requires Output(rest) == s[written + c.reply.n..count]
    ensures Output([c] + rest) == s[written..count]
  {
    var mid := written + c.reply.n;
    OutputCons(c, rest);
    assert Accepted(c) == s[written..mid];
    assert s[written..mid] + s[mid..count] == s[written..count];
  }

  lemma {:induction false} OutputCons(c: Call, rest: seq<Call>)
    ensures Output([c] + rest) == Accepted(c) + Output(rest)
  {
    assert ([c] + rest)[1..] == rest;
  }

  /**
    The error-free calls made by the loop of `write` offer consecutive
    suffixes of `s`, starting at `written`.
   */
  lemma {:induction false} WriteFromChunked(w: Oracle, trace: seq<Call>, s: seq<byte>, written: nat)
    requires Bounded(w) && Progress(w)
    requires written <= |s|
    ensures Chunked(s, written, WriteFrom(w, trace, s, written).clean)
    decreases |s| - written
  {
    if written < |s| {
      var c := Call(s[written..], w(trace, s[written..]));
      if c.reply.err == None {
        var rest := WriteFrom(w, trace + [c], s, written + c.reply.n);
        WriteFromChunked(w, trace + [c], s, written + c.reply.n);
        ChunkedCons(s, written, c, rest.clean);
      }
    }
  }

  lemma {:induction false} ChunkedCons(s: seq<byte>, from: nat, c: Call, rest: seq<Call>)
    requires from < |s| && c.chunk == s[from..] && from + c.reply.n <= |s|
    requires Chunked(s, from + c.reply.n, rest)
    ensures Chunked(s, from, [c] + rest)
  {
    assert ([c] + rest)[0] == c && ([c] + rest)[1..] == rest;
  }

  /** A writer that never reports an error never makes the loop of `write` fail. */
  lemma {:induction false} WriteFromReliable(w: Oracle, trace: seq<Call>, s: seq<byte>, written: nat)
    requires Bounded(w) && Progress(w) && Reliable(w)
    requires written <= |s|
    ensures WriteFrom(w, trace, s, written).err == None
    decreases |s| - written
  {
    if written < |s| {
      var c := Call(s[written..], w(trace, s[written..]));
      WriteFromReliable(w, trace + [c], s, written + c.reply.n);
    }
  }

  /**
    `write(s)`: on success every byte of `s` was accepted, by consecutive
    error-free chunks whose accepted parts concatenate to exactly `s`; on an
    error the count is what the earlier, error-free calls accepted, and the
    failing call, made on the unwritten suffix, is not added to it.
   */
  function Write(w: Oracle, trace: seq<Call>, s: seq<byte>): (r: Written)
    requires Bounded(w) && Progress(w)
    ensures r.count <= |s|
    ensures r.err == None <==> r.count == |s|
    ensures r.err == None <==> r.failed == None
    ensures Clean(r.clean) && Output(r.clean) == s[..r.count]
    ensures r.failed.Some? ==> r.failed.value.reply.err == r.err && r.failed.value.chunk == s[r.count..]
    ensures Chunked(s, 0, r.clean)
    ensures Answered(w, trace, r.Calls())
  {
    WriteFromOutput(w, trace, s, 0);
    WriteFromChunked(w, trace, s, 0);
    WriteFrom(w, trace, s, 0)
  }

  /**
    What `write` leaves with the writer: the counted bytes are exactly the
    prefix of `s` it reports, and the writer also holds whatever the failing
    call accepted, which lies beyond that count.
   */
  lemma WriteOutput(w: Oracle, trace: seq<Call>, s: seq<byte>)
    requires Bounded(w) && Progress(w)
    ensures var r := Write(w, trace, s);
            Counted(r.Calls()) == s[..r.count]
    ensures var r := Write(w, trace, s);
            Output(r.Calls()) == s[..r.count] + (if r.failed.Some? then Accepted(r.failed.value) else [])
  {
    var r := Write(w, trace, s);
    CleanCountsAll(r.clean);
    CountedAppend(r.clean, r.Calls()[|r.clean|..]);
    OutputAppend(r.clean, r.Calls()[|r.clean|..]);
    assert r.Calls() == r.clean + r.Calls()[|r.clean|..];
    if r.failed.Some? {
      var f := r.failed.value;
      assert r.Calls()[|r.clean|..] == [f];
      assert Counted([f]) == [] + Counted([]);
      assert Output([f]) == Accepted(f) + Output([]);
    } else {
      assert r.Calls()[|r.clean|..] == [];
    }
  }

  /**
    `write` after earlier calls: the counted bytes grow by exactly the
    prefix of `s` it reports, and by all of `s` when it reports no error,
    in which case the writer took in exactly `s` after what it had.
   */
  lemma WriteAfter(w: Oracle, trace: seq<Call>, s: seq<byte>)
    requires Bounded(w) && Progress(w)
    ensures var r := Write(w, trace, s);
            Counted(trace + r.Calls()) == Counted(trace) + s[..r.count]
    ensures var r := Write(w, trace, s);
            r.err == None ==> Output(trace + r.Calls()) == Output(trace) + s
  {
    var r := Write(w, trace, s);
    WriteOutput(w, trace, s);
    CountedAppend(trace, r.Calls());
    OutputAppend(trace, r.Calls());
    if r.err == None {
      assert s[..r.count] == s;
    }
  }

  /** With a writer that never fails, `write` delivers exactly its argument. */
  lemma ReliableWriteDelivers(w: Oracle, trace: seq<Call>, s: seq<byte>)
    requires Bounded(w) && Progress(w) && Reliable(w)
    ensures Write(w, trace, s).err == None
    ensures Output(Write(w, trace, s).Calls()) == s
  {
    WriteFromReliable(w, trace, s, 0);
    var r := Write(w, trace, s);
    assert r.Calls() == r.clean;
    assert s[..r.count] == s;
  }

  /** `Counted` over two runs of calls is the counted bytes of each, in order. */
  lemma {:induction false} CountedAppend(a: seq<Call>, b: seq<Call>)
    ensures Counted(a + b) == Counted(a) + Counted(b)
    decreases |a|
  {
    if |a| == 0 {
      assert a + b == b;
    } else {
      assert (a + b)[0] == a[0] && (a + b)[1..] == a[1..] + b;
      CountedAppend(a[1..], b);
    }
  }

  /** `Output` over two runs of calls is the output of each, in order. */
  lemma {:induction false} OutputAppend(a: seq<Call>, b: seq<Call>)
    ensures Output(a + b) == Output(a) + Output(b)
    decreases |a|
  {
    if |a| == 0 {
      assert a + b == b;
    } else {
      assert (a + b)[0] == a[0] && (a + b)[1..] == a[1..] + b;
      OutputAppend(a[1..], b);
    }
  }

  /** A run of calls is clean exactly when both of its parts are. */
  lemma {:induction false} CleanAppend(a: seq<Call>, b: seq<Call>)
    ensures Clean(a + b) <==> Clean(a) && Clean(b)
    decreases |a|
  {
    if |a| == 0 {
      assert a + b == b;
    } else {
      assert (a + b)[0] == a[0] && (a + b)[1..] == a[1..] + b;
      CleanAppend(a[1..], b);
    }
  }

  /** When no call failed, the counted bytes are all the bytes accepted. */
  lemma {:induction false} CleanCountsAll(calls: seq<Call>)
    requires Clean(calls)
    ensures Counted(calls) == Output(calls)
    decreases |calls|
  {
    if |calls| > 0 {
      CleanCountsAll(calls[1..]);
    }
  }
}
