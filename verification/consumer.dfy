/**
  The consumer loop of `Run` once it owns the logger: each record received
  is appended to the remainder stowed by an earlier short write and handed
  to `write`; a short write stows the unwritten suffix, success clears the
  stow, and any other error ends the loop with that error. A stop request
  ends the loop normally.
 */
module Consumer {
  import opened Base
  import opened Writer

  /** What the loop carries between iterations: the stowed remainder and every writer call so far. */
  datatype Loop = Loop(stow: seq<byte>, trace: seq<Call>)

  /**
    The result of handling one record, with the writer calls it made: keep
    looping with a new stow, or leave `Run` with an error.
   */
  datatype Step = Continue(stow: seq<byte>, made: seq<Call>) | Fail(err: WriteError, made: seq<Call>)

  /** Every error the calls reported was a short write. */
  predicate Tolerated(calls: seq<Call>)
  {
    |calls| == 0 ||
    ((calls[0].reply.err == None || calls[0].reply.err == Some(ShortWrite)) && Tolerated(calls[1..]))
  }

  /**
    The last call reported `e`, and every call before it reported at most a
    short write.
   */
  predicate FailedLast(calls: seq<Call>, e: WriteError)
  {
    |calls| > 0 && calls[|calls| - 1].reply.err == Some(e) && Tolerated(calls[..|calls| - 1])
  }

  lemma {:induction false} TolerateAppend(a: seq<Call>, b: seq<Call>)
    ensures Tolerated(a + b) <==> Tolerated(a) && Tolerated(b)
    decreases |a|
  {
    if |a| == 0 {
      assert a + b == b;
    } else {
      assert (a + b)[0] == a[0] && (a + b)[1..] == a[1..] + b;
      TolerateAppend(a[1..], b);
    }
  }

  /**
    Calls that all went through, followed by later calls: the writer
    answered all of them, and a failure among the later ones is still the
    first failure.
   */
  lemma JoinCalls(w: Oracle, trace: seq<Call>, made: seq<Call>, later: seq<Call>, err: Option<WriteError>)
    requires Answered(w, trace, made) && Tolerated(made)
    requires Answered(w, trace + made, later)
    requires err.Some? ==> FailedLast(later, err.value)
    requires err.None? ==> Tolerated(later)
    ensures Answered(w, trace, made + later)
    ensures err.Some? ==> FailedLast(made + later, err.value)
    ensures err.None? ==> Tolerated(made + later)
  {
    AnsweredAppend(w, trace, made, later);
    TolerateAppend(made, later);
    if err.Some? {
      FailedLastAppend(made, later, err.value);
    }
  }

  /** A failure after calls that all went through is still the first failure. */
  lemma FailedLastAppend(a: seq<Call>, b: seq<Call>, e: WriteError)
    requires Tolerated(a)
    ensures FailedLast(b, e) ==> FailedLast(a + b, e)
  {
    if FailedLast(b, e) {
      TolerateAppend(a, b[..|b| - 1]);
      assert (a + b)[..|a + b| - 1] == a + b[..|b| - 1];
    }
  }

  lemma {:induction false} CleanTolerated(calls: seq<Call>)
    requires Clean(calls)
    ensures Tolerated(calls)
    decreases |calls|
  {
    if |calls| > 0 {
      CleanTolerated(calls[1..]);
    }
  }

  /**
    The records arm of `Run`: prepend the stow to the record and write the
    result; a short write keeps the unwritten suffix as the new stow,
    success clears it, and only an error other than a short write ends the
    loop.
   */
  function Receive(w: Oracle, st: Loop, record: seq<byte>): (r: Step)
    requires Bounded(w) && Progress(w)
    ensures var out := Write(w, st.trace, st.stow + record);
            && r.made == out.Calls()
            && (r.Fail? <==> out.err.Some? && out.err.value != ShortWrite)
            && (r.Fail? ==> out.err == Some(r.err))
            && (r.Continue? ==> r.stow == (st.stow + record)[out.count..])
    ensures r.Fail? ==> r.err != ShortWrite
    ensures r.Continue? ==> Tolerated(r.made)
    ensures r.Fail? ==> FailedLast(r.made, r.err)
  {
    var buf := st.stow + record;
    var out := Write(w, st.trace, buf);
    CleanTolerated(out.clean);
    match out.err
    case None =>
      assert out.Calls() == out.clean;
      Continue([], out.Calls())
    case Some(ShortWrite) =>
      TolerateAppend(out.clean, [out.failed.value]);
      Continue(buf[out.count..], out.Calls())
    case Some(e) =>
      assert out.Calls()[..|out.Calls()| - 1] == out.clean;
      Fail(e, out.Calls())
  }

  /**
    One record handled without leaving the loop: the bytes `write` counted
    followed by the new stow are exactly the old stow followed by the
    record. The stow is cleared exactly when no writer call failed, and
    otherwise it is precisely the chunk the failing (short) call was
    offered, so the bytes that call accepted are offered again.
   */
  lemma ReceiveConserves(w: Oracle, st: Loop, record: seq<byte>)
    requires Bounded(w) && Progress(w)
    ensures var r := Receive(w, st, record);
            r.Continue? ==> Counted(r.made) + r.stow == st.stow + record
    ensures var r := Receive(w, st, record);
            r.Continue? ==> (r.stow == [] <==> Clean(r.made))
    ensures var r := Receive(w, st, record);
            r.Continue? && r.stow != [] ==>
              |r.made| > 0 && r.made[|r.made| - 1].chunk == r.stow
              && r.made[|r.made| - 1].reply.err == Some(ShortWrite)
  {
    var buf := st.stow + record;
    var out := Write(w, st.trace, buf);
    WriteOutput(w, st.trace, buf);
    if out.err == None {
      assert out.Calls() == out.clean;
      assert Receive(w, st, record) == Continue([], out.clean);
      assert buf[..out.count] == buf;
    } else if out.err == Some(ShortWrite) {
      var f := out.failed.value;
      assert out.Calls() == out.clean + [f];
      assert Receive(w, st, record) == Continue(buf[out.count..], out.clean + [f]);
      CleanAppend(out.clean, [f]);
      assert !Clean([f]);
      assert (out.clean + [f])[|out.clean|] == f;
      assert buf[..out.count] + buf[out.count..] == buf;
    }
  }

  /**
    A record that ends the loop with an error: the bytes `write` counted,
    followed by the chunk the failing call was offered, are the old stow
    followed by the record.
   */
  lemma ReceiveFailConserves(w: Oracle, st: Loop, record: seq<byte>)
    requires Bounded(w) && Progress(w)
    ensures var r := Receive(w, st, record);
            r.Fail? ==>
              |r.made| > 0 && Counted(r.made) + r.made[|r.made| - 1].chunk == st.stow + record
  {
    var buf := st.stow + record;
    var out := Write(w, st.trace, buf);
    if out.err.Some? && out.err.value != ShortWrite {
      WriteOutput(w, st.trace, buf);
      assert out.Calls()[|out.Calls()| - 1] == out.failed.value;
      assert buf[..out.count] + buf[out.count..] == buf;
    }
  }

  /**
    With a writer that never fails, a record is written in full together
    with the stow before it, and the stow is cleared.
   */
  lemma ReliableReceive(w: Oracle, st: Loop, record: seq<byte>)
    requires Bounded(w) && Progress(w) && Reliable(w)
    ensures var r := Receive(w, st, record);
            && r == Continue([], Write(w, st.trace, st.stow + record).Calls())
            && Output(r.made) == st.stow + record
  {
    ReliableWriteDelivers(w, st.trace, st.stow + record);
  }

  /** What the select of `Run` picks next: a record from a producer, or the stop request. */
  datatype Event = Record(bytes: seq<byte>) | Stop

  /** The bytes of all records among `events`, in order. */
  function Payload(events: seq<Event>): seq<byte>
  {
    if |events| == 0 then []
    else (if events[0].Record? then events[0].bytes else []) + Payload(events[1..])
  }

  /** Every event is a record: the stop request was never picked. */
  predicate NoStop(events: seq<Event>)
  {
    |events| == 0 || (events[0].Record? && NoStop(events[1..]))
  }

  /**
    How the loop of `Run` stands after a sequence of select outcomes, with
    the writer calls it made: still looping, or returned after consuming
    some of the events.
   */
  datatype Outcome =
    | Running(stow: seq<byte>, made: seq<Call>)
    | Returned(err: Option<WriteError>, made: seq<Call>, consumed: nat)

  /**
    The loop of `Run` fed with `events`. It returns `nil` exactly when it
    takes a stop request, and otherwise keeps looping until the writer
    reports an error other than a short write: it returns at that call,
    with that error, and no earlier call reported one. Nothing after the
    event that ended it is consumed, and every call is the writer's answer.
   */
  function RunLoop(w: Oracle, st: Loop, events: seq<Event>): (o: Outcome)
    requires Bounded(w) && Progress(w)
    ensures o.Running? ==> NoStop(events)
    ensures o.Returned? ==>
              && 1 <= o.consumed <= |events|
              && NoStop(events[..o.consumed - 1])
              && (o.err == None <==> events[o.consumed - 1].Stop?)
              && o.err != Some(ShortWrite)
    ensures Answered(w, st.trace, o.made)
    ensures o.Returned? && o.err.Some? ==> FailedLast(o.made, o.err.value)
    ensures o.Running? || o.err == None ==> Tolerated(o.made)
    decreases |events|
  {
    if |events| == 0 then Running(st.stow, [])
    else
      match events[0]
      case Stop => Returned(None, [], 1)
      case Record(bytes) =>
        match Receive(w, st, bytes)
        case Fail(e, made) => Returned(Some(e), made, 1)
        case Continue(stow, made) =>
          var o := RunLoop(w, Loop(stow, st.trace + made), events[1..]);
          if o.Returned? then
            JoinCalls(w, st.trace, made, o.made, o.err);
            assert events[..o.consumed][1..] == events[1..][..o.consumed - 1];
            Returned(o.err, made + o.made, o.consumed + 1)
          else
            JoinCalls(w, st.trace, made, o.made, None);
            Running(o.stow, made + o.made)
  }

  /**
    Conservation: while the loop keeps running, the bytes `write` has
    counted, followed by the stow, are exactly the initial stow followed by
    every record received; no byte is dropped or counted twice.
   */
  lemma {:induction false} RunConserves(w: Oracle, st: Loop, events: seq<Event>)
    requires Bounded(w) && Progress(w)
    ensures var o := RunLoop(w, st, events);
            o.Running? ==> Counted(o.made) + o.stow == st.stow + Payload(events)
    decreases |events|
  {
    if |events| > 0 && events[0].Record? {
      var step := Receive(w, st, events[0].bytes);
      if step.Continue? {
        ReceiveConserves(w, st, events[0].bytes);
        var o := RunLoop(w, Loop(step.stow, st.trace + step.made), events[1..]);
        RunConserves(w, Loop(step.stow, st.trace + step.made), events[1..]);
        if o.Running? {
          CountedAppend(step.made, o.made);
          Regroup(Counted(step.made), Counted(o.made), st.stow, step.stow, o.stow,
                  events[0].bytes, Payload(events[1..]));
        }
      }
    }
  }

  /**
    A stow the loop still holds after handling some record is what a short
    write left: the chunk of the last writer call, which reported a short
    write.
   */
  lemma {:induction false} RunStowIsRemainder(w: Oracle, st: Loop, events: seq<Event>)
    requires Bounded(w) && Progress(w)
    ensures var o := RunLoop(w, st, events);
            o.Running? && |events| > 0 && o.stow != [] ==>
              |o.made| > 0 && o.made[|o.made| - 1].chunk == o.stow
              && o.made[|o.made| - 1].reply.err == Some(ShortWrite)
    decreases |events|
  {
    if |events| > 0 && events[0].Record? {
      var step := Receive(w, st, events[0].bytes);
      if step.Continue? {
        var next := Loop(step.stow, st.trace + step.made);
        var o := RunLoop(w, next, events[1..]);
        if o.Running? && o.stow != [] {
          assert RunLoop(w, st, events) == Running(o.stow, step.made + o.made);
          if |events| == 1 {
            ReceiveConserves(w, st, events[0].bytes);
            assert o == Running(step.stow, []) && step.made + [] == step.made;
          } else {
            RunStowIsRemainder(w, next, events[1..]);
            LastOfJoin(step.made, o.made);
          }
        }
      }
    }
  }

  lemma LastOfJoin<T>(a: seq<T>, b: seq<T>)
    requires |b| > 0
    ensures |a + b| > 0 && (a + b)[|a + b| - 1] == b[|b| - 1]
  {
  }

  /** The records among the first `c + 1` events, when the first event is a record. */
  lemma PayloadPrefix(events: seq<Event>, c: nat)
    requires c < |events| && events[0].Record?
    ensures Payload(events[..c + 1]) == events[0].bytes + Payload(events[1..][..c])
  {
    assert events[..c + 1][1..] == events[1..][..c];
  }

  /**
    A record handled without leaving the loop, then a failing exit: the
    counted bytes and the failing chunk still account for the stow and
    every record.
   */
  lemma JoinFail(made: seq<Call>, later: seq<Call>, stow0: seq<byte>, stow: seq<byte>,
                 record: seq<byte>, rest: seq<byte>)
    requires Counted(made) + stow == stow0 + record
    requires |later| > 0 && Counted(later) + later[|later| - 1].chunk == stow + rest
    ensures |made + later| > 0
    ensures Counted(made + later) + (made + later)[|made + later| - 1].chunk == stow0 + (record + rest)
  {
    CountedAppend(made, later);
    LastOfJoin(made, later);
    Regroup(Counted(made), Counted(later), stow0, stow, later[|later| - 1].chunk, record, rest);
  }

  /**
    Conservation at a failing exit: the bytes `write` counted, followed by
    the chunk the failing call was offered, are exactly the initial stow
    followed by every record the loop consumed.
   */
  lemma {:induction false} RunFailConserves(w: Oracle, st: Loop, events: seq<Event>)
    requires Bounded(w) && Progress(w)
    ensures var o := RunLoop(w, st, events);
            o.Returned? && o.err.Some? ==>
              |o.made| > 0
              && Counted(o.made) + o.made[|o.made| - 1].chunk == st.stow + Payload(events[..o.consumed])
    decreases |events|
  {
    if |events| == 0 || events[0].Stop? {
      NoFailFirst(w, st, events);
    } else if Receive(w, st, events[0].bytes).Fail? {
      FailFirst(w, st, events);
    } else {
      var step := Receive(w, st, events[0].bytes);
      RunFailConserves(w, Loop(step.stow, st.trace + step.made), events[1..]);
      FailLater(w, st, events);
    }
  }

  /** With no events or a stop request first, the loop does not fail. */
  lemma NoFailFirst(w: Oracle, st: Loop, events: seq<Event>)
    requires Bounded(w) && Progress(w)
    requires |events| == 0 || events[0].Stop?
    ensures var o := RunLoop(w, st, events);
            o.Running? || o.err == None
  {
  }

  /** The failing exit at the first record. */
  lemma FailFirst(w: Oracle, st: Loop, events: seq<Event>)
    requires Bounded(w) && Progress(w)
    requires |events| > 0 && events[0].Record? && Receive(w, st, events[0].bytes).Fail?
    ensures var o := RunLoop(w, st, events);
            o.Returned? && o.err.Some? && |o.made| > 0
            && Counted(o.made) + o.made[|o.made| - 1].chunk == st.stow + Payload(events[..o.consumed])
  {
    var step := Receive(w, st, events[0].bytes);
    ReceiveFailConserves(w, st, events[0].bytes);
    PayloadPrefix(events, 0);
    assert RunLoop(w, st, events) == Returned(Some(step.err), step.made, 1);
    assert Payload(events[1..][..0]) == [];
  }

  /** The failing exit after a record handled without leaving the loop. */
  lemma FailLater(w: Oracle, st: Loop, events: seq<Event>)
    requires Bounded(w) && Progress(w)
    requires |events| > 0 && events[0].Record? && Receive(w, st, events[0].bytes).Continue?
    requires var step := Receive(w, st, events[0].bytes);
             var o := RunLoop(w, Loop(step.stow, st.trace + step.made), events[1..]);
             o.Returned? && o.err.Some? ==>
               |o.made| > 0
               && Counted(o.made) + o.made[|o.made| - 1].chunk == step.stow + Payload(events[1..][..o.consumed])
    ensures var o := RunLoop(w, st, events);
            o.Returned? && o.err.Some? ==>
              |o.made| > 0
              && Counted(o.made) + o.made[|o.made| - 1].chunk == st.stow + Payload(events[..o.consumed])
  {
    var step := Receive(w, st, events[0].bytes);
    var o := RunLoop(w, Loop(step.stow, st.trace + step.made), events[1..]);
    if o.Returned? && o.err.Some? {
      ReceiveConserves(w, st, events[0].bytes);
      assert RunLoop(w, st, events) == Returned(o.err, step.made + o.made, o.consumed + 1);
      PayloadPrefix(events, o.consumed);
      JoinFail(step.made, o.made, st.stow, step.stow, events[0].bytes, Payload(events[1..][..o.consumed]));
    }
  }

  /**
    With a writer that never fails, the loop fed only records keeps
    looping, its stow empty once it has handled a record, and the writer
    has received exactly the initial stow and the records, in order.
   */
  lemma {:induction false} ReliableRunDelivers(w: Oracle, st: Loop, events: seq<Event>)
    requires Bounded(w) && Progress(w) && Reliable(w)
    requires NoStop(events)
    ensures RunLoop(w, st, events).Running?
    ensures var o := RunLoop(w, st, events);
            o.Running? && (|events| > 0 ==> o.stow == [])
            && Output(o.made) + o.stow == st.stow + Payload(events)
    decreases |events|
  {
    if |events| > 0 {
      ReliableReceive(w, st, events[0].bytes);
      var made := Receive(w, st, events[0].bytes).made;
      var next := Loop([], st.trace + made);
      ReliableRunDelivers(w, next, events[1..]);
      var o := RunLoop(w, next, events[1..]);
      assert RunLoop(w, st, events) == Running(o.stow, made + o.made);
      assert Payload(events) == events[0].bytes + Payload(events[1..]);
      OutputAppend(made, o.made);
      assert Output(made) + [] == st.stow + events[0].bytes;
      Regroup(Output(made), Output(o.made), st.stow, [], o.stow, events[0].bytes, Payload(events[1..]));
    }
  }

  /**
    A writer that, on its very first call, accepts one byte of a longer
    chunk and reports a short write, and accepts everything afterwards.
   */
  function ShortOnce(trace: seq<Call>, chunk: seq<byte>): (r: Reply)
    ensures r.n <= |chunk| && (|chunk| > 0 && r.err == None ==> r.n > 0)
    ensures r.err == Some(ShortWrite) ==> r.n < |chunk|
  {
    if |trace| == 0 && |chunk| > 1 then Reply(1, Some(ShortWrite)) else Reply(|chunk|, None)
  }

  /**
    The byte a short-writing call accepted is kept in the stow and offered
    again: `write` counts each byte of the records `A B` and `C` once, but a
    writer that really kept the byte it reported receives `A` twice. This
    can only show with a writer whose short-write error is not permanent.
   */
  lemma ShortWriteResends()
    ensures Bounded(ShortOnce) && Progress(ShortOnce)
    ensures var o := RunLoop(ShortOnce, Loop([], []), [Record([65, 66]), Record([67])]);
            && o.Running? && o.stow == []
            && Counted(o.made) == [65, 66, 67]
            && Output(o.made) == [65, 65, 66, 67]
  {
    var c1 := Call([65, 66], Reply(1, Some(ShortWrite)));
    var c2 := Call([65, 66, 67], Reply(3, None));
    ShortOnceFirst();
    ShortOnceSecond(c1);
    var events := [Record([65, 66]), Record([67])];
    var later := [Record([67])];
    assert events[1..] == later && later[1..] == [];
    assert [] + [c1] == [c1] && [c1] + [c2] == [c1, c2] && [c2] + [] == [c2];
    assert RunLoop(ShortOnce, Loop([65, 66], [c1]), later) == Running([], [c2]);
    assert RunLoop(ShortOnce, Loop([], []), events) == Running([], [c1, c2]);
    ShortOnceTally(c1, c2);
  }

  lemma ShortOnceTally(c1: Call, c2: Call)
    requires c1 == Call([65, 66], Reply(1, Some(ShortWrite))) && c2 == Call([65, 66, 67], Reply(3, None))
    ensures Counted([c1, c2]) == [65, 66, 67] && Output([c1, c2]) == [65, 65, 66, 67]
  {
    assert [c1, c2][1..] == [c2] && [c2][1..] == [];
    assert Accepted(c2) == [65, 66, 67] && Accepted(c1) == [65];
    assert Output([c2]) == [65, 66, 67] + [];
    assert Counted([c2]) == [65, 66, 67] + [];
    assert Output([c1, c2]) == [65] + [65, 66, 67];
    assert Counted([c1, c2]) == [] + [65, 66, 67];
  }

  lemma ShortOnceFirst()
    ensures Bounded(ShortOnce) && Progress(ShortOnce)
    ensures Receive(ShortOnce, Loop([], []), [65, 66])
         == Continue([65, 66], [Call([65, 66], Reply(1, Some(ShortWrite)))])
  {
    var c1 := Call([65, 66], Reply(1, Some(ShortWrite)));
    assert [] + [65, 66] == [65, 66];
    assert WriteFrom(ShortOnce, [], [65, 66], 0) == Written(0, Some(ShortWrite), [], Some(c1));
    assert Write(ShortOnce, [], [65, 66]).Calls() == [] + [c1];
  }

  lemma ShortOnceSecond(c1: Call)
    ensures Bounded(ShortOnce) && Progress(ShortOnce)
    ensures Receive(ShortOnce, Loop([65, 66], [c1]), [67]) == Continue([], [Call([65, 66, 67], Reply(3, None))])
  {
    var c2 := Call([65, 66, 67], Reply(3, None));
    assert [65, 66] + [67] == [65, 66, 67];
    assert WriteFrom(ShortOnce, [c1] + [c2], [65, 66, 67], 3) == Written(3, None, [], None);
    assert ([c2] + [])[1..] == [];
    assert WriteFrom(ShortOnce, [c1], [65, 66, 67], 0) == Written(3, None, [c2] + [], None);
    assert Write(ShortOnce, [c1], [65, 66, 67]).Calls() == [c2];
  }
}
