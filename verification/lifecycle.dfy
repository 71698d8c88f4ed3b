/**
  The life of one `ALogger` as a state machine. Every goroutine that calls
  into the logger is a thread of the machine. Each channel operation is
  one atomic action, except that the stop arm's receive from `done` and
  its send on `inactive` form one action. The write `Run` makes of a
  record after receiving it is an action of its own, so a producer can
  finish its hand-over before that write:

  - `inactive` has room for one value and holds a token while no `Run`
    owns the logger; `Run` takes it before looping and the stop arm puts
    it back.
  - `done` has room for one value and carries a stop request from a fatal
    entry point to the looping `Run`.
  - `records` is the channel producers hand their records over; `New`
    creates it without a buffer whatever `recordsCount` says, so every
    hand-over is a rendezvous with `Run`.
  - `queueLen` counts producers between their increment and their
    decrement.

  The writer is the oracle of the `Writer` module; every call made to it,
  by `Run` or by a fatal entry point, is appended to one trace.
 */
module Lifecycle {
  import opened Base
  import opened Writer
  import Consumer
  import opened Framing

  /** Where a goroutine that called `Run` stands. */
  datatype RunPhase =
    | Waiting                        // blocked taking the token from `inactive`
    | Looping(stow: seq<byte>)       // in the select loop, with its stowed remainder
    | Received(stow: seq<byte>, rec: seq<byte>)  // took a record; writes `stow + rec` next
    | Returned(err: Option<WriteError>)

  /** Where a goroutine inside a fatal entry point stands. */
  datatype FatalPhase =
    | Signalling(kind: FatalKind, rec: seq<byte>)  // blocked sending on `done`
    | Awaiting(kind: FatalKind, rec: seq<byte>)    // blocked taking the token from `inactive`
    | Writing(kind: FatalKind, rec: seq<byte>)     // holds the token; writes, flushes and ends
    | Ended(how: Ending)

  /** Where a goroutine inside a print entry point stands. */
  datatype ProducerPhase =
    | Blocked(rec: seq<byte>)        // counted in `queueLen`, blocked sending on `records`
    | Handed                         // record taken, decrement still to come
    | Finished

  datatype Logger = Logger(
    token: bool,                     // `inactive` holds its value
    doneFull: bool,                  // `done` holds its value
    recordsCap: nat,                 // capacity `records` was made with
    buffered: seq<seq<byte>>,        // records sitting in the buffer of `records`
    queueLen: int,
    runs: seq<RunPhase>,
    fatals: seq<FatalPhase>,
    producers: seq<ProducerPhase>,
    trace: seq<Call>,
    ended: bool)                     // the program exited or panicked

  /**
    `New`: a fresh logger whose token sits in `inactive`. The channel of
    records is made unbuffered; `recordsCount` and `bufferSize` leave no
    trace in the state modelled here.
   */
  function New(recordsCount: int, bufferSize: int): (s: Logger)
    ensures s.token && !s.doneFull && s.recordsCap == 0 && s.queueLen == 0
    ensures s.runs == [] && s.fatals == [] && s.producers == [] && s.trace == []
  {
    Logger(true, false, 0, [], 0, [], [], [], [], false)
  }

  /**
    `IsActive`: the token is not in `inactive`. In a reachable state that
    means some goroutine holds it.
   */
  function IsActive(s: Logger): (active: bool)
    ensures Inv(s) ==> (active <==> Count(s.runs, RunHolds) + Count(s.fatals, FatalHolds) == 1)
  {
    !s.token
  }

  /**
    The condition that lets `Finish` leave its busy wait. In a reachable
    state it holds exactly when no producer is between its increment and
    its decrement.
   */
  function FinishMayProceed(s: Logger): (proceed: bool)
    ensures Inv(s) ==> (proceed <==> Count(s.producers, InFlight) == 0)
  {
    s.queueLen == 0 && |s.buffered| == 0
  }

  /** One atomic step of one goroutine. */
  datatype Action =
    | CallRun                              // a goroutine calls `Run`
    | TakeToken(i: nat)                    // run `i` takes the token
    | DoneArm(i: nat)                      // run `i` takes the stop request and returns the token
    | RecordArm(i: nat, p: nat)            // run `i` receives producer `p`'s record
    | BufferedArm(i: nat)                  // run `i` receives a buffered record
    | WriteRecord(i: nat)                  // run `i` writes the record it received
    | Submit(kind: PrintKind, text: seq<byte>)  // a print entry point increments `queueLen`
    | BufferSend(p: nat)                   // producer `p` leaves its record in the buffer
    | Return(p: nat)                       // producer `p` decrements `queueLen`
    | CallFatal(fkind: FatalKind, text: seq<byte>)
    | Signal(j: nat)                       // fatal `j` sends the stop request
    | Acquire(j: nat)                      // fatal `j` takes the token
    | Terminate(j: nat)                    // fatal `j` writes, flushes and ends the program

  /**
    The action can complete now. Nothing happens once the program has
    ended; a receive from `inactive` needs the token there, a send on
    `done` needs it empty, the stop arm needs it full, and a hand-over on
    `records` needs a looping `Run` and a blocked producer.
   */
  predicate Enabled(s: Logger, a: Action)
  {
    !s.ended &&
    match a
    case CallRun => true
    case TakeToken(i) => i < |s.runs| && s.runs[i].Waiting? && s.token
    case DoneArm(i) => i < |s.runs| && s.runs[i].Looping? && s.doneFull && !s.token
    case RecordArm(i, p) =>
      i < |s.runs| && s.runs[i].Looping? && p < |s.producers| && s.producers[p].Blocked?
    case BufferedArm(i) => i < |s.runs| && s.runs[i].Looping? && |s.buffered| > 0
    case WriteRecord(i) => i < |s.runs| && s.runs[i].Received?
    case Submit(_, _) => true
    case BufferSend(p) =>
      p < |s.producers| && s.producers[p].Blocked? && |s.buffered| < s.recordsCap
    case Return(p) => p < |s.producers| && s.producers[p].Handed?
    case CallFatal(_, _) => true
    case Signal(j) => j < |s.fatals| && s.fatals[j].Signalling? && !s.doneFull
    case Acquire(j) => j < |s.fatals| && s.fatals[j].Awaiting? && s.token
    case Terminate(j) => j < |s.fatals| && s.fatals[j].Writing?
  }

  /**
    Run `i` writes the record it received after its stow: the consumer step
    decides whether it keeps looping with a new stow or returns with an
    error, and the writer calls it made join the trace.
   */
  function Consume(w: Oracle, s: Logger, i: nat): (t: Logger)
    requires Bounded(w) && Progress(w)
    requires i < |s.runs| && s.runs[i].Received?
    ensures |t.runs| == |s.runs| && t.runs == s.runs[i := t.runs[i]]
    ensures t.runs[i].Looping? || (t.runs[i].Returned? && t.runs[i].err.Some?)
    ensures t.runs[i] != Returned(Some(ShortWrite))
    ensures var out := Write(w, s.trace, s.runs[i].stow + s.runs[i].rec);
            && t.trace == s.trace + out.Calls()
            && (t.runs[i].Returned? <==> out.err.Some? && out.err.value != ShortWrite)
            && (t.runs[i].Returned? ==> t.runs[i].err == out.err)
            && (t.runs[i].Looping? ==> t.runs[i].stow == (s.runs[i].stow + s.runs[i].rec)[out.count..])
    ensures t.(runs := s.runs, trace := s.trace) == s
  {
    match Consumer.Receive(w, Consumer.Loop(s.runs[i].stow, s.trace), s.runs[i].rec)
    case Continue(stow, made) => s.(runs := s.runs[i := Looping(stow)], trace := s.trace + made)
    case Fail(e, made) => s.(runs := s.runs[i := Returned(Some(e))], trace := s.trace + made)
  }

  /** The state after an enabled action. */
  function Apply(w: Oracle, s: Logger, a: Action): (t: Logger)
    requires Bounded(w) && Progress(w)
    requires Enabled(s, a)
    ensures |s.trace| <= |t.trace| && t.trace[..|s.trace|] == s.trace
  {
    match a
    case CallRun => s.(runs := s.runs + [Waiting])
    case TakeToken(i) => s.(token := false, runs := s.runs[i := Looping([])])
    case DoneArm(i) => s.(doneFull := false, token := true, runs := s.runs[i := Returned(None)])
    case RecordArm(i, p) =>
      s.(runs := s.runs[i := Received(s.runs[i].stow, s.producers[p].rec)],
         producers := s.producers[p := Handed])
    case BufferedArm(i) =>
      s.(runs := s.runs[i := Received(s.runs[i].stow, s.buffered[0])], buffered := s.buffered[1..])
    case WriteRecord(i) => Consume(w, s, i)
    case Submit(k, text) =>
      s.(queueLen := s.queueLen + 1, producers := s.producers + [Blocked(PrintRecord(k, text))])
    case BufferSend(p) =>
      s.(buffered := s.buffered + [s.producers[p].rec], producers := s.producers[p := Handed])
    case Return(p) => s.(queueLen := s.queueLen - 1, producers := s.producers[p := Finished])
    case CallFatal(k, text) => s.(fatals := s.fatals + [Signalling(k, FatalRecord(k, text))])
    case Signal(j) =>
      var f := s.fatals[j];
      s.(doneFull := true, fatals := s.fatals[j := Awaiting(f.kind, f.rec)])
    case Acquire(j) =>
      var f := s.fatals[j];
      s.(token := false, fatals := s.fatals[j := Writing(f.kind, f.rec)])
    case Terminate(j) =>
      var f := s.fatals[j];
      var out := Write(w, s.trace, f.rec);
      s.(fatals := s.fatals[j := Ended(EndingOf(f.kind))], trace := s.trace + out.Calls(), ended := true)
  }

  /** The actions, one after the other; `None` as soon as one is not enabled. */
  function Execute(w: Oracle, s: Logger, acts: seq<Action>): (r: Option<Logger>)
    requires Bounded(w) && Progress(w)
    ensures r.Some? && |acts| > 0 ==> Enabled(s, acts[0])
    decreases |acts|
  {
    if |acts| == 0 then Some(s)
    else if !Enabled(s, acts[0]) then None
    else Execute(w, Apply(w, s, acts[0]), acts[1..])
  }

  /** A run that keeps the token: looping, writing a record, or returned with an error. */
  predicate RunHolds(r: RunPhase)
  {
    r.Looping? || r.Received? || (r.Returned? && r.err.Some?)
  }

  /** A fatal entry point that has taken the token; it never gives it back. */
  predicate FatalHolds(f: FatalPhase)
  {
    f.Writing? || f.Ended?
  }

  /** A fatal entry point whose stop request has been sent. */
  predicate Signalled(f: FatalPhase)
  {
    !f.Signalling?
  }

  /** A run that left through the stop arm. */
  predicate Stopped(r: RunPhase)
  {
    r == Returned(None)
  }

  /** A producer counted in `queueLen`. */
  predicate InFlight(p: ProducerPhase)
  {
    !p.Finished?
  }

  predicate IsEnded(f: FatalPhase)
  {
    f.Ended?
  }

  /** Where the token is: in `inactive`, or with a run or a fatal entry point. */
  function Tokens(s: Logger): nat
  {
    (if s.token then 1 else 0) + Count(s.runs, RunHolds) + Count(s.fatals, FatalHolds)
  }

  /**
    What holds in every reachable state:
    - there is exactly one token;
    - every stop request sent is either still in `done` or was taken by
      exactly one run, which then returned `nil`;
    - `queueLen` is the number of producers in flight;
    - `records` has no buffer and so holds nothing;
    - the program has ended exactly when one fatal entry point has;
    - no run returned a short write;
    - every fatal entry point that has not ended carries a record its kind
      frames around some text.
   */
  ghost predicate Inv(s: Logger)
  {
    && Tokens(s) == 1
    && Count(s.fatals, Signalled) == (if s.doneFull then 1 else 0) + Count(s.runs, Stopped)
    && s.queueLen == Count(s.producers, InFlight)
    && s.recordsCap == 0 && s.buffered == []
    && Count(s.fatals, IsEnded) == (if s.ended then 1 else 0)
    && (forall i :: 0 <= i < |s.runs| ==> s.runs[i] != Returned(Some(ShortWrite)))
    && (forall j :: 0 <= j < |s.fatals| ==> Framed(s.fatals[j]))
  }

  /** An entry point that has not ended carries a record of its kind. */
  predicate Framed(f: FatalPhase)
  {
    f.Ended? || FatalText(f.kind, f.rec).Some?
  }

  /** `New` leaves the logger inactive, with the invariant established. */
  lemma NewInactive(recordsCount: int, bufferSize: int)
    ensures Inv(New(recordsCount, bufferSize))
    ensures !IsActive(New(recordsCount, bufferSize))
  {
  }

  /*
    What each action does to the state, one lemma per action, so that a
    proof about one step does not have to take `Apply` apart as a whole.
   */

  lemma CallRunStep(w: Oracle, s: Logger)
    requires Bounded(w) && Progress(w) && !s.ended
    ensures Enabled(s, CallRun) && Apply(w, s, CallRun) == s.(runs := s.runs + [Waiting])
  {
  }

  lemma TakeTokenStep(w: Oracle, s: Logger, i: nat)
    requires Bounded(w) && Progress(w) && Enabled(s, TakeToken(i))
    ensures Apply(w, s, TakeToken(i)) == s.(token := false, runs := s.runs[i := Looping([])])
  {
  }

  lemma DoneArmStep(w: Oracle, s: Logger, i: nat)
    requires Bounded(w) && Progress(w) && Enabled(s, DoneArm(i))
    ensures Apply(w, s, DoneArm(i)) == s.(doneFull := false, token := true, runs := s.runs[i := Returned(None)])
  {
  }

  lemma RecordArmStep(w: Oracle, s: Logger, i: nat, p: nat)
    requires Bounded(w) && Progress(w) && Enabled(s, RecordArm(i, p))
    ensures Apply(w, s, RecordArm(i, p))
         == s.(runs := s.runs[i := Received(s.runs[i].stow, s.producers[p].rec)],
               producers := s.producers[p := Handed])
  {
  }

  lemma WriteRecordStep(w: Oracle, s: Logger, i: nat)
    requires Bounded(w) && Progress(w) && Enabled(s, WriteRecord(i))
    ensures Apply(w, s, WriteRecord(i)) == Consume(w, s, i)
  {
  }

  lemma SubmitStep(w: Oracle, s: Logger, k: PrintKind, text: seq<byte>)
    requires Bounded(w) && Progress(w) && !s.ended
    ensures Enabled(s, Submit(k, text))
    ensures Apply(w, s, Submit(k, text))
         == s.(queueLen := s.queueLen + 1, producers := s.producers + [Blocked(PrintRecord(k, text))])
  {
  }

  lemma ReturnStep(w: Oracle, s: Logger, p: nat)
    requires Bounded(w) && Progress(w) && Enabled(s, Return(p))
    ensures Apply(w, s, Return(p)) == s.(queueLen := s.queueLen - 1, producers := s.producers[p := Finished])
  {
  }

  lemma CallFatalStep(w: Oracle, s: Logger, k: FatalKind, text: seq<byte>)
    requires Bounded(w) && Progress(w) && !s.ended
    ensures Enabled(s, CallFatal(k, text))
    ensures Apply(w, s, CallFatal(k, text)) == s.(fatals := s.fatals + [Signalling(k, FatalRecord(k, text))])
  {
  }

  lemma SignalStep(w: Oracle, s: Logger, j: nat)
    requires Bounded(w) && Progress(w) && Enabled(s, Signal(j))
    ensures Apply(w, s, Signal(j))
         == s.(doneFull := true, fatals := s.fatals[j := Awaiting(s.fatals[j].kind, s.fatals[j].rec)])
  {
  }

  lemma AcquireStep(w: Oracle, s: Logger, j: nat)
    requires Bounded(w) && Progress(w) && Enabled(s, Acquire(j))
    ensures Apply(w, s, Acquire(j))
         == s.(token := false, fatals := s.fatals[j := Writing(s.fatals[j].kind, s.fatals[j].rec)])
  {
  }

  lemma TerminateStep(w: Oracle, s: Logger, j: nat)
    requires Bounded(w) && Progress(w) && Enabled(s, Terminate(j))
    ensures Apply(w, s, Terminate(j))
         == s.(fatals := s.fatals[j := Ended(EndingOf(s.fatals[j].kind))],
               trace := s.trace + Write(w, s.trace, s.fatals[j].rec).Calls(),
               ended := true)
  {
  }

  /*
    Preservation of the invariant, one lemma per action. Each counts how the
    action moves the token, the stop request and the producers.
   */

  lemma CallRunKeeps(w: Oracle, s: Logger)
    requires Bounded(w) && Progress(w)
    requires Inv(s) && Enabled(s, CallRun)
    ensures Inv(Apply(w, s, CallRun))
  {
    CallRunStep(w, s);
    CountAppend(s.runs, Waiting, RunHolds);
    CountAppend(s.runs, Waiting, Stopped);
  }

  lemma TakeTokenKeeps(w: Oracle, s: Logger, i: nat)
    requires Bounded(w) && Progress(w)
    requires Inv(s) && Enabled(s, TakeToken(i))
    ensures Inv(Apply(w, s, TakeToken(i)))
  {
    TakeTokenStep(w, s, i);
    RunChangeKeeps(s, i, Looping([]), false, s.doneFull, s.trace);
  }

  lemma DoneArmKeeps(w: Oracle, s: Logger, i: nat)
    requires Bounded(w) && Progress(w)
    requires Inv(s) && Enabled(s, DoneArm(i))
    ensures Inv(Apply(w, s, DoneArm(i)))
  {
    DoneArmStep(w, s, i);
    RunChangeKeeps(s, i, Returned(None), true, false, s.trace);
  }

  lemma RecordArmKeeps(w: Oracle, s: Logger, i: nat, p: nat)
    requires Bounded(w) && Progress(w)
    requires Inv(s) && Enabled(s, RecordArm(i, p))
    ensures Inv(Apply(w, s, RecordArm(i, p)))
  {
    RecordArmStep(w, s, i, p);
    var r := Received(s.runs[i].stow, s.producers[p].rec);
    var t := s.(runs := s.runs[i := r]);
    RunChangeKeeps(s, i, r, s.token, s.doneFull, s.trace);
    CountUpdate(t.producers, p, Handed, InFlight);
  }

  lemma WriteRecordKeeps(w: Oracle, s: Logger, i: nat)
    requires Bounded(w) && Progress(w)
    requires Inv(s) && Enabled(s, WriteRecord(i))
    ensures Inv(Apply(w, s, WriteRecord(i)))
  {
    WriteRecordStep(w, s, i);
    var c := Consume(w, s, i);
    assert c == s.(runs := s.runs[i := c.runs[i]], trace := c.trace);
    RunChangeKeeps(s, i, c.runs[i], s.token, s.doneFull, c.trace);
  }

  /**
    A run that holds the token before and after its change keeps the
    invariant, and so does one that moves it between itself and
    `inactive` or takes the stop request.
   */
  lemma RunChangeKeeps(s: Logger, i: nat, r: RunPhase, token: bool, doneFull: bool, trace: seq<Call>)
    requires Inv(s) && i < |s.runs|
    requires !s.runs[i].Returned? && r != Returned(Some(ShortWrite))
    requires RunHolds(s.runs[i]) && RunHolds(r) ==> token == s.token && doneFull == s.doneFull
    requires s.runs[i].Waiting? ==> r.Looping? && s.token && !token && doneFull == s.doneFull
    requires r == Returned(None) ==> s.runs[i].Looping? && s.doneFull && !doneFull && token && !s.token
    requires !r.Waiting?
    ensures Inv(s.(token := token, doneFull := doneFull, runs := s.runs[i := r], trace := trace))
  {
    CountUpdate(s.runs, i, r, RunHolds);
    CountUpdate(s.runs, i, r, Stopped);
  }

  lemma SubmitKeeps(w: Oracle, s: Logger, k: PrintKind, text: seq<byte>)
    requires Bounded(w) && Progress(w)
    requires Inv(s) && Enabled(s, Submit(k, text))
    ensures Inv(Apply(w, s, Submit(k, text)))
  {
    SubmitStep(w, s, k, text);
    CountAppend(s.producers, Blocked(PrintRecord(k, text)), InFlight);
  }

  lemma ReturnKeeps(w: Oracle, s: Logger, p: nat)
    requires Bounded(w) && Progress(w)
    requires Inv(s) && Enabled(s, Return(p))
    ensures Inv(Apply(w, s, Return(p)))
  {
    ReturnStep(w, s, p);
    CountUpdate(s.producers, p, Finished, InFlight);
  }

  lemma CallFatalKeeps(w: Oracle, s: Logger, k: FatalKind, text: seq<byte>)
    requires Bounded(w) && Progress(w)
    requires Inv(s) && Enabled(s, CallFatal(k, text))
    ensures Inv(Apply(w, s, CallFatal(k, text)))
  {
    CallFatalStep(w, s, k, text);
    FatalRoundTrip(k, text, FatalRecord(k, text));
    AddSignallingKeeps(s, Signalling(k, FatalRecord(k, text)));
  }

  /** A new entry point about to send the stop request keeps the invariant. */
  lemma AddSignallingKeeps(s: Logger, f: FatalPhase)
    requires Inv(s) && f.Signalling? && Framed(f)
    ensures Inv(s.(fatals := s.fatals + [f]))
  {
    CountAppend(s.fatals, f, FatalHolds);
    CountAppend(s.fatals, f, Signalled);
    CountAppend(s.fatals, f, IsEnded);
  }

  lemma SignalKeeps(w: Oracle, s: Logger, j: nat)
    requires Bounded(w) && Progress(w)
    requires Inv(s) && Enabled(s, Signal(j))
    ensures Inv(Apply(w, s, Signal(j)))
  {
    SignalStep(w, s, j);
    FatalChangeKeeps(s, j, Awaiting(s.fatals[j].kind, s.fatals[j].rec), s.token, true, s.trace, false);
  }

  lemma AcquireKeeps(w: Oracle, s: Logger, j: nat)
    requires Bounded(w) && Progress(w)
    requires Inv(s) && Enabled(s, Acquire(j))
    ensures Inv(Apply(w, s, Acquire(j)))
  {
    AcquireStep(w, s, j);
    FatalChangeKeeps(s, j, Writing(s.fatals[j].kind, s.fatals[j].rec), false, s.doneFull, s.trace, false);
  }

  lemma TerminateKeeps(w: Oracle, s: Logger, j: nat)
    requires Bounded(w) && Progress(w)
    requires Inv(s) && Enabled(s, Terminate(j))
    ensures Inv(Apply(w, s, Terminate(j)))
  {
    TerminateStep(w, s, j);
    var trace := s.trace + Write(w, s.trace, s.fatals[j].rec).Calls();
    FatalChangeKeeps(s, j, Ended(EndingOf(s.fatals[j].kind)), s.token, s.doneFull, trace, true);
  }

  /**
    A fatal entry point moving one phase on keeps the invariant: sending
    the stop request fills `done`, acquiring takes the token from
    `inactive`, and ending ends the program.
   */
  lemma FatalChangeKeeps(s: Logger, j: nat, f: FatalPhase, token: bool, doneFull: bool,
                         trace: seq<Call>, ended: bool)
    requires Inv(s) && !s.ended && j < |s.fatals|
    requires f.Awaiting? ==> s.fatals[j].Signalling? && !s.doneFull && doneFull && token == s.token
    requires f.Writing? ==> s.fatals[j].Awaiting? && s.token && !token && doneFull == s.doneFull
    requires f.Ended? ==> s.fatals[j].Writing? && token == s.token && doneFull == s.doneFull
    requires ended <==> f.Ended?
    requires !f.Signalling? && (f.Ended? || (f.kind == s.fatals[j].kind && f.rec == s.fatals[j].rec))
    ensures Inv(s.(token := token, doneFull := doneFull, fatals := s.fatals[j := f], trace := trace, ended := ended))
  {
    CountUpdate(s.fatals, j, f, FatalHolds);
    CountUpdate(s.fatals, j, f, Signalled);
    CountUpdate(s.fatals, j, f, IsEnded);
  }

  /** Every enabled action keeps the invariant. */
  lemma StepKeeps(w: Oracle, s: Logger, a: Action)
    requires Bounded(w) && Progress(w)
    requires Inv(s) && Enabled(s, a)
    ensures Inv(Apply(w, s, a))
  {
    match a
    case CallRun => CallRunKeeps(w, s);
    case TakeToken(i) => TakeTokenKeeps(w, s, i);
    case DoneArm(i) => DoneArmKeeps(w, s, i);
    case RecordArm(i, p) => RecordArmKeeps(w, s, i, p);
    case BufferedArm(i) => assert false;
    case WriteRecord(i) => WriteRecordKeeps(w, s, i);
    case Submit(k, text) => SubmitKeeps(w, s, k, text);
    case BufferSend(p) => assert false;
    case Return(p) => ReturnKeeps(w, s, p);
    case CallFatal(k, text) => CallFatalKeeps(w, s, k, text);
    case Signal(j) => SignalKeeps(w, s, j);
    case Acquire(j) => AcquireKeeps(w, s, j);
    case Terminate(j) => TerminateKeeps(w, s, j);
  }

  /** Any run of enabled actions keeps the invariant. */
  lemma {:induction false} ExecuteKeeps(w: Oracle, s: Logger, acts: seq<Action>)
    requires Bounded(w) && Progress(w)
    requires Inv(s)
    ensures Execute(w, s, acts).Some? ==> Inv(Execute(w, s, acts).value)
    decreases |acts|
  {
    if |acts| > 0 && Enabled(s, acts[0]) {
      StepKeeps(w, s, acts[0]);
      ExecuteKeeps(w, Apply(w, s, acts[0]), acts[1..]);
    }
  }

  /** A state the logger can reach from `New` through enabled actions. */
  ghost predicate Reachable(w: Oracle, s: Logger)
    requires Bounded(w) && Progress(w)
  {
    exists rc: int, bs: int, acts: seq<Action> :: Execute(w, New(rc, bs), acts) == Some(s)
  }

  /** Every reachable state satisfies the invariant. */
  lemma ReachableInv(w: Oracle, s: Logger)
    requires Bounded(w) && Progress(w)
    requires Reachable(w, s)
    ensures Inv(s)
  {
    var rc: int, bs: int, acts: seq<Action> :| Execute(w, New(rc, bs), acts) == Some(s);
    NewInactive(rc, bs);
    ExecuteKeeps(w, New(rc, bs), acts);
  }

  /**
    The token is never in two places: a run that holds it excludes the
    token in `inactive`, every other holding run and every fatal entry
    point past its acquire. In particular at most one `Run` loops.
   */
  lemma RunHolderExclusive(s: Logger, i: nat)
    requires Inv(s)
    requires i < |s.runs| && RunHolds(s.runs[i])
    ensures !s.token
    ensures forall j :: 0 <= j < |s.runs| && j != i ==> !RunHolds(s.runs[j])
    ensures forall j :: 0 <= j < |s.fatals| ==> !FatalHolds(s.fatals[j])
  {
    CountWitness(s.runs, i, RunHolds);
    forall j | 0 <= j < |s.runs| && j != i
      ensures !RunHolds(s.runs[j])
    {
      if RunHolds(s.runs[j]) {
        if i < j {
          CountTwoWitnesses(s.runs, i, j, RunHolds);
        } else {
          CountTwoWitnesses(s.runs, j, i, RunHolds);
        }
      }
    }
    forall j | 0 <= j < |s.fatals|
      ensures !FatalHolds(s.fatals[j])
    {
      if FatalHolds(s.fatals[j]) {
        CountWitness(s.fatals, j, FatalHolds);
      }
    }
  }

  /** At most one `Run` is in its loop. */
  lemma AtMostOneLoop(s: Logger, i: nat, j: nat)
    requires Inv(s)
    requires i < |s.runs| && j < |s.runs| && s.runs[i].Looping? && s.runs[j].Looping?
    ensures i == j
  {
    RunHolderExclusive(s, i);
    assert RunHolds(s.runs[j]);
  }

  /**
    A fatal entry point writes only while it holds the token: no `Run` is
    in its loop (nor keeps the token after an error), the token is not in
    `inactive`, and no other fatal entry point is writing.
   */
  lemma FatalWriteExclusive(s: Logger, j: nat)
    requires Inv(s)
    requires j < |s.fatals| && s.fatals[j].Writing?
    ensures !s.token
    ensures forall i :: 0 <= i < |s.runs| ==> !RunHolds(s.runs[i])
    ensures forall k :: 0 <= k < |s.fatals| && k != j ==> !s.fatals[k].Writing?
  {
    CountWitness(s.fatals, j, FatalHolds);
    forall i | 0 <= i < |s.runs|
      ensures !RunHolds(s.runs[i])
    {
      if RunHolds(s.runs[i]) {
        CountWitness(s.runs, i, RunHolds);
      }
    }
    forall k | 0 <= k < |s.fatals| && k != j
      ensures !s.fatals[k].Writing?
    {
      if s.fatals[k].Writing? {
        if j < k {
          CountTwoWitnesses(s.fatals, j, k, FatalHolds);
        } else {
          CountTwoWitnesses(s.fatals, k, j, FatalHolds);
        }
      }
    }
  }

  /**
    `IsActive` reports true exactly when some goroutine holds the token: a
    `Run` in its loop, a `Run` that returned an error, or a fatal entry
    point that acquired it.
   */
  lemma IsActiveIff(s: Logger)
    requires Inv(s)
    ensures IsActive(s) <==>
              (exists i :: 0 <= i < |s.runs| && RunHolds(s.runs[i]))
              || (exists j :: 0 <= j < |s.fatals| && FatalHolds(s.fatals[j]))
  {
    if IsActive(s) {
      if Count(s.runs, RunHolds) == 0 {
        assert Count(s.fatals, FatalHolds) == 1;
        CountFound(s.fatals, FatalHolds);
      } else {
        CountFound(s.runs, RunHolds);
      }
    } else {
      CountZero(s.runs, RunHolds);
      CountZero(s.fatals, FatalHolds);
    }
  }

  /** A stop request is taken without blocking: the token can always go back. */
  lemma DoneArmNeverBlocks(s: Logger, i: nat)
    requires Inv(s) && !s.ended
    requires i < |s.runs| && s.runs[i].Looping? && s.doneFull
    ensures Enabled(s, DoneArm(i))
  {
    RunHolderExclusive(s, i);
  }

  /**
    The stop arm is the only action that puts the token back, and the run
    that takes it returns `nil`.
   */
  lemma TokenReturnedOnlyByStop(w: Oracle, s: Logger, a: Action)
    requires Bounded(w) && Progress(w)
    requires Enabled(s, a) && !s.token && Apply(w, s, a).token
    ensures a.DoneArm? && Apply(w, s, a).runs[a.i] == Returned(None)
  {
  }

  /**
    `records` never buffers anything: neither the buffered send nor the
    buffered receive is ever enabled, so `len(al.records)` in `Finish` is
    always zero.
   */
  lemma RecordsUnbuffered(s: Logger)
    requires Inv(s)
    ensures |s.buffered| == 0
    ensures forall p: nat :: !Enabled(s, BufferSend(p))
    ensures forall i: nat :: !Enabled(s, BufferedArm(i))
  {
  }

  /**
    `Finish` leaves its busy wait exactly when every producer has done its
    decrement.
   */
  lemma FinishWaitsForProducers(s: Logger)
    requires Inv(s)
    ensures FinishMayProceed(s) <==>
              forall p :: 0 <= p < |s.producers| ==> s.producers[p].Finished?
  {
    if s.queueLen == 0 {
      CountZero(s.producers, InFlight);
    } else {
      CountFound(s.producers, InFlight);
    }
  }

  /** No action touches a run that has returned; the sequence of runs only grows. */
  lemma StepKeepsReturned(w: Oracle, s: Logger, a: Action, i: nat)
    requires Bounded(w) && Progress(w)
    requires Enabled(s, a)
    requires i < |s.runs| && s.runs[i].Returned?
    ensures i < |Apply(w, s, a).runs| && Apply(w, s, a).runs[i] == s.runs[i]
  {
  }

  /**
    A `Run` that returned an error other than a short write keeps the token
    for good: whatever happens afterwards, `IsActive` reports true, no later
    `Run` can take the token (it blocks forever instead of restarting the
    logger), and no fatal entry point can acquire it either.
   */
  lemma {:induction false} FaultIsPermanent(w: Oracle, s: Logger, i: nat, acts: seq<Action>)
    requires Bounded(w) && Progress(w)
    requires Inv(s)
    requires i < |s.runs| && s.runs[i].Returned? && s.runs[i].err.Some?
    ensures Execute(w, s, acts).Some? ==>
              var t := Execute(w, s, acts).value;
              && i < |t.runs| && t.runs[i] == s.runs[i]
              && IsActive(t)
              && (forall k: nat :: !Enabled(t, TakeToken(k)))
              && (forall j: nat :: !Enabled(t, Acquire(j)))
    decreases |acts|
  {
    if |acts| == 0 {
      RunHolderExclusive(s, i);
    } else if Enabled(s, acts[0]) {
      StepKeeps(w, s, acts[0]);
      StepKeepsReturned(w, s, acts[0], i);
      FaultIsPermanent(w, Apply(w, s, acts[0]), i, acts[1..]);
    }
  }

  /** Executing a first enabled action and then the rest. */
  lemma ExecuteCons(w: Oracle, s: Logger, a: Action, rest: seq<Action>)
    requires Bounded(w) && Progress(w)
    requires Enabled(s, a)
    ensures Execute(w, s, [a] + rest) == Execute(w, Apply(w, s, a), rest)
  {
    assert ([a] + rest)[0] == a && ([a] + rest)[1..] == rest;
  }

  /** Executing two runs of actions one after the other. */
  lemma {:induction false} ExecuteAppend(w: Oracle, s: Logger, xs: seq<Action>, ys: seq<Action>)
    requires Bounded(w) && Progress(w)
    ensures Execute(w, s, xs + ys)
         == (if Execute(w, s, xs).Some? then Execute(w, Execute(w, s, xs).value, ys) else None)
    decreases |xs|
  {
    if |xs| == 0 {
      assert xs + ys == ys;
    } else {
      assert (xs + ys)[0] == xs[0] && (xs + ys)[1..] == xs[1..] + ys;
      if Enabled(s, xs[0]) {
        ExecuteAppend(w, Apply(w, s, xs[0]), xs[1..], ys);
      }
    }
  }

  /**
    A print entry point that completes leaves `queueLen` where it found it:
    the increment, the hand-over of its framed record to the looping `Run`,
    the write of that record after the stow, and the decrement. What the
    writer is asked for is exactly the stow followed by the framed text.
   */
  lemma {:induction false} PrintRestoresQueueLen(w: Oracle, s: Logger, i: nat, k: PrintKind, text: seq<byte>)
    requires Bounded(w) && Progress(w)
    requires !s.ended && i < |s.runs| && s.runs[i].Looping?
    ensures var p := |s.producers|;
            var r := Execute(w, s, [Submit(k, text), RecordArm(i, p), WriteRecord(i), Return(p)]);
            && r.Some?
            && r.value.queueLen == s.queueLen
            && r.value.producers == s.producers + [Finished]
            && r.value.trace == s.trace + Write(w, s.trace, s.runs[i].stow + PrintRecord(k, text)).Calls()
  {
    var p := |s.producers|;
    var rec := PrintRecord(k, text);
    var s1 := s.(queueLen := s.queueLen + 1, producers := s.producers + [Blocked(rec)]);
    SubmitStep(w, s, k, text);
    var s2 := s1.(runs := s.runs[i := Received(s.runs[i].stow, rec)], producers := s.producers + [Handed]);
    RecordArmStep(w, s1, i, p);
    assert s1.producers[p := Handed] == s.producers + [Handed];
    assert Apply(w, s1, RecordArm(i, p)) == s2;
    var s3 := Consume(w, s2, i);
    WriteRecordStep(w, s2, i);
    var s4 := s3.(queueLen := s.queueLen, producers := s.producers + [Finished]);
    ReturnStep(w, s3, p);
    assert s3.producers[p := Finished] == s.producers + [Finished];
    assert Apply(w, s3, Return(p)) == s4;
    var t3 := [Return(p)];
    var t2 := [WriteRecord(i)] + t3;
    var t1 := [RecordArm(i, p)] + t2;
    ExecuteCons(w, s3, Return(p), []);
    assert [Return(p)] + [] == t3;
    assert Execute(w, s3, t3) == Some(s4);
    ExecuteCons(w, s2, WriteRecord(i), t3);
    assert Execute(w, s2, t2) == Some(s4);
    ExecuteCons(w, s1, RecordArm(i, p), t2);
    assert Execute(w, s1, t1) == Some(s4);
    ExecuteCons(w, s, Submit(k, text), t1);
    assert [Submit(k, text)] + t1 == [Submit(k, text), RecordArm(i, p), WriteRecord(i), Return(p)];
  }

  /**
    A producer's decrement can come before `Run` has written its record:
    `Finish` may then leave its wait while the record has not reached the
    writer at all.
   */
  lemma {:induction false} FinishBeforeWrite(w: Oracle, s: Logger, i: nat, k: PrintKind, text: seq<byte>)
    requires Bounded(w) && Progress(w)
    requires !s.ended && i < |s.runs| && s.runs[i].Looping?
    ensures var p := |s.producers|;
            var r := Execute(w, s, [Submit(k, text), RecordArm(i, p), Return(p)]);
            && r.Some?
            && i < |r.value.runs| && r.value.runs[i] == Received(s.runs[i].stow, PrintRecord(k, text))
            && r.value.trace == s.trace
            && (FinishMayProceed(s) ==> FinishMayProceed(r.value))
  {
    var p := |s.producers|;
    var rec := PrintRecord(k, text);
    var s1 := s.(queueLen := s.queueLen + 1, producers := s.producers + [Blocked(rec)]);
    SubmitStep(w, s, k, text);
    var s2 := s1.(runs := s.runs[i := Received(s.runs[i].stow, rec)], producers := s.producers + [Handed]);
    RecordArmStep(w, s1, i, p);
    assert s1.producers[p := Handed] == s.producers + [Handed];
    assert Apply(w, s1, RecordArm(i, p)) == s2;
    var s3 := s2.(queueLen := s.queueLen, producers := s.producers + [Finished]);
    ReturnStep(w, s2, p);
    assert s2.producers[p := Finished] == s.producers + [Finished];
    assert Apply(w, s2, Return(p)) == s3;
    var t2 := [Return(p)];
    var t1 := [RecordArm(i, p)] + t2;
    ExecuteCons(w, s2, Return(p), []);
    assert [Return(p)] + [] == t2;
    assert Execute(w, s2, t2) == Some(s3);
    ExecuteCons(w, s1, RecordArm(i, p), t2);
    assert Execute(w, s1, t1) == Some(s3);
    ExecuteCons(w, s, Submit(k, text), t1);
    assert [Submit(k, text)] + t1 == [Submit(k, text), RecordArm(i, p), Return(p)];
  }

  /**
    The write of a fatal entry point: its record is one of its kind framed
    around a text; no `Run` is in its loop or halfway through a record; the
    writer is asked for exactly that record after everything already
    written, and the program ends. What is counted is the written prefix of
    the record, and all of it when the writer reports no error.
   */
  lemma TerminateWrites(w: Oracle, s: Logger, j: nat)
    requires Bounded(w) && Progress(w)
    requires Inv(s) && Enabled(s, Terminate(j))
    ensures var f := s.fatals[j];
            && FatalText(f.kind, f.rec).Some?
            && FatalRecord(f.kind, FatalText(f.kind, f.rec).value) == f.rec
    ensures forall i :: 0 <= i < |s.runs| ==> !s.runs[i].Looping? && !s.runs[i].Received?
    ensures var t := Apply(w, s, Terminate(j));
            var out := Write(w, s.trace, s.fatals[j].rec);
            && t.ended
            && t.trace == s.trace + out.Calls()
            && Counted(t.trace) == Counted(s.trace) + s.fatals[j].rec[..out.count]
            && (out.err == None ==> Output(t.trace) == Output(s.trace) + s.fatals[j].rec)
  {
    var f := s.fatals[j];
    assert Framed(f);
    FatalRoundTrip(f.kind, FatalText(f.kind, f.rec).value, f.rec);
    NoRunWrites(s, j);
    TerminateStep(w, s, j);
    WriteAfter(w, s.trace, f.rec);
  }

  /** While a fatal entry point writes, no `Run` is in its loop or halfway through a record. */
  lemma NoRunWrites(s: Logger, j: nat)
    requires Inv(s)
    requires j < |s.fatals| && s.fatals[j].Writing?
    ensures forall i :: 0 <= i < |s.runs| ==> !s.runs[i].Looping? && !s.runs[i].Received?
  {
    FatalWriteExclusive(s, j);
    forall i | 0 <= i < |s.runs|
      ensures !s.runs[i].Looping? && !s.runs[i].Received?
    {
      assert !RunHolds(s.runs[i]);
    }
  }

  /**
    The stop arm drops the stow: a `Run` that still held the unwritten
    remainder of a short write returns `nil` without writing it, and no run
    is left that could.
   */
  lemma StopDropsStow(w: Oracle, s: Logger, i: nat)
    requires Bounded(w) && Progress(w)
    requires Inv(s) && Enabled(s, DoneArm(i))
    ensures var t := Apply(w, s, DoneArm(i));
            && t.runs[i] == Returned(None)
            && t.trace == s.trace
            && forall k :: 0 <= k < |t.runs| ==> !t.runs[k].Looping? && !t.runs[k].Received?
  {
    DoneArmStep(w, s, i);
    RunHolderExclusive(s, i);
  }

  /** A writer that fails every call, accepting nothing. */
  function Refuses(trace: seq<Call>, chunk: seq<byte>): (r: Reply)
    ensures r.n == 0 && r.err.Some? && r.err.value != ShortWrite
  {
    Reply(0, Some(Failure(0)))
  }

  /** A `Run` looping with an empty stow takes a record and fails to write it. */
  lemma {:induction false} FaultPhase(text: seq<byte>)
    ensures Bounded(Refuses) && Progress(Refuses)
    ensures var s := Logger(false, false, 0, [], 0, [Looping([])], [], [], [], false);
            var c := Call(PrintRecord(Println, text), Reply(0, Some(Failure(0))));
            Execute(Refuses, s, [Submit(Println, text), RecordArm(0, 0), WriteRecord(0)])
            == Some(Logger(false, false, 0, [], 1, [Returned(Some(Failure(0)))], [], [Handed], [c], false))
  {
    var w := Refuses;
    var rec := PrintRecord(Println, text);
    var c := Call(rec, Reply(0, Some(Failure(0))));
    assert [] + rec == rec;
    assert WriteFrom(w, [], rec, 0) == Written(0, Some(Failure(0)), [], Some(c));
    assert Write(w, [], rec).Calls() == [] + [c];
    var s2 := Logger(false, false, 0, [], 0, [Looping([])], [], [], [], false);
    var s3 := Logger(false, false, 0, [], 1, [Looping([])], [], [Blocked(rec)], [], false);
    var s4 := Logger(false, false, 0, [], 1, [Received([], rec)], [], [Handed], [], false);
    var s5 := Logger(false, false, 0, [], 1, [Returned(Some(Failure(0)))], [], [Handed], [c], false);
    SubmitStep(w, s2, Println, text);
    assert [] + [Blocked(rec)] == [Blocked(rec)];
    assert Apply(w, s2, Submit(Println, text)) == s3;
    RecordArmStep(w, s3, 0, 0);
    assert Apply(w, s3, RecordArm(0, 0)) == s4;
    WriteRecordStep(w, s4, 0);
    assert [] + [c] == [c];
    assert Apply(w, s4, WriteRecord(0)) == s5;
    var t4 := [WriteRecord(0)];
    var t3 := [RecordArm(0, 0)] + t4;
    ExecuteCons(w, s4, WriteRecord(0), []);
    assert [WriteRecord(0)] + [] == t4;
    assert Execute(w, s4, t4) == Some(s5);
    ExecuteCons(w, s3, RecordArm(0, 0), t4);
    assert Execute(w, s3, t3) == Some(s5);
    ExecuteCons(w, s2, Submit(Println, text), t3);
    assert [Submit(Println, text)] + t3 == [Submit(Println, text), RecordArm(0, 0), WriteRecord(0)];
  }

  /**
    A faulted `Run` is reachable: with a writer that fails, the first
    record handed over ends `Run` with that error and the token stays held.
   */
  lemma {:induction false} FaultReachable(text: seq<byte>)
    ensures Bounded(Refuses) && Progress(Refuses)
    ensures var acts := [CallRun, TakeToken(0), Submit(Println, text), RecordArm(0, 0), WriteRecord(0)];
            var r := Execute(Refuses, New(16, 1024), acts);
            && r.Some?
            && r.value.runs == [Returned(Some(Failure(0)))]
            && IsActive(r.value)
            && Reachable(Refuses, r.value)
  {
    var w := Refuses;
    var c := Call(PrintRecord(Println, text), Reply(0, Some(Failure(0))));
    var s2 := Logger(false, false, 0, [], 0, [Looping([])], [], [], [], false);
    var s5 := Logger(false, false, 1 - 1, [], 1, [Returned(Some(Failure(0)))], [], [Handed], [c], false);
    var start := [CallRun, TakeToken(0)];
    var fault := [Submit(Println, text), RecordArm(0, 0), WriteRecord(0)];
    StartPhase(w);
    assert Execute(w, New(16, 1024), start) == Some(s2);
    FaultPhase(text);
    assert Execute(w, s2, fault) == Some(s5);
    ExecuteAppend(w, New(16, 1024), start, fault);
    assert Execute(w, New(16, 1024), start + fault) == Some(s5);
    assert start + fault == [CallRun, TakeToken(0), Submit(Println, text), RecordArm(0, 0), WriteRecord(0)];
  }

  /** `New`, then a `Run` taking the token. */
  lemma {:induction false} StartPhase(w: Oracle)
    requires Bounded(w) && Progress(w)
    ensures Execute(w, New(16, 1024), [CallRun, TakeToken(0)])
         == Some(Logger(false, false, 0, [], 0, [Looping([])], [], [], [], false))
  {
    var s0 := New(16, 1024);
    var s1 := Logger(true, false, 0, [], 0, [Waiting], [], [], [], false);
    var s2 := Logger(false, false, 0, [], 0, [Looping([])], [], [], [], false);
    CallRunStep(w, s0);
    assert [] + [Waiting] == [Waiting];
    assert Apply(w, s0, CallRun) == s1;
    TakeTokenStep(w, s1, 0);
    assert Apply(w, s1, TakeToken(0)) == s2;
    ExecuteCons(w, s1, TakeToken(0), []);
    assert [TakeToken(0)] + [] == [TakeToken(0)];
    assert Execute(w, s1, [TakeToken(0)]) == Some(s2);
    ExecuteCons(w, s0, CallRun, [TakeToken(0)]);
    assert [CallRun] + [TakeToken(0)] == [CallRun, TakeToken(0)];
  }

  /** A producer hands its record to a `Run` looping with an empty stow. */
  lemma {:induction false} HandPhase(w: Oracle, k: PrintKind, text: seq<byte>)
    requires Bounded(w) && Progress(w)
    ensures var s := Logger(false, false, 0, [], 0, [Looping([])], [], [], [], false);
            Execute(w, s, [Submit(k, text), RecordArm(0, 0)])
            == Some(Logger(false, false, 0, [], 1, [Received([], PrintRecord(k, text))], [], [Handed], [], false))
  {
    var rec := PrintRecord(k, text);
    var s2 := Logger(false, false, 0, [], 0, [Looping([])], [], [], [], false);
    var s3 := Logger(false, false, 0, [], 1, [Looping([])], [], [Blocked(rec)], [], false);
    var s4 := Logger(false, false, 0, [], 1, [Received([], rec)], [], [Handed], [], false);
    SubmitStep(w, s2, k, text);
    assert [] + [Blocked(rec)] == [Blocked(rec)];
    assert Apply(w, s2, Submit(k, text)) == s3;
    RecordArmStep(w, s3, 0, 0);
    assert Apply(w, s3, RecordArm(0, 0)) == s4;
    ExecuteCons(w, s3, RecordArm(0, 0), []);
    assert [RecordArm(0, 0)] + [] == [RecordArm(0, 0)];
    assert Execute(w, s3, [RecordArm(0, 0)]) == Some(s4);
    ExecuteCons(w, s2, Submit(k, text), [RecordArm(0, 0)]);
    assert [Submit(k, text)] + [RecordArm(0, 0)] == [Submit(k, text), RecordArm(0, 0)];
  }

  /**
    The `Run` writes the record it took through a writer that never fails,
    and the producer does its decrement.
   */
  lemma {:induction false} WritePhase(w: Oracle, rec: seq<byte>)
    requires Bounded(w) && Progress(w) && Reliable(w)
    ensures var made := Write(w, [], rec).Calls();
            var s := Logger(false, false, 0, [], 1, [Received([], rec)], [], [Handed], [], false);
            && Output(made) == rec
            && Execute(w, s, [WriteRecord(0), Return(0)])
               == Some(Logger(false, false, 0, [], 0, [Looping([])], [], [Finished], made, false))
  {
    assert [] + rec == rec;
    Consumer.ReliableReceive(w, Consumer.Loop([], []), rec);
    var made := Write(w, [], rec).Calls();
    var s4 := Logger(false, false, 0, [], 1, [Received([], rec)], [], [Handed], [], false);
    var s5 := Logger(false, false, 0, [], 1, [Looping([])], [], [Handed], made, false);
    var s6 := Logger(false, false, 0, [], 0, [Looping([])], [], [Finished], made, false);
    WriteRecordStep(w, s4, 0);
    assert [] + made == made;
    assert Apply(w, s4, WriteRecord(0)) == s5;
    ReturnStep(w, s5, 0);
    assert Apply(w, s5, Return(0)) == s6;
    ExecuteCons(w, s5, Return(0), []);
    assert [Return(0)] + [] == [Return(0)];
    assert Execute(w, s5, [Return(0)]) == Some(s6);
    ExecuteCons(w, s4, WriteRecord(0), [Return(0)]);
    assert [WriteRecord(0)] + [Return(0)] == [WriteRecord(0), Return(0)];
  }

  /**
    One producer hands its record to a `Run` looping with an empty stow,
    which writes it through a writer that never fails, and the producer
    does its decrement.
   */
  lemma {:induction false} HandOverPhase(w: Oracle, k: PrintKind, text: seq<byte>)
    requires Bounded(w) && Progress(w) && Reliable(w)
    ensures var made := Write(w, [], PrintRecord(k, text)).Calls();
            var s := Logger(false, false, 0, [], 0, [Looping([])], [], [], [], false);
            && Output(made) == PrintRecord(k, text)
            && Execute(w, s, [Submit(k, text), RecordArm(0, 0), WriteRecord(0), Return(0)])
               == Some(Logger(false, false, 0, [], 0, [Looping([])], [], [Finished], made, false))
  {
    var s := Logger(false, false, 0, [], 0, [Looping([])], [], [], [], false);
    var hand := [Submit(k, text), RecordArm(0, 0)];
    var write := [WriteRecord(0), Return(0)];
    var rec := PrintRecord(k, text);
    var made := Write(w, [], rec).Calls();
    var s4 := Logger(false, false, 0, [], 1, [Received([], rec)], [], [Handed], [], false);
    var s6 := Logger(false, false, 0, [], 0, [Looping([])], [], [Finished], made, false);
    HandPhase(w, k, text);
    assert Execute(w, s, hand) == Some(s4);
    WritePhase(w, rec);
    assert Execute(w, s4, write) == Some(s6);
    ExecuteAppend(w, s, hand, write);
    assert Execute(w, s, hand + write) == Some(s6);
    assert hand + write == [Submit(k, text), RecordArm(0, 0), WriteRecord(0), Return(0)];
  }

  /**
    The state after `New`, a `Run` taking the token, and one producer
    handing over its record, written through a writer that never fails.
   */
  lemma {:induction false} RecordPhase(w: Oracle, k: PrintKind, text: seq<byte>)
    requires Bounded(w) && Progress(w) && Reliable(w)
    ensures var made := Write(w, [], PrintRecord(k, text)).Calls();
            && Output(made) == PrintRecord(k, text)
            && Execute(w, New(16, 1024),
                       [CallRun, TakeToken(0), Submit(k, text), RecordArm(0, 0), WriteRecord(0), Return(0)])
               == Some(Logger(false, false, 0, [], 0, [Looping([])], [], [Finished], made, false))
  {
    var start := [CallRun, TakeToken(0)];
    var handOver := [Submit(k, text), RecordArm(0, 0), WriteRecord(0), Return(0)];
    var made := Write(w, [], PrintRecord(k, text)).Calls();
    var s2 := Logger(false, false, 0, [], 0, [Looping([])], [], [], [], false);
    var s6 := Logger(false, false, 0, [], 0, [Looping([])], [], [Finished], made, false);
    StartPhase(w);
    assert Execute(w, New(16, 1024), start) == Some(s2);
    HandOverPhase(w, k, text);
    assert Execute(w, s2, handOver) == Some(s6);
    ExecuteAppend(w, New(16, 1024), start, handOver);
    assert Execute(w, New(16, 1024), start + handOver) == Some(s6);
    assert start + handOver
        == [CallRun, TakeToken(0), Submit(k, text), RecordArm(0, 0), WriteRecord(0), Return(0)];
  }

  /**
    The handshake of a fatal entry point with a `Run` looping with an empty
    stow: the stop request is sent, `Run` takes it and puts the token back,
    and the fatal entry point takes the token.
   */
  lemma {:induction false} HandshakePhase(w: Oracle, trace: seq<Call>, fk: FatalKind, msg: seq<byte>)
    requires Bounded(w) && Progress(w)
    ensures var s := Logger(false, false, 0, [], 0, [Looping([])], [], [Finished], trace, false);
            var r := Execute(w, s, [CallFatal(fk, msg), Signal(0), DoneArm(0), Acquire(0)]);
            r == Some(Logger(false, false, 0, [], 0, [Returned(None)], [Writing(fk, FatalRecord(fk, msg))],
                             [Finished], trace, false))
  {
    var frec := FatalRecord(fk, msg);
    var s5 := Logger(false, false, 0, [], 0, [Looping([])], [], [Finished], trace, false);
    var s6 := Logger(false, false, 0, [], 0, [Looping([])], [Signalling(fk, frec)], [Finished], trace, false);
    var s7 := Logger(false, true, 0, [], 0, [Looping([])], [Awaiting(fk, frec)], [Finished], trace, false);
    var s8 := Logger(true, false, 0, [], 0, [Returned(None)], [Awaiting(fk, frec)], [Finished], trace, false);
    var s9 := Logger(false, false, 0, [], 0, [Returned(None)], [Writing(fk, frec)], [Finished], trace, false);
    CallFatalStep(w, s5, fk, msg);
    assert [] + [Signalling(fk, frec)] == [Signalling(fk, frec)];
    assert Apply(w, s5, CallFatal(fk, msg)) == s6;
    SignalStep(w, s6, 0);
    assert Apply(w, s6, Signal(0)) == s7;
    DoneArmStep(w, s7, 0);
    assert Apply(w, s7, DoneArm(0)) == s8;
    AcquireStep(w, s8, 0);
    assert Apply(w, s8, Acquire(0)) == s9;
    var t3 := [Acquire(0)];
    var t2 := [DoneArm(0)] + t3;
    var t1 := [Signal(0)] + t2;
    ExecuteCons(w, s8, Acquire(0), []);
    assert [Acquire(0)] + [] == t3;
    assert Execute(w, s8, t3) == Some(s9);
    ExecuteCons(w, s7, DoneArm(0), t3);
    assert Execute(w, s7, t2) == Some(s9);
    ExecuteCons(w, s6, Signal(0), t2);
    assert Execute(w, s6, t1) == Some(s9);
    ExecuteCons(w, s5, CallFatal(fk, msg), t1);
    assert [CallFatal(fk, msg)] + t1 == [CallFatal(fk, msg), Signal(0), DoneArm(0), Acquire(0)];
  }

  /**
    A fatal entry point holding the token writes its record after
    everything already written and ends the program.
   */
  lemma {:induction false} TerminatePhase(w: Oracle, trace: seq<Call>, fk: FatalKind, rec: seq<byte>)
    requires Bounded(w) && Progress(w) && Reliable(w)
    ensures var s := Logger(false, false, 0, [], 0, [Returned(None)], [Writing(fk, rec)], [Finished], trace, false);
            var r := Execute(w, s, [Terminate(0)]);
            && r.Some?
            && r.value.ended
            && r.value.runs == [Returned(None)]
            && r.value.fatals == [Ended(EndingOf(fk))]
            && r.value.queueLen == 0
            && Output(r.value.trace) == Output(trace) + rec
  {
    var s9 := Logger(false, false, 0, [], 0, [Returned(None)], [Writing(fk, rec)], [Finished], trace, false);
    var made := Write(w, trace, rec).Calls();
    var s10 := Logger(false, false, 0, [], 0, [Returned(None)], [Ended(EndingOf(fk))], [Finished],
                      trace + made, true);
    ReliableWriteDelivers(w, trace, rec);
    OutputAppend(trace, made);
    TerminateStep(w, s9, 0);
    assert Apply(w, s9, Terminate(0)) == s10;
    ExecuteCons(w, s9, Terminate(0), []);
    assert [Terminate(0)] + [] == [Terminate(0)];
  }

  /**
    From a logger whose `Run` loops with an empty stow, a fatal entry point
    stops the run, acquires the token, writes its record after everything
    already written, and ends the program.
   */
  lemma {:induction false} StopPhase(w: Oracle, trace: seq<Call>, fk: FatalKind, msg: seq<byte>)
    requires Bounded(w) && Progress(w) && Reliable(w)
    ensures var s := Logger(false, false, 0, [], 0, [Looping([])], [], [Finished], trace, false);
            var r := Execute(w, s, [CallFatal(fk, msg), Signal(0), DoneArm(0), Acquire(0), Terminate(0)]);
            && r.Some?
            && r.value.ended
            && r.value.runs == [Returned(None)]
            && r.value.fatals == [Ended(EndingOf(fk))]
            && r.value.queueLen == 0
            && Output(r.value.trace) == Output(trace) + FatalRecord(fk, msg)
  {
    var s5 := Logger(false, false, 0, [], 0, [Looping([])], [], [Finished], trace, false);
    var s9 := Logger(false, false, 0, [], 0, [Returned(None)], [Writing(fk, FatalRecord(fk, msg))],
                     [Finished], trace, false);
    var handshake := [CallFatal(fk, msg), Signal(0), DoneArm(0), Acquire(0)];
    HandshakePhase(w, trace, fk, msg);
    assert Execute(w, s5, handshake) == Some(s9);
    TerminatePhase(w, trace, fk, FatalRecord(fk, msg));
    ExecuteAppend(w, s5, handshake, [Terminate(0)]);
    assert Execute(w, s5, handshake + [Terminate(0)]) == Execute(w, s9, [Terminate(0)]);
    assert handshake + [Terminate(0)] == [CallFatal(fk, msg), Signal(0), DoneArm(0), Acquire(0), Terminate(0)];
  }

  /**
    A whole life with a writer that never fails: `Run` starts, a producer
    hands over one record, which `Run` writes, a fatal entry point stops
    `Run`, takes the token, writes its own record and ends the program.
    `Run` returned `nil`, the producer's decrement happened, and the writer
    received the print record followed by the fatal record, nothing else.
   */
  lemma {:induction false} StopAfterRecord(w: Oracle, k: PrintKind, text: seq<byte>, fk: FatalKind, msg: seq<byte>)
    requires Bounded(w) && Progress(w) && Reliable(w)
    ensures var r := Execute(w, New(16, 1024),
                             [CallRun, TakeToken(0), Submit(k, text), RecordArm(0, 0), WriteRecord(0), Return(0),
                              CallFatal(fk, msg), Signal(0), DoneArm(0), Acquire(0), Terminate(0)]);
            && r.Some?
            && r.value.ended
            && r.value.runs == [Returned(None)]
            && r.value.fatals == [Ended(EndingOf(fk))]
            && r.value.queueLen == 0
            && Output(r.value.trace) == PrintRecord(k, text) + FatalRecord(fk, msg)
  {
    var first := [CallRun, TakeToken(0), Submit(k, text), RecordArm(0, 0), WriteRecord(0), Return(0)];
    var second := [CallFatal(fk, msg), Signal(0), DoneArm(0), Acquire(0), Terminate(0)];
    assert first + second
        == [CallRun, TakeToken(0), Submit(k, text), RecordArm(0, 0), WriteRecord(0), Return(0),
            CallFatal(fk, msg), Signal(0), DoneArm(0), Acquire(0), Terminate(0)];
    var made := Write(w, [], PrintRecord(k, text)).Calls();
    var mid := Logger(false, false, 0, [], 0, [Looping([])], [], [Finished], made, false);
    RecordPhase(w, k, text);
    assert Execute(w, New(16, 1024), first) == Some(mid);
    StopPhase(w, made, fk, msg);
    ExecuteAppend(w, New(16, 1024), first, second);
    assert Execute(w, New(16, 1024), first + second) == Execute(w, mid, second);
  }
}
