# alog: a Dafny model of the asynchronous logger

`alog` is a small Go logging package. Producers hand formatted records to one consumer goroutine. That goroutine, `Run`, writes them through a buffered writer. Fatal and panic entry points stop `Run`, write a last record themselves and end the program.

This project models the `ALogger` core of `alog/alog.go` and proves properties of the model. The concurrency is cut into pieces that can be checked one at a time.

- **`Base`**: bytes, `Option`, and counting the elements of a sequence that satisfy a predicate.
- **`Writer`**: the buffered writer and the `write` helper.
  - The writer is an oracle. Given every call made so far and the chunk offered now, it answers `(n, err)`.
  - Its contract (`n <= len(chunk)`) and the progress assumption the loop of `write` needs are stated as predicates of the oracle.
  - Every general theorem quantifies over all such oracles, and every recorded call is tied to the oracle's answer (`Answered`). Only the scenario lemmas `Consumer.ShortWriteResends`, `Lifecycle.FaultPhase` and `Lifecycle.FaultReachable` each exhibit one particular writer.
  - `Counted` is the bytes `write` counts: those accepted by error-free calls.
  - `Output` is every byte the buffered writer accepted, including what a failing call reported.
- **`Consumer`**: the records arm of `Run`.
  - It prepends the stowed remainder, writes, and stows the unwritten suffix after a short write.
  - The loop of `Run` is modelled over a sequence of select outcomes: records, or the stop request.
- **`Framing`**: the bytes each entry point puts around the text `fmt` produced. The text itself is taken as given.
  - `Print` sends the text; `Println` and `Printf` add a newline.
  - `Fatal`/`Panic` put `"fatal: "`/`"panic: "` in front, and their `ln` variants add a newline.
  - `Fatalf` and `Panicf` write `Sprintf(format, Sprint(args))` (alog/alog.go:153, 181), with no prefix and no newline (`Framing.FormattedFatalIsBare`).
- **`Lifecycle`**: the logger as a state machine of atomic actions.
  - Each goroutine is a thread: a `Run`, a print entry point, or a fatal entry point.
  - Each channel operation is one action, except the stop arm: its receive from `done` and its send on `inactive` form one action. The write `Run` makes of a record it has received is an action of its own, so it can happen after the producer's decrement.
  - The state holds:
    - the token in `inactive` and the stop request in `done`;
    - the capacity and buffer of `records`, and `queueLen`;
    - the phase of each goroutine;
    - the trace of writer calls.
  - One invariant covers every state reachable from `New`. In it the token is in exactly one place:
    - in `inactive`;
    - with a `Run` that loops or is writing a record it received;
    - for good, with a `Run` that returned an error other than a short write;
    - for good, with a fatal entry point that acquired it.

Where the comments in `alog/alog.go` and its code disagree, the model follows the code:

- The comment in `Run` (alog/alog.go:72-73) says an error other than a short write lets the logger be restarted by calling `Run` again. The code never puts the token back on that path. The model proves that a later `Run` blocks forever (`Lifecycle.FaultIsPermanent`), and that such a state is reachable (`Lifecycle.FaultReachable`). The token acquire of any later fatal entry point blocks too.
- The comment on `Fatal` (alog/alog.go:129, 133) says it makes `Run` finish writing the current record. A fatal entry point does write only once no `Run` is halfway through a record (`Lifecycle.TerminateWrites`). But the remainder a short write left in the stow is dropped when `Run` takes the stop request (`Lifecycle.StopDropsStow`).
- The comment on `Finish` (alog/alog.go:97) warns of lost data. The model shows the case: every producer has decremented while `Run` still holds a record it has not written (`Lifecycle.FinishBeforeWrite`).

## Model

| member | source | states |
|---|---|---|
| `Writer.WriteFrom` | alog/alog.go:44-52 | From `written` bytes on, the loop returns a count between `written` and `len(s)`. The error is nil exactly when the count reaches `len(s)` and no call failed. The calls before the failing one are all error-free. The failing call carries the returned error and was offered exactly the unwritten suffix. Every recorded reply is the writer's answer to that chunk after the calls before it. |
| `Writer.Write` | alog/alog.go:43-53 | `write(s)` returns a count at most `len(s)`, and nil exactly when the count is `len(s)`. The error-free calls accepted, in order, exactly `s[:count]`. They were offered consecutive suffixes of `s`, each starting where the previous call's accepted bytes end. Every recorded reply is what `buff.Write` answered. |
| `Writer.WriteOutput` | alog/alog.go:46-50 | The returned count is what the error-free calls accepted. The failing call's own `bw` is not added. Those bytes still reached the writer, after `s[:count]`. |
| `Writer.WriteAfter` | alog/alog.go:43-53 | After earlier calls, `write(s)` adds exactly `s[:count]` to the counted bytes. When it returns nil, the writer has taken in exactly `s` after what it already held. |
| `Writer.ReliableWriteDelivers` | alog/alog.go:43-53 | With a writer that never errs, `write` returns nil, and the writer receives exactly `s`. |
| `Consumer.Receive` | alog/alog.go:66-78 | The calls made are those of `write(stow + r)`. The loop ends exactly when that write returns an error other than a short write, and it ends with that same error. A short write or success keeps it looping, with the unwritten suffix `(stow + r)[bw:]` as the new stow: empty after success (alog/alog.go:70, 77). While it loops, every error reported was a short write. When it ends, the last call reported the error and no earlier call reported any other. |
| `Consumer.ReceiveConserves` | alog/alog.go:67-77 | While the loop continues, the counted bytes followed by the new stow are the old stow followed by the record. The stow is empty exactly when no call failed. Otherwise it is the chunk the short-writing call was offered, that is `r[bw:]`. |
| `Consumer.ReceiveFailConserves` | alog/alog.go:67-75 | When a record ends the loop with an error, the bytes `write` counted, followed by the chunk the failing call was offered, are the old stow followed by the record. |
| `Consumer.ReliableReceive` | alog/alog.go:67-77 | With a writer that never errs, the stow is cleared, and the writer receives the old stow followed by the record. |
| `Consumer.RunLoop` | alog/alog.go:61-80 | The loop returns nil exactly when it takes the stop request. It returns an error exactly at the first writer call that reports an error other than a short write, and it returns that error. It consumes nothing after the event that ended it. While it keeps looping, it has seen only records. Every call is the writer's answer. |
| `Consumer.RunConserves` | alog/alog.go:60-80 | Across any run of iterations without a return, the counted bytes followed by the stow are the initial stow followed by every record received. No byte is dropped or counted twice. |
| `Consumer.RunStowIsRemainder` | alog/alog.go:67-77 | A stow the loop holds after handling a record is what a short write left: the chunk of the last writer call, which reported a short write. |
| `Consumer.RunFailConserves` | alog/alog.go:66-75 | When the loop returns an error, the bytes `write` counted, followed by the chunk the failing call was offered, are the initial stow followed by every record consumed. |
| `Consumer.ReliableRunDelivers` | alog/alog.go:60-80 | With a writer that never errs, the loop fed only records keeps looping and its stow ends empty. The writer receives exactly the initial stow followed by the records, in order; the stow is empty when `Run` enters its loop (alog/alog.go:60). |
| `Consumer.ShortWriteResends` | alog/alog.go:67-70 | Take a writer that accepts one byte of the two-byte record `A B`, reports a short write, then recovers. `write` counts `A B C`, but the writer receives `A A B C`: the accepted byte stays in the stow and is offered again. |
| `Framing.PrintRecord` | alog/alog.go:109-123 | A `Print` record is as long as the text. A `Println` or `Printf` record is one byte longer. |
| `Framing.PrintRoundTrip` | alog/alog.go:107-127 | The text is recovered from a print record of a known kind, and only records built from some text are accepted. |
| `Framing.PrintRecordShape` | alog/alog.go:109-123 | `Print` sends the text unchanged. `Println` and `Printf` send the text followed by a newline byte. |
| `Framing.FatalRecord` | alog/alog.go:131-184 | A fatal record's length is the prefix, the text and the suffix together. |
| `Framing.FatalRoundTrip` | alog/alog.go:135-181 | The text is recovered from a fatal record of a known kind, and only records built from some text are accepted. |
| `Framing.FormattedFatalIsBare` | alog/alog.go:149-184 | `Fatalf` and `Panicf` are exactly the fatal entry points that add no prefix and write the text unchanged. |
| `Framing.FatalPanicDistinct` | alog/alog.go:135-172 | A `Fatal`/`Fatalln` record never equals a `Panic`/`Panicln` record, whatever the texts. |
| `Framing.EndingOf` | alog/alog.go:131-184 | The `Fatal` variants end with exit status 1, and the `Panic` variants panic. |
| `Lifecycle.New` | alog/alog.go:32-41 | A new logger has its token in `inactive`, an empty `done` and an unbuffered `records`, whatever `recordsCount` is. |
| `Lifecycle.IsActive` | alog/alog.go:90-92 | In a reachable state, `IsActive` is true exactly when one goroutine, a `Run` or a fatal entry point, holds the token. |
| `Lifecycle.FinishMayProceed` | alog/alog.go:99 | In a reachable state, the exit condition of `Finish`'s busy wait holds exactly when no producer is between its increment and its decrement. |
| `Lifecycle.Enabled` | alog/alog.go:58-66 | When each goroutine's next channel operation can complete: taking the token needs it in `inactive`, the select needs the stop request or a producer blocked on `records`, and nothing moves once the program has ended. |
| `Lifecycle.NewInactive` | alog/alog.go:36-39 | A new logger satisfies the invariant, and `IsActive` reports false. |
| `Lifecycle.Consume` | alog/alog.go:67-78 | Writing a received record changes only the run and the writer trace. The trace gains exactly the calls of `write(stow + r)`. The run returns exactly when that write reports an error other than a short write, and with that error; otherwise it keeps looping with the unwritten suffix of `stow + r` as its stow, which is empty after success. |
| `Lifecycle.Apply` | alog/alog.go:57-184 | No action takes back a writer call: the trace only grows. |
| `Lifecycle.CallRunKeeps` | alog/alog.go:57-58 | A new call of `Run` keeps the invariant. |
| `Lifecycle.TakeTokenKeeps` | alog/alog.go:58 | Taking the token from `inactive` moves it to the run and keeps the invariant. |
| `Lifecycle.DoneArmKeeps` | alog/alog.go:63-65 | Taking the stop request and putting the token back keeps the invariant. |
| `Lifecycle.RecordArmKeeps` | alog/alog.go:66 | Receiving a producer's record keeps the invariant. The run keeps the token while it holds the record. |
| `Lifecycle.WriteRecordKeeps` | alog/alog.go:67-78 | Writing the received record keeps the invariant, whatever the writer answers. |
| `Lifecycle.SubmitKeeps` | alog/alog.go:109-111 | A print entry point's increment keeps `queueLen` equal to the producers in flight. |
| `Lifecycle.ReturnKeeps` | alog/alog.go:111-112 | A producer's decrement after the hand-over keeps the invariant. |
| `Lifecycle.CallFatalKeeps` | alog/alog.go:131-132 | Entering a fatal entry point keeps the invariant. |
| `Lifecycle.SignalKeeps` | alog/alog.go:133 | Sending the stop request keeps the invariant. |
| `Lifecycle.AcquireKeeps` | alog/alog.go:134 | A fatal entry point taking the token keeps the invariant. |
| `Lifecycle.TerminateKeeps` | alog/alog.go:135-137 | The final write and the end of the program keep the invariant. |
| `Lifecycle.StepKeeps` | alog/alog.go:57-184 | Every enabled action keeps the invariant. |
| `Lifecycle.ExecuteKeeps` | alog/alog.go:57-184 | Every sequence of enabled actions keeps the invariant. |
| `Lifecycle.ReachableInv` | alog/alog.go:32-184 | Every state reachable from `New` satisfies the invariant. |
| `Lifecycle.RunHolderExclusive` | alog/alog.go:37-58 | A run holding the token excludes the token in `inactive`, every other holding run and every fatal entry point past its acquire. |
| `Lifecycle.AtMostOneLoop` | alog/alog.go:57-61 | At most one `Run` is in its loop. |
| `Lifecycle.FatalWriteExclusive` | alog/alog.go:133-136 | While a fatal entry point writes, no run holds the token, and no other fatal entry point writes. |
| `Lifecycle.NoRunWrites` | alog/alog.go:133-134 | While a fatal entry point writes, no `Run` is in its loop or between receiving a record and finishing its write. |
| `Lifecycle.IsActiveIff` | alog/alog.go:90-92 | `IsActive` reports true exactly when the token is held by a run that loops or holds a received record, by a run that returned an error, or by a fatal entry point past its acquire. |
| `Lifecycle.DoneArmNeverBlocks` | alog/alog.go:63-64 | A looping run can always take a pending stop request, because its send on `inactive` never blocks. |
| `Lifecycle.TokenReturnedOnlyByStop` | alog/alog.go:63-65 | The stop arm is the only action that puts the token back, and that run returns nil. |
| `Lifecycle.RecordsUnbuffered` | alog/alog.go:34-99 | `records` never holds a record, so `len(al.records)` in `Finish` is always 0. The buffered send and receive are never enabled. |
| `Lifecycle.FinishWaitsForProducers` | alog/alog.go:99 | The busy wait of `Finish` ends exactly when every producer has done its decrement. |
| `Lifecycle.StepKeepsReturned` | alog/alog.go:57-80 | No action changes a run that has returned. |
| `Lifecycle.FaultIsPermanent` | alog/alog.go:68-75 | After a `Run` returns an error other than a short write, under every later action: the run keeps the token, `IsActive` stays true, no `Run` can take the token, and no fatal entry point can acquire it. |
| `Lifecycle.FaultReachable` | alog/alog.go:68-74 | With a writer that always fails, a reachable state has a `Run` returned with that error and the token held. |
| `Lifecycle.PrintRestoresQueueLen` | alog/alog.go:108-113 | A completed print entry point leaves `queueLen` as it found it, and its producer finished. The writer was asked for exactly the stow followed by the framed record, after the trace so far. |
| `Lifecycle.FinishBeforeWrite` | alog/alog.go:97-112 | A producer's hand-over and decrement can both complete before `Run` writes the record. The trace is then unchanged, and the exit condition of `Finish`'s busy wait holds again if it held before. |
| `Lifecycle.TerminateWrites` | alog/alog.go:129-136 | For every reachable state: a fatal entry point's record is its kind's framing of some text. It writes only when no `Run` is looping or halfway through a record. The trace gains exactly the calls of `write(record)`, and the counted bytes grow by the written prefix of the record, all of it on success. The program then ends. |
| `Lifecycle.StopDropsStow` | alog/alog.go:63-70 | The stop arm returns nil without writing the stow left by a short write. The trace is unchanged, and no run is left that could write it. |
| `Lifecycle.StartPhase` | alog/alog.go:32-58 | From `New`, a `Run` takes the token and loops with an empty stow. |
| `Lifecycle.HandPhase` | alog/alog.go:66-111 | A producer increments `queueLen` and hands its framed record to a looping `Run`, which now holds it unwritten. |
| `Lifecycle.WritePhase` | alog/alog.go:67-112 | With a writer that never errs, `Run` writes the record in full and loops again with an empty stow. The producer's decrement brings `queueLen` back to zero. |
| `Lifecycle.HandOverPhase` | alog/alog.go:66-113 | With a writer that never errs, a producer hands its framed record to a looping `Run`, which writes it in full. `queueLen` returns to zero. |
| `Lifecycle.RecordPhase` | alog/alog.go:32-113 | `StartPhase` then `HandOverPhase`, composed from `New`: the record is written in full and `queueLen` is back to zero. |
| `Lifecycle.HandshakePhase` | alog/alog.go:63-65 | A fatal entry point sends the stop request, `Run` takes it and returns the token, and the fatal entry point acquires it. |
| `Lifecycle.TerminatePhase` | alog/alog.go:135-137 | With a writer that never errs, the fatal record is written after everything already written, and the program ends. |
| `Lifecycle.StopPhase` | alog/alog.go:131-137 | The handshake and the final write, composed. |
| `Lifecycle.StopAfterRecord` | alog/alog.go:57-137 | A whole life with a writer that never errs, from `New` through `Run`, one print and one fatal entry point. `Run` returns nil, the program ends, and the writer receives the print record followed by the fatal record, nothing else. |

## Left out

- Go's scheduler, goroutines, channels and `sync/atomic` are replaced by interleavings of atomic actions. A select that has both arms ready may take either one. Fairness and liveness are not modelled.
- The internals of `bufio.Writer` are not modelled: its buffer, its `bufferSize`, its sticky error state, and `Flush` (alog/alog.go:84-86, 104, 136). The writer is an arbitrary oracle. Every general property holds for all of them, including writers real `bufio` never is; the scenario lemmas with a particular writer (`ShortOnce`, `Refuses`) only exhibit one.
- The `write` loop terminates only if an error-free call on a non-empty chunk accepts at least one byte. The Go loop does not guard against `(0, nil)`. The model states this as the `Progress` precondition.
- `Run`'s stop arm (alog/alog.go:63-64) is one action, though the receive from `done` and the send on `inactive` are two channel operations. In the window between them, `done` is empty and the token is not yet back. Another fatal entry point's send on `done` and producers' increments and decrements can run there. None of them reads or moves the token, and each leads to the same state if it runs just after the stop arm instead.
- `fmt.Sprint` and `fmt.Sprintf` are not modelled. Message texts are given byte strings.
- `os.Exit(1)` and `panic(s)` are modelled as one absorbing ended state that records which of the two happened. A panic that the caller recovers, leaving the logger without its token, is not modelled.
- `Finish`'s 100 ms sleep and final flush (alog/alog.go:103-104) carry no statable guarantee. Only the exit condition of its busy wait (alog/alog.go:99) is modelled.
- The package-level `std` logger and its wrappers are not modelled (alog/alog.go:20-30, 187-247). They only delegate, or spawn a goroutine with `go`. The same goes for `main.go` and `thread/thread.go`: command-line handling, file creation and a benchmark workload.
- Lifecycle.SubmitKeeps: `queueLen` is an unbounded integer. The `int32` wrap-around after 2^31 producers blocked at once is not modelled.
- The cost of the eager flush that stowing avoids is a performance matter (alog/alog.go:67) and is not modelled.
