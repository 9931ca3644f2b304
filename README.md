# extreme-tracing, modelled in Dafny

This project models the two tracers of the extreme-tracing repository and the
experiment recorder next to them.

- **chrometracer.** Instrumented threads send `SimpleEvent`s over a channel to a
  writer thread. The writer streams them into `trace.json` as one JSON array of
  trace-event records. Every event goes through a one-slot `ArrayQueue`, so an
  event is written only once the next one evicts it, or at shutdown. That is
  how the file never ends with a trailing comma.
- **The tracer registry.** It holds the process-wide `GLOBAL` tracer and each
  thread's cached copy in `CURRENT`. It decides which events reach the writer.
- **The extracing prototype.** It uses the same one-slot discipline, but it
  drops evicted spans and prints only the last one.
- **The `ITEMS` recorder.** It is an eight-slot `u64` array plus a counter.

The Dafny modules:

| module | file | what it holds |
|---|---|---|
| `Wrappers` | wrappers.dfy | `Option` and `Result` |
| `TraceEvent` | trace_event.dfy | `SimpleEvent`, the records `write_json` produces, and a reader that turns records back into events |
| `Coalescing` | coalescing.dfy | `OneSlotQueue`, the `ArrayQueue::new(1)` with `force_push` and `pop` |
| `ChromeWriter` | chrome_writer.dfy | the writer thread as `RunWriter`, the reference `Document`, and a JSON-array parser |
| `ChromeRegistry` | chrome_registry.dfy | class `Runtime`: `GLOBAL`, `CURRENT`, the channel, `init`, `current`, `trace`, `event!`, guard drop |
| `ExtracingTracer` | extracing_tracer.dfy | the extracing writer, its `Runtime` class, and the `event!` field assignments |
| `Experiment` | experiment.dfy | class `Items`: `ITEMS`, `add_item`, `span!` |

How the model maps onto the program:

- **The channel** is the sequence of messages sent on it. Reaching its end
  stands for `recv` failing once every sender is gone.
- **`trace.json`** is a sequence of chunks: `Text` holds the fixed strings
  `[\n`, `,\n`, `\n` and `]`, and `Rec` holds one JSON object.
- **A JSON object** is a list of `key: value` fields, in order.
- **Timestamps** are integer nanoseconds. A field written as `ns as f64 / 1000.0`
  is kept as `Micros(ns)`.
- **`RunWriter`** is the writer's body, an imperative loop over a
  `OneSlotQueue` object. It is proved equal to the reference `Document`: the
  records of every accepted event, in order, joined by `,\n` and followed by
  `\n`.
- **`DecodeTrace`** plays a trace viewer. It reads such a file back into exactly
  the events it came from.
- **Threads** run one step at a time. `current`'s closure receives the method's
  result.
- **Dropping a guard** sends `Terminate` and then runs the writer over the
  channel, which is what `join` waits for.
- **The clock, the process id and thread ids** are parameters.

`extracing/src/tracer.rs:72-74` defines `get_global`. It is modelled by the
function `ExtracingTracer.Runtime.GetGlobal`, which has no contract of its own.
The contract of `ExtracingTracer.Runtime.Event` is stated through it.

## Model

| member | source | states |
|---|---|---|
| TraceEvent.WrappingSub | chrometracer/src/tracer.rs:37 | `to - from` on `u128` in a build without overflow checks: the difference modulo 2^128, so adding `from` back gives `to` modulo 2^128 |
| TraceEvent.WriteJson | chrometracer/src/tracer.rs:25-41 | a synchronous event yields one record; an asynchronous one yields two |
| TraceEvent.CompleteRecordFields | chrometracer/src/tracer.rs:36-38 | the record of a synchronous event: name, `ts` = from, `dur` = to - from (wrapping), pid, tid, `ph` `"X"`; it has no `id` and no `cat` |
| TraceEvent.AsyncRecordFields | chrometracer/src/tracer.rs:30-33 | each half of an asynchronous pair: name, `ts`, pid, tid, `id` = from, the given `ph`, `cat` `"async"`; it has no `dur` |
| TraceEvent.WriteJsonFields | chrometracer/src/tracer.rs:29-38 | every record of an event carries its name, the pid and the tid; the `"X"` record has `ts` from and `dur` to - from; the `"b"` record has `ts` from, the `"e"` record `ts` to, and both `id` from and `cat` `"async"` |
| TraceEvent.WriteJsonDistinctKeys | chrometracer/src/tracer.rs:33-38 | no record written for an event repeats a key |
| TraceEvent.DecodeWriteJson | chrometracer/src/tracer.rs:25-41 | reading back one event's records, followed by any further records, yields that event first, unless a synchronous event's duration underflowed |
| TraceEvent.DecodeAllRecords | chrometracer/src/tracer.rs:25-41 | round trip: the records of a run of events read back as exactly those events, in order |
| TraceEvent.RecordCount | chrometracer/src/tracer.rs:30-39 | N events of which A are asynchronous give N + A records |
| TraceEvent.AllRecordsCarryPid | chrometracer/src/tracer.rs:29-38 | every record of a run carries the process id |
| Coalescing.OneSlotQueue.Contents | chrometracer/src/tracer.rs:112 | the queue holds at most one element |
| Coalescing.OneSlotQueue.constructor | chrometracer/src/tracer.rs:112 | a new queue is empty |
| Coalescing.OneSlotQueue.ForcePush | chrometracer/src/tracer.rs:117 | the queue then holds exactly the new element; the previous occupant is returned if there was one, otherwise nothing |
| Coalescing.OneSlotQueue.Pop | chrometracer/src/tracer.rs:123 | returns the occupant, if any, and leaves the queue empty |
| ChromeWriter.AcceptedAllEvents | chrometracer/src/tracer.rs:116 | a channel holding only events is taken whole, in order |
| ChromeWriter.AcceptedStopsAtTerminate | chrometracer/src/tracer.rs:116 | messages sent after the first `Terminate` are never taken |
| ChromeWriter.AcceptedThenTerminate | chrometracer/src/tracer.rs:116 | closing a channel of events with `Terminate` keeps exactly those events |
| ChromeWriter.ReceiveLoop | chrometracer/src/tracer.rs:116-121 | the loop takes the events before the first `Terminate` or the channel's end; it has written `[\n` followed by each evicted event with `,\n`; the queue holds the one event not yet written |
| ChromeWriter.RunWriter | chrometracer/src/tracer.rs:109-129 | the file is the reference document of the accepted events; when no synchronous duration underflows, the file reads back as exactly those events, each once, in arrival order |
| ChromeWriter.CloseDocument | chrometracer/src/tracer.rs:123-128 | the last event, followed by `\n` and `]`, completes the document: it is the final record and has no separator after it |
| ChromeWriter.EmptyDocument | chrometracer/src/tracer.rs:114-128 | with no events the file is exactly `[\n]` |
| ChromeWriter.NonEmptyDocument | chrometracer/src/tracer.rs:123-128 | with events the file opens with `[\n`, ends with `]`, and the last record is followed only by `\n` |
| ChromeWriter.NoTrailingSeparator | chrometracer/src/tracer.rs:117-128 | every `,\n` in the file is followed by a record |
| ChromeWriter.DocumentFraming | chrometracer/src/tracer.rs:114-128 | the file opens with `[\n` and ends with `]`; it is `[\n]` exactly when there are no events; otherwise its last record is followed by `\n` |
| ChromeWriter.ParseDocument | chrometracer/src/tracer.rs:114-128 | the document parses as one JSON array of exactly the run's records, in order |
| ChromeWriter.DecodeDocument | chrometracer/src/tracer.rs:109-129 | a trace viewer reads back every event of the run exactly once, in order |
| ChromeWriter.OneCompleteEvent | chrometracer/src/tracer.rs:36-38 | "work" from 100000 ns to 250000 ns on tid 7 gives the single record with `ts` 100 µs, `dur` 150 µs, `ph` `"X"` |
| ChromeWriter.OneAsyncEvent | chrometracer/src/tracer.rs:30-33 | "req" from 1 ms to 2 ms on tid 3 gives a `"b"` record and an `"e"` record sharing id 1000000 |
| ChromeRegistry.Runtime.constructor | chrometracer/src/tracer.rs:45-49 | no global, no cached tracer, nothing sent, no file |
| ChromeRegistry.Runtime.Init | chrometracer/src/tracer.rs:83-97 | with a global already set, it fails and changes nothing; otherwise the global and the caller's cache both hold the new tracer (builder epoch or now, builder tid or the caller's), with a fresh channel and a running writer |
| ChromeRegistry.Runtime.Current | chrometracer/src/tracer.rs:144-157 | returns the cached tracer; an empty cache is filled from the global with `tid` set to the calling thread; with no global nothing is cached; a filled cache is never refreshed |
| ChromeRegistry.Runtime.Trace | chrometracer/src/tracer.rs:135-140 | appends the event exactly when the tracer has a sender and the receiver is alive; nothing else changes |
| ChromeRegistry.Runtime.Event | chrometracer/src/tracer.rs:160-187 | sends an event stamped with the visible tracer's `tid`, or nothing when no tracer is visible; caches as `current` does |
| ChromeRegistry.Runtime.DropGuard | chrometracer/src/tracer.rs:75-79 | appends `Terminate`, stops the writer, and leaves the file as the document of every event sent before it; the global stays set |
| ChromeRegistry.EventScenario | chrometracer/src/tracer.rs:259-264 | init, then an async event from 1 s to 2 s: the file is that one event stamped with the caller's id, and it reads back as that event |
| ChromeRegistry.WithoutInitScenario | chrometracer/src/tracer.rs:266-269 | an event without init sends nothing, caches nothing and writes no file |
| ChromeRegistry.DoubleInitScenario | chrometracer/src/tracer.rs:85-86 | a second init fails, and so does one after the guard is dropped |
| ChromeRegistry.LateInitScenario | chrometracer/src/tracer.rs:149-153 | a thread that looked before init sees the tracer after init, on any thread, stamped with its own id |
| ChromeRegistry.AfterDropScenario | chrometracer/src/tracer.rs:135-140 | an event traced after the guard is dropped is not in the file; the builder's tid is used on the init thread |
| ExtracingTracer.RunSpanWriter | extracing/src/tracer.rs:42-54 | the writer prints the last span taken before the first non-span message, or nothing |
| ExtracingTracer.SpansOfSpans | extracing/src/tracer.rs:45 | a channel holding only spans is taken whole, in order |
| ExtracingTracer.SpansStopAtTerminate | extracing/src/tracer.rs:45 | messages sent after the first `Terminate` are never taken |
| ExtracingTracer.OnlyLastSpanSurvives | extracing/src/tracer.rs:46-53 | after any run of spans, a span and `Terminate`, only that last span is printed, whatever follows |
| ExtracingTracer.NothingPrintedWithoutSpans | extracing/src/tracer.rs:51-53 | nothing is printed when no span precedes `Terminate` |
| ExtracingTracer.PrintedIsLastOfRun | extracing/src/tracer.rs:45-53 | `e` is printed exactly when some message `Span(e)` is preceded only by spans and followed by a non-span message or the channel's end |
| ExtracingTracer.SpanRun | extracing/src/tracer.rs:45 | the writer takes the events of the run of spans at the head of the channel, which ends at the first non-span message or the channel's end |
| ExtracingTracer.StampFields | extracing/src/tracer.rs:103-105 | after the assignments each field holds the text last assigned to it, or its earlier value; `ts` is untouched |
| ExtracingTracer.MacroEventFields | extracing/src/tracer.rs:90-105 | the macro's event has `ts` = elapsed, and each field holds the text last assigned to it or `""` |
| ExtracingTracer.Runtime.constructor | extracing/src/tracer.rs:7 | no global, no channels, nothing printed |
| ExtracingTracer.Runtime.Init | extracing/src/tracer.rs:33-62 | opens a new channel and installs a tracer sending on it as the global, replacing any earlier one without a check |
| ExtracingTracer.Runtime.Trace | extracing/src/tracer.rs:64-68 | appends the span to the tracer's channel when it has a sender whose writer still runs; otherwise nothing changes |
| ExtracingTracer.Runtime.Event | extracing/src/tracer.rs:85-108 | with no global, nothing is sent; with one, the macro's event goes to the newest channel if its writer still runs |
| ExtracingTracer.Runtime.DropGuard | extracing/src/tracer.rs:24-28 | appends `Terminate` to the guard's channel, stops its writer, and appends to standard output the last span it took, if any |
| ExtracingTracer.SpanScenario | extracing/src/tracer.rs:123-129 | two events after init: only the second, `hello`/`2`/`4.1`, is printed |
| ExtracingTracer.IgnoreSpanScenario | extracing/src/tracer.rs:131-134 | an event without init sends and prints nothing |
| ExtracingTracer.ReinitScenario | extracing/src/tracer.rs:33-56 | after a second init, events go only to the new channel; the first writer prints nothing |
| Experiment.Filled | extracing/src/experiment.rs:5 | the array a fresh recorder reaches after some additions has eight slots |
| Experiment.FilledSnoc | extracing/src/experiment.rs:25-26 | storing a number in the first free slot is adding it |
| Experiment.Items.constructor | extracing/src/experiment.rs:5 | eight zero slots and count 0 |
| Experiment.Items.AddItem | extracing/src/experiment.rs:15-30 | requires count < 8; writes the number at index count, leaves every other slot unchanged, and increments count by one; it keeps the invariant that the array holds the numbers added so far, in order, then zeros |
| Experiment.Items.Span | extracing/src/experiment.rs:39-43 | records the number 1, whatever the arguments |
| Experiment.IgnoreSpanScenario | extracing/src/experiment.rs:48-55 | four `span!` calls leave count 4 and slots `[1, 1, 1, 1, 0, 0, 0, 0]` |

## Left out

- Concurrency: threads, `thread::spawn`, `join` and the interleaving of producers are not modelled. Threads run one step at a time, and the writer runs when its guard is dropped.
- The crossbeam channel is a FIFO sequence of messages. A send never blocks, and a send after the receiver is gone is ignored.
- I/O: `File::create("trace.json")`, `BufWriter`, `println!` and `print_item` are not modelled. Output is the appended sequence of chunks or events, and write failures (`unwrap`) are not modelled.
- Float rendering: `ns as f64 / 1000.0` is kept as the integer `ns` it comes from. The loss of precision above 2^53 ns and Rust's decimal printing of `f64` are not modelled.
- JSON escaping: `name` is spliced into the JSON raw. Records are kept as field lists, not text, so the model cannot see a quote or backslash in `name`. Such a name makes the real file invalid JSON, while `ParseDocument` and `DecodeDocument` still hold in the model.
- The record reader stands in for a trace viewer's JSON parser. It is not part of the source.
- Clock and OS sources: `Instant::now`, `elapsed`, `std::process::id` and `ThreadId::as_u64` are parameters (`now`, `elapsed`, `pid`, thread numbers).
- TraceEvent.WriteJson: a synchronous event with `to < from` panics in a debug build. The model uses the release-build wrap-around (`WrappingSub`), and the round-trip lemmas require `NoUnderflow`.
- ChromeRegistry.Runtime.Init: the panic on a second `init` is modelled as an `Err(AlreadyInitialized)` result that leaves the state unchanged.
- ChromeRegistry.Runtime.DropGuard: the `unwrap` of a failed join (a writer thread that panicked) is not modelled.
- ChromeRegistry.Runtime: the file is modelled only once the writer has finished. Its partial contents while the writer runs are not modelled.
- ExtracingTracer.Runtime.Trace: it requires the sender to name a channel that `init` created, which is the only way a sender arises.
- Experiment.Items.AddItem: the `usize` counter is a `nat`, and its `+ 1` cannot overflow because `count < 8` is required. That requires clause stands for the out-of-bounds panic of `a.0[c]` once `c` reaches 8. The `Instant` timing prints are not modelled.
- The `Recordable` impls (`chrometracer/src/tracer.rs:189-255`): they dispatch onto `tracing_chrometrace::ChromeEventBuilder`, which is not part of this model.
- The `tostring!` macro (`extracing/src/tracer.rs:111-119`): it has no effect.
- The `Span` struct of `experiment.rs`: nothing uses it.
- The `extracing-attr` proc-macro, the Criterion benches and the two `lib.rs` re-export files are not part of this model.
