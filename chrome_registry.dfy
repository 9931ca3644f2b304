/**
 * The chrometracer registry: the process-wide `GLOBAL` tracer, each thread's
 * cached copy in `CURRENT`, the channel to the writer thread, and the steps
 * that change them (`init`, `current`, `trace`, the `event!` macro and the
 * guard's drop).
 *
 * Threads are identified by number and run one step at a time. The writer
 * thread is not interleaved with the others: dropping the guard sends
 * `Terminate` and then runs the writer over everything the channel holds,
 * which is what joining it amounts to.
 */
module ChromeRegistry {
  import opened Wrappers
  import opened TraceEvent
  import opened ChromeWriter

  /** The sending end of the one channel to the writer thread. */
  datatype Sender = ToWriter

  /** `ChromeTracer`: its epoch, its sender, and the thread id it stamps on events. */
  datatype Tracer = Tracer(start: nat, sender: Option<Sender>, tid: nat)

  /** `ChromeTracerBuilder`: fields left unset take their defaults at `init`. */
  datatype Builder = Builder(start: Option<nat>, tid: Option<nat>)

  /** `ChromeTracerGuard`: dropping it shuts the writer down. */
  datatype Guard = Guard

  /** `init` on a process that already has a global tracer panics. */
  datatype InitError = AlreadyInitialized

  class Runtime {
    /** `std::process::id()`. */
    const pid: nat
    /** `static mut GLOBAL`. */
    var global: Option<Tracer>
    /** The threads whose `CURRENT` is `Some`, and what it holds; a thread absent here holds `None`. */
    var current: map<nat, Tracer>
    /** Every message sent to the writer, in order. */
    var channel: seq<Message>
    /** Whether the writer thread is still receiving. */
    var writerRunning: bool
    /** The contents of `trace.json` once the writer has finished. */
    var output: Option<seq<Chunk>>

    /**
     * Before `init` nothing exists; afterwards every cached tracer is the
     * global one with its own `tid`, the channel holds only events while the
     * writer runs, and once it has stopped the file is the document of the
     * events it took.
     */
    ghost predicate Valid()
      reads this
    {
      && (global.None? ==> current == map[] && channel == [] && !writerRunning && output.None?)
      && (global.Some? ==> global.value.sender == Some(ToWriter))
      && (forall th <- current :: global.Some? && current[th] == global.value.(tid := current[th].tid))
      && (writerRunning ==> output.None? && forall m <- channel :: m.ChromeEvent?)
      && (global.Some? && !writerRunning ==> output == Some(Document(pid, Accepted(channel))))
    }

    /** What `current` hands to its closure on thread `th`. */
    ghost function Visible(th: nat): Option<Tracer>
      reads this
    {
      if th in current then Some(current[th])
      else if global.Some? then Some(global.value.(tid := th))
      else None
    }

    /** A process before any tracer is initialised. */
    constructor (pid: nat)
      ensures Valid()
      ensures this.pid == pid
      ensures global == None && current == map[] && channel == [] && !writerRunning && output == None
    {
      this.pid := pid;
      global := None;
      current := map[];
      channel := [];
      writerRunning := false;
      output := None;
    }

    /**
     * `ChromeTracerBuilder::init` called on thread `caller` at time `now`:
     * refuses when a global tracer exists; otherwise builds the tracer
     * (defaults: epoch `now`, the caller's thread id), opens the channel and
     * starts the writer, and installs the tracer both as the global and as
     * the caller's cached tracer.
     */
    method Init(b: Builder, caller: nat, now: nat) returns (r: Result<Guard, InitError>)
      requires Valid()
      modifies this
      ensures Valid()
      ensures old(global).Some? ==>
                && r == Err(AlreadyInitialized)
                && global == old(global) && current == old(current) && channel == old(channel)
                && writerRunning == old(writerRunning) && output == old(output)
      ensures old(global).None? ==>
                && r == Ok(Guard)
                && global == Some(Tracer(b.start.GetOr(now), Some(ToWriter), b.tid.GetOr(caller)))
                && current == map[caller := global.value]
                && channel == [] && writerRunning && output == None
    {
      if global.Some? {
        return Err(AlreadyInitialized);
      }
      var tracer := Tracer(b.start.GetOr(now), None, b.tid.GetOr(caller));
      tracer := tracer.(sender := Some(ToWriter));
      channel := [];
      writerRunning := true;
      global := Some(tracer);
      current := current[caller := tracer];
      r := Ok(Guard);
    }

    /**
     * `current` on thread `th`: an empty cache is filled from the global,
     * with `tid` overwritten by `th`; with no global nothing is cached; a
     * filled cache is never refreshed. Returns what the closure receives.
     */
    method Current(th: nat) returns (t: Option<Tracer>)
      requires Valid()
      modifies this
      ensures Valid()
      ensures t == old(Visible(th))
      ensures current == if th in old(current) || t.None? then old(current) else old(current)[th := t.value]
      ensures global == old(global) && channel == old(channel)
      ensures writerRunning == old(writerRunning) && output == old(output)
    {
      if th !in current {
        if global.Some? {
          current := current[th := global.value.(tid := th)];
        }
      }
      t := if th in current then Some(current[th]) else None;
    }

    /**
     * `ChromeTracer::trace`: sends the event when the tracer has a sender.
     * The channel is unbounded, so sending never blocks; once the writer has
     * stopped the receiver is gone and the failed send is ignored.
     */
    method Trace(tracer: Tracer, e: SimpleEvent)
      requires Valid()
      modifies this
      ensures Valid()
      ensures channel == old(channel) + (if tracer.sender.Some? && writerRunning then [ChromeEvent(e)] else [])
      ensures global == old(global) && current == old(current)
      ensures writerRunning == old(writerRunning) && output == old(output)
    {
      if tracer.sender.Some? && writerRunning {
        channel := channel + [ChromeEvent(e)];
      }
    }

    /**
     * The `event!` macro on thread `th`: through `current`, stamps the event
     * with the visible tracer's `tid` and traces it; does nothing when no
     * tracer is visible.
     */
    method Event(th: nat, name: string, from: U128, to: U128, isAsync: bool)
      requires Valid()
      modifies this
      ensures Valid()
      ensures channel == old(channel) +
                (if old(Visible(th)).Some? && writerRunning
                 then [ChromeEvent(SimpleEvent(name, from, to, isAsync, old(Visible(th)).value.tid))]
                 else [])
      ensures global == old(global)
      ensures current == if th in old(current) || old(Visible(th)).None? then old(current)
                         else old(current)[th := old(Visible(th)).value]
      ensures writerRunning == old(writerRunning) && output == old(output)
    {
      var t := Current(th);
      if t.Some? {
        Trace(t.value, SimpleEvent(name, from, to, isAsync, t.value.tid));
      }
    }

    /**
     * `ChromeTracerGuard::drop`: sends `Terminate`, then waits for the writer
     * to finish the file. The global tracer stays installed.
     */
    method DropGuard(g: Guard)
      requires Valid() && writerRunning
      modifies this
      ensures Valid()
      ensures channel == old(channel) + [Terminate]
      ensures !writerRunning
      ensures output == Some(Document(pid, Accepted(old(channel))))
      ensures global == old(global) && current == old(current)
    {
      AcceptedThenTerminate(channel);
      channel := channel + [Terminate];
      var file := RunWriter(channel, pid);
      output := Some(file);
      writerRunning := false;
    }
  }

  // ----- Scenarios -----

  /**
   * The `event` test: initialise with defaults on thread `th`, record one
   * asynchronous event from 1 s to 2 s, drop the guard. The file holds that
   * one event, stamped with `th`, and reads back as it.
   */
  method EventScenario(pid: nat, th: nat, now: nat) returns (file: Option<seq<Chunk>>)
    ensures file == Some(Document(pid, [SimpleEvent("hello", 1_000_000_000, 2_000_000_000, true, th)]))
    ensures DecodeTrace(file.value) == Some([SimpleEvent("hello", 1_000_000_000, 2_000_000_000, true, th)])
  {
    var rt := new Runtime(pid);
    var r := rt.Init(Builder(None, None), th, now);
    rt.Event(th, "hello", 1_000_000_000, 2_000_000_000, true);
    assert rt.channel == [ChromeEvent(SimpleEvent("hello", 1_000_000_000, 2_000_000_000, true, th))];
    rt.DropGuard(r.value);
    file := rt.output;
    DecodeDocument(pid, [SimpleEvent("hello", 1_000_000_000, 2_000_000_000, true, th)]);
  }

  /**
   * The `without_init` test: an event with no tracer initialised sends
   * nothing, caches nothing, and no file is written.
   */
  method WithoutInitScenario(pid: nat, th: nat) returns (sent: seq<Message>, cached: map<nat, Tracer>, file: Option<seq<Chunk>>)
    ensures sent == [] && cached == map[] && file == None
  {
    var rt := new Runtime(pid);
    rt.Event(th, "hello", 1_000_000_000, 2_000_000_000, false);
    sent, cached, file := rt.channel, rt.current, rt.output;
  }

  /**
   * A second `init` is refused, both while the first tracer's writer runs
   * and after its guard is dropped, since the global is never cleared.
   */
  method DoubleInitScenario(pid: nat, th: nat, now: nat) returns (second: Result<Guard, InitError>, third: Result<Guard, InitError>)
    ensures second == Err(AlreadyInitialized) && third == Err(AlreadyInitialized)
  {
    var rt := new Runtime(pid);
    var first := rt.Init(Builder(None, None), th, now);
    second := rt.Init(Builder(Some(0), Some(th)), th, now);
    rt.DropGuard(first.value);
    third := rt.Init(Builder(None, None), th, now);
  }

  /**
   * A thread that asks for its tracer before `init` sees none and caches
   * none, so after an `init`, on another thread or on itself, it sees the
   * new tracer, stamped with its own id.
   */
  method LateInitScenario(pid: nat, early: nat, caller: nat, now: nat) returns (before: Option<Tracer>, after: Option<Tracer>)
    ensures before == None
    ensures after == Some(Tracer(now, Some(ToWriter), early))
  {
    var rt := new Runtime(pid);
    before := rt.Current(early);
    var g := rt.Init(Builder(None, None), caller, now);
    after := rt.Current(early);
  }

  /**
   * Events recorded after the guard is dropped never reach the file, and a
   * thread's cached tracer keeps the `tid` the builder gave it.
   */
  method AfterDropScenario(pid: nat, th: nat, now: nat) returns (file: Option<seq<Chunk>>)
    ensures file == Some(Document(pid, [SimpleEvent("a", 5, 9, false, 42)]))
  {
    var rt := new Runtime(pid);
    var g := rt.Init(Builder(None, Some(42)), th, now);
    rt.Event(th, "a", 5, 9, false);
    assert rt.channel == [ChromeEvent(SimpleEvent("a", 5, 9, false, 42))];
    AcceptedAllEvents(rt.channel);
    assert Accepted(rt.channel) == [SimpleEvent("a", 5, 9, false, 42)];
    rt.DropGuard(g.value);
    assert rt.output == Some(Document(pid, [SimpleEvent("a", 5, 9, false, 42)]));
    rt.Event(th, "b", 10, 20, false);
    file := rt.output;
  }
}
