/**
 * The extracing prototype tracer: a global tracer installed by `init`
 * without any check, a channel per `init`, and a writer thread that runs
 * spans through a one-slot queue, discards every evicted span and prints
 * only the span left at shutdown.
 *
 * As for chrometracer, each channel is the sequence of messages sent on it,
 * threads run one step at a time, and dropping a guard runs its writer to
 * completion. Standard output is the sequence of events printed.
 */
module ExtracingTracer {
  import opened Wrappers
  import opened Coalescing

  /** `Event`: a timestamp and three fields holding the text of the macro's value tokens. */
  datatype Event = Event(ts: nat, name: string, i: string, f: string)

  /** `Message`. */
  datatype Message = Span(event: Event) | Terminate

  /** `Tracer`: its epoch and the channel its sender writes to, if any. */
  datatype Tracer = Tracer(start: nat, sender: Option<nat>)

  /** `TracerGuard`: owns a sender on channel `channel` and the writer's handle. */
  datatype Guard = Guard(channel: nat)

  /** The `Event` fields the `event!` macro can assign (`event.$key = …` only compiles for these). */
  datatype Key = Name | I | F

  /** One `key = value` of the macro, with the text `stringify!` makes of the value. */
  datatype Assign = Assign(key: Key, text: string)

  // ----- The writer -----

  /** The spans the writer takes: those before the first non-span message. */
  function Spans(channel: seq<Message>): (spans: seq<Event>) {
    if channel == [] || !channel[0].Span? then []
    else [channel[0].event] + Spans(channel[1..])
  }

  /** What the writer prints: the last span it took, if it took any. */
  function Printed(channel: seq<Message>): (r: Option<Event>) {
    var spans := Spans(channel);
    if spans == [] then None else Some(spans[|spans| - 1])
  }

  /**
   * The writer thread: pushes each span into the one-slot queue, dropping
   * whatever it evicts, stops at the first other message or at channel
   * closure, and prints what the queue holds.
   */
  method RunSpanWriter(channel: seq<Message>) returns (printed: Option<Event>)
    ensures printed == Printed(channel)
  {
    var queue := new OneSlotQueue<Event>();
    ghost var seen: seq<Event> := [];
    var i := 0;
    while i < |channel| && channel[i].Span?
      invariant 0 <= i <= |channel|
      invariant Spans(channel) == seen + Spans(channel[i..])
      invariant queue.Contents() == if seen == [] then [] else [seen[|seen| - 1]]
    {
      SpansStep(channel, i);
      var evicted := queue.ForcePush(channel[i].event);
      seen := seen + [channel[i].event];
      i := i + 1;
    }
    SpansEnd(channel, i);
    assert seen == Spans(channel);
    printed := queue.Pop();
  }

  /** One more span at the head of the unread channel. */
  lemma SpansStep(channel: seq<Message>, i: nat)
    requires i < |channel| && channel[i].Span?
    ensures Spans(channel[i..]) == [channel[i].event] + Spans(channel[i + 1..])
  {
    assert channel[i..][0] == channel[i] && channel[i..][1..] == channel[i + 1..];
  }

  /** Nothing more is taken at a non-span message or at the end of the channel. */
  lemma SpansEnd(channel: seq<Message>, i: nat)
    requires i <= |channel|
    requires i == |channel| || !channel[i].Span?
    ensures Spans(channel[i..]) == []
  {
  }

  // ----- Properties of the writer -----

  /** A channel of spans only is taken whole. */
  lemma {:induction false} SpansOfSpans(channel: seq<Message>)
    requires forall m <- channel :: m.Span?
    ensures |Spans(channel)| == |channel|
    ensures forall k :: 0 <= k < |channel| ==> Spans(channel)[k] == channel[k].event
  {
    if channel != [] {
      assert forall k :: 0 <= k < |channel| - 1 ==> channel[1..][k] == channel[k + 1];
      SpansOfSpans(channel[1..]);
      assert Spans(channel) == [channel[0].event] + Spans(channel[1..]);
    }
  }

  /** Whatever is sent after the first `Terminate` is never taken. */
  lemma {:induction false} SpansStopAtTerminate(channel: seq<Message>, later: seq<Message>)
    requires Terminate in channel
    ensures Spans(channel + later) == Spans(channel)
  {
    assert (channel + later)[0] == channel[0];
    if channel[0].Span? {
      assert (channel + later)[1..] == channel[1..] + later;
      SpansStopAtTerminate(channel[1..], later);
    }
  }

  /**
   * Only the last span survives: after any run of spans, a span `e` and
   * `Terminate`, the writer prints `e` and nothing else, whatever follows.
   */
  lemma OnlyLastSpanSurvives(run: seq<Message>, e: Event, later: seq<Message>)
    requires forall m <- run :: m.Span?
    ensures Printed(run + [Span(e), Terminate] + later) == Some(e)
  {
    var ch := run + [Span(e), Terminate];
    assert ch[|run| + 1] == Terminate;
    SpansStopAtTerminate(ch, later);
    var prefix := run + [Span(e)];
    assert forall m <- prefix :: m.Span?;
    SpansOfSpans(prefix);
    SpansCons(prefix, [Terminate]);
    assert ch == prefix + [Terminate];
  }

  /** A run of spans followed by `later` takes the run's spans and then those of `later`. */
  lemma {:induction false} SpansCons(run: seq<Message>, later: seq<Message>)
    requires forall m <- run :: m.Span?
    ensures Spans(run + later) == Spans(run) + Spans(later)
  {
    if run == [] {
      assert run + later == later;
    } else {
      assert (run + later)[0] == run[0];
      assert (run + later)[1..] == run[1..] + later;
      assert forall m <- run[1..] :: m in run;
      SpansCons(run[1..], later);
      assert [run[0].event] + (Spans(run[1..]) + Spans(later))
          == ([run[0].event] + Spans(run[1..])) + Spans(later);
    }
  }

  /** Nothing is printed when no span precedes `Terminate`. */
  lemma NothingPrintedWithoutSpans(later: seq<Message>)
    ensures Printed([Terminate] + later) == None
  {
  }

  /** Position `k` holds `Span(e)`, every message up to `k` is a span, and the one after `k`, if any, is not. */
  predicate EndsSpanRun(channel: seq<Message>, k: nat, e: Event) {
    && k < |channel| && channel[k] == Span(e)
    && (forall j :: 0 <= j <= k ==> channel[j].Span?)
    && (k + 1 == |channel| || !channel[k + 1].Span?)
  }

  /**
   * What is printed, read off the channel: `e` is printed exactly when the
   * run of spans at the head of the channel ends with `Span(e)`.
   */
  lemma PrintedIsLastOfRun(channel: seq<Message>, e: Event)
    ensures Printed(channel) == Some(e) <==> exists k: nat :: EndsSpanRun(channel, k, e)
  {
    var n := SpanRun(channel);
    if Printed(channel) == Some(e) {
      assert EndsSpanRun(channel, n - 1, e);
    }
    forall k: nat | EndsSpanRun(channel, k, e)
      ensures Printed(channel) == Some(e)
    {
      assert n == k + 1;
    }
  }

  /**
   * The run of spans at the head of the channel: its length `n`, the
   * message ending it, and the events the writer takes from it.
   */
  lemma {:induction false} SpanRun(channel: seq<Message>) returns (n: nat)
    ensures n <= |channel|
    ensures forall j :: 0 <= j < n ==> channel[j].Span?
    ensures n == |channel| || !channel[n].Span?
    ensures |Spans(channel)| == n
    ensures forall j :: 0 <= j < n ==> Spans(channel)[j] == channel[j].event
  {
    if channel == [] || !channel[0].Span? {
      n := 0;
    } else {
      var m := SpanRun(channel[1..]);
      n := m + 1;
      assert Spans(channel) == [channel[0].event] + Spans(channel[1..]);
      forall j | 0 <= j < n
        ensures channel[j].Span? && Spans(channel)[j] == channel[j].event
      {
        if j > 0 {
          assert channel[j] == channel[1..][j - 1];
        }
      }
      if n < |channel| {
        assert channel[n] == channel[1..][m];
      }
    }
  }

  // ----- The `event!` macro's field assignments -----

  /** `event.$key = stringify!($value)` for each pair, left to right. */
  function Stamp(e: Event, assigns: seq<Assign>): (r: Event)
    decreases |assigns|
  {
    if assigns == [] then e
    else
      var a := assigns[0];
      var e' := match a.key
        case Name => e.(name := a.text)
        case I => e.(i := a.text)
        case F => e.(f := a.text);
      Stamp(e', assigns[1..])
  }

  /** The text last assigned to `key`, if any. */
  function LastAssigned(assigns: seq<Assign>, key: Key): (r: Option<string>) {
    if assigns == [] then None
    else if assigns[|assigns| - 1].key == key then Some(assigns[|assigns| - 1].text)
    else LastAssigned(assigns[..|assigns| - 1], key)
  }

  /** The event the macro builds at time `ts`: each field starts as `""`. */
  function MacroEvent(ts: nat, assigns: seq<Assign>): (r: Event) {
    Stamp(Event(ts, "", "", ""), assigns)
  }

  /** Each field holds the text last assigned to it, or the value it had; `ts` is untouched. */
  lemma {:induction false} StampFields(e: Event, assigns: seq<Assign>)
    ensures Stamp(e, assigns).ts == e.ts
    ensures Stamp(e, assigns).name == LastAssigned(assigns, Name).GetOr(e.name)
    ensures Stamp(e, assigns).i == LastAssigned(assigns, I).GetOr(e.i)
    ensures Stamp(e, assigns).f == LastAssigned(assigns, F).GetOr(e.f)
    decreases |assigns|
  {
    if assigns != [] {
      var a := assigns[0];
      var e' := match a.key
        case Name => e.(name := a.text)
        case I => e.(i := a.text)
        case F => e.(f := a.text);
      StampFields(e', assigns[1..]);
      LastAssignedCons(a, assigns[1..], Name);
      LastAssignedCons(a, assigns[1..], I);
      LastAssignedCons(a, assigns[1..], F);
      assert assigns == [a] + assigns[1..];
    }
  }

  /** The last assignment to `key` in `[a] + rest` is the one in `rest`, or else `a`'s. */
  lemma {:induction false} LastAssignedCons(a: Assign, rest: seq<Assign>, key: Key)
    ensures LastAssigned([a] + rest, key) ==
              if LastAssigned(rest, key).Some? then LastAssigned(rest, key)
              else if a.key == key then Some(a.text) else None
  {
    if rest != [] {
      var all := [a] + rest;
      assert all[|all| - 1] == rest[|rest| - 1];
      assert all[..|all| - 1] == [a] + rest[..|rest| - 1];
      LastAssignedCons(a, rest[..|rest| - 1], key);
    } else {
      assert ([a] + rest)[..0] == [];
    }
  }

  /** The macro's event carries the given time and, per field, the last text assigned or `""`. */
  lemma MacroEventFields(ts: nat, assigns: seq<Assign>)
    ensures MacroEvent(ts, assigns) ==
              Event(ts, LastAssigned(assigns, Name).GetOr(""), LastAssigned(assigns, I).GetOr(""),
                    LastAssigned(assigns, F).GetOr(""))
  {
    StampFields(Event(ts, "", "", ""), assigns);
  }

  // ----- The runtime -----

  class Runtime {
    /** `static mut GLOBAL`. */
    var global: Option<Tracer>
    /** The messages sent on each channel `init` has created, oldest channel first. */
    var channels: seq<seq<Message>>
    /** The channels whose writer has finished. */
    var stopped: set<nat>
    /** What the writers have printed, in the order they finished. */
    var stdout: seq<Event>

    /**
     * The global tracer, once installed, sends on the newest channel; a
     * running writer's channel holds only spans; the stopped writers are
     * writers of existing channels.
     */
    ghost predicate Valid()
      reads this
    {
      && (global.None? ==> channels == [])
      && (global.Some? ==> global.value.sender == Some(|channels| - 1))
      && (forall c <- stopped :: c < |channels|)
      && (forall c :: 0 <= c < |channels| && c !in stopped ==> forall m <- channels[c] :: m.Span?)
    }

    /** `get_global`. */
    function GetGlobal(): (r: Option<Tracer>)
      reads this
    {
      global
    }

    /** A process before any tracer is initialised. */
    constructor ()
      ensures Valid()
      ensures global == None && channels == [] && stopped == {} && stdout == []
    {
      global := None;
      channels := [];
      stopped := {};
      stdout := [];
    }

    /**
     * `Tracer::init` at time `now`: opens a new channel, starts its writer
     * and installs the new tracer as the global, replacing any earlier one
     * without a check. The earlier writer keeps running until its guard is
     * dropped.
     */
    method Init(now: nat) returns (g: Guard)
      requires Valid()
      modifies this
      ensures Valid()
      ensures g == Guard(|old(channels)|)
      ensures channels == old(channels) + [[]]
      ensures global == Some(Tracer(now, Some(|old(channels)|)))
      ensures stopped == old(stopped) && stdout == old(stdout)
    {
      var tracer := Tracer(now, None);
      var c := |channels|;
      channels := channels + [[]];
      tracer := tracer.(sender := Some(c));
      global := Some(tracer);
      g := Guard(c);
    }

    /**
     * `Tracer::trace`: sends the span when the tracer has a sender; a send to
     * a writer that has finished fails and is ignored. Senders only come
     * from `init`, so they name an existing channel.
     */
    method Trace(tracer: Tracer, v: Event)
      requires Valid()
      requires tracer.sender.Some? ==> tracer.sender.value < |channels|
      modifies this
      ensures Valid()
      ensures tracer.sender.Some? && tracer.sender.value !in stopped ==>
                channels == old(channels)[tracer.sender.value := old(channels)[tracer.sender.value] + [Span(v)]]
      ensures tracer.sender.None? || tracer.sender.value in stopped ==> channels == old(channels)
      ensures global == old(global) && stopped == old(stopped) && stdout == old(stdout)
    {
      if tracer.sender.Some? && tracer.sender.value !in stopped {
        var c := tracer.sender.value;
        channels := channels[c := channels[c] + [Span(v)]];
      }
    }

    /**
     * The `event!` macro, `elapsed` being `tracer.start.elapsed()`: with a
     * global tracer, builds the event from the assignments and traces it;
     * without one, does nothing.
     */
    method Event(elapsed: nat, assigns: seq<Assign>)
      requires Valid()
      modifies this
      ensures Valid()
      ensures old(GetGlobal()).None? ==> channels == old(channels)
      ensures old(GetGlobal()).Some? ==>
                var c := |old(channels)| - 1;
                channels == if c in stopped then old(channels)
                            else old(channels)[c := old(channels)[c] + [Span(MacroEvent(elapsed, assigns))]]
      ensures global == old(global) && stopped == old(stopped) && stdout == old(stdout)
    {
      var tracer := GetGlobal();
      if tracer.Some? {
        Trace(tracer.value, MacroEvent(elapsed, assigns));
      }
    }

    /**
     * `TracerGuard::drop`: sends `Terminate` on the guard's channel, then
     * waits for its writer, which prints the last span it took, if any.
     */
    method DropGuard(g: Guard)
      requires Valid()
      requires g.channel < |channels| && g.channel !in stopped
      modifies this
      ensures Valid()
      ensures channels == old(channels)[g.channel := old(channels)[g.channel] + [Terminate]]
      ensures stopped == old(stopped) + {g.channel}
      ensures stdout == old(stdout) + match Printed(old(channels)[g.channel]) case Some(e) => [e] case None => []
      ensures Printed(old(channels)[g.channel]) == Printed(channels[g.channel])
      ensures global == old(global)
    {
      var c := g.channel;
      SpansCons(channels[c], [Terminate]);
      channels := channels[c := channels[c] + [Terminate]];
      var printed := RunSpanWriter(channels[c]);
      if printed.Some? {
        stdout := stdout + [printed.value];
      }
      stopped := stopped + {c};
    }
  }

  // ----- Scenarios -----

  /**
   * The `span` test: `init`, then `event!(name = hello, i=1, f=3.4)` and
   * `event!(name = hello, i=2, f=4.1)`, then the guard drops. Only the
   * second event is printed.
   */
  method SpanScenario(now: nat, t1: nat, t2: nat) returns (out: seq<Event>)
    ensures out == [Event(t2, "hello", "2", "4.1")]
  {
    var rt := new Runtime();
    var g := rt.Init(now);
    var first := [Assign(Name, "hello"), Assign(I, "1"), Assign(F, "3.4")];
    var second := [Assign(Name, "hello"), Assign(I, "2"), Assign(F, "4.1")];
    rt.Event(t1, first);
    rt.Event(t2, second);
    MacroEventFields(t2, second);
    assert LastAssigned(second, Name) == Some("hello");
    assert LastAssigned(second, I) == Some("2");
    assert LastAssigned(second, F) == Some("4.1");
    OnlyLastSpanSurvives([Span(MacroEvent(t1, first))], MacroEvent(t2, second), []);
    assert rt.channels[0] == [Span(MacroEvent(t1, first)), Span(MacroEvent(t2, second))];
    assert rt.channels[0] + [Terminate] == [Span(MacroEvent(t1, first))] + [Span(MacroEvent(t2, second)), Terminate] + [];
    SpansCons(rt.channels[0], [Terminate]);
    rt.DropGuard(g);
    out := rt.stdout;
  }

  /**
   * The `ignore_span` test: `event!(name = "hello")` before any `init`
   * sends nothing and prints nothing.
   */
  method IgnoreSpanScenario(elapsed: nat) returns (sent: seq<seq<Message>>, out: seq<Event>)
    ensures sent == [] && out == []
  {
    var rt := new Runtime();
    rt.Event(elapsed, [Assign(Name, "\"hello\"")]);
    sent, out := rt.channels, rt.stdout;
  }

  /**
   * A second `init` replaces the first tracer: later events go to the new
   * channel only, so the first writer prints nothing and the second prints
   * the event.
   */
  method ReinitScenario(t0: nat, t1: nat, ts: nat) returns (out: seq<Event>)
    ensures out == [MacroEvent(ts, [Assign(Name, "x")])]
  {
    var rt := new Runtime();
    var g0 := rt.Init(t0);
    var g1 := rt.Init(t1);
    rt.Event(ts, [Assign(Name, "x")]);
    assert rt.channels[0] == [];
    rt.DropGuard(g0);
    assert rt.stdout == [];
    assert rt.channels[1] == [Span(MacroEvent(ts, [Assign(Name, "x")]))];
    OnlyLastSpanSurvives([], MacroEvent(ts, [Assign(Name, "x")]), []);
    assert rt.channels[1] + [Terminate] == [] + [Span(MacroEvent(ts, [Assign(Name, "x")])), Terminate] + [];
    rt.DropGuard(g1);
    out := rt.stdout;
  }
}
