/**
 * The chrometracer writer thread: it frames `trace.json` as one JSON array
 * and runs every received event through the one-slot queue, serialising an
 * event only once the next one has evicted it, or at shutdown.
 *
 * The channel is the sequence of messages the writer receives, in arrival
 * order; reaching its end stands for `recv` failing because every sender is
 * gone. The file is the sequence of chunks appended to it.
 */
module ChromeWriter {
  import opened Wrappers
  import opened TraceEvent
  import opened Coalescing

  /** `ChromeTracerMessage`. */
  datatype Message = ChromeEvent(event: SimpleEvent) | Terminate

  /** A piece appended to the file: fixed text, or one serialised JSON object. */
  datatype Chunk = Text(s: string) | Rec(record: Record)

  const OPEN: string := "[\n"
  const SEPARATOR: string := ",\n"
  const NEWLINE: string := "\n"
  const CLOSE: string := "]"

  /** The events the writer takes: those before the first `Terminate`. */
  function Accepted(channel: seq<Message>): (es: seq<SimpleEvent>) {
    if channel == [] || channel[0].Terminate? then []
    else [channel[0].event] + Accepted(channel[1..])
  }

  /** Records separated by `,\n`, as `write_json` joins the two halves of an async pair. */
  function Joined(rs: seq<Record>): (t: seq<Chunk>) {
    if rs == [] then []
    else if |rs| == 1 then [Rec(rs[0])]
    else [Rec(rs[0]), Text(SEPARATOR)] + Joined(rs[1..])
  }

  /** The bytes `write_json` appends for one event. */
  function Serialised(pid: nat, e: SimpleEvent): (t: seq<Chunk>)
  {
    Joined(WriteJson(pid, e))
  }

  /**
   * The reference document for a run: one JSON array holding every record of
   * `es` in order, records separated by `,\n`, the last one followed by `\n`.
   */
  function Document(pid: nat, es: seq<SimpleEvent>): (d: seq<Chunk>)
  {
    [Text(OPEN)]
    + (if es == [] then [] else Joined(AllRecords(pid, es)) + [Text(NEWLINE)])
    + [Text(CLOSE)]
  }

  /** What the loop has written for the events it evicted: each one followed by `,\n`. */
  function Flushed(pid: nat, es: seq<SimpleEvent>): (t: seq<Chunk>)
  {
    if es == [] then []
    else Flushed(pid, es[..|es| - 1]) + Serialised(pid, es[|es| - 1]) + [Text(SEPARATOR)]
  }

  // ----- Reading the file back -----

  /** A JSON array of objects: `[\n`, then either nothing or `obj (,\n obj)* \n`, then `]`. */
  function ParseArray(t: seq<Chunk>): (r: Option<seq<Record>>) {
    if |t| >= 2 && t[0] == Text(OPEN) && t[|t| - 1] == Text(CLOSE) then
      var body := t[1..|t| - 1];
      if body == [] then Some([]) else ParseElements(body)
    else None
  }

  /** `obj (,\n obj)* \n`: a trailing separator is rejected. */
  function ParseElements(b: seq<Chunk>): (r: Option<seq<Record>>)
    decreases |b|
  {
    if |b| >= 2 && b[0].Rec? then
      if |b| == 2 && b[1] == Text(NEWLINE) then Some([b[0].record])
      else if b[1] == Text(SEPARATOR) then
        var rest :- ParseElements(b[2..]);
        Some([b[0].record] + rest)
      else None
    else None
  }

  /** The events a trace file describes, as a trace viewer reads them. */
  function DecodeTrace(t: seq<Chunk>): (r: Option<seq<SimpleEvent>>) {
    var rs :- ParseArray(t);
    DecodeRecords(rs)
  }

  /** Concatenates the file's text, rendering each record with `render`. */
  function Render(t: seq<Chunk>, render: Record -> string): (text: string) {
    if t == [] then ""
    else (match t[0] case Text(s) => s case Rec(r) => render(r)) + Render(t[1..], render)
  }

  // ----- Lemmas -----

  /** A message sequence made only of events is accepted whole. */
  lemma {:induction false} AcceptedAllEvents(channel: seq<Message>)
    requires forall m <- channel :: m.ChromeEvent?
    ensures |Accepted(channel)| == |channel|
    ensures forall k :: 0 <= k < |channel| ==> Accepted(channel)[k] == channel[k].event
  {
    if channel != [] {
      assert forall k :: 0 <= k < |channel| - 1 ==> channel[1..][k] == channel[k + 1];
      AcceptedAllEvents(channel[1..]);
      assert Accepted(channel) == [channel[0].event] + Accepted(channel[1..]);
    }
  }

  /** Events sent after the first `Terminate` are never taken. */
  lemma {:induction false} AcceptedStopsAtTerminate(channel: seq<Message>, later: seq<Message>)
    requires Terminate in channel
    ensures Accepted(channel + later) == Accepted(channel)
  {
    assert (channel + later)[0] == channel[0];
    if channel[0].ChromeEvent? {
      assert (channel + later)[1..] == channel[1..] + later;
      AcceptedStopsAtTerminate(channel[1..], later);
    }
  }

  /** Closing a channel of events with `Terminate` keeps exactly those events. */
  lemma AcceptedThenTerminate(channel: seq<Message>)
    requires forall m <- channel :: m.ChromeEvent?
    ensures Accepted(channel + [Terminate]) == Accepted(channel)
  {
    AcceptedCons(channel, [Terminate]);
  }

  /** Appending to a sequence of events extends what is accepted. */
  lemma {:induction false} AcceptedCons(channel: seq<Message>, later: seq<Message>)
    requires forall m <- channel :: m.ChromeEvent?
    ensures Accepted(channel + later) == Accepted(channel) + Accepted(later)
  {
    if channel == [] {
      assert channel + later == later;
      assert Accepted(channel) == [];
    } else {
      assert (channel + later)[0] == channel[0];
      assert (channel + later)[1..] == channel[1..] + later;
      assert forall m <- channel[1..] :: m in channel;
      AcceptedCons(channel[1..], later);
      calc {
        Accepted(channel + later);
        [channel[0].event] + Accepted(channel[1..] + later);
        [channel[0].event] + (Accepted(channel[1..]) + Accepted(later));
        ([channel[0].event] + Accepted(channel[1..])) + Accepted(later);
      }
    }
  }

  /** Joining two non-empty runs of records puts one separator between them. */
  lemma {:induction false} JoinedAppend(a: seq<Record>, b: seq<Record>)
    requires a != [] && b != []
    ensures Joined(a + b) == Joined(a) + [Text(SEPARATOR)] + Joined(b)
  {
    if |a| == 1 {
      assert (a + b)[0] == a[0] && (a + b)[1..] == b;
    } else {
      assert (a + b)[0] == a[0] && (a + b)[1..] == a[1..] + b;
      JoinedAppend(a[1..], b);
    }
  }

  /**
   * The evicted events with their separators, followed by the last event's
   * bytes, are the joined records of all the events.
   */
  lemma {:induction false} FlushedThenLast(pid: nat, es: seq<SimpleEvent>, last: SimpleEvent)
    ensures Flushed(pid, es) + Serialised(pid, last) == Joined(AllRecords(pid, es + [last]))
  {
    AllRecordsSnoc(pid, es, last);
    if es == [] {
      assert AllRecords(pid, es) == [] && Flushed(pid, es) == [];
      assert AllRecords(pid, es + [last]) == WriteJson(pid, last);
    } else {
      var init, prev := es[..|es| - 1], es[|es| - 1];
      assert es == init + [prev];
      FlushedThenLast(pid, init, prev);
      JoinedAppend(AllRecords(pid, es), WriteJson(pid, last));
    }
  }

  /** `Joined` followed by `\n` parses back into the records. */
  lemma {:induction false} ParseJoined(rs: seq<Record>)
    requires rs != []
    ensures ParseElements(Joined(rs) + [Text(NEWLINE)]) == Some(rs)
  {
    var b := Joined(rs) + [Text(NEWLINE)];
    if |rs| == 1 {
      assert b == [Rec(rs[0]), Text(NEWLINE)];
      assert rs == [rs[0]];
    } else {
      assert b == [Rec(rs[0]), Text(SEPARATOR)] + (Joined(rs[1..]) + [Text(NEWLINE)]);
      assert b[2..] == Joined(rs[1..]) + [Text(NEWLINE)];
      ParseJoined(rs[1..]);
      assert [rs[0]] + rs[1..] == rs;
    }
  }

  /** The document parses as one JSON array of exactly the run's records, in order. */
  lemma ParseDocument(pid: nat, es: seq<SimpleEvent>)
    ensures ParseArray(Document(pid, es)) == Some(AllRecords(pid, es))
  {
    var d := Document(pid, es);
    if es == [] {
      assert d[1..|d| - 1] == [];
    } else {
      RecordCount(pid, es);
      assert d[1..|d| - 1] == Joined(AllRecords(pid, es)) + [Text(NEWLINE)];
      ParseJoined(AllRecords(pid, es));
    }
  }

  /** Round trip: a trace viewer reads back every event of the run exactly once, in order. */
  lemma DecodeDocument(pid: nat, es: seq<SimpleEvent>)
    requires forall e <- es :: NoUnderflow(e)
    ensures DecodeTrace(Document(pid, es)) == Some(es)
  {
    ParseDocument(pid, es);
    DecodeAllRecords(pid, es);
  }

  /** Every separator in a joined run is followed by a record. */
  lemma {:induction false} JoinedSeparators(rs: seq<Record>)
    ensures |Joined(rs)| == if rs == [] then 0 else 2 * |rs| - 1
    ensures forall k :: 0 <= k < |Joined(rs)| ==> (Joined(rs)[k].Rec? <==> k % 2 == 0)
    ensures forall k :: 0 <= k < |Joined(rs)| && k % 2 == 1 ==> Joined(rs)[k] == Text(SEPARATOR)
  {
    if |rs| > 1 {
      JoinedSeparators(rs[1..]);
      var j := Joined(rs);
      assert j == [Rec(rs[0]), Text(SEPARATOR)] + Joined(rs[1..]);
      assert forall k :: 2 <= k < |j| ==> j[k] == Joined(rs[1..])[k - 2];
    }
  }

  /** With no events the file is exactly `[\n]`. */
  lemma EmptyDocument(pid: nat, render: Record -> string)
    ensures Document(pid, []) == [Text(OPEN), Text(CLOSE)]
    ensures Render(Document(pid, []), render) == "[\n]"
  {
    var d := Document(pid, []);
    assert d[1..] == [Text(CLOSE)] && d[1..][1..] == [];
    assert Render(d[1..], render) == "]" + Render([], render);
    assert Render(d, render) == "[\n" + Render(d[1..], render);
  }

  /** With events, the file opens with `[\n`, and its last record is followed by `\n` and then `]`. */
  lemma NonEmptyDocument(pid: nat, es: seq<SimpleEvent>)
    requires es != []
    ensures var d := Document(pid, es);
            && |d| >= 4 && d[0] == Text(OPEN) && d[|d| - 1] == Text(CLOSE)
            && d[|d| - 2] == Text(NEWLINE) && d[|d| - 3].Rec?
  {
    var rs := AllRecords(pid, es);
    RecordCount(pid, es);
    JoinedSeparators(rs);
    var j := Joined(rs);
    var d := Document(pid, es);
    assert d == [Text(OPEN)] + j + [Text(NEWLINE), Text(CLOSE)];
    assert d[|d| - 3] == j[|j| - 1];
  }

  /** Every `,\n` in the file is followed by a record: there is no trailing comma. */
  lemma NoTrailingSeparator(pid: nat, es: seq<SimpleEvent>)
    ensures var d := Document(pid, es);
            forall k :: 0 <= k < |d| && d[k] == Text(SEPARATOR) ==> k + 1 < |d| && d[k + 1].Rec?
  {
    var d := Document(pid, es);
    if es != [] {
      var rs := AllRecords(pid, es);
      RecordCount(pid, es);
      JoinedSeparators(rs);
      var j := Joined(rs);
      assert d == [Text(OPEN)] + j + [Text(NEWLINE), Text(CLOSE)];
      forall k | 0 <= k < |d| && d[k] == Text(SEPARATOR)
        ensures k + 1 < |d| && d[k + 1].Rec?
      {
        assert 1 <= k <= |j| && d[k] == j[k - 1];
        assert k + 1 <= |j|;
        assert d[k + 1] == j[k];
      }
    }
  }

  /**
   * Framing: the file opens with `[\n` and closes with `]`; it is `[\n]`
   * exactly when there are no events; otherwise the last record is followed
   * by `\n`, and every `,\n` is followed by a record.
   */
  lemma DocumentFraming(pid: nat, es: seq<SimpleEvent>)
    ensures var d := Document(pid, es);
            && |d| >= 2 && d[0] == Text(OPEN) && d[|d| - 1] == Text(CLOSE)
            && (es == [] <==> d == [Text(OPEN), Text(CLOSE)])
            && (es != [] ==> d[|d| - 2] == Text(NEWLINE) && d[|d| - 3].Rec?)
  {
    if es == [] {
      EmptyDocument(pid, x => "");
    } else {
      NonEmptyDocument(pid, es);
    }
  }

  /** Scenario: one synchronous event ("work", 100000 ns to 250000 ns, tid 7) gives a single record. */
  lemma OneCompleteEvent(pid: nat)
    ensures var e := SimpleEvent("work", 100000, 250000, false, 7);
            Document(pid, [e]) ==
              [Text(OPEN),
               Rec([Field("name", Str("work")), Field("ts", Micros(100000)), Field("dur", Micros(150000)),
                    Field("pid", UInt(pid)), Field("tid", UInt(7)), Field("ph", Str("X"))]),
               Text(NEWLINE), Text(CLOSE)]
  {
    var e := SimpleEvent("work", 100000, 250000, false, 7);
    assert AllRecords(pid, [e]) == WriteJson(pid, e) + AllRecords(pid, []);
    assert Joined(AllRecords(pid, [e])) == [Rec(WriteJson(pid, e)[0])];
  }

  /** Scenario: one asynchronous event ("req", 1 ms to 2 ms, tid 3) gives a begin/end pair sharing id 1000000. */
  lemma OneAsyncEvent(pid: nat)
    ensures var e := SimpleEvent("req", 1000000, 2000000, true, 3);
            Document(pid, [e]) ==
              [Text(OPEN),
               Rec([Field("name", Str("req")), Field("ts", Micros(1000000)), Field("pid", UInt(pid)),
                    Field("tid", UInt(3)), Field("id", UInt(1000000)), Field("ph", Str("b")),
                    Field("cat", Str("async"))]),
               Text(SEPARATOR),
               Rec([Field("name", Str("req")), Field("ts", Micros(2000000)), Field("pid", UInt(pid)),
                    Field("tid", UInt(3)), Field("id", UInt(1000000)), Field("ph", Str("e")),
                    Field("cat", Str("async"))]),
               Text(NEWLINE), Text(CLOSE)]
  {
    var e := SimpleEvent("req", 1000000, 2000000, true, 3);
    var r := WriteJson(pid, e);
    assert AllRecords(pid, [e]) == r + AllRecords(pid, []);
    assert AllRecords(pid, [e]) == r;
    assert Joined(r[1..]) == [Rec(r[1])];
    assert Joined(r) == [Rec(r[0]), Text(SEPARATOR), Rec(r[1])];
  }

  // ----- The writer thread -----

  /**
   * The writer thread's body: writes `[\n`, pushes each received event into
   * the one-slot queue, serialising an evicted event followed by `,\n`, stops
   * at the first `Terminate` or at channel closure, then serialises the event
   * left in the queue followed by `\n`, and writes `]`.
   */
  method RunWriter(channel: seq<Message>, pid: nat) returns (out: seq<Chunk>)
    ensures out == Document(pid, Accepted(channel))
    ensures (forall e <- Accepted(channel) :: NoUnderflow(e)) ==> DecodeTrace(out) == Some(Accepted(channel))
  {
    var queue := new OneSlotQueue<SimpleEvent>();
    ghost var flushed;
    out, flushed := ReceiveLoop(channel, pid, queue);
    var last := queue.Pop();
    if last.Some? {
      CloseDocument(pid, out, flushed, last.value);
      out := out + Serialised(pid, last.value) + [Text(NEWLINE)] + [Text(CLOSE)];
    } else {
      out := out + [Text(CLOSE)];
    }
    if forall e <- Accepted(channel) :: NoUnderflow(e) {
      DecodeDocument(pid, Accepted(channel));
    }
  }

  /**
   * The `while let` loop of the writer thread, after `[\n` is written:
   * returns what has been written and, as a ghost, the events it evicted.
   */
  method ReceiveLoop(channel: seq<Message>, pid: nat, queue: OneSlotQueue<SimpleEvent>)
    returns (out: seq<Chunk>, ghost flushed: seq<SimpleEvent>)
    requires queue.Contents() == []
    modifies queue
    ensures Accepted(channel) == flushed + queue.Contents()
    ensures flushed != [] ==> queue.Contents() != []
    ensures out == [Text(OPEN)] + Flushed(pid, flushed)
  {
    ghost var accepted := Accepted(channel);
    out := [Text(OPEN)];
    flushed := [];
    ghost var pending: seq<SimpleEvent> := [];
    var i := 0;
    while i < |channel| && channel[i].ChromeEvent?
      invariant 0 <= i <= |channel|
      invariant queue.Contents() == pending
      invariant accepted == flushed + pending + Accepted(channel[i..])
      invariant flushed != [] ==> pending != []
      invariant out == [Text(OPEN)] + Flushed(pid, flushed)
    {
      var event := channel[i].event;
      AcceptedStep(channel, i);
      assert accepted == (flushed + pending) + [event] + Accepted(channel[i + 1..]);
      var evicted := queue.ForcePush(event);
      if evicted.Some? {
        assert pending == [evicted.value];
        EvictStep(pid, out, flushed, evicted.value);
        out := out + Serialised(pid, evicted.value) + [Text(SEPARATOR)];
        flushed := flushed + [evicted.value];
      } else {
        assert pending == [];
      }
      pending := [event];
      i := i + 1;
    }
    AcceptedEnd(channel, i);
  }

  /** The writer's final writes complete the reference document. */
  lemma CloseDocument(pid: nat, out: seq<Chunk>, flushed: seq<SimpleEvent>, last: SimpleEvent)
    requires out == [Text(OPEN)] + Flushed(pid, flushed)
    ensures out + Serialised(pid, last) + [Text(NEWLINE)] + [Text(CLOSE)] == Document(pid, flushed + [last])
  {
    FlushedThenLast(pid, flushed, last);
  }

  /** Evicting one more event appends its bytes and a separator to what the loop has written. */
  lemma EvictStep(pid: nat, out: seq<Chunk>, flushed: seq<SimpleEvent>, v: SimpleEvent)
    requires out == [Text(OPEN)] + Flushed(pid, flushed)
    ensures out + Serialised(pid, v) + [Text(SEPARATOR)] == [Text(OPEN)] + Flushed(pid, flushed + [v])
  {
    FlushedSnoc(pid, flushed, v);
  }

  /** One more event at the head of the unread channel. */
  lemma AcceptedStep(channel: seq<Message>, i: nat)
    requires i < |channel| && channel[i].ChromeEvent?
    ensures Accepted(channel[i..]) == [channel[i].event] + Accepted(channel[i + 1..])
  {
    assert channel[i..][0] == channel[i] && channel[i..][1..] == channel[i + 1..];
  }

  /** Nothing more is taken at a `Terminate` or at the end of the channel. */
  lemma AcceptedEnd(channel: seq<Message>, i: nat)
    requires i <= |channel|
    requires i == |channel| || channel[i].Terminate?
    ensures Accepted(channel[i..]) == []
  {
  }

  /** Evicting one more event appends its bytes and a separator. */
  lemma FlushedSnoc(pid: nat, es: seq<SimpleEvent>, e: SimpleEvent)
    ensures Flushed(pid, es + [e]) == Flushed(pid, es) + Serialised(pid, e) + [Text(SEPARATOR)]
  {
    assert (es + [e])[..|es|] == es;
  }

}
