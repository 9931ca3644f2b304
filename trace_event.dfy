/**
 * A chrometracer `SimpleEvent` and the trace-event records that `write_json`
 * serialises it into.
 *
 * Timestamps are integer nanoseconds since the tracer's epoch. A record field
 * written from `ns as f64 / 1000.0` is kept as `Micros(ns)`: the value it
 * denotes, not its decimal rendering.
 */
module TraceEvent {
  import opened Wrappers

  const U128_LIMIT: int := 0x1_0000_0000_0000_0000_0000_0000_0000_0000

  /** `Duration::as_nanos` yields a `u128`. */
  type U128 = x: int | 0 <= x < U128_LIMIT

  /** One measured interval, as submitted through `trace`. */
  datatype SimpleEvent = SimpleEvent(name: string, from: U128, to: U128, isAsync: bool, tid: nat)

  /** A JSON value in a record: a string, an unsigned integer, or a float holding ns / 1000. */
  datatype Value = Str(s: string) | UInt(n: nat) | Micros(ns: nat)

  /** One `"key":value` member of a JSON object. */
  datatype Field = Field(key: string, value: Value)

  /** A JSON object, its members in the order they are written. */
  type Record = seq<Field>

  /**
   * `u128` subtraction as a build without overflow checks performs it: the
   * difference modulo 2^128.
   */
  function WrappingSub(a: U128, b: U128): (r: U128)
    ensures r == (a - b) % U128_LIMIT
    ensures (b + r) % U128_LIMIT == a
  {
    if b <= a then a - b else U128_LIMIT - (b - a)
  }

  /**
   * The events whose duration `to - from` does not underflow: every
   * asynchronous event, and a synchronous one that ends no earlier than it
   * starts.
   */
  predicate NoUnderflow(e: SimpleEvent) {
    e.isAsync || e.from <= e.to
  }

  /** The value of the first member named `key`, as a JSON reader sees it. */
  function Get(rec: Record, key: string): (r: Option<Value>) {
    if rec == [] then None
    else if rec[0].key == key then Some(rec[0].value)
    else Get(rec[1..], key)
  }

  function GetStr(rec: Record, key: string): (r: Option<string>) {
    match Get(rec, key)
    case Some(Str(s)) => Some(s)
    case _ => None
  }

  function GetUInt(rec: Record, key: string): (r: Option<nat>) {
    match Get(rec, key)
    case Some(UInt(n)) => Some(n)
    case _ => None
  }

  function GetMicros(rec: Record, key: string): (r: Option<nat>) {
    match Get(rec, key)
    case Some(Micros(ns)) => Some(ns)
    case _ => None
  }

  /** The keys of a record, in order. */
  function Keys(rec: Record): (ks: seq<string>) {
    seq(|rec|, k requires 0 <= k < |rec| => rec[k].key)
  }

  /** No key occurs twice in the record. */
  predicate DistinctKeys(rec: Record) {
    forall j, k :: 0 <= j < k < |rec| ==> rec[j].key != rec[k].key
  }

  /**
   * `SimpleEvent::write_json`: a synchronous event is one complete (`"X"`)
   * record; an asynchronous one is a begin (`"b"`) and an end (`"e"`) record
   * that share the id `from` and the category `"async"`.
   */
  function WriteJson(pid: nat, e: SimpleEvent): (r: seq<Record>)
    ensures |r| == if e.isAsync then 2 else 1
  {
    if e.isAsync then
      [AsyncRecord(pid, e, e.from, "b"), AsyncRecord(pid, e, e.to, "e")]
    else
      [[Field("name", Str(e.name)), Field("ts", Micros(e.from)), Field("dur", Micros(WrappingSub(e.to, e.from))),
        Field("pid", UInt(pid)), Field("tid", UInt(e.tid)), Field("ph", Str("X"))]]
  }

  /** One half of an asynchronous pair, stamped at `ts` with phase `ph`. */
  function AsyncRecord(pid: nat, e: SimpleEvent, ts: nat, ph: string): (r: Record) {
    [Field("name", Str(e.name)), Field("ts", Micros(ts)), Field("pid", UInt(pid)),
     Field("tid", UInt(e.tid)), Field("id", UInt(e.from)), Field("ph", Str(ph)),
     Field("cat", Str("async"))]
  }

  /** A reader finds the member at position `k` when no earlier member has its key. */
  lemma {:induction false} GetAt(rec: Record, k: nat)
    requires k < |rec|
    requires forall j :: 0 <= j < k ==> rec[j].key != rec[k].key
    ensures Get(rec, rec[k].key) == Some(rec[k].value)
  {
    if k > 0 {
      assert rec[0].key != rec[k].key;
      assert forall j :: 0 <= j < k - 1 ==> rec[1..][j] == rec[j + 1];
      GetAt(rec[1..], k - 1);
    }
  }

  /** A reader finds nothing under a key the record does not have. */
  lemma {:induction false} GetAbsent(rec: Record, key: string)
    requires forall j :: 0 <= j < |rec| ==> rec[j].key != key
    ensures Get(rec, key) == None
  {
    if rec != [] {
      assert forall j :: 0 <= j < |rec[1..]| ==> rec[1..][j] == rec[j + 1];
      GetAbsent(rec[1..], key);
    }
  }

  /** What a reader finds in the complete record of a synchronous event. */
  lemma CompleteRecordFields(pid: nat, e: SimpleEvent)
    requires !e.isAsync
    ensures var rec := WriteJson(pid, e)[0];
            && GetStr(rec, "name") == Some(e.name)
            && GetMicros(rec, "ts") == Some(e.from)
            && GetMicros(rec, "dur") == Some(WrappingSub(e.to, e.from))
            && GetUInt(rec, "pid") == Some(pid)
            && GetUInt(rec, "tid") == Some(e.tid)
            && GetStr(rec, "ph") == Some("X")
            && Get(rec, "id") == None && Get(rec, "cat") == None
  {
    CompleteRecordHead(pid, e);
    CompleteRecordTail(pid, e);
  }

  /** The first three members of a complete record. */
  lemma CompleteRecordHead(pid: nat, e: SimpleEvent)
    requires !e.isAsync
    ensures var rec := WriteJson(pid, e)[0];
            && Get(rec, "name") == Some(Str(e.name))
            && Get(rec, "ts") == Some(Micros(e.from))
            && Get(rec, "dur") == Some(Micros(WrappingSub(e.to, e.from)))
  {
    var rec := WriteJson(pid, e)[0];
    GetAt(rec, 0); GetAt(rec, 1); GetAt(rec, 2);
  }

  /** The last three members of a complete record, and the absent `id` and `cat`. */
  lemma CompleteRecordTail(pid: nat, e: SimpleEvent)
    requires !e.isAsync
    ensures var rec := WriteJson(pid, e)[0];
            && Get(rec, "pid") == Some(UInt(pid))
            && Get(rec, "tid") == Some(UInt(e.tid))
            && Get(rec, "ph") == Some(Str("X"))
            && Get(rec, "id") == None && Get(rec, "cat") == None
  {
    var rec := WriteJson(pid, e)[0];
    GetAt(rec, 3); GetAt(rec, 4); GetAt(rec, 5);
    GetAbsent(rec, "id"); GetAbsent(rec, "cat");
  }

  /** What a reader finds in one half of an asynchronous pair. */
  lemma AsyncRecordFields(pid: nat, e: SimpleEvent, ts: nat, ph: string)
    ensures var rec := AsyncRecord(pid, e, ts, ph);
            && GetStr(rec, "name") == Some(e.name)
            && GetMicros(rec, "ts") == Some(ts)
            && GetUInt(rec, "pid") == Some(pid)
            && GetUInt(rec, "tid") == Some(e.tid)
            && GetUInt(rec, "id") == Some(e.from)
            && GetStr(rec, "ph") == Some(ph)
            && GetStr(rec, "cat") == Some("async")
            && Get(rec, "dur") == None
  {
    AsyncRecordHead(pid, e, ts, ph);
    AsyncRecordTail(pid, e, ts, ph);
  }

  /** The first four members of an asynchronous record. */
  lemma AsyncRecordHead(pid: nat, e: SimpleEvent, ts: nat, ph: string)
    ensures var rec := AsyncRecord(pid, e, ts, ph);
            && Get(rec, "name") == Some(Str(e.name))
            && Get(rec, "ts") == Some(Micros(ts))
            && Get(rec, "pid") == Some(UInt(pid))
            && Get(rec, "tid") == Some(UInt(e.tid))
  {
    var rec := AsyncRecord(pid, e, ts, ph);
    GetAt(rec, 0); GetAt(rec, 1); GetAt(rec, 2); GetAt(rec, 3);
  }

  /** The last three members of an asynchronous record, and the absent `dur`. */
  lemma AsyncRecordTail(pid: nat, e: SimpleEvent, ts: nat, ph: string)
    ensures var rec := AsyncRecord(pid, e, ts, ph);
            && Get(rec, "id") == Some(UInt(e.from))
            && Get(rec, "ph") == Some(Str(ph))
            && Get(rec, "cat") == Some(Str("async"))
            && Get(rec, "dur") == None
  {
    var rec := AsyncRecord(pid, e, ts, ph);
    GetAt(rec, 4); GetAt(rec, 5); GetAt(rec, 6);
    GetAbsent(rec, "dur");
  }

  /**
   * What a JSON reader finds in the records of one event: name, pid and tid
   * in every record; for a synchronous event `ph "X"`, `ts` = from and
   * `dur` = to - from; for an asynchronous one a `"b"` record at from and an
   * `"e"` record at to, both with `cat "async"` and the id from.
   */
  lemma WriteJsonFields(pid: nat, e: SimpleEvent)
    ensures forall rec <- WriteJson(pid, e) ::
              && GetStr(rec, "name") == Some(e.name)
              && GetUInt(rec, "pid") == Some(pid)
              && GetUInt(rec, "tid") == Some(e.tid)
    ensures var r := WriteJson(pid, e);
            !e.isAsync ==>
              && GetStr(r[0], "ph") == Some("X")
              && GetMicros(r[0], "ts") == Some(e.from)
              && GetMicros(r[0], "dur") == Some(WrappingSub(e.to, e.from))
              && Get(r[0], "id") == None && Get(r[0], "cat") == None
    ensures var r := WriteJson(pid, e);
            e.isAsync ==>
              && GetStr(r[0], "ph") == Some("b") && GetStr(r[1], "ph") == Some("e")
              && GetMicros(r[0], "ts") == Some(e.from) && GetMicros(r[1], "ts") == Some(e.to)
              && GetUInt(r[0], "id") == Some(e.from) && GetUInt(r[1], "id") == Some(e.from)
              && GetStr(r[0], "cat") == Some("async") && GetStr(r[1], "cat") == Some("async")
              && Get(r[0], "dur") == None && Get(r[1], "dur") == None
  {
    if e.isAsync {
      AsyncRecordFields(pid, e, e.from, "b");
      AsyncRecordFields(pid, e, e.to, "e");
    } else {
      CompleteRecordFields(pid, e);
    }
  }

  /** No record `write_json` produces repeats a key. */
  lemma WriteJsonDistinctKeys(pid: nat, e: SimpleEvent)
    ensures forall rec <- WriteJson(pid, e) :: DistinctKeys(rec)
  {
    if e.isAsync {
      AsyncDistinctKeys(pid, e, e.from, "b");
      AsyncDistinctKeys(pid, e, e.to, "e");
    } else {
      CompleteDistinctKeys(pid, e);
    }
  }

  lemma CompleteDistinctKeys(pid: nat, e: SimpleEvent)
    requires !e.isAsync
    ensures DistinctKeys(WriteJson(pid, e)[0])
  {
    var rec := WriteJson(pid, e)[0];
    var ks := Keys(rec);
    assert ks == ["name", "ts", "dur", "pid", "tid", "ph"];
    assert forall j, k :: 0 <= j < k < |rec| ==> ks[j] != ks[k];
  }

  lemma AsyncDistinctKeys(pid: nat, e: SimpleEvent, ts: nat, ph: string)
    ensures DistinctKeys(AsyncRecord(pid, e, ts, ph))
  {
    var rec := AsyncRecord(pid, e, ts, ph);
    var ks := Keys(rec);
    assert ks == ["name", "ts", "pid", "tid", "id", "ph", "cat"];
    assert forall j, k :: 0 <= j < k < |rec| ==> ks[j] != ks[k];
  }

  /** Every record of `es`, event after event. */
  function AllRecords(pid: nat, es: seq<SimpleEvent>): (r: seq<Record>)
  {
    if es == [] then [] else WriteJson(pid, es[0]) + AllRecords(pid, es[1..])
  }

  /** How many of `es` are asynchronous. */
  function AsyncCount(es: seq<SimpleEvent>): (n: nat) {
    if es == [] then 0 else (if es[0].isAsync then 1 else 0) + AsyncCount(es[1..])
  }

  // ----- Reading records back, as a trace viewer does -----

  /** The event a complete (`"X"`) record describes: it ends at `ts + dur`. */
  function DecodeComplete(rec: Record): (r: Option<SimpleEvent>) {
    var name :- GetStr(rec, "name");
    var ts :- GetMicros(rec, "ts");
    var dur :- GetMicros(rec, "dur");
    var tid :- GetUInt(rec, "tid");
    if ts + dur < U128_LIMIT then Some(SimpleEvent(name, ts, ts + dur, false, tid)) else None
  }

  /** The event a begin/end pair describes, if the two belong together. */
  function DecodeAsync(b: Record, e: Record): (r: Option<SimpleEvent>) {
    var name :- GetStr(b, "name");
    var from :- GetMicros(b, "ts");
    var to :- GetMicros(e, "ts");
    var tid :- GetUInt(b, "tid");
    var id :- GetUInt(b, "id");
    if && from < U128_LIMIT && to < U128_LIMIT
       && GetStr(e, "ph") == Some("e")
       && GetUInt(e, "id") == Some(id)
       && GetStr(e, "name") == Some(name)
       && GetUInt(e, "tid") == Some(tid)
       && GetStr(b, "cat") == Some("async")
       && GetStr(e, "cat") == Some("async")
    then Some(SimpleEvent(name, from, to, true, tid))
    else None
  }

  /** Groups a sequence of records back into the events they describe. */
  function DecodeRecords(rs: seq<Record>): (r: Option<seq<SimpleEvent>>)
    decreases |rs|
  {
    if rs == [] then Some([])
    else if GetStr(rs[0], "ph") == Some("X") then
      var e :- DecodeComplete(rs[0]);
      var rest :- DecodeRecords(rs[1..]);
      Some([e] + rest)
    else if GetStr(rs[0], "ph") == Some("b") && |rs| >= 2 then
      var e :- DecodeAsync(rs[0], rs[1]);
      var rest :- DecodeRecords(rs[2..]);
      Some([e] + rest)
    else None
  }

  // ----- Properties -----

  /** Reading back the records of one event, followed by anything, yields that event first. */
  lemma DecodeWriteJson(pid: nat, e: SimpleEvent, rest: seq<Record>)
    requires NoUnderflow(e)
    ensures DecodeRecords(WriteJson(pid, e) + rest) ==
              match DecodeRecords(rest)
              case Some(es) => Some([e] + es)
              case None => None
  {
    var r := WriteJson(pid, e);
    var all := r + rest;
    WriteJsonFields(pid, e);
    if e.isAsync {
      assert all[0] == r[0] && all[1] == r[1] && all[2..] == rest;
    } else {
      assert all[0] == r[0] && all[1..] == rest;
    }
  }

  /** Round trip: the records of a run of events decode to exactly those events, in order. */
  lemma {:induction false} DecodeAllRecords(pid: nat, es: seq<SimpleEvent>)
    requires forall e <- es :: NoUnderflow(e)
    ensures DecodeRecords(AllRecords(pid, es)) == Some(es)
  {
    if es != [] {
      DecodeAllRecords(pid, es[1..]);
      DecodeWriteJson(pid, es[0], AllRecords(pid, es[1..]));
      assert [es[0]] + es[1..] == es;
    }
  }

  /** A run of N events with A asynchronous ones yields N + A records. */
  lemma {:induction false} RecordCount(pid: nat, es: seq<SimpleEvent>)
    ensures |AllRecords(pid, es)| == |es| + AsyncCount(es)
  {
    if es != [] {
      RecordCount(pid, es[1..]);
    }
  }

  /** Appending one event appends its records. */
  lemma {:induction false} AllRecordsSnoc(pid: nat, es: seq<SimpleEvent>, e: SimpleEvent)
    ensures AllRecords(pid, es + [e]) == AllRecords(pid, es) + WriteJson(pid, e)
  {
    if es == [] {
      assert es + [e] == [e];
    } else {
      assert (es + [e])[0] == es[0];
      assert (es + [e])[1..] == es[1..] + [e];
      AllRecordsSnoc(pid, es[1..], e);
    }
  }

  /** Every record of a run carries the process id. */
  lemma {:induction false} AllRecordsCarryPid(pid: nat, es: seq<SimpleEvent>)
    ensures forall rec <- AllRecords(pid, es) :: GetUInt(rec, "pid") == Some(pid)
  {
    if es != [] {
      AllRecordsCarryPid(pid, es[1..]);
      WriteJsonFields(pid, es[0]);
    }
  }
}
