/**
  The weewx Graphite uploader (bin/user/graphite.py): the binder `Graphite`,
  which probes its configuration and, when enabled, queues every new archive
  record, and the worker `GraphiteThread`, which turns one record into Carbon
  plaintext lines, each sent over a connection of its own.

  The socket is modelled as the worker's log of connections; syslog as a log
  of entries on each object. The retry, backlog and staleness machinery of the
  host framework, which drains the queue and calls ProcessRecord, is not part
  of this model.
 */
module UserGraphite {
  import opened Wrappers
  import opened Decimal
  import opened Carbon

  /** An archive record: field name to value, None for a value the station did not report. */
  type Record = map<string, Option<real>>

  const DateTime := "dateTime"
  const DefaultHost := "localhost"
  const DefaultPort := "2003"
  const DefaultPrefix := "weewx"

  datatype Priority = Debug | Info
  datatype LogEntry = LogEntry(priority: Priority, message: string)

  /** The debug entry process_record logs instead of sending when skip_upload is set. */
  const SkipMessage := LogEntry(Debug, "restx: Graphite: skip_upload=True, skipping upload")

  /** The message logged when a required option is missing; Python renders the KeyError as the quoted key. */
  function MissingOptionMessage(key: string): (e: LogEntry)
    ensures e.priority == Debug
    ensures |e.message| >= |key| + 2 && e.message[|e.message| - |key| - 2..] == "'" + key + "'"
  {
    LogEntry(Debug, "restx: Graphite: Data will not be posted: Missing option '" + key + "'")
  }

  /** The info entry logged once the uploader is enabled: it names the destination as host:port. */
  function EnabledMessage(host: string, port: string): (e: LogEntry)
    ensures e.priority == Info
    ensures |e.message| >= |host| + |port| + 1
    ensures e.message[|e.message| - |host| - |port| - 1..] == host + ":" + port
  {
    LogEntry(Info, "restx: Graphite: Data will be sent to host " + host + ":" + port)
  }

  /** The exceptions processing a record can raise: a missing key, or `%d` applied to None. */
  datatype PyError = KeyError(key: string) | TypeError
  datatype Outcome = Done | Raised(error: PyError)

  /** One TCP connection: where it went, what was written on it, and whether it was closed. */
  datatype Connection = Connection(host: string, port: string, writes: seq<string>, closed: bool)

  /** The connections some processing opened, and how it ended. */
  datatype Transmission = Transmission(connections: seq<Connection>, outcome: Outcome)

  /** The worker's keyword options as the configuration supplies them; None where a key is absent. */
  datatype Options = Options(host: Option<string>, port: Option<string>, prefix: Option<string>, skipUpload: Option<bool>)

  /** The host's new-archive-record event. */
  datatype Event = Event(record: Record)

  /** The strings written over a sequence of connections, in order. */
  function Lines(cs: seq<Connection>): seq<string> {
    if cs == [] then [] else cs[0].writes + Lines(cs[1..])
  }

  /**
    One call of collect_metric: a connection is opened first; `%d` then fails
    on a missing value or timestamp, leaving that connection open with nothing
    written; otherwise one line is written and the connection closed.
   */
  function Attempt(host: string, port: string, prefix: string, name: string,
                   value: Option<real>, timestamp: Option<real>): Transmission
  {
    if value.Some? && timestamp.Some? then
      Transmission([Connection(host, port, [Line(MetricName(prefix, name), value.value, timestamp.value)], true)], Done)
    else
      Transmission([Connection(host, port, [], false)], Raised(TypeError))
  }

  /**
    One iteration of process_record's loop for key k: the lookup of the
    record's "dateTime", which raises KeyError before anything is opened,
    then collect_metric.
   */
  function Step(host: string, port: string, prefix: string, record: Record, k: string): Transmission
    requires k in record
  {
    if DateTime !in record then Transmission([], Raised(KeyError(DateTime)))
    else Attempt(host, port, prefix, k, record[k], record[DateTime])
  }

  /**
    The loop of process_record over the record's keys in the given order;
    the first exception ends it.
   */
  function Transmit(host: string, port: string, prefix: string, record: Record, order: seq<string>): Transmission
    requires forall k :: k in order ==> k in record
  {
    if order == [] then Transmission([], Done)
    else
      var first := Step(host, port, prefix, record, order[0]);
      if first.outcome.Raised? then first
      else
        var rest := Transmit(host, port, prefix, record, order[1..]);
        Transmission(first.connections + rest.connections, rest.outcome)
  }

  /**
    collect_metric opens exactly one connection to the configured address; it
    succeeds exactly when both numbers are present, and then carries the one
    metric line and is closed; otherwise `%d` raises TypeError on an open,
    empty connection.
   */
  lemma AttemptShape(host: string, port: string, prefix: string, name: string,
                     value: Option<real>, timestamp: Option<real>)
    ensures var r := Attempt(host, port, prefix, name, value, timestamp);
            && |r.connections| == 1
            && r.connections[0].host == host && r.connections[0].port == port
            && (r.outcome.Done? <==> value.Some? && timestamp.Some?)
            && (r.outcome.Raised? ==> r.outcome.error == TypeError)
            && (r.connections[0].closed <==> r.outcome.Done?)
            && (r.outcome.Done? ==> r.connections[0].writes == [Line(MetricName(prefix, name), value.value, timestamp.value)])
            && (r.outcome.Raised? ==> r.connections[0].writes == [])
  {
  }

  /**
    One iteration opens at most one connection; it opens none, and raises
    KeyError('dateTime'), exactly when the record has no dateTime.
   */
  lemma StepShape(host: string, port: string, prefix: string, record: Record, k: string)
    requires k in record
    ensures var r := Step(host, port, prefix, record, k);
            && |r.connections| <= 1
            && (r.connections == [] <==> DateTime !in record)
            && (r.outcome == Raised(KeyError(DateTime)) <==> DateTime !in record)
  {
  }

  predicate Distinct(s: seq<string>) {
    forall i, j :: 0 <= i < j < |s| ==> s[i] != s[j]
  }

  /** order lists every key exactly once: one possible iteration order of a dict. */
  predicate IsEnumeration(order: seq<string>, keys: set<string>) {
    && Distinct(order)
    && (forall i :: 0 <= i < |order| ==> order[i] in keys)
    && (forall k :: k in keys ==> k in order)
  }

  /** A record every metric of which can be formatted: it has a timestamp and no value is None. */
  predicate Complete(record: Record) {
    && DateTime in record
    && (forall k :: k in record ==> record[k].Some?)
  }

  /** The line process_record sends for field k of a complete record. */
  function ExpectedLine(prefix: string, record: Record, k: string): string
    requires Complete(record) && k in record
  {
    Line(MetricName(prefix, k), record[k].value, record[DateTime].value)
  }

  ghost function EnumerationOf(keys: set<string>): (order: seq<string>)
    ensures IsEnumeration(order, keys)
    decreases keys
  {
    if keys == {} then []
    else
      var k :| k in keys;
      [k] + EnumerationOf(keys - {k})
  }

  /**
    Part-way through iterating over keys: order lists the keys visited so far,
    each once, and remaining holds exactly the keys not yet visited.
   */
  predicate Visited(order: seq<string>, remaining: set<string>, keys: set<string>) {
    && remaining <= keys
    && Distinct(order)
    && (forall i :: 0 <= i < |order| ==> order[i] in keys && order[i] !in remaining)
    && (forall k :: k in keys && k !in remaining ==> k in order)
  }

  lemma VisitOne(order: seq<string>, remaining: set<string>, keys: set<string>, k: string)
    requires Visited(order, remaining, keys) && k in remaining
    ensures Visited(order + [k], remaining - {k}, keys)
  {
  }

  /** Visiting the remaining keys in any order completes an enumeration. */
  lemma VisitRest(order: seq<string>, remaining: set<string>, keys: set<string>, rest: seq<string>)
    requires Visited(order, remaining, keys) && IsEnumeration(rest, remaining)
    ensures IsEnumeration(order + rest, keys)
  {
  }

  lemma {:induction false} EnumerationSize(order: seq<string>, keys: set<string>)
    requires IsEnumeration(order, keys)
    ensures |order| == |keys|
  {
    if order != [] {
      var rest := keys - {order[0]};
      assert IsEnumeration(order[1..], rest) by {
        forall k | k in rest ensures k in order[1..] {
          var i :| 0 <= i < |order| && order[i] == k;
          assert i != 0;
          assert order[1..][i - 1] == k;
        }
      }
      EnumerationSize(order[1..], rest);
    }
  }

  /** Processing a sequence of keys is processing its two parts one after the other. */
  lemma {:induction false} TransmitConcat(host: string, port: string, prefix: string, record: Record,
                                          a: seq<string>, b: seq<string>)
    requires forall k :: k in a ==> k in record
    requires forall k :: k in b ==> k in record
    ensures var first := Transmit(host, port, prefix, record, a);
            var second := Transmit(host, port, prefix, record, b);
            Transmit(host, port, prefix, record, a + b)
              == if first.outcome.Done? then Transmission(first.connections + second.connections, second.outcome)
                 else first
  {
    if a == [] {
      assert a + b == b;
    } else {
      var ab := a + b;
      assert ab != [] && ab[0] == a[0] && ab[1..] == a[1..] + b;
      var first := Step(host, port, prefix, record, a[0]);
      var restA := Transmit(host, port, prefix, record, a[1..]);
      var second := Transmit(host, port, prefix, record, b);
      var restAB := Transmit(host, port, prefix, record, a[1..] + b);
      assert Transmit(host, port, prefix, record, a)
          == if first.outcome.Raised? then first else Transmission(first.connections + restA.connections, restA.outcome);
      assert Transmit(host, port, prefix, record, ab)
          == if first.outcome.Raised? then first else Transmission(first.connections + restAB.connections, restAB.outcome);
      if first.outcome.Done? {
        TransmitConcat(host, port, prefix, record, a[1..], b);
        if restA.outcome.Done? {
          ConcatAssoc(first.connections, restA.connections, second.connections);
        }
      }
    }
  }

  lemma ConcatAssoc<T>(x: seq<T>, y: seq<T>, z: seq<T>)
    ensures x + (y + z) == (x + y) + z
  {
  }

  /** Processing one more key appends that key's iteration, unless an exception already ended the loop. */
  lemma TransmitSnoc(host: string, port: string, prefix: string, record: Record, order: seq<string>, key: string)
    requires forall k :: k in order ==> k in record
    requires key in record
    requires Transmit(host, port, prefix, record, order).outcome.Done?
    ensures Transmit(host, port, prefix, record, order + [key])
         == Transmission(Transmit(host, port, prefix, record, order).connections
                           + Step(host, port, prefix, record, key).connections,
                         Step(host, port, prefix, record, key).outcome)
  {
    TransmitConcat(host, port, prefix, record, order, [key]);
    var one := Step(host, port, prefix, record, key);
    if one.outcome.Done? {
      assert one.connections + [] == one.connections;
    }
  }

  /** A connection that carried exactly one line and was closed. */
  predicate Delivered(c: Connection) {
    |c.writes| == 1 && c.closed
  }

  /**
    Counting lines over connections each of which carries one line, except a
    last one that may carry none.
   */
  lemma {:induction false} LinesCount(cs: seq<Connection>)
    requires forall i :: 0 <= i < |cs| - 1 ==> |cs[i].writes| == 1
    requires cs != [] ==> |cs[|cs| - 1].writes| <= 1
    ensures |Lines(cs)| == |cs| - (if cs != [] && cs[|cs| - 1].writes == [] then 1 else 0)
  {
    if cs != [] {
      var rest := cs[1..];
      assert forall i :: 0 <= i < |rest| - 1 ==> rest[i] == cs[i + 1];
      LinesCount(rest);
    }
  }

  /** The i-th line sent over connections that each carry one write is the i-th connection's write. */
  lemma {:induction false} LinesAt(cs: seq<Connection>, i: nat)
    requires forall j :: 0 <= j < |cs| ==> |cs[j].writes| == 1
    requires i < |cs|
    ensures |Lines(cs)| == |cs| && Lines(cs)[i] == cs[i].writes[0]
  {
    LinesCount(cs);
    if i > 0 {
      var rest := cs[1..];
      assert rest[i - 1] == cs[i];
      LinesAt(rest, i - 1);
    }
  }

  /**
    The only exceptions are a KeyError for "dateTime", which comes before any
    connection is opened, and a TypeError, which comes after one.
   */
  lemma {:induction false} TransmitOutcome(host: string, port: string, prefix: string, record: Record, order: seq<string>)
    requires forall k :: k in order ==> k in record
    ensures var t := Transmit(host, port, prefix, record, order);
            && (t.outcome.Raised? ==> t.outcome == Raised(TypeError) || t.outcome == Raised(KeyError(DateTime)))
            && (t.outcome == Raised(TypeError) ==> t.connections != [])
            && (t.outcome == Raised(KeyError(DateTime)) ==> t.connections == [])
  {
    if order != [] && DateTime in record {
      var first := Step(host, port, prefix, record, order[0]);
      if first.outcome.Done? {
        TransmitOutcome(host, port, prefix, record, order[1..]);
      }
    }
  }

  /**
    The i-th connection of any run goes to the configured address; it carried
    one line and was closed unless it is the last one of a run that `%d` ended
    with a TypeError, which was left open with nothing written.
   */
  lemma {:induction false} ConnectionAt(host: string, port: string, prefix: string, record: Record, order: seq<string>, i: nat)
    requires forall k :: k in order ==> k in record
    requires i < |Transmit(host, port, prefix, record, order).connections|
    ensures var t := Transmit(host, port, prefix, record, order);
            && t.connections[i].host == host && t.connections[i].port == port
            && (i < |t.connections| - 1 || t.outcome.Done? ==> Delivered(t.connections[i]))
            && (i == |t.connections| - 1 && t.outcome == Raised(TypeError) ==>
                  t.connections[i].writes == [] && !t.connections[i].closed)
  {
    var first := Step(host, port, prefix, record, order[0]);
    if first.outcome.Done? && i > 0 {
      var rest := Transmit(host, port, prefix, record, order[1..]);
      var cs := first.connections + rest.connections;
      assert Transmit(host, port, prefix, record, order) == Transmission(cs, rest.outcome);
      assert cs[i] == rest.connections[i - 1];
      ConnectionAt(host, port, prefix, record, order[1..], i - 1);
    }
  }

  /**
    Connection accounting of any run: the lines sent equal the connections
    opened, less one when `%d` met a None.
   */
  lemma TransmitLineCount(host: string, port: string, prefix: string, record: Record, order: seq<string>)
    requires forall k :: k in order ==> k in record
    ensures var t := Transmit(host, port, prefix, record, order);
            |Lines(t.connections)| == |t.connections| - (if t.outcome == Raised(TypeError) then 1 else 0)
  {
    var t := Transmit(host, port, prefix, record, order);
    var cs := t.connections;
    TransmitOutcome(host, port, prefix, record, order);
    var aborted := t.outcome == Raised(TypeError);
    assert t.outcome.Raised? && !aborted ==> cs == [];
    forall i | 0 <= i < |cs| - 1 ensures |cs[i].writes| == 1 {
      ConnectionAt(host, port, prefix, record, order, i);
    }
    if cs != [] {
      ConnectionAt(host, port, prefix, record, order, |cs| - 1);
      assert |cs[|cs| - 1].writes| == if aborted then 0 else 1;
    }
    LinesCount(cs);
  }

  /** A complete record is sent in full: one connection per key of the order, ending in Done. */
  lemma {:induction false} TransmitCompleteSize(host: string, port: string, prefix: string, record: Record, order: seq<string>)
    requires Complete(record)
    requires forall k :: k in order ==> k in record
    ensures Transmit(host, port, prefix, record, order).outcome == Done
    ensures |Transmit(host, port, prefix, record, order).connections| == |order|
  {
    if order != [] {
      TransmitCompleteSize(host, port, prefix, record, order[1..]);
    }
  }

  /** The i-th connection for a complete record carries exactly the line of the order's i-th key, and was closed. */
  lemma {:induction false} CompleteConnectionAt(host: string, port: string, prefix: string, record: Record, order: seq<string>, i: nat)
    requires Complete(record)
    requires forall k :: k in order ==> k in record
    requires i < |order|
    ensures |Transmit(host, port, prefix, record, order).connections| == |order|
    ensures Transmit(host, port, prefix, record, order).connections[i]
         == Connection(host, port, [ExpectedLine(prefix, record, order[i])], true)
  {
    TransmitCompleteSize(host, port, prefix, record, order);
    var first := Step(host, port, prefix, record, order[0]);
    var rest := Transmit(host, port, prefix, record, order[1..]);
    var cs := first.connections + rest.connections;
    assert Transmit(host, port, prefix, record, order) == Transmission(cs, rest.outcome);
    if i > 0 {
      TransmitCompleteSize(host, port, prefix, record, order[1..]);
      assert cs[i] == rest.connections[i - 1];
      assert order[1..][i - 1] == order[i];
      CompleteConnectionAt(host, port, prefix, record, order[1..], i - 1);
    }
  }

  /**
    The lines a complete record sends, position by position: the i-th is the
    line of the order's i-th key, stamped with the record's dateTime.
   */
  lemma CompleteLines(host: string, port: string, prefix: string, record: Record, order: seq<string>)
    requires Complete(record)
    requires forall k :: k in order ==> k in record
    ensures var lines := Lines(Transmit(host, port, prefix, record, order).connections);
            && |lines| == |order|
            && forall i :: 0 <= i < |order| ==> lines[i] == ExpectedLine(prefix, record, order[i])
  {
    var cs := Transmit(host, port, prefix, record, order).connections;
    TransmitCompleteSize(host, port, prefix, record, order);
    forall i | 0 <= i < |cs| ensures cs[i].writes == [ExpectedLine(prefix, record, order[i])] {
      CompleteConnectionAt(host, port, prefix, record, order, i);
    }
    LinesCount(cs);
    forall i | 0 <= i < |order| ensures Lines(cs)[i] == ExpectedLine(prefix, record, order[i]) {
      LinesAt(cs, i);
    }
  }

  /**
    The lines sent for a complete record: one per key, dateTime included,
    each the key's metric stamped with the record's dateTime, no two alike,
    and nothing else.
   */
  predicate EachKeyOnce(prefix: string, record: Record, lines: seq<string>)
    requires Complete(record)
  {
    && |lines| == |record|
    && Distinct(lines)
    && (forall k :: k in record ==> ExpectedLine(prefix, record, k) in lines)
    && (forall i :: 0 <= i < |lines| ==> exists k :: k in record && lines[i] == ExpectedLine(prefix, record, k))
  }

  lemma OneLinePerKey(host: string, port: string, prefix: string, record: Record, order: seq<string>)
    requires Complete(record)
    requires IsEnumeration(order, record.Keys)
    ensures EachKeyOnce(prefix, record, Lines(Transmit(host, port, prefix, record, order).connections))
  {
    var lines := Lines(Transmit(host, port, prefix, record, order).connections);
    CompleteLines(host, port, prefix, record, order);
    LinesOfEnumeration(prefix, record, order, lines);
  }

  lemma LinesOfEnumeration(prefix: string, record: Record, order: seq<string>, lines: seq<string>)
    requires Complete(record)
    requires IsEnumeration(order, record.Keys)
    requires |lines| == |order|
    requires forall i :: 0 <= i < |order| ==> lines[i] == ExpectedLine(prefix, record, order[i])
    ensures EachKeyOnce(prefix, record, lines)
  {
    EnumerationSize(order, record.Keys);
    assert |record| == |record.Keys|;
    forall i, j | 0 <= i < j < |lines| ensures lines[i] != lines[j] {
      if lines[i] == lines[j] {
        ExpectedLineInjective(prefix, record, order[i], order[j]);
      }
    }
    forall k | k in record ensures ExpectedLine(prefix, record, k) in lines {
      var i :| 0 <= i < |order| && order[i] == k;
      assert lines[i] == ExpectedLine(prefix, record, k);
    }
    forall i | 0 <= i < |lines| ensures exists k :: k in record && lines[i] == ExpectedLine(prefix, record, k) {
      assert lines[i] == ExpectedLine(prefix, record, order[i]);
    }
  }

  /** Two fields of one record never produce the same line. */
  lemma ExpectedLineInjective(prefix: string, record: Record, a: string, b: string)
    requires Complete(record) && a in record && b in record
    requires ExpectedLine(prefix, record, a) == ExpectedLine(prefix, record, b)
    ensures a == b
  {
    var t := record[DateTime].value;
    LineInjective(MetricName(prefix, a), record[a].value, t, MetricName(prefix, b), record[b].value, t);
    MetricNameInjective(prefix, a, b);
  }

  /** When keys and prefix are plain names, a strict reader of the lines this plugin writes reads every sent line back with the record's dateTime. */
  lemma EveryLineCarriesDateTime(host: string, port: string, prefix: string, record: Record, order: seq<string>)
    requires Complete(record)
    requires IsPlainName(prefix) && forall k :: k in record ==> IsPlainName(k)
    requires forall k :: k in order ==> k in record
    ensures var lines := Lines(Transmit(host, port, prefix, record, order).connections);
            && |lines| == |order|
            && forall i :: 0 <= i < |order| ==>
              ParseLine(lines[i]) == Some(Metric(MetricName(prefix, order[i]),
                                                 Truncate(record[order[i]].value),
                                                 Truncate(record[DateTime].value)))
  {
    CompleteLines(host, port, prefix, record, order);
    var lines := Lines(Transmit(host, port, prefix, record, order).connections);
    forall i | 0 <= i < |order|
      ensures ParseLine(lines[i]) == Some(Metric(MetricName(prefix, order[i]),
                                                 Truncate(record[order[i]].value),
                                                 Truncate(record[DateTime].value)))
    {
      var name := MetricName(prefix, order[i]);
      assert IsPlainName(name) by {
        if prefix != "" {
          assert name == prefix + "." + order[i];
        }
      }
      LineRoundTrip(name, record[order[i]].value, record[DateTime].value);
    }
  }

  /** A non-empty record without "dateTime" raises KeyError before any connection is opened. */
  lemma MissingDateTime(host: string, port: string, prefix: string, record: Record, order: seq<string>)
    requires DateTime !in record && record != map[]
    requires IsEnumeration(order, record.Keys)
    ensures Transmit(host, port, prefix, record, order) == Transmission([], Raised(KeyError(DateTime)))
  {
    var k :| k in record;
    assert k in order;
  }

  /** An empty record sends nothing and raises nothing, even without "dateTime". */
  lemma EmptyRecord(host: string, port: string, prefix: string, record: Record, order: seq<string>)
    requires record == map[]
    requires IsEnumeration(order, record.Keys)
    ensures Transmit(host, port, prefix, record, order) == Transmission([], Done)
  {
  }

  /**
    A record holding a None is never sent in full: processing raises TypeError
    in whatever order the keys come.
   */
  lemma {:induction false} NoneValueRaises(host: string, port: string, prefix: string, record: Record, order: seq<string>)
    requires DateTime in record
    requires forall k :: k in order ==> k in record
    requires (exists i :: 0 <= i < |order| && record[order[i]].None?) || (order != [] && record[DateTime].None?)
    ensures Transmit(host, port, prefix, record, order).outcome == Raised(TypeError)
  {
    var first := Step(host, port, prefix, record, order[0]);
    if first.outcome.Done? {
      assert record[DateTime].Some?;
      var i :| 0 <= i < |order| && record[order[i]].None?;
      assert i != 0;
      assert order[1..][i - 1] == order[i];
      NoneValueRaises(host, port, prefix, record, order[1..]);
    }
  }

  /** The FIFO queue between the binder and the worker. */
  class ArchiveQueue {
    var items: seq<Record>

    constructor ()
      ensures items == []
    {
      items := [];
    }

    method Put(record: Record)
      modifies this
      ensures items == old(items) + [record]
    {
      items := items + [record];
    }
  }

  /** The worker: its settings, fixed at construction, and what it has sent and logged. */
  class GraphiteThread {
    const queue: ArchiveQueue
    const host: string
    const port: string
    const prefix: string
    const skipUpload: bool
    var started: bool
    var wire: seq<Connection>
    var log: seq<LogEntry>

    /** Any option not supplied takes its default: localhost, port 2003, prefix "weewx", uploading on. */
    constructor (queue: ArchiveQueue, options: Options)
      ensures this.queue == queue
      ensures host == (if options.host.Some? then options.host.value else DefaultHost)
      ensures port == (if options.port.Some? then options.port.value else DefaultPort)
      ensures prefix == (if options.prefix.Some? then options.prefix.value else DefaultPrefix)
      ensures skipUpload == (options.skipUpload.Some? && options.skipUpload.value)
      ensures !started && wire == [] && log == []
    {
      this.queue := queue;
      host := if options.host.Some? then options.host.value else DefaultHost;
      port := if options.port.Some? then options.port.value else DefaultPort;
      prefix := if options.prefix.Some? then options.prefix.value else DefaultPrefix;
      skipUpload := options.skipUpload.Some? && options.skipUpload.value;
      started := false;
      wire := [];
      log := [];
    }

    method Start()
      modifies this`started
      ensures started
    {
      started := true;
    }

    /** collect_metric: open a connection, then format and write one line and close it. */
    method CollectMetric(name: string, value: Option<real>, timestamp: Option<real>) returns (outcome: Outcome)
      modifies this`wire
      ensures wire == old(wire) + Attempt(host, port, prefix, name, value, timestamp).connections
      ensures outcome == Attempt(host, port, prefix, name, value, timestamp).outcome
    {
      if value.Some? && timestamp.Some? {
        var line := Line(MetricName(prefix, name), value.value, timestamp.value);
        wire := wire + [Connection(host, port, [line], true)];
        outcome := Done;
      } else {
        wire := wire + [Connection(host, port, [], false)];
        outcome := Raised(TypeError);
      }
    }

    /**
      process_record: with skip_upload set, log and send nothing; otherwise
      visit the record's keys in some order (the ghost `order`) as Transmit
      describes.
     */
    method ProcessRecord(record: Record) returns (outcome: Outcome, ghost order: seq<string>)
      modifies this`wire, this`log
      ensures skipUpload ==> outcome == Done && wire == old(wire) && log == old(log) + [SkipMessage]
      ensures !skipUpload ==>
                && IsEnumeration(order, record.Keys)
                && log == old(log)
                && wire == old(wire) + Transmit(host, port, prefix, record, order).connections
                && outcome == Transmit(host, port, prefix, record, order).outcome
    {
      order := [];
      if skipUpload {
        log := log + [SkipMessage];
        outcome := Done;
        return;
      }
      var remaining := record.Keys;
      outcome := Done;
      while remaining != {} && outcome.Done?
        invariant Visited(order, remaining, record.Keys)
        invariant wire == old(wire) + Transmit(host, port, prefix, record, order).connections
        invariant outcome == Transmit(host, port, prefix, record, order).outcome
        invariant log == old(log)
        decreases remaining
      {
        var k :| k in remaining;
        ghost var before := Transmit(host, port, prefix, record, order);
        ghost var step := Step(host, port, prefix, record, k);
        TransmitSnoc(host, port, prefix, record, order, k);
        if DateTime !in record {
          outcome := Raised(KeyError(DateTime));
          assert before.connections + step.connections == before.connections;
        } else {
          outcome := CollectMetric(k, record[k], record[DateTime]);
          ConcatAssoc(old(wire), before.connections, step.connections);
        }
        VisitOne(order, remaining, record.Keys, k);
        order := order + [k];
        remaining := remaining - {k};
      }
      ghost var rest := EnumerationOf(remaining);
      VisitRest(order, remaining, record.Keys, rest);
      TransmitConcat(host, port, prefix, record, order, rest);
      order := order + rest;
    }
  }

  /** The binder: enabled, with a queue, a started worker and the archive event bound, or disabled with none of them. */
  class Graphite {
    var archiveQueue: ArchiveQueue?
    var archiveThread: GraphiteThread?
    var bound: bool
    var log: seq<LogEntry>

    ghost predicate Valid()
      reads this, archiveThread
    {
      && (archiveQueue == null <==> archiveThread == null)
      && (bound <==> archiveThread != null)
      && (archiveThread != null ==> archiveThread.queue == archiveQueue && archiveThread.started)
    }

    /**
      Probes the "host" and then the "port" option; if one is absent it logs
      the first missing one and stays disabled. Otherwise it creates the queue,
      starts a worker on it and binds the new-archive-record event.
     */
    constructor (site: Options)
      ensures Valid()
      ensures (site.host.None? || site.port.None?) ==>
                && archiveQueue == null && archiveThread == null && !bound
                && log == [MissingOptionMessage(if site.host.None? then "host" else "port")]
      ensures (site.host.Some? && site.port.Some?) ==>
                && archiveQueue != null && archiveThread != null && bound
                && fresh(archiveQueue) && fresh(archiveThread)
                && archiveQueue.items == []
                && archiveThread.queue == archiveQueue && archiveThread.started
                && archiveThread.host == site.host.value && archiveThread.port == site.port.value
                && archiveThread.prefix == (if site.prefix.Some? then site.prefix.value else DefaultPrefix)
                && archiveThread.skipUpload == (site.skipUpload.Some? && site.skipUpload.value)
                && archiveThread.wire == [] && archiveThread.log == []
                && log == [EnabledMessage(site.host.value, site.port.value)]
    {
      if site.host.None? || site.port.None? {
        archiveQueue := null;
        archiveThread := null;
        bound := false;
        log := [MissingOptionMessage(if site.host.None? then "host" else "port")];
      } else {
        var queue := new ArchiveQueue();
        var thread := new GraphiteThread(queue, site);
        thread.Start();
        archiveQueue := queue;
        archiveThread := thread;
        bound := true;
        log := [EnabledMessage(site.host.value, site.port.value)];
      }
    }

    /** new_archive_record: append the event's record, unchanged, to the end of the queue. */
    method NewArchiveRecord(event: Event)
      requires Valid() && bound
      modifies archiveQueue
      ensures Valid()
      ensures archiveQueue.items == old(archiveQueue.items) + [event.record]
    {
      archiveQueue.Put(event.record);
    }
  }
}
