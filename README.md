# weewx Graphite uploader, modelled in Dafny

The plugin `bin/user/graphite.py` relays weewx archive records to a Graphite
Carbon collector. It has two parts:

- The binder, `Graphite`, reads its site options when it is constructed. If
  `host` or `port` is missing, it logs that and stays disabled. Otherwise it
  creates a FIFO queue, starts a worker on the queue and binds the
  new-archive-record event. The event handler appends the record to the queue.
- The worker, `GraphiteThread`, renders each field of a record as one Carbon
  plaintext line, `"%s %d %d\n"`: the metric name (the prefix, a dot, the
  field), the value and the record's `dateTime`. Each line goes over a TCP
  connection of its own. With `skip_upload` set, it only logs.

The model has four modules:

- `Wrappers` (wrappers.dfy): the `Option` datatype.
- `Decimal` (decimal.dfy): what `%d` does to a number. It truncates toward
  zero (`Truncate`) and writes canonical decimal digits (`FormatInt`). It also
  has `ParseInt`, a strict inverse of `FormatInt`.
- `Carbon` (carbon.dfy): the metric name, the line format, and a reader
  `ParseLine`, which splits a line on spaces the way Python's `str.split(' ')`
  does. The line format's lemmas are stated against it.
- `UserGraphite` (graphite.dfy): the record-processing specification
  (`Step`, `Transmit`) and its lemmas, plus the classes `ArchiveQueue`,
  `GraphiteThread` and `Graphite`.

How the model represents the source:

- The socket is a log of `Connection(host, port, writes, closed)` values in
  the worker's `wire` field. There is one entry per `socket.socket()` call.
- syslog is a `log` field on the binder and on the worker.
- A record is a `map<string, Option<real>>`. `None` stands for Python's
  `None`.
- Dict iteration order is left open. `ProcessRecord` returns a ghost `order`,
  which is some enumeration of the record's keys. The method's new `wire` is
  the old one followed by `Transmit(…, order).connections`.
- The code formats with `%d`, so values and timestamps are truncated to
  integers. A `None` value raises `TypeError` from `%d`.
  That happens after the connection is opened, so the connection stays open
  with nothing written, and the rest of the record's fields are not sent.
  A non-empty record with no `dateTime` raises `KeyError` before any
  connection is opened. An empty record sends nothing and raises nothing.

## Model

| member | source | states |
|---|---|---|
| `Decimal.Truncate` | bin/user/graphite.py:135 | `%d` truncates a value toward zero. The result lies within 1 of the value, on the value's side of zero. |
| `Decimal.FormatInt` | bin/user/graphite.py:135 | The rendering of an integer is non-empty and holds only decimal digits, plus a leading `-` exactly when the number is negative. |
| `Decimal.FormatThenParse` | bin/user/graphite.py:135 | Reading back what `%d` wrote gives the same integer. |
| `Decimal.ParseThenFormat` | bin/user/graphite.py:135 | Every string the reader accepts is exactly what `%d` writes for that number, so the format and the reader are mutually inverse. |
| `Carbon.MetricName` | bin/user/graphite.py:124-127 | With a non-empty prefix, the name is the prefix, a dot and the field name. With an empty prefix, it is the bare field name: no leading dot, no extra characters. |
| `Carbon.MetricNameRoundTrip` | bin/user/graphite.py:124-127 | Removing the prefix and the dot from a metric name gives back the field name. |
| `Carbon.MetricNameInjective` | bin/user/graphite.py:124-127 | Under one prefix, distinct fields get distinct metric names. |
| `Carbon.Line` | bin/user/graphite.py:135 | The line `"%s %d %d\n"` makes of a name, a value and a timestamp. `LineRoundTrip`, `ParsedLineIsLine` and `LineInjective` characterise it: the strict reader recovers the name and both truncated numbers, and the line determines them. |
| `Carbon.LineRoundTrip` | bin/user/graphite.py:135 | If the name has no space or newline, splitting its line on spaces gives back the name, the truncated value and the truncated timestamp. |
| `Carbon.ParsedLineIsLine` | bin/user/graphite.py:135 | Every line the reader accepts is the line the plugin writes for the metric read: name, space, value, space, timestamp, newline. |
| `Carbon.LineInjective` | bin/user/graphite.py:135 | Two lines are equal only if they have the same name and the same truncated value and timestamp, whatever characters the name contains. |
| `UserGraphite.MissingOptionMessage` | bin/user/graphite.py:31-34 | The entry logged when a required option is absent: a debug entry whose message ends in the missing key in single quotes, as Python renders the `KeyError`. |
| `UserGraphite.EnabledMessage` | bin/user/graphite.py:47-51 | The entry logged once the uploader is enabled: an info entry whose message ends in `host:port`. |
| `UserGraphite.Attempt` | bin/user/graphite.py:133-136 | One call of collect_metric: the connection is opened first; if both numbers are present, one line is written and the connection is closed; otherwise `%d` raises `TypeError` and nothing is written. `AttemptShape` states this outright. |
| `UserGraphite.AttemptShape` | bin/user/graphite.py:133-136 | Exactly one connection, to the configured address. It succeeds exactly when value and timestamp are both present, and is then closed carrying the one metric line. Otherwise the outcome is `TypeError` and the connection is open and empty. |
| `UserGraphite.Step` | bin/user/graphite.py:149-150 | One iteration of the loop: the lookup of `record['dateTime']`, which raises `KeyError` before collect_metric is called, then collect_metric. `StepShape` states this outright. |
| `UserGraphite.StepShape` | bin/user/graphite.py:149-150 | One iteration opens at most one connection. It opens none, and raises `KeyError('dateTime')`, exactly when the record has no `dateTime`. |
| `UserGraphite.Transmit` | bin/user/graphite.py:149-150 | The loop over the record's keys in a given order, ending at the first exception. `TransmitConcat`, `TransmitOutcome`, `ConnectionAt`, `TransmitLineCount`, `TransmitCompleteSize`, `CompleteConnectionAt` and `OneLinePerKey` characterise it. |
| `UserGraphite.TransmitOutcome` | bin/user/graphite.py:133-135 | Only two exceptions can arise. A `KeyError` for `dateTime` comes before any connection is opened. A `TypeError` comes after one. |
| `UserGraphite.ConnectionAt` | bin/user/graphite.py:133-136 | Every connection goes to the configured host and port. Each one carries one line and is closed, except the last connection of a run a `TypeError` ended: that one is left open with nothing written. |
| `UserGraphite.TransmitLineCount` | bin/user/graphite.py:133-136 | Lines sent equal connections opened, minus one when a `None` aborted the record. |
| `UserGraphite.TransmitCompleteSize` | bin/user/graphite.py:149-150 | A record with a `dateTime` and no `None` values ends without an exception and opens one connection per key visited. |
| `UserGraphite.CompleteConnectionAt` | bin/user/graphite.py:149-150 | For such a record, the i-th connection carries exactly the line of the i-th key, stamped with the record's `dateTime`, and is closed. |
| `UserGraphite.CompleteLines` | bin/user/graphite.py:149-150 | For such a record, the i-th line sent is the metric line of the i-th key, with the record's `dateTime` as its timestamp. |
| `UserGraphite.OneLinePerKey` | bin/user/graphite.py:149-150 | For a record with a `dateTime` and no `None` value, in any iteration order there is exactly one line per key, `dateTime` included. No two lines are alike and no other lines are sent. |
| `UserGraphite.EveryLineCarriesDateTime` | bin/user/graphite.py:149-150 | For a record with a `dateTime` and no `None` value, whose prefix and keys are plain names, every sent line reads back as the key's metric name, the key's truncated value and the truncated `dateTime` as timestamp. |
| `UserGraphite.MissingDateTime` | bin/user/graphite.py:149-150 | A non-empty record with no `dateTime` raises `KeyError('dateTime')` and opens no connection. |
| `UserGraphite.EmptyRecord` | bin/user/graphite.py:149-150 | An empty record sends nothing and raises nothing, even with no `dateTime`. |
| `UserGraphite.NoneValueRaises` | bin/user/graphite.py:135 | In a record that has a `dateTime`, if any visited value is `None`, or `dateTime` itself is `None` and some key is visited, processing ends in `TypeError` whatever the key order. |
| `UserGraphite.TransmitConcat` | bin/user/graphite.py:149-150 | Processing a sequence of keys is processing its two parts in turn, stopping at the first exception. |
| `UserGraphite.ArchiveQueue.constructor` | bin/user/graphite.py:42 | A new queue is empty. |
| `UserGraphite.ArchiveQueue.Put` | bin/user/graphite.py:54 | `put` appends the record at the end and leaves earlier contents untouched (FIFO). |
| `UserGraphite.GraphiteThread.constructor` | bin/user/graphite.py:59-65 | An option that is not given takes its default: host `localhost`, port `2003`, prefix `weewx`, `skip_upload` false. Nothing has been sent, logged or started. |
| `UserGraphite.GraphiteThread.Start` | bin/user/graphite.py:44 | The worker is marked started. Nothing else changes. |
| `UserGraphite.GraphiteThread.CollectMetric` | bin/user/graphite.py:123-136 | Appends exactly one connection to the configured address. If both numbers are present, it carries the one metric line and is closed. If either is `None`, it is left open and empty, and `TypeError` is returned. |
| `UserGraphite.GraphiteThread.ProcessRecord` | bin/user/graphite.py:142-150 | With `skip_upload`, it sends nothing and logs one debug entry, `restx: Graphite: skip_upload=True, skipping upload`. Otherwise, for some enumeration of the record's keys, the new connections are exactly those the loop makes over that order, and the outcome is the loop's. |
| `UserGraphite.Graphite.constructor` | bin/user/graphite.py:24-51 | If `host` or `port` is missing, the binder logs the first missing one, `host` being probed first, and ends with no queue, no worker and no binding. Otherwise it has a fresh empty queue, a started worker over that same queue with the site's settings, the event bound, and one info entry logged. |
| `UserGraphite.Graphite.NewArchiveRecord` | bin/user/graphite.py:53-54 | The event's record is appended unchanged to the end of the shared queue. The binder's invariant is kept. |

## Left out

- `install.py`: installer metadata; it has no logic.
- Real sockets: connect, send and close are modelled as append-only
  connection entries. The model assumes every connect and send succeeds and
  writes the whole line. Network errors and partial sends are not modelled.
- The port's type at connect time: `self.port` is a string. The default
  `'2003'` (bin/user/graphite.py:60) is one, and configuration values are
  strings too. Python's `socket.connect` expects an integer port. Read
  literally, `sock.connect((self.host, self.port))`
  (bin/user/graphite.py:134) would then raise `TypeError` for every metric,
  after `socket.socket()` and before any send. The model takes the port to
  be accepted. Every member about delivered lines therefore describes the
  delivery the code is evidently meant to perform. That includes
  `GraphiteThread.CollectMetric`, `ConnectionAt`, `TransmitLineCount`,
  `TransmitCompleteSize`, `CompleteConnectionAt`, `CompleteLines`,
  `OneLinePerKey` and `EveryLineCarriesDateTime`.
- The worker thread and the `Queue.Queue` hand-off: concurrency is out of
  scope. `Start` only marks the worker started. The run loop that takes
  records off the queue and calls `process_record` is inherited from
  `weewx.restx.RESTThread`, which is not part of this model.
- Retry, backlog trimming, staleness, `post_interval`, `timeout`,
  `max_tries`, `retry_wait`, `log_success`, `log_failure` and `get_record`
  (bin/user/graphite.py:138-140): all belong to the host framework's base
  classes, which are not part of this model.
- `weewx.restx.get_dict`, the `StdRESTful` constructor and the
  `database_dict` default (bin/user/graphite.py:37-40) are not modelled. The
  binder takes its site options directly as an `Options` value. A lookup
  failure in the database settings, and the `TypeError` an unrecognised
  option would raise at `GraphiteThread(queue, **site_dict)`, are not
  modelled.
- `to_bool` comes from `weeutil` and is not part of this model. `skip_upload`
  is a `bool` option.
- The debug syslog entry in `collect_metric`, which dumps `locals()`
  (bin/user/graphite.py:129-131), is left out because it prints a Python
  dict. The other syslog messages are modelled.
- Floating point: values are exact reals. Infinities and NaN, for which `%d`
  raises, are not modelled.
- Strings are sequences of characters. Python 2 byte and unicode strings
  are not distinguished.

