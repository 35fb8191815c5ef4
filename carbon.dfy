/**
  The Graphite Carbon plaintext protocol as the plugin writes it: one line
  `<metric name> <value> <timestamp>\n` per metric, value and timestamp
  rendered by `%d`. Split and Join are Python's `str.split(sep)` with an
  explicit separator and `sep.join(parts)`.
 */
module Carbon {
  import opened Wrappers
  import opened Decimal

  /** A metric as the strict reader recovers it from one line. */
  datatype Metric = Metric(name: string, value: int, timestamp: int)

  /**
    The metric name of one record field: the prefix joined to the field name
    with a dot, or the bare field name when the prefix is empty (an empty
    string is false in Python).
   */
  function MetricName(prefix: string, name: string): (r: string)
    ensures |r| == |name| + (if prefix == "" then 0 else |prefix| + 1)
    ensures r[|r| - |name|..] == name
    ensures prefix != "" ==> r[..|prefix| + 1] == prefix + "."
  {
    if prefix != "" then prefix + "." + name else name
  }

  /** The field name a metric name was built from, if it was built with this prefix. */
  function FieldName(prefix: string, metric: string): Option<string> {
    if prefix == "" then Some(metric)
    else if |metric| >= |prefix| + 1 && metric[..|prefix| + 1] == prefix + "." then Some(metric[|prefix| + 1..])
    else None
  }

  lemma MetricNameRoundTrip(prefix: string, name: string)
    ensures FieldName(prefix, MetricName(prefix, name)) == Some(name)
  {
  }

  /** Distinct fields get distinct metric names under one prefix. */
  lemma MetricNameInjective(prefix: string, a: string, b: string)
    requires MetricName(prefix, a) == MetricName(prefix, b)
    ensures a == b
  {
    MetricNameRoundTrip(prefix, a);
    MetricNameRoundTrip(prefix, b);
  }

  /** `sep.join(parts)`. */
  function Join(parts: seq<string>, sep: char): string
    requires |parts| >= 1
  {
    if |parts| == 1 then parts[0] else parts[0] + [sep] + Join(parts[1..], sep)
  }

  /** The index of the first occurrence of c in s. */
  function IndexOf(s: string, c: char): (i: nat)
    requires c in s
    ensures i < |s| && s[i] == c
    ensures forall j :: 0 <= j < i ==> s[j] != c
  {
    if s[0] == c then 0 else 1 + IndexOf(s[1..], c)
  }

  /** `s.split(sep)`: the pieces of s between occurrences of sep, empty pieces included. */
  function Split(s: string, sep: char): (parts: seq<string>)
    ensures |parts| >= 1
    ensures forall i :: 0 <= i < |parts| ==> sep !in parts[i]
    ensures Join(parts, sep) == s
    decreases |s|
  {
    if sep in s then
      var i := IndexOf(s, sep);
      var rest := Split(s[i + 1..], sep);
      assert s == s[..i] + [sep] + s[i + 1..];
      [s[..i]] + rest
    else
      [s]
  }

  /** Splitting a join of separator-free parts gives the parts back. */
  lemma {:induction false} SplitJoin(parts: seq<string>, sep: char)
    requires |parts| >= 1
    requires forall i :: 0 <= i < |parts| ==> sep !in parts[i]
    ensures Split(Join(parts, sep), sep) == parts
  {
    if |parts| > 1 {
      var s := Join(parts, sep);
      var p := parts[0];
      assert s[|p|] == sep;
      var i := IndexOf(s, sep);
      assert i == |p|;
      assert s[..i] == p;
      assert s[i + 1..] == Join(parts[1..], sep);
      SplitJoin(parts[1..], sep);
      assert parts == [p] + parts[1..];
    }
  }

  /** One Carbon plaintext line, `"%s %d %d\n" % (name, value, timestamp)`. */
  function Line(name: string, value: real, timestamp: real): string {
    name + " " + FormatInt(Truncate(value)) + " " + FormatInt(Truncate(timestamp)) + "\n"
  }

  /** A name that keeps a Carbon line at three space-separated fields on one line. */
  predicate IsPlainName(name: string) {
    ' ' !in name && '\n' !in name
  }

  /**
    A strict reader of the lines this plugin writes: the line must end in a newline,
    split into exactly three fields on spaces, carry a name without a newline,
    and two integers in the form `%d` writes.
   */
  function ParseLine(line: string): Option<Metric> {
    if |line| == 0 || line[|line| - 1] != '\n' then None
    else
      var fields := Split(line[..|line| - 1], ' ');
      if |fields| != 3 || '\n' in fields[0] then None
      else
        match (ParseInt(fields[1]), ParseInt(fields[2]))
        case (Some(v), Some(t)) => Some(Metric(fields[0], v, t))
        case _ => None
  }

  lemma FormatIntHasNoSpace(n: int)
    ensures ' ' !in FormatInt(n) && '\n' !in FormatInt(n)
  {
  }

  lemma LineAsJoin(name: string, value: real, timestamp: real)
    ensures Line(name, value, timestamp)
         == Join([name, FormatInt(Truncate(value)), FormatInt(Truncate(timestamp))], ' ') + "\n"
  {
    var parts := [name, FormatInt(Truncate(value)), FormatInt(Truncate(timestamp))];
    assert Join(parts[1..][1..], ' ') == parts[2];
    assert Join(parts[1..], ' ') == parts[1] + " " + parts[2];
  }

  /** A line for a plain name splits back into that name and the two truncated numbers. */
  lemma LineRoundTrip(name: string, value: real, timestamp: real)
    requires IsPlainName(name)
    ensures ParseLine(Line(name, value, timestamp)) == Some(Metric(name, Truncate(value), Truncate(timestamp)))
  {
    var line := Line(name, value, timestamp);
    var v, t := FormatInt(Truncate(value)), FormatInt(Truncate(timestamp));
    LineAsJoin(name, value, timestamp);
    FormatIntHasNoSpace(Truncate(value));
    FormatIntHasNoSpace(Truncate(timestamp));
    assert line[..|line| - 1] == Join([name, v, t], ' ');
    SplitJoin([name, v, t], ' ');
    FormatThenParse(Truncate(value));
    FormatThenParse(Truncate(timestamp));
  }

  /** Every line the strict reader accepts is the line the plugin writes for the metric it reads. */
  lemma ParsedLineIsLine(line: string, m: Metric)
    requires ParseLine(line) == Some(m)
    ensures IsPlainName(m.name)
    ensures line == Line(m.name, m.value as real, m.timestamp as real)
  {
    var fields := Split(line[..|line| - 1], ' ');
    ParseThenFormat(fields[1], m.value);
    ParseThenFormat(fields[2], m.timestamp);
    assert Truncate(m.value as real) == m.value;
    assert Truncate(m.timestamp as real) == m.timestamp;
    LineAsJoin(m.name, m.value as real, m.timestamp as real);
    assert fields[1..][1..] == [fields[2]];
    assert line == line[..|line| - 1] + "\n";
  }

  /** The text after the last separator is determined when neither tail holds it. */
  lemma LastFieldUnique(x: string, a: string, y: string, b: string)
    requires ' ' !in a && ' ' !in b
    requires x + " " + a == y + " " + b
    ensures x == y && a == b
  {
    var s := x + " " + a;
    assert s[|x|] == ' ' && s[|y|] == ' ';
    assert x == s[..|x|] && y == s[..|y|];
    assert a == s[|x| + 1..] && b == s[|y| + 1..];
  }

  /** Distinct metrics never share a line, whatever characters their names contain. */
  lemma LineInjective(n1: string, v1: real, t1: real, n2: string, v2: real, t2: real)
    requires Line(n1, v1, t1) == Line(n2, v2, t2)
    ensures n1 == n2 && Truncate(v1) == Truncate(v2) && Truncate(t1) == Truncate(t2)
  {
    var a1, b1 := FormatInt(Truncate(v1)), FormatInt(Truncate(t1));
    var a2, b2 := FormatInt(Truncate(v2)), FormatInt(Truncate(t2));
    FormatIntHasNoSpace(Truncate(v1));
    FormatIntHasNoSpace(Truncate(t1));
    FormatIntHasNoSpace(Truncate(v2));
    FormatIntHasNoSpace(Truncate(t2));
    var l1, l2 := Line(n1, v1, t1), Line(n2, v2, t2);
    assert l1[..|l1| - 1] == (n1 + " " + a1) + " " + b1;
    assert l2[..|l2| - 1] == (n2 + " " + a2) + " " + b2;
    LastFieldUnique(n1 + " " + a1, b1, n2 + " " + a2, b2);
    LastFieldUnique(n1, a1, n2, a2);
    FormatIntInjective(Truncate(v1), Truncate(v2));
    FormatIntInjective(Truncate(t1), Truncate(t2));
  }
}
