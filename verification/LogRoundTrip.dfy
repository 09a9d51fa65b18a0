// From the sink to the reader: what a deployment logged is what paging through its log returns.
module LogRoundTrip {
  import opened Common
  import LogSink
  import opened LogPaging

  function StreamName(s: LogSink.Stream): string {
    match s
    case Stdout => "stdout"
    case Stderr => "stderr"
  }

  // The row inserted for a line.
  function RowOf(deployment: Uuid, line: LogSink.Line): Row {
    Row(deployment, line.sequence, StreamName(line.stream), line.message)
  }

  function RowsOf(deployment: Uuid, lines: seq<LogSink.Line>): seq<Row> {
    seq(|lines|, i requires 0 <= i < |lines| => RowOf(deployment, lines[i]))
  }

  lemma RowsAreStrict(deployment: Uuid, calls: seq<LogSink.Call>)
    ensures var rows := RowsOf(deployment, LogSink.Logged(calls));
            Strict(rows) && forall r :: r in rows ==> r.deployment == deployment && r.sequence > 0
  {
    LogSink.LoggedIsNumbered(calls);
  }

  /** The inserts of the lines complete in any order, among the rows of other deployments. Once all are there,
      reading from the beginning gives back every line, once, in the order it was logged; the filter for standard
      output or standard error gives back the lines of that stream, and any other filter nothing. */
  lemma LoggedIsReadBack(deployment: Uuid, calls: seq<LogSink.Call>, rows: seq<Row>)
    requires UniqueKey(rows)
    requires forall r :: r in rows && r.deployment == deployment <==> r in RowsOf(deployment, LogSink.Logged(calls))
    ensures Select(rows, deployment, None, 0) == RowsOf(deployment, LogSink.Logged(calls))
    ensures Select(rows, deployment, Some("stdout"), 0) == RowsOf(deployment, OnStream(LogSink.Logged(calls), LogSink.Stdout))
    ensures Select(rows, deployment, Some("stderr"), 0) == RowsOf(deployment, OnStream(LogSink.Logged(calls), LogSink.Stderr))
    ensures forall name :: name != "stdout" && name != "stderr" ==> Select(rows, deployment, Some(name), 0) == []
  {
    var lines := LogSink.Logged(calls);
    RowsAreStrict(deployment, calls);
    SelectedIs(rows, deployment, None, 0);
    StrictIsUnique(Select(rows, deployment, None, 0), RowsOf(deployment, lines));
    Filtered(deployment, RowsOf(deployment, lines), rows, "stdout");
    FilterLines(deployment, lines, LogSink.Stdout);
    Filtered(deployment, RowsOf(deployment, lines), rows, "stderr");
    FilterLines(deployment, lines, LogSink.Stderr);
    forall name | name != "stdout" && name != "stderr"
      ensures Select(rows, deployment, Some(name), 0) == []
    {
      Filtered(deployment, RowsOf(deployment, lines), rows, name);
      NoSuchStream(deployment, lines, name);
    }
  }

  lemma Filtered(deployment: Uuid, logged: seq<Row>, rows: seq<Row>, name: string)
    requires UniqueKey(rows) && Strict(logged) && forall r :: r in rows && r.deployment == deployment <==> r in logged
    requires forall r :: r in logged ==> r.sequence > 0
    ensures Select(rows, deployment, Some(name), 0) == OfStream(logged, name)
  {
    SelectedIs(rows, deployment, Some(name), 0);
    OfStreamIs(logged, name);
    StrictIsUnique(Select(rows, deployment, Some(name), 0), OfStream(logged, name));
  }

  // The lines of one stream.
  function OnStream(lines: seq<LogSink.Line>, stream: LogSink.Stream): seq<LogSink.Line> {
    if lines == [] then []
    else OnStream(lines[..|lines| - 1], stream) + if lines[|lines| - 1].stream == stream then [lines[|lines| - 1]] else []
  }

  lemma {:induction false} FilterLines(deployment: Uuid, lines: seq<LogSink.Line>, stream: LogSink.Stream)
    ensures OfStream(RowsOf(deployment, lines), if stream == LogSink.Stdout then "stdout" else "stderr")
         == RowsOf(deployment, OnStream(lines, stream))
  {
    if lines != [] {
      var front, last := lines[..|lines| - 1], lines[|lines| - 1];
      assert RowsOf(deployment, lines)[..|lines| - 1] == RowsOf(deployment, front);
      FilterLines(deployment, front, stream);
      assert "stdout" != "stderr" by { assert "stdout"[3] != "stderr"[3]; }
      assert RowsOf(deployment, OnStream(front, stream) + [last]) == RowsOf(deployment, OnStream(front, stream)) + [RowOf(deployment, last)];
    }
  }

  lemma {:induction false} NoSuchStream(deployment: Uuid, lines: seq<LogSink.Line>, name: string)
    requires name != "stdout" && name != "stderr"
    ensures OfStream(RowsOf(deployment, lines), name) == []
  {
    if lines != [] {
      assert RowsOf(deployment, lines)[..|lines| - 1] == RowsOf(deployment, lines[..|lines| - 1]);
      NoSuchStream(deployment, lines[..|lines| - 1], name);
    }
  }

  function OfStream(rows: seq<Row>, name: string): seq<Row> {
    if rows == [] then []
    else OfStream(rows[..|rows| - 1], name) + if rows[|rows| - 1].stream == name then [rows[|rows| - 1]] else []
  }

  lemma {:induction false} OfStreamIs(rows: seq<Row>, name: string)
    requires Strict(rows)
    ensures Strict(OfStream(rows, name))
    ensures forall r :: r in OfStream(rows, name) <==> r in rows && r.stream == name
  {
    if rows != [] {
      var rest, last := rows[..|rows| - 1], rows[|rows| - 1];
      OfStreamIs(rest, name);
      assert rows == rest + [last];
      forall r | r in OfStream(rest, name)
        ensures r.sequence < last.sequence
      {
      }
    }
  }
}
