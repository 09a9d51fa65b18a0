/** Reading a log page by page. The table is in no particular order; as the schema demands, no two rows of a
    deployment share a sequence number. */
module LogPaging {
  import opened Common
  import opened Sorting

  datatype Row = Row(deployment: Uuid, sequence: nat, stream: string, message: string)

  datatype Query = Query(after: Option<nat>, limit: Option<nat>, stream: Option<string>)

  datatype Page = Page(lines: seq<Row>, next: Option<nat>, hasMore: bool)

  ghost predicate UniqueKey(rows: seq<Row>) {
    forall i, j :: 0 <= i < j < |rows| && rows[i].deployment == rows[j].deployment ==> rows[i].sequence != rows[j].sequence
  }

  predicate Visible(r: Row, deployment: Uuid, stream: Option<string>, after: nat) {
    r.deployment == deployment && r.sequence > after && (stream.None? || r.stream == stream.value)
  }

  function Filter(rows: seq<Row>, deployment: Uuid, stream: Option<string>, after: nat): seq<Row> {
    if rows == [] then []
    else
      var rest := Filter(rows[1..], deployment, stream, after);
      if Visible(rows[0], deployment, stream, after) then [rows[0]] + rest else rest
  }

  predicate BySequence(a: Row, b: Row) { a.sequence <= b.sequence }

  // The query's rows without its limit: WHERE, then ORDER BY sequence ASC.
  function Select(rows: seq<Row>, deployment: Uuid, stream: Option<string>, after: nat): seq<Row> {
    Sort(Filter(rows, deployment, stream, after), BySequence)
  }

  function Min(a: nat, b: nat): nat { if a < b then a else b }

  function Take(rows: seq<Row>, n: nat): seq<Row> { rows[..Min(n, |rows|)] }

  function Limit(q: Query): nat { Min(if q.limit.Some? then q.limit.value else 100, 1000) }

  function AfterOf(q: Query): nat { if q.after.Some? then q.after.value else 0 }

  /** One page: one row more than the limit is fetched to learn whether there are more. */
  method QueryLogs(rows: seq<Row>, deployment: Uuid, q: Query) returns (page: Page)
    ensures page == PageOf(Select(rows, deployment, q.stream, AfterOf(q)), Limit(q))
    ensures var after := if q.after == None then 0 else q.after.value;
      var limit := if q.limit == None then 100 else if q.limit.value > 1000 then 1000 else q.limit.value;
      var all := Select(rows, deployment, q.stream, after);
      && page.lines == (if |all| <= limit then all else all[..limit])
      && (page.hasMore <==> |all| > limit)
      && (page.lines == [] ==> page.next == None)
      && (page.lines != [] ==> page.next == Some(page.lines[|page.lines| - 1].sequence))
  {
    var limit := Limit(q);
    var fetched := Take(Select(rows, deployment, q.stream, AfterOf(q)), limit + 1);
    var lines := [];
    for i := 0 to |fetched|
      invariant lines == fetched[..i]
    {
      lines := lines + [fetched[i]];
    }
    var hasMore := |lines| > limit;
    if hasMore {
      lines := lines[..limit];
    }
    page := Page(lines, if lines == [] then None else Some(lines[|lines| - 1].sequence), hasMore);
  }

  // What a page says about the rows still to be read.
  function PageOf(remaining: seq<Row>, limit: nat): Page {
    var lines := Take(remaining, limit);
    Page(lines, if lines == [] then None else Some(lines[|lines| - 1].sequence), |remaining| > limit)
  }

  // ---------------------------------------------------------------- ordered selections

  ghost predicate Strict(s: seq<Row>) {
    forall i, j :: 0 <= i < j < |s| ==> s[i].sequence < s[j].sequence
  }

  lemma {:induction false} InsertKeepsStrict(x: Row, s: seq<Row>)
    requires Strict(s) && forall y :: y in s ==> y.sequence != x.sequence
    ensures Strict(Insert(x, s, BySequence))
    ensures forall y :: y in Insert(x, s, BySequence) <==> y == x || y in s
  {
    if s != [] && !BySequence(x, s[0]) {
      InsertKeepsStrict(x, s[1..]);
      var rest := Insert(x, s[1..], BySequence);
      assert s == [s[0]] + s[1..];
      forall y | y in rest
        ensures s[0].sequence < y.sequence
      {
      }
    }
  }

  lemma {:induction false} SelectedIs(rows: seq<Row>, deployment: Uuid, stream: Option<string>, after: nat)
    requires UniqueKey(rows)
    ensures var s := Select(rows, deployment, stream, after);
            && Strict(s)
            && (forall y :: y in s <==> y in rows && Visible(y, deployment, stream, after))
  {
    if rows != [] {
      var rest := rows[1..];
      assert forall i :: 0 <= i < |rest| ==> rest[i] == rows[i + 1];
      SelectedIs(rest, deployment, stream, after);
      assert rows == [rows[0]] + rest;
      if Visible(rows[0], deployment, stream, after) {
        var filtered := Filter(rest, deployment, stream, after);
        assert ([rows[0]] + filtered)[1..] == filtered;
        InsertKeepsStrict(rows[0], Select(rest, deployment, stream, after));
      }
    }
  }

  lemma {:induction false} StrictIsUnique(s: seq<Row>, t: seq<Row>)
    requires Strict(s) && Strict(t) && forall y :: y in s <==> y in t
    ensures s == t
  {
    assert t != [] ==> t[0] in t;
    if s != [] {
      assert s[0] in t && t != [];
      assert t[0] in s;
      assert s[0] == t[0];
      TailsAgree(s, t);
      StrictIsUnique(s[1..], t[1..]);
    }
  }

  lemma TailsAgree(s: seq<Row>, t: seq<Row>)
    requires Strict(s) && Strict(t) && s != [] && t != [] && s[0] == t[0] && forall y :: y in s <==> y in t
    ensures forall y :: y in s[1..] <==> y in t[1..]
  {
    RestIsAfter(s, 1);
    RestIsAfter(t, 1);
  }

  /** What the query selects: the rows of the deployment past the given sequence, of the stream if one is asked for,
      each once and in ascending order. */
  lemma SelectIs(rows: seq<Row>, deployment: Uuid, stream: Option<string>, after: nat)
    requires UniqueKey(rows)
    ensures var s := Select(rows, deployment, stream, after);
      && (forall i, j :: 0 <= i < j < |s| ==> s[i].sequence < s[j].sequence)
      && (forall r :: r in s <==> r in rows && r.deployment == deployment && r.sequence > after
                                  && (stream == None || stream == Some(r.stream)))
  {
    SelectedIs(rows, deployment, stream, after);
  }

  // What is selected after the last row of a page is what the page left over.
  lemma RestIsSelected(rows: seq<Row>, deployment: Uuid, stream: Option<string>, after: nat, k: nat)
    requires UniqueKey(rows) && 0 < k <= |Select(rows, deployment, stream, after)|
    ensures var s := Select(rows, deployment, stream, after);
            s[k - 1].sequence > after && Select(rows, deployment, stream, s[k - 1].sequence) == s[k..]
  {
    var s := Select(rows, deployment, stream, after);
    SelectedIs(rows, deployment, stream, after);
    assert s[k - 1] in s;
    var t := Select(rows, deployment, stream, s[k - 1].sequence);
    SelectedIs(rows, deployment, stream, s[k - 1].sequence);
    RestIsAfter(s, k);
    forall y: Row
      ensures y in s[k..] <==> y in t
    {
    }
    StrictIsUnique(t, s[k..]);
  }

  lemma RestIsAfter(s: seq<Row>, k: nat)
    requires Strict(s) && 0 < k <= |s|
    ensures Strict(s[k..]) && forall y :: y in s[k..] <==> y in s && y.sequence > s[k - 1].sequence
  {
    forall y | y in s && y.sequence > s[k - 1].sequence
      ensures y in s[k..]
    {
      var i :| 0 <= i < |s| && s[i] == y;
      assert s[k..][i - k] == y;
    }
  }

  // ---------------------------------------------------------------- paging

  // One page moves the reader forward by what the page holds.
  lemma PageAdvances(rows: seq<Row>, deployment: Uuid, stream: Option<string>, last: nat, limit: nat, whole: seq<Row>, lines: seq<Row>)
    requires UniqueKey(rows) && limit >= 1 && lines <= whole && Select(rows, deployment, stream, last) == whole[|lines|..]
    ensures var page := PageOf(whole[|lines|..], limit);
            var lines' := lines + page.lines;
            && lines' <= whole
            && (page.hasMore ==> |page.lines| > 0 && page.next.Some?)
            && (page.hasMore ==> Select(rows, deployment, stream, page.next.value) == whole[|lines'|..])
            && (!page.hasMore ==> lines' == whole)
  {
    var rest := whole[|lines|..];
    assert whole == lines + rest;
    if |rest| > limit {
      RestIsSelected(rows, deployment, stream, last, limit);
      assert rest[limit..] == whole[|lines| + limit..];
    }
  }

  /** Follow `next_sequence` until there is no more. For every limit of at least 1 the pages put together are
      exactly the selected rows, each once and in order; the loop ends. */
  method ReadAll(rows: seq<Row>, deployment: Uuid, stream: Option<string>, after: nat, limit: Option<nat>)
    returns (lines: seq<Row>)
    requires UniqueKey(rows) && (limit.Some? ==> limit.value >= 1)
    ensures lines == Select(rows, deployment, stream, after)
  {
    ghost var whole := Select(rows, deployment, stream, after);
    lines := [];
    var last, more := after, true;
    while more
      invariant lines <= whole
      invariant more ==> Select(rows, deployment, stream, last) == whole[|lines|..]
      invariant !more ==> lines == whole
      decreases more, |whole| - |lines|
    {
      var q := Query(Some(last), limit, stream);
      var page := QueryLogs(rows, deployment, q);
      PageAdvances(rows, deployment, stream, last, Limit(q), whole, lines);
      if page.hasMore {
        last := page.next.value;
      }
      lines, more := lines + page.lines, page.hasMore;
    }
  }

  /** Reading from the beginning sees every row of the deployment exactly when none has sequence number 0. */
  lemma BeginningSeesAllIff(rows: seq<Row>, deployment: Uuid)
    requires UniqueKey(rows)
    ensures (forall r :: r in rows && r.deployment == deployment ==> r in Select(rows, deployment, None, 0))
       <==> (forall r :: r in rows && r.deployment == deployment ==> r.sequence > 0)
  {
    SelectedIs(rows, deployment, None, 0);
  }

  /** A limit of 0 gives an empty page that names no next sequence, yet says there is more. */
  lemma ZeroLimitStalls(rows: seq<Row>, deployment: Uuid, q: Query)
    requires UniqueKey(rows) && q.limit == Some(0)
    ensures var page := PageOf(Select(rows, deployment, q.stream, AfterOf(q)), Limit(q));
            && page.lines == [] && page.next == None
            && (page.hasMore <==> exists r :: r in rows && Visible(r, deployment, q.stream, AfterOf(q)))
  {
    SelectedIs(rows, deployment, q.stream, AfterOf(q));
    var s := Select(rows, deployment, q.stream, AfterOf(q));
    assert |s| > 0 ==> s[0] in s;
  }
}
