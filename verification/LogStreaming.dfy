/** Streaming a log by polling it. The rows are inserted by tasks of their own, so that between two polls rows
    appear anywhere in the log; the stream asks only for what lies past the last row it has sent. */
module LogStreaming {
  import opened Common
  import opened Sorting
  import opened LogPaging

  // One turn of the polling loop: the table it finds, whether the query succeeds, whether the deployment is over.
  datatype Poll = Poll(rows: seq<Row>, ok: bool, terminal: bool)

  // Where the next query starts.
  function LastOf(sent: seq<Row>, after: nat): nat { if sent == [] then after else sent[|sent| - 1].sequence }

  function PageAfter(rows: seq<Row>, deployment: Uuid, last: nat): seq<Row> {
    Take(Select(rows, deployment, None, last), 100)
  }

  // What has been sent after so many turns.
  function Sent(polls: seq<Poll>, turns: nat, deployment: Uuid, after: nat): seq<Row>
    requires turns <= |polls|
  {
    if turns == 0 then []
    else
      var before := Sent(polls, turns - 1, deployment, after);
      if polls[turns - 1].ok then before + PageAfter(polls[turns - 1].rows, deployment, LastOf(before, after)) else before
  }

  function Last(polls: seq<Poll>, turns: nat, deployment: Uuid, after: nat): nat
    requires turns <= |polls|
  {
    LastOf(Sent(polls, turns, deployment, after), after)
  }

  // The turn that ends the stream: the deployment is over and the page is the last one.
  predicate Ends(polls: seq<Poll>, i: nat, deployment: Uuid, after: nat)
    requires i < |polls|
  {
    && polls[i].ok && polls[i].terminal
    && |Select(polls[i].rows, deployment, None, Last(polls, i, deployment, after))| <= 100
  }

  // None of the first turns ends the stream.
  ghost predicate Continues(polls: seq<Poll>, turns: nat, deployment: Uuid, after: nat)
    requires turns <= |polls|
  {
    forall i: nat :: i < turns ==> !Ends(polls, i, deployment, after)
  }

  // One turn: query past `last`, send the page line by line.
  method SendPage(rows: seq<Row>, deployment: Uuid, sent: seq<Row>, last: nat)
    returns (sent': seq<Row>, last': nat, hasMore: bool)
    ensures sent' == sent + PageAfter(rows, deployment, last)
    ensures last' == if PageAfter(rows, deployment, last) == [] then last else LastOf(sent', last)
    ensures hasMore <==> |Select(rows, deployment, None, last)| > 100
  {
    var page := QueryLogs(rows, deployment, Query(Some(last), Some(100), None));
    sent', last', hasMore := sent, last, page.hasMore;
    for i := 0 to |page.lines|
      invariant sent' == sent + page.lines[..i]
      invariant last' == if i == 0 then last else page.lines[i - 1].sequence
    {
      last' := page.lines[i].sequence;
      sent' := sent' + [page.lines[i]];
    }
  }

  /** The event stream, whatever the polls find: what it sends is what `Sent` says, and it reports the end at the
      first turn that finds the deployment over and no further page. */
  method StreamLogs(polls: seq<Poll>, deployment: Uuid, after: nat) returns (sent: seq<Row>, done: bool, turns: nat)
    ensures turns <= |polls| && (!done ==> turns == |polls|) && (done ==> turns > 0)
    ensures sent == Sent(polls, turns, deployment, after)
    ensures Continues(polls, if done then turns - 1 else turns, deployment, after)
    ensures done ==> Ends(polls, turns - 1, deployment, after)
  {
    sent, done, turns := [], false, 0;
    var last := after;
    while turns < |polls| && !done
      invariant turns <= |polls| && (done ==> turns > 0)
      invariant sent == Sent(polls, turns, deployment, after) && last == LastOf(sent, after)
      invariant Continues(polls, if done then turns - 1 else turns, deployment, after) == true
      invariant done ==> Ends(polls, turns - 1, deployment, after)
      decreases |polls| - turns
    {
      var poll := polls[turns];
      if poll.ok {
        var hasMore;
        sent, last, hasMore := SendPage(poll.rows, deployment, sent, last);
        done := poll.terminal && !hasMore;
      }
      turns := turns + 1;
    }
  }

  // ---------------------------------------------------------------- what is sent

  // Rows are only ever added, anywhere in the log.
  ghost predicate OnlyAdded(polls: seq<Poll>) {
    && (forall i :: 0 <= i < |polls| ==> UniqueKey(polls[i].rows))
    && (forall i, j, r :: 0 <= i <= j < |polls| && r in polls[i].rows ==> r in polls[j].rows)
  }

  // A page holds the next rows: whatever it leaves out lies past its end.
  lemma PageIs(rows: seq<Row>, deployment: Uuid, last: nat)
    requires UniqueKey(rows)
    ensures var page := PageAfter(rows, deployment, last);
      && Strict(page)
      && (forall r :: r in page ==> r in rows && Visible(r, deployment, None, last))
      && (forall r :: r in rows && Visible(r, deployment, None, last) && r !in page ==> page != [] && LastOf(page, last) < r.sequence)
      && (|Select(rows, deployment, None, last)| <= 100 ==> forall r :: r in rows && Visible(r, deployment, None, last) ==> r in page)
  {
    var s, page := Select(rows, deployment, None, last), PageAfter(rows, deployment, last);
    SelectedIs(rows, deployment, None, last);
    forall r | r in rows && Visible(r, deployment, None, last) && r !in page
      ensures page != [] && LastOf(page, last) < r.sequence
    {
      var k :| 0 <= k < |s| && s[k] == r;
      assert page == s[..|page|];
    }
  }

  // Rows past the end of what was sent keep it in order.
  lemma Extends(sent: seq<Row>, page: seq<Row>, after: nat)
    requires Strict(sent) && Strict(page) && forall r :: r in page ==> r.sequence > LastOf(sent, after)
    ensures Strict(sent + page)
    ensures LastOf(sent + page, after) == LastOf(page, LastOf(sent, after)) >= LastOf(sent, after)
  {
    forall i, j | 0 <= i < j < |sent + page|
      ensures (sent + page)[i].sequence < (sent + page)[j].sequence
    {
      if i < |sent| <= j {
        assert sent[i].sequence <= LastOf(sent, after) && page[j - |sent|] in page;
      }
    }
    assert page != [] ==> page[|page| - 1] in page;
  }

  // All rows lie after `after` and up to the last one.
  ghost predicate Spans(sent: seq<Row>, deployment: Uuid, after: nat) {
    && Strict(sent)
    && after <= LastOf(sent, after)
    && forall r :: r in sent ==> r.deployment == deployment && after < r.sequence <= LastOf(sent, after)
  }

  lemma SpansMore(sent: seq<Row>, rows: seq<Row>, deployment: Uuid, after: nat)
    requires UniqueKey(rows) && Spans(sent, deployment, after)
    ensures Spans(sent + PageAfter(rows, deployment, LastOf(sent, after)), deployment, after)
    ensures LastOf(sent, after) <= LastOf(sent + PageAfter(rows, deployment, LastOf(sent, after)), after)
  {
    var page := PageAfter(rows, deployment, LastOf(sent, after));
    PageIs(rows, deployment, LastOf(sent, after));
    Extends(sent, page, after);
    forall r | r in page
      ensures r.sequence <= LastOf(page, LastOf(sent, after))
    {
      var k :| 0 <= k < |page| && page[k] == r;
    }
  }

  lemma {:induction false} SentSpans(polls: seq<Poll>, turns: nat, deployment: Uuid, after: nat)
    requires OnlyAdded(polls) && turns <= |polls|
    ensures Spans(Sent(polls, turns, deployment, after), deployment, after)
    ensures turns > 0 ==> Last(polls, turns - 1, deployment, after) <= Last(polls, turns, deployment, after)
  {
    if turns > 0 {
      SentSpans(polls, turns - 1, deployment, after);
      SpansMore(Sent(polls, turns - 1, deployment, after), polls[turns - 1].rows, deployment, after);
    }
  }

  lemma {:induction false} LastGrows(polls: seq<Poll>, s: nat, t: nat, deployment: Uuid, after: nat)
    requires OnlyAdded(polls) && s <= t <= |polls|
    ensures Last(polls, s, deployment, after) <= Last(polls, t, deployment, after)
  {
    if s < t {
      LastGrows(polls, s, t - 1, deployment, after);
      SentSpans(polls, t, deployment, after);
    }
  }

  // A row that was sent was found by an earlier successful poll.
  lemma {:induction false} SentWasFound(polls: seq<Poll>, turns: nat, deployment: Uuid, after: nat, r: Row) returns (j: nat)
    requires OnlyAdded(polls) && turns <= |polls| && r in Sent(polls, turns, deployment, after)
    ensures j < turns && polls[j].ok && r in polls[j].rows
  {
    var before := Sent(polls, turns - 1, deployment, after);
    if r in before {
      j := SentWasFound(polls, turns - 1, deployment, after, r);
    } else {
      j := turns - 1;
      PageIs(polls[j].rows, deployment, LastOf(before, after));
    }
  }

  /** Whatever order the rows appear in, what is sent is in strictly ascending order, without repeats, of this
      deployment only, past the requested start, and in the table. */
  lemma SentInOrder(polls: seq<Poll>, turns: nat, deployment: Uuid, after: nat)
    requires OnlyAdded(polls) && 0 < turns <= |polls|
    ensures var sent := Sent(polls, turns, deployment, after);
      && Strict(sent)
      && forall r :: r in sent ==> r in polls[turns - 1].rows && r.deployment == deployment && r.sequence > after
  {
    SentSpans(polls, turns, deployment, after);
    forall r | r in Sent(polls, turns, deployment, after)
      ensures r in polls[turns - 1].rows
    {
      var _ := SentWasFound(polls, turns, deployment, after, r);
    }
  }

  // Poll i is the first successful one that finds the row.
  ghost predicate SeenFirst(polls: seq<Poll>, i: nat, r: Row) {
    && i < |polls| && polls[i].ok && r in polls[i].rows
    && forall j :: 0 <= j < i && polls[j].ok ==> r !in polls[j].rows
  }

  // One more turn over a table that holds the row.
  lemma TurnSends(sent: seq<Row>, rows: seq<Row>, deployment: Uuid, after: nat, r: Row)
    requires UniqueKey(rows) && Spans(sent, deployment, after) && r in rows && r.deployment == deployment
    ensures var last := LastOf(sent, after);
      var sent' := sent + PageAfter(rows, deployment, last);
      && (r.sequence <= last ==> (r in sent' <==> r in sent))
      && (r.sequence > last ==> (r in sent' <==> r.sequence <= LastOf(sent', after)))
  {
    var last := LastOf(sent, after);
    PageIs(rows, deployment, last);
    SpansMore(sent, rows, deployment, after);
    Extends(sent, PageAfter(rows, deployment, last), after);
  }

  /** Exactly which rows are sent. A row first found by successful poll i has been sent after `turns` turns if and
      only if it lay past everything sent before that poll, and the stream has got that far since. */
  lemma {:induction false} SentIff(polls: seq<Poll>, turns: nat, i: nat, deployment: Uuid, after: nat, r: Row)
    requires OnlyAdded(polls) && i <= turns <= |polls| && SeenFirst(polls, i, r) && r.deployment == deployment
    ensures r in Sent(polls, turns, deployment, after)
       <==> Last(polls, i, deployment, after) < r.sequence <= Last(polls, turns, deployment, after)
    decreases turns
  {
    if turns == i {
      if r in Sent(polls, i, deployment, after) {
        var j := SentWasFound(polls, i, deployment, after, r);
        assert false;
      }
    } else {
      SentIff(polls, turns - 1, i, deployment, after, r);
      LastGrows(polls, i, turns - 1, deployment, after);
      SentSpans(polls, turns, deployment, after);
      SentSpans(polls, turns - 1, deployment, after);
      if polls[turns - 1].ok {
        assert r in polls[turns - 1].rows;
        TurnSends(Sent(polls, turns - 1, deployment, after), polls[turns - 1].rows, deployment, after, r);
      }
    }
  }

  // ---------------------------------------------------------------- the end of the stream

  // When the stream ends, no row of the table lies past the last one sent.
  lemma NothingPastTheEnd(polls: seq<Poll>, turns: nat, deployment: Uuid, after: nat, r: Row)
    requires OnlyAdded(polls) && 0 < turns <= |polls| && Ends(polls, turns - 1, deployment, after)
    requires r in polls[turns - 1].rows && r.deployment == deployment && r.sequence > after
    ensures r.sequence <= Last(polls, turns, deployment, after)
  {
    SentSpans(polls, turns, deployment, after);
    if r.sequence > Last(polls, turns - 1, deployment, after) {
      PageIs(polls[turns - 1].rows, deployment, Last(polls, turns - 1, deployment, after));
      assert r in Sent(polls, turns, deployment, after);
    }
  }

  /** A row of the table at the end was sent exactly when, at the first successful poll that found it, it lay past
      everything sent until then. A row that appears behind a later one already sent is never sent. */
  lemma SentByTheEndIff(polls: seq<Poll>, turns: nat, i: nat, deployment: Uuid, after: nat, r: Row)
    requires OnlyAdded(polls) && 0 < turns <= |polls| && Ends(polls, turns - 1, deployment, after)
    requires SeenFirst(polls, i, r) && i < turns && r.deployment == deployment && r.sequence > after
    ensures r in Sent(polls, turns, deployment, after) <==> r.sequence > Last(polls, i, deployment, after)
  {
    SentIff(polls, turns, i, deployment, after, r);
    assert r in polls[turns - 1].rows;
    NothingPastTheEnd(polls, turns, deployment, after, r);
  }

  // Every row, when first found, lies past everything sent until then.
  ghost predicate NoLatecomer(polls: seq<Poll>, turns: nat, deployment: Uuid, after: nat)
    requires turns <= |polls|
  {
    forall i: nat, r: Row :: i < turns && SeenFirst(polls, i, r) && r.deployment == deployment && r.sequence > after ==>
      r.sequence > Last(polls, i, deployment, after)
  }

  lemma {:induction false} SeenSomewhere(polls: seq<Poll>, n: nat, r: Row) returns (i: nat)
    requires n < |polls| && polls[n].ok && r in polls[n].rows
    ensures i <= n && SeenFirst(polls, i, r)
  {
    if j: nat :| j < n && polls[j].ok && r in polls[j].rows {
      i := SeenSomewhere(polls, j, r);
    } else {
      i := n;
    }
  }

  /** The stream ends having sent the whole log exactly when no row came late. */
  lemma EverythingSentIff(polls: seq<Poll>, turns: nat, deployment: Uuid, after: nat)
    requires OnlyAdded(polls) && 0 < turns <= |polls| && Ends(polls, turns - 1, deployment, after)
    ensures Sent(polls, turns, deployment, after) == Select(polls[turns - 1].rows, deployment, None, after)
       <==> NoLatecomer(polls, turns, deployment, after)
  {
    var rows, sent := polls[turns - 1].rows, Sent(polls, turns, deployment, after);
    SelectedIs(rows, deployment, None, after);
    SentInOrder(polls, turns, deployment, after);
    if NoLatecomer(polls, turns, deployment, after) {
      forall r | r in rows && Visible(r, deployment, None, after)
        ensures r in sent
      {
        var i := SeenSomewhere(polls, turns - 1, r);
        SentByTheEndIff(polls, turns, i, deployment, after, r);
      }
      StrictIsUnique(sent, Select(rows, deployment, None, after));
    } else {
      var i: nat, r: Row :| i < turns && SeenFirst(polls, i, r) && r.deployment == deployment && r.sequence > after
        && r.sequence <= Last(polls, i, deployment, after);
      SentByTheEndIff(polls, turns, i, deployment, after, r);
      assert r in rows;
    }
  }

  function RowNumbered(deployment: Uuid, n: nat): Row { Row(deployment, n, "stdout", "") }

  // Rows 1 and 3 are there at the first poll; row 2 appears before the second, which finds the deployment over.
  function LatePolls(deployment: Uuid): seq<Poll> {
    var one, two, three := RowNumbered(deployment, 1), RowNumbered(deployment, 2), RowNumbered(deployment, 3);
    [Poll([one, three], true, false), Poll([one, three, two], true, true)]
  }

  /** The stream reports the end at the second poll, having sent rows 1 and 3 and never row 2. */
  lemma LateRowIsNeverSent(deployment: Uuid)
    ensures OnlyAdded(LatePolls(deployment))
    ensures Continues(LatePolls(deployment), 1, deployment, 0) && Ends(LatePolls(deployment), 1, deployment, 0)
    ensures Sent(LatePolls(deployment), 2, deployment, 0) == [RowNumbered(deployment, 1), RowNumbered(deployment, 3)]
    ensures RowNumbered(deployment, 2) in LatePolls(deployment)[1].rows
    ensures RowNumbered(deployment, 2) !in Sent(LatePolls(deployment), 2, deployment, 0)
  {
    var polls := LatePolls(deployment);
    FirstPage(polls, RowNumbered(deployment, 1), RowNumbered(deployment, 3), deployment);
    SelectedIs(polls[1].rows, deployment, None, 3);
    StrictIsUnique(Select(polls[1].rows, deployment, None, 3), []);
    assert Sent(polls, 1, deployment, 0) + [] == Sent(polls, 1, deployment, 0);
  }

  lemma FirstPage(polls: seq<Poll>, one: Row, three: Row, deployment: Uuid)
    requires |polls| > 0 && polls[0].ok && polls[0].rows == [one, three]
    requires one.deployment == three.deployment == deployment && one.sequence == 1 && three.sequence == 3
    ensures Sent(polls, 1, deployment, 0) == [one, three] && Last(polls, 1, deployment, 0) == 3
  {
    SelectedIs(polls[0].rows, deployment, None, 0);
    StrictIsUnique(Select(polls[0].rows, deployment, None, 0), [one, three]);
    assert Sent(polls, 0, deployment, 0) == [];
    assert [] + [one, three] == [one, three];
  }

  // ---------------------------------------------------------------- logs that only grow at the end

  ghost predicate OnlyAppended(polls: seq<Poll>, deployment: Uuid, after: nat) {
    forall i, j :: 0 <= i <= j < |polls| ==>
      Select(polls[i].rows, deployment, None, after) <= Select(polls[j].rows, deployment, None, after)
  }

  lemma BehindThePrefix(s: seq<Row>, t: seq<Row>, a: Row, b: Row)
    requires Strict(t) && s <= t && a in s && b in t && b !in s
    ensures a.sequence < b.sequence
  {
    var i :| 0 <= i < |s| && s[i] == a;
    var j :| 0 <= j < |t| && t[j] == b;
    assert t[i] == a;
    assert j >= |s|;
  }

  /** If rows only appear behind those already there, the stream ends having sent the whole log. */
  lemma AppendedIsAllSent(polls: seq<Poll>, turns: nat, deployment: Uuid, after: nat)
    requires OnlyAdded(polls) && OnlyAppended(polls, deployment, after)
    requires 0 < turns <= |polls| && Ends(polls, turns - 1, deployment, after)
    ensures Sent(polls, turns, deployment, after) == Select(polls[turns - 1].rows, deployment, None, after)
  {
    forall i: nat, r: Row | i < turns && SeenFirst(polls, i, r) && r.deployment == deployment && r.sequence > after
      ensures r.sequence > Last(polls, i, deployment, after)
    {
      AppendedIsInTime(polls, i, deployment, after, r);
    }
    EverythingSentIff(polls, turns, deployment, after);
  }

  lemma AppendedIsInTime(polls: seq<Poll>, i: nat, deployment: Uuid, after: nat, r: Row)
    requires OnlyAdded(polls) && OnlyAppended(polls, deployment, after)
    requires SeenFirst(polls, i, r) && r.deployment == deployment && r.sequence > after
    ensures r.sequence > Last(polls, i, deployment, after)
  {
    var sent := Sent(polls, i, deployment, after);
    if sent != [] {
      var e := sent[|sent| - 1];
      SentSpans(polls, i, deployment, after);
      var j := SentWasFound(polls, i, deployment, after, e);
      SelectedIs(polls[j].rows, deployment, None, after);
      SelectedIs(polls[i].rows, deployment, None, after);
      BehindThePrefix(Select(polls[j].rows, deployment, None, after), Select(polls[i].rows, deployment, None, after), e, r);
    }
  }

  // ---------------------------------------------------------------- logs that no longer change

  ghost predicate Steady(polls: seq<Poll>, rows: seq<Row>) { forall i :: 0 <= i < |polls| ==> polls[i].rows == rows }

  function Successes(polls: seq<Poll>, turns: nat): nat
    requires turns <= |polls|
  {
    if turns == 0 then 0 else Successes(polls, turns - 1) + if polls[turns - 1].ok then 1 else 0
  }

  lemma SteadyPage(rows: seq<Row>, deployment: Uuid, after: nat, n: nat)
    requires UniqueKey(rows)
    ensures var whole := Select(rows, deployment, None, after);
      var rest := Select(rows, deployment, None, LastOf(Take(whole, n), after));
      && |rest| == |whole| - Min(n, |whole|)
      && Take(whole, n) + Take(rest, 100) == Take(whole, n + 100)
  {
    var whole := Select(rows, deployment, None, after);
    if Min(n, |whole|) > 0 {
      RestIsSelected(rows, deployment, None, after, Min(n, |whole|));
    }
  }

  lemma {:induction false} SteadyProgress(polls: seq<Poll>, rows: seq<Row>, turns: nat, deployment: Uuid, after: nat)
    requires UniqueKey(rows) && Steady(polls, rows) && turns <= |polls|
    ensures Sent(polls, turns, deployment, after) == Take(Select(rows, deployment, None, after), 100 * Successes(polls, turns))
  {
    if turns > 0 {
      SteadyProgress(polls, rows, turns - 1, deployment, after);
      SteadyPage(rows, deployment, after, 100 * Successes(polls, turns - 1));
    }
  }

  /** On a log that no longer changes each successful poll sends 100 rows more, and the stream ends exactly at the
      first successful poll that finds the deployment over and whose predecessors leave it at most 100. */
  lemma SteadyEndsIff(polls: seq<Poll>, rows: seq<Row>, i: nat, deployment: Uuid, after: nat)
    requires UniqueKey(rows) && Steady(polls, rows) && i < |polls|
    ensures Ends(polls, i, deployment, after) <==>
      polls[i].ok && polls[i].terminal && |Select(rows, deployment, None, after)| <= 100 * Successes(polls, i + 1)
  {
    SteadyProgress(polls, rows, i, deployment, after);
    SteadyPage(rows, deployment, after, 100 * Successes(polls, i));
  }

  /** Rows added with larger sequence numbers than all those there leave the order a stream relies on intact. */
  lemma AppendingIsOrderly(rows: seq<Row>, rows': seq<Row>, deployment: Uuid, after: nat)
    requires UniqueKey(rows) && UniqueKey(rows') && forall r :: r in rows ==> r in rows'
    requires forall r, r' :: r in rows && r' in rows' && r' !in rows && r.deployment == r'.deployment ==> r.sequence < r'.sequence
    ensures Select(rows, deployment, None, after) <= Select(rows', deployment, None, after)
  {
    SelectedIs(rows, deployment, None, after);
    SelectedIs(rows', deployment, None, after);
    var s, s' := Select(rows, deployment, None, after), Select(rows', deployment, None, after);
    forall y, y' | y in s && y' in s' && y' !in s
      ensures y.sequence < y'.sequence
    {
    }
    PrefixOf(s, s');
  }

  lemma {:induction false} PrefixOf(s: seq<Row>, t: seq<Row>)
    requires Strict(s) && Strict(t) && forall y :: y in s ==> y in t
    requires forall y, y' :: y in s && y' in t && y' !in s ==> y.sequence < y'.sequence
    ensures s <= t
  {
    if s != [] {
      assert s[0] in t;
      assert t[0] in t;
      assert s[0] == t[0];
      RestIsAfter(s, 1);
      RestIsAfter(t, 1);
      PrefixOf(s[1..], t[1..]);
    }
  }
}
