/** The expiry sweep without any rule about scheduling. It fails every Placed row of a release it meets, but
    credits only the rows its SELECT returned, so it can lose count; here is exactly when. */
module ExpirySweep {
  import opened Common
  import opened Sorting
  import opened NodeChoice
  import opened Fleet
  import opened FleetAccounting

  // The rows the SELECT returns, in table order.
  function OverdueRows(ps: seq<Placement>, now: int): seq<Placement> {
    if ps == [] then []
    else OverdueRows(ps[..|ps| - 1], now) + if Overdue(ps[|ps| - 1], now) then [ps[|ps| - 1]] else []
  }

  // The rows as they come, in any order.
  ghost predicate Selects(ps: seq<Placement>, now: int, picked: seq<Placement>) {
    multiset(picked) == multiset(OverdueRows(ps, now))
  }

  lemma {:induction false} OverdueRowsAre(ps: seq<Placement>, now: int)
    ensures forall p :: p in OverdueRows(ps, now) <==> p in ps && Overdue(p, now)
  {
    if ps != [] {
      OverdueRowsAre(ps[..|ps| - 1], now);
      assert ps == ps[..|ps| - 1] + [ps[|ps| - 1]];
    }
  }

  lemma SelectedAre(ps: seq<Placement>, now: int, picked: seq<Placement>)
    requires Selects(ps, now, picked)
    ensures forall p :: p in picked <==> p in ps && Overdue(p, now)
  {
    OverdueRowsAre(ps, now);
    forall p: Placement
      ensures p in picked <==> p in OverdueRows(ps, now)
    {
      assert p in multiset(picked) <==> p in multiset(OverdueRows(ps, now));
    }
  }

  // The loop over the rows as they were selected.
  function Swept(f: Fleet, picked: seq<Placement>): Fleet {
    if picked == [] then f else Expire(Swept(f, picked[..|picked| - 1]), picked[|picked| - 1])
  }

  predicate Names(picked: seq<Placement>, release: Uuid) { exists p :: p in picked && p.release == release }

  // Placed, and of a release that was selected.
  predicate Doomed(p: Placement, picked: seq<Placement>) { p.status == Placed && Names(picked, p.release) }

  // ---------------------------------------------------------------- what the sweep does to the placements

  ghost predicate Struck(ps: seq<Placement>, ps': seq<Placement>, hit: Placement -> bool) {
    && |ps'| == |ps|
    && forall k :: 0 <= k < |ps| ==> ps'[k] == if hit(ps[k]) then ps[k].(status := Failed) else ps[k]
  }

  lemma {:induction false} SweptPlacements(f: Fleet, picked: seq<Placement>)
    ensures Struck(f.placements, Swept(f, picked).placements, p => Doomed(p, picked))
  {
    if picked != [] {
      var before, last := picked[..|picked| - 1], picked[|picked| - 1];
      SweptPlacements(f, before);
      var ps, mid := f.placements, Swept(f, before).placements;
      RetireIndexed(mid, last.release, Failed, true);
      forall k | 0 <= k < |ps|
        ensures Doomed(ps[k], picked) <==> Doomed(ps[k], before) || (ps[k].status == Placed && ps[k].release == last.release)
      {
        NamesLast(before, last, ps[k].release);
        assert picked == before + [last];
      }
    }
  }

  lemma NamesLast(picked: seq<Placement>, last: Placement, release: Uuid)
    ensures Names(picked + [last], release) <==> Names(picked, release) || last.release == release
  {
    assert last in picked + [last];
    forall p | p in picked
      ensures p in picked + [last]
    {
    }
  }

  // ---------------------------------------------------------------- sums over some of the placements

  function Total(ps: seq<Placement>, node: Uuid, hit: Placement -> bool): Usage {
    if ps == [] then Idle()
    else Plus(Total(ps[..|ps| - 1], node, hit), if hit(ps[|ps| - 1]) then LoadOn(ps[|ps| - 1], node) else Idle())
  }

  // Striking live placements takes exactly their total off a node.
  lemma {:induction false} StruckTotal(ps: seq<Placement>, ps': seq<Placement>, node: Uuid, hit: Placement -> bool)
    requires Struck(ps, ps', hit)
    ensures Plus(Held(ps', node), Total(ps, node, hit)) == Held(ps, node)
  {
    if ps != [] {
      var n := |ps| - 1;
      StruckTotal(ps[..n], ps'[..n], node, hit);
    }
  }

  ghost predicate Within(ps: seq<Placement>, small: Placement -> bool, large: Placement -> bool) {
    forall k :: 0 <= k < |ps| && small(ps[k]) ==> large(ps[k])
  }

  lemma {:induction false} TotalsCompare(ps: seq<Placement>, node: Uuid, small: Placement -> bool, large: Placement -> bool)
    requires Within(ps, small, large)
    ensures Total(ps, node, small).cpu <= Total(ps, node, large).cpu
    ensures Total(ps, node, small).mem <= Total(ps, node, large).mem
    ensures Total(ps, node, small).releases <= Total(ps, node, large).releases
    ensures Within(ps, large, small) ==> Total(ps, node, small) == Total(ps, node, large)
  {
    if ps != [] {
      assert ps[|ps| - 1] == ps[|ps| - 1];
      TotalsCompare(ps[..|ps| - 1], node, small, large);
    }
  }

  // A live placement in one sum and not in the other shows in the number of releases on its node.
  lemma {:induction false} TotalsDiffer(ps: seq<Placement>, k: nat, small: Placement -> bool, large: Placement -> bool)
    requires Within(ps, small, large) && k < |ps| && large(ps[k]) && !small(ps[k]) && Live(ps[k])
    ensures Total(ps, ps[k].node, small).releases < Total(ps, ps[k].node, large).releases
  {
    var n := |ps| - 1;
    TotalsCompare(ps[..n], ps[k].node, small, large);
    if k < n {
      TotalsDiffer(ps[..n], k, small, large);
    }
  }

  // ---------------------------------------------------------------- what the sweep credits

  function Credits(picked: seq<Placement>, node: Uuid): Usage {
    if picked == [] then Idle() else Plus(Credits(picked[..|picked| - 1], node), LoadOn(picked[|picked| - 1], node))
  }

  lemma {:induction false} CreditsSplit(a: seq<Placement>, b: seq<Placement>, node: Uuid)
    ensures Credits(a + b, node) == Plus(Credits(a, node), Credits(b, node))
  {
    if b == [] {
      assert a + b == a;
    } else {
      var front, last := b[..|b| - 1], b[|b| - 1];
      assert a + b == (a + front) + [last];
      CreditsSnoc(a + front, last, node);
      CreditsSplit(a, front, node);
      PlusGroups(Credits(a, node), Credits(front, node), LoadOn(last, node));
    }
  }

  lemma CreditsSnoc(a: seq<Placement>, x: Placement, node: Uuid)
    ensures Credits(a + [x], node) == Plus(Credits(a, node), LoadOn(x, node))
  {
    assert (a + [x])[..|a|] == a;
  }

  lemma PlusGroups(a: Usage, b: Usage, c: Usage)
    ensures Plus(Plus(a, b), c) == Plus(a, Plus(b, c)) && Plus(Plus(a, b), c) == Plus(Plus(a, c), b)
  {
  }

  lemma CreditsAround(a: seq<Placement>, x: Placement, b: seq<Placement>, node: Uuid)
    ensures Credits(a + [x] + b, node) == Plus(Credits(a + b, node), LoadOn(x, node))
  {
    CreditsSplit(a + [x], b, node);
    CreditsSnoc(a, x, node);
    CreditsSplit(a, b, node);
    PlusGroups(Credits(a, node), LoadOn(x, node), Credits(b, node));
  }

  lemma {:induction false} CreditsPermute(xs: seq<Placement>, ys: seq<Placement>, node: Uuid)
    requires multiset(xs) == multiset(ys)
    ensures Credits(xs, node) == Credits(ys, node)
    decreases |xs|
  {
    if xs == [] {
      assert ys == [] by { assert |multiset(ys)| == 0; }
    } else {
      var x, rest := xs[0], xs[1..];
      assert xs == [] + [x] + rest && [] + rest == rest;
      var a, b := AroundFirst(xs, ys);
      CreditsAround([], x, rest, node);
      CreditsAround(a, x, b, node);
      CreditsPermute(rest, a + b, node);
    }
  }

  lemma {:induction false} CreditsInOrder(ps: seq<Placement>, now: int, node: Uuid, overdue: Placement -> bool)
    requires forall p :: overdue(p) == Overdue(p, now)
    ensures Credits(OverdueRows(ps, now), node) == Total(ps, node, overdue)
  {
    if ps != [] {
      var front, last := ps[..|ps| - 1], ps[|ps| - 1];
      CreditsInOrder(front, now, node, overdue);
      CreditsSnoc(OverdueRows(front, now), last, node);
      assert OverdueRows(front, now) + [] == OverdueRows(front, now);
    }
  }

  // In whatever order the rows come, the credits are the sum over the rows selected.
  lemma CreditsAre(ps: seq<Placement>, now: int, picked: seq<Placement>, node: Uuid, overdue: Placement -> bool)
    requires Selects(ps, now, picked) && forall p :: overdue(p) == Overdue(p, now)
    ensures Credits(picked, node) == Total(ps, node, overdue)
    ensures forall p :: p in picked ==> Live(p)
  {
    SelectedAre(ps, now, picked);
    CreditsPermute(picked, OverdueRows(ps, now), node);
    CreditsInOrder(ps, now, node, overdue);
  }

  // ---------------------------------------------------------------- what the sweep does to a node

  predicate Covers(a: Usage, b: Usage) { a.cpu >= b.cpu && a.mem >= b.mem && a.releases >= b.releases }

  lemma {:induction false} CreditsGrow(picked: seq<Placement>, node: Uuid)
    ensures Covers(Credits(picked, node), Idle())
    ensures picked != [] ==> Covers(Credits(picked, node), Credits(picked[..|picked| - 1], node))
  {
    if picked != [] {
      CreditsGrow(picked[..|picked| - 1], node);
    }
  }

  // While the record covers the credits the clamp does nothing.
  lemma {:induction false} SweptNodes(f: Fleet, picked: seq<Placement>, node: Uuid)
    requires node in f.nodes && Covers(Recorded(f.nodes[node]), Credits(picked, node))
    requires forall p :: p in picked ==> Live(p)
    ensures Swept(f, picked).nodes.Keys == f.nodes.Keys
    ensures Recorded(Swept(f, picked).nodes[node]) == Minus(Recorded(f.nodes[node]), Credits(picked, node))
  {
    if picked != [] {
      CreditsGrow(picked, node);
      SweptNodes(f, picked[..|picked| - 1], node);
      assert picked[|picked| - 1] in picked;
    }
  }

  // ---------------------------------------------------------------- exactly when the books stay balanced

  // Every release with an overdue placement has only overdue ones among its Placed rows.
  ghost predicate AllOverdue(ps: seq<Placement>, now: int) {
    forall i, k :: 0 <= i < |ps| && 0 <= k < |ps| && Overdue(ps[i], now) && ps[k].release == ps[i].release && ps[k].status == Placed ==>
      Overdue(ps[k], now)
  }

  // One node after the sweep: its record has lost the overdue rows, its placements the doomed ones.
  lemma NodeAfterSweep(f: Fleet, now: int, picked: seq<Placement>, node: Uuid, overdue: Placement -> bool, doomed: Placement -> bool)
    requires Balanced(f) && Selects(f.placements, now, picked) && node in f.nodes
    requires (forall p :: overdue(p) == Overdue(p, now)) && (forall p :: doomed(p) == Doomed(p, picked))
    ensures Swept(f, picked).nodes.Keys == f.nodes.Keys
    ensures Recorded(Swept(f, picked).nodes[node]) == Minus(Recorded(f.nodes[node]), Total(f.placements, node, overdue))
    ensures Held(Swept(f, picked).placements, node) == Minus(Recorded(f.nodes[node]), Total(f.placements, node, doomed))
  {
    CreditsAre(f.placements, now, picked, node, overdue);
    HeldAfterSweep(f, picked, node, doomed);
    OverdueIsDoomed(f.placements, now, picked, overdue, doomed);
    TotalsCompare(f.placements, node, overdue, doomed);
    SweptNodes(f, picked, node);
  }

  lemma HeldAfterSweep(f: Fleet, picked: seq<Placement>, node: Uuid, doomed: Placement -> bool)
    requires Balanced(f) && node in f.nodes && forall p :: doomed(p) == Doomed(p, picked)
    ensures Held(Swept(f, picked).placements, node) == Minus(Recorded(f.nodes[node]), Total(f.placements, node, doomed))
    ensures Covers(Recorded(f.nodes[node]), Total(f.placements, node, doomed))
  {
    SweptPlacements(f, picked);
    StruckTotal(f.placements, Swept(f, picked).placements, node, doomed);
    HeldIsNatural(Swept(f, picked).placements, node);
  }

  lemma OverdueIsDoomed(ps: seq<Placement>, now: int, picked: seq<Placement>, overdue: Placement -> bool, doomed: Placement -> bool)
    requires Selects(ps, now, picked)
    requires (forall p :: overdue(p) == Overdue(p, now)) && (forall p :: doomed(p) == Doomed(p, picked))
    ensures Within(ps, overdue, doomed)
    ensures AllOverdue(ps, now) <==> Within(ps, doomed, overdue)
  {
    SelectedAre(ps, now, picked);
    if AllOverdue(ps, now) {
      forall k | 0 <= k < |ps| && doomed(ps[k])
        ensures overdue(ps[k])
      {
        var p :| p in picked && p.release == ps[k].release;
        var i :| 0 <= i < |ps| && ps[i] == p;
      }
    } else {
      var i, k :| 0 <= i < |ps| && 0 <= k < |ps| && Overdue(ps[i], now) && ps[k].release == ps[i].release && ps[k].status == Placed
        && !Overdue(ps[k], now);
      assert ps[i] in picked;
      assert doomed(ps[k]) && !overdue(ps[k]);
    }
  }

  /** From balanced books, whatever is placed and in whatever order the overdue rows are selected, the expiry sweep
      leaves the books balanced exactly when no release has both an overdue placement and a Placed one that is not. */
  lemma ExpiryBalancesIff(f: Fleet, now: int, picked: seq<Placement>)
    requires Balanced(f) && OnNodes(f) && Selects(f.placements, now, picked)
    ensures Balanced(Swept(f, picked)) <==> AllOverdue(f.placements, now)
  {
    var ps, f' := f.placements, Swept(f, picked);
    var overdue, doomed := p => Overdue(p, now), p => Doomed(p, picked);
    OverdueIsDoomed(ps, now, picked, overdue, doomed);
    if AllOverdue(ps, now) {
      SweptKeys(f, picked);
      forall id | id in f'.nodes
        ensures Recorded(f'.nodes[id]) == Held(f'.placements, id)
      {
        NodeAfterSweep(f, now, picked, id, overdue, doomed);
        TotalsCompare(ps, id, overdue, doomed);
      }
    } else {
      var k :| 0 <= k < |ps| && doomed(ps[k]) && !overdue(ps[k]);
      assert ps[k].node in f.nodes;
      NodeAfterSweep(f, now, picked, ps[k].node, overdue, doomed);
      TotalsDiffer(ps, k, overdue, doomed);
      assert Recorded(f'.nodes[ps[k].node]) != Held(f'.placements, ps[k].node);
    }
  }

  lemma {:induction false} SweptKeys(f: Fleet, picked: seq<Placement>)
    ensures Swept(f, picked).nodes.Keys == f.nodes.Keys
  {
    if picked != [] {
      SweptKeys(f, picked[..|picked| - 1]);
    }
  }

  // ---------------------------------------------------------------- runs that reach it

  lemma PlaceBalances(f: Fleet, req: Request, active: seq<Uuid>, node: Uuid, expires: int)
    requires Balanced(f) && OnNodes(f) && Chosen(f, req, active, node)
    ensures Balanced(Place(f, req, node, expires)) && OnNodes(Place(f, req, node, expires))
  {
    forall id | id in f.nodes
      ensures Recorded(Place(f, req, node, expires).nodes[id]) == Held(Place(f, req, node, expires).placements, id)
    {
      PlaceBalancesNode(f, req, node, expires, id);
    }
  }

  lemma PlaceBalancesNode(f: Fleet, req: Request, node: Uuid, expires: int, id: Uuid)
    requires node in f.nodes && id in f.nodes && Recorded(f.nodes[id]) == Held(f.placements, id)
    ensures Recorded(Place(f, req, node, expires).nodes[id]) == Held(Place(f, req, node, expires).placements, id)
  {
    HeldSnoc(f.placements, Placement(req.release, node, Placed, req.cpu, req.mem, expires), id);
  }

  // Two calls of `schedule_release` for the same release, each of which finds a node.
  ghost predicate ScheduledTwice(f: Fleet, g: Fleet, req: Request, a: Pick, b: Pick) {
    && IdleFleet(f)
    && Chosen(f, req, a.active, a.node)
    && Chosen(Place(f, req, a.node, a.expires), req, b.active, b.node)
    && g == Place(Place(f, req, a.node, a.expires), req, b.node, b.expires)
  }

  datatype Pick = Pick(active: seq<Uuid>, node: Uuid, expires: int)

  function PlacementOf(req: Request, a: Pick): Placement { Placement(req.release, a.node, Placed, req.cpu, req.mem, a.expires) }

  lemma TwoPlacements(f: Fleet, g: Fleet, req: Request, a: Pick, b: Pick)
    requires ScheduledTwice(f, g, req, a, b)
    ensures Balanced(g) && OnNodes(g) && g.placements == [PlacementOf(req, a), PlacementOf(req, b)]
  {
    PlaceBalances(f, req, a.active, a.node, a.expires);
    PlaceBalances(Place(f, req, a.node, a.expires), req, b.active, b.node, b.expires);
  }

  lemma OneIsSelected(p: Placement, q: Placement, now: int)
    requires Overdue(p, now) && !Overdue(q, now)
    ensures Selects([p, q], now, [p])
  {
    assert [p, q][..1] == [p] && [p][..0] == [];
    assert OverdueRows([p], now) == [] + [p];
    assert OverdueRows([p, q], now) == [p] + [];
  }

  /** Whatever the nodes, scheduling a release twice and releasing it once loses count; and so does the expiry sweep
      that comes between the ends of the two leases. */
  lemma TwiceScheduledLosesCount(f: Fleet, g: Fleet, req: Request, a: Pick, b: Pick, now: int)
    requires ScheduledTwice(f, g, req, a, b)
    ensures Balanced(g) && !Balanced(Release(g, req.release))
    ensures a.expires < now <= b.expires ==> Selects(g.placements, now, [PlacementOf(req, a)]) && !Balanced(Swept(g, [PlacementOf(req, a)]))
  {
    TwoPlacements(f, g, req, a, b);
    assert g.placements[0].release == g.placements[1].release && Live(g.placements[0]) && Live(g.placements[1]);
    assert !Sole(g.placements, req.release, 1);
    ReleaseBalancesIff(g, req.release, 1);
    if a.expires < now <= b.expires {
      OneIsSelected(PlacementOf(req, a), PlacementOf(req, b), now);
      ExpiryBalancesIff(g, now, [PlacementOf(req, a)]);
    }
  }

  /** And there is such a run: one node with room for two. */
  lemma OneNodeLosesCount()
    ensures var f := Fleet(map[0 := Node(0, Online, true, false, 2, 2, 2, 0, 0, 0)], []);
      var req := Request(7, 1, 1, None, {});
      IdleFleet(f) && !Balanced(Exec(f, [Schedule(req, [0], 0, 0), Schedule(req, [0], 0, 9), Free(7)]))
  {
    var f := Fleet(map[0 := Node(0, Online, true, false, 2, 2, 2, 0, 0, 0)], []);
    var req := Request(7, 1, 1, None, {});
    RoomForTwo(f, req, Place(f, req, 0, 0));
  }

  lemma RoomForTwo(f: Fleet, req: Request, f1: Fleet)
    requires IdleFleet(f) && f.nodes.Keys == {0} && Eligible(f.nodes[0], req)
    requires f1 == Place(f, req, 0, 0) && Eligible(f1.nodes[0], req)
    ensures !Balanced(Exec(f, [Schedule(req, [0], 0, 0), Schedule(req, [0], 0, 9), Free(req.release)]))
  {
    var f2 := Place(f1, req, 0, 9);
    OnlyNodeIsChosen(f, req);
    OnlyNodeIsChosen(f1, req);
    TwiceScheduledLosesCount(f, f2, req, Pick([0], 0, 0), Pick([0], 0, 9), 0);
    ThreeSteps(f, Schedule(req, [0], 0, 0), f1, Schedule(req, [0], 0, 9), f2, Free(req.release));
  }

  lemma ThreeSteps(f: Fleet, a: Action, f1: Fleet, b: Action, f2: Fleet, c: Action)
    requires f1 == Step(f, a) && f2 == Step(f1, b)
    ensures Exec(f, [a, b, c]) == Step(f2, c)
  {
    var run := [a, b, c];
    assert run[..2][..1] == run[..1] && run[..1][..0] == [];
    assert Exec(f, run[..1]) == f1;
    assert Exec(f, run[..2]) == f2;
  }

  lemma OnlyNodeIsChosen(f: Fleet, req: Request)
    requires f.nodes.Keys == {0} && Eligible(f.nodes[0], req)
    ensures Chosen(f, req, [0], 0)
  {
    assert Rows(f, [0]) == [f.nodes[0]];
  }
}
