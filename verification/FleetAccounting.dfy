/** What the scheduler's bookkeeping is worth: usage is conserved in every run that schedules a release only while it
    has no live placement, and without that rule exactly when a release balances. */
module FleetAccounting {
  import opened Common
  import opened NodeChoice
  import opened Fleet

  lemma {:induction false} HeldIsNatural(ps: seq<Placement>, node: Uuid)
    ensures Held(ps, node).cpu >= 0 && Held(ps, node).mem >= 0 && Held(ps, node).releases >= 0
  {
    if ps != [] {
      HeldIsNatural(ps[..|ps| - 1], node);
    }
  }

  // Taking down the one live placement of a release, by release or by expiry.
  function TakeDown(f: Fleet, p: Placement, to: PlacementStatus, onlyPlaced: bool): Fleet {
    Fleet(Credit(f.nodes, p.node, p.cpu, p.mem), Retire(f.placements, p.release, to, onlyPlaced))
  }

  lemma {:induction false} LiveIsLatest(ps: seq<Placement>, k: nat)
    requires Succession(ps) && k < |ps| && Live(ps[k])
    ensures Sole(ps, ps[k].release, k) && Latest(ps, ps[k].release) == Some(ps[k])
  {
    if k < |ps| - 1 {
      assert ps[|ps| - 1].release != ps[k].release;
      LiveIsLatest(ps[..|ps| - 1], k);
    }
  }

  // The books of one node after the placement is taken down.
  lemma TakeDownBooks(f: Fleet, k: nat, to: PlacementStatus, onlyPlaced: bool, id: Uuid)
    requires Inv(f) && k < |f.placements| && Live(f.placements[k]) && (to == Stopped || to == Failed)
    requires onlyPlaced ==> f.placements[k].status == Placed
    requires id in f.nodes
    ensures var p := f.placements[k];
      Held(Retire(f.placements, p.release, to, onlyPlaced), id)
        == Minus(Recorded(f.nodes[id]), LoadOn(p, id))
    ensures var left := Minus(Recorded(f.nodes[id]), LoadOn(f.placements[k], id));
      left.cpu >= 0 && left.mem >= 0 && left.releases >= 0
  {
    var ps, p := f.placements, f.placements[k];
    LiveIsLatest(ps, k);
    RetireRemovesShare(ps, id, p.release, to, onlyPlaced);
    ShareOfOne(ps, id, p.release, k);
    HeldIsNatural(Retire(ps, p.release, to, onlyPlaced), id);
  }

  lemma TakeDownTable(f: Fleet, k: nat, to: PlacementStatus, onlyPlaced: bool)
    requires Succession(f.placements) && OnNodes(f) && k < |f.placements| && Live(f.placements[k])
    requires (to == Stopped || to == Failed) && (onlyPlaced ==> f.placements[k].status == Placed)
    ensures var f' := TakeDown(f, f.placements[k], to, onlyPlaced);
      Succession(f'.placements) && OnNodes(f') && !HasLive(f'.placements, f.placements[k].release)
  {
    var ps, p := f.placements, f.placements[k];
    RetireIndexed(ps, p.release, to, onlyPlaced);
    var r := Retire(ps, p.release, to, onlyPlaced);
    LiveIsLatest(ps, k);
    assert forall i :: 0 <= i < |r| && r[i].release == p.release ==> !Live(r[i]);
  }

  lemma TakeDownKeepsInv(f: Fleet, k: nat, to: PlacementStatus, onlyPlaced: bool)
    requires Inv(f) && k < |f.placements| && Live(f.placements[k]) && (to == Stopped || to == Failed)
    requires onlyPlaced ==> f.placements[k].status == Placed
    ensures var f' := TakeDown(f, f.placements[k], to, onlyPlaced);
      && Inv(f')
      && Latest(f.placements, f.placements[k].release) == Some(f.placements[k])
      && !HasLive(f'.placements, f.placements[k].release)
  {
    var p := f.placements[k];
    var f' := TakeDown(f, p, to, onlyPlaced);
    TakeDownTable(f, k, to, onlyPlaced);
    LiveIsLatest(f.placements, k);
    forall id | id in f'.nodes
      ensures Recorded(f'.nodes[id]) == Held(f'.placements, id)
    {
      TakeDownBooks(f, k, to, onlyPlaced, id);
    }
  }

  lemma PlaceKeepsInv(f: Fleet, req: Request, active: seq<Uuid>, node: Uuid, expires: int)
    requires Inv(f) && Chosen(f, req, active, node) && !HasLive(f.placements, req.release)
    ensures Inv(Place(f, req, node, expires))
  {
    var p := Placement(req.release, node, Placed, req.cpu, req.mem, expires);
    var f' := Place(f, req, node, expires);
    forall id | id in f'.nodes
      ensures Recorded(f'.nodes[id]) == Held(f'.placements, id)
    {
      HeldSnoc(f.placements, p, id);
    }
    assert Succession(f'.placements);
  }

  lemma ReleaseKeepsInv(f: Fleet, release: Uuid)
    requires Inv(f)
    ensures Inv(Release(f, release)) && !HasLive(Release(f, release).placements, release)
  {
    LatestIsThere(f.placements, release);
    if Latest(f.placements, release).Some? {
      var p := Latest(f.placements, release).value;
      var k :| 0 <= k < |f.placements| && f.placements[k] == p && p.release == release
            && forall i :: k < i < |f.placements| ==> f.placements[i].release != release;
      if Live(p) {
        TakeDownKeepsInv(f, k, Stopped, false);
      }
    }
  }

  lemma StepKeepsInv(f: Fleet, a: Action)
    requires Inv(f) && Honest(f, a)
    ensures Inv(Step(f, a))
  {
    match a
    case Schedule(req, active, node, expires) =>
      if Chosen(f, req, active, node) {
        PlaceKeepsInv(f, req, active, node, expires);
      }
    case Free(release) => ReleaseKeepsInv(f, release);
    case Lapse(row, now) =>
      if row < |f.placements| && Overdue(f.placements[row], now) {
        TakeDownKeepsInv(f, row, Failed, true);
      }
    case Reschedule(req, active, node, expires) =>
      ReleaseKeepsInv(f, req.release);
      var g := Release(f, req.release);
      if Chosen(g, req, active, node) {
        PlaceKeepsInv(g, req, active, node, expires);
      }
  }

  ghost predicate IdleFleet(f: Fleet) {
    && f.placements == []
    && Keyed(f.nodes)
    && forall id :: id in f.nodes ==> Recorded(f.nodes[id]) == Idle()
  }

  lemma {:induction false} ExecKeepsInv(f: Fleet, run: seq<Action>)
    requires Inv(f) && HonestRun(f, run)
    ensures Inv(Exec(f, run))
  {
    if run != [] {
      var front := run[..|run| - 1];
      forall i | 0 <= i < |front|
        ensures Honest(Exec(f, front[..i]), front[i])
      {
        assert front[..i] == run[..i];
      }
      ExecKeepsInv(f, front);
      StepKeepsInv(Exec(f, front), run[|run| - 1]);
    }
  }

  /** Conservation. From idle nodes, after any run of schedule, release, reschedule and expiry steps in
      which a release is scheduled only while it has no live placement, the usage recorded for each node is
      the sum over its live placements and stays within the node's capacity. */
  lemma UsageIsConserved(f: Fleet, run: seq<Action>)
    requires IdleFleet(f) && HonestRun(f, run)
    ensures Balanced(Exec(f, run)) && WithinCapacity(Exec(f, run))
  {
    ExecKeepsInv(f, run);
  }

  /** Nothing is credited twice: in such a run, when a live placement is taken down its node has at least
      that much recorded, so GREATEST(0, ..) never changes a value. */
  lemma ClampNeverBites(f: Fleet, run: seq<Action>, k: nat)
    requires IdleFleet(f) && HonestRun(f, run)
    requires k < |Exec(f, run).placements| && Live(Exec(f, run).placements[k])
    ensures var g := Exec(f, run);
      var p := g.placements[k];
      && p.node in g.nodes
      && g.nodes[p.node].cpuUsed >= p.cpu && g.nodes[p.node].memUsed >= p.mem && g.nodes[p.node].releases >= 1
  {
    ExecKeepsInv(f, run);
    var g := Exec(f, run);
    TakeDownBooks(g, k, Stopped, false, g.placements[k].node);
  }

  // ---------------------------------------------------------------- exactly when a release balances

  lemma {:induction false} SharesCount(ps: seq<Placement>, release: Uuid, i: nat, j: nat)
    requires i < |ps| && j < |ps| && ps[i].release == release == ps[j].release && Live(ps[i]) && Live(ps[j])
    requires ps[i].node == ps[j].node
    ensures HeldBy(ps, ps[i].node, release).releases >= if i == j then 1 else 2
  {
    var n, node := |ps| - 1, ps[i].node;
    var front := ps[..n];
    SharesNatural(front, node, release);
    assert HeldBy(ps, node, release) == Plus(HeldBy(front, node, release), LoadFor(ps[n], node, release));
    if i < n && j < n {
      SharesCount(front, release, i, j);
    } else if i < n {
      SharesCount(front, release, i, i);
    } else if j < n {
      SharesCount(front, release, j, j);
    }
  }

  lemma {:induction false} SharesNatural(ps: seq<Placement>, node: Uuid, release: Uuid)
    ensures HeldBy(ps, node, release).releases >= 0
  {
    if ps != [] {
      SharesNatural(ps[..|ps| - 1], node, release);
    }
  }

  // The books of one node after `release_placement` has stopped every placement of the release.
  lemma ReleasedBooks(f: Fleet, release: Uuid, id: Uuid)
    requires Balanced(f) && id in f.nodes && Latest(f.placements, release).Some? && Live(Latest(f.placements, release).value)
    ensures var p := Latest(f.placements, release).value;
      var f' := Release(f, release);
      && Held(f'.placements, id) == Minus(Recorded(f.nodes[id]), HeldBy(f.placements, id, release))
      && (id != p.node ==> f'.nodes[id] == f.nodes[id])
      && (id == p.node ==> f'.nodes[id].releases == Clamp(f.nodes[id].releases - 1))
  {
    RetireRemovesShare(f.placements, id, release, Stopped, false);
  }

  lemma SoleBalances(f: Fleet, release: Uuid, k: nat, id: Uuid)
    requires Balanced(f) && OnNodes(f) && k < |f.placements| && f.placements[k].release == release && Live(f.placements[k])
    requires Latest(f.placements, release) == Some(f.placements[k]) && Sole(f.placements, release, k) && id in f.nodes
    ensures Recorded(Release(f, release).nodes[id]) == Held(Release(f, release).placements, id)
  {
    ReleasedBooks(f, release, id);
    ShareOfOne(f.placements, id, release, k);
    HeldIsNatural(Release(f, release).placements, id);
  }

  lemma OtherUnbalances(f: Fleet, release: Uuid, k: nat, i: nat)
    requires Balanced(f) && OnNodes(f) && k < |f.placements| && f.placements[k].release == release && Live(f.placements[k])
    requires Latest(f.placements, release) == Some(f.placements[k])
    requires i < |f.placements| && f.placements[i].release == release && Live(f.placements[i]) && i != k
    ensures !Balanced(Release(f, release))
  {
    var id := f.placements[i].node;
    assert id in f.nodes;
    ReleasedBooks(f, release, id);
    SharesCount(f.placements, release, i, if id == f.placements[k].node then k else i);
    HeldIsNatural(Release(f, release).placements, id);
    assert Recorded(Release(f, release).nodes[id]) != Held(Release(f, release).placements, id);
  }

  /** Without the rule about scheduling, releasing keeps the books exactly when the release has no other
      live placement: `release_placement` stops them all but credits only the latest. */
  lemma ReleaseBalancesIff(f: Fleet, release: Uuid, k: nat)
    requires Balanced(f) && OnNodes(f) && k < |f.placements| && f.placements[k].release == release && Live(f.placements[k])
    requires Latest(f.placements, release) == Some(f.placements[k])
    ensures Balanced(Release(f, release)) <==> Sole(f.placements, release, k)
  {
    if Sole(f.placements, release, k) {
      forall id | id in Release(f, release).nodes
        ensures Recorded(Release(f, release).nodes[id]) == Held(Release(f, release).placements, id)
      {
        SoleBalances(f, release, k, id);
      }
    } else {
      var i :| 0 <= i < |f.placements| && f.placements[i].release == release && Live(f.placements[i]) && i != k;
      OtherUnbalances(f, release, k, i);
    }
  }
}
