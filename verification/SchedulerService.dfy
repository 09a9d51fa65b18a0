// The scheduler as the control plane calls it.
module SchedulerService {
  import opened Common
  import opened NodeChoice
  import opened Fleet
  import opened FleetAccounting

  function ReleasesOf(ps: seq<Placement>, rows: seq<nat>): seq<Uuid>
    requires forall i :: 0 <= i < |rows| ==> rows[i] < |ps|
  {
    if rows == [] then [] else ReleasesOf(ps, rows[..|rows| - 1]) + [ps[rows[|rows| - 1]].release]
  }

  // The node takes work and has room for the request, and this is what it has taken on.
  predicate Takes(n: Node, req: Request, n': Node) {
    && n.status == Online && n.enabled && !n.draining
    && n.cpuUsed + req.cpu <= n.cpuCapacity && n.memUsed + req.mem <= n.memCapacity && n.releases < n.maxReleases
    && n' == n.(cpuUsed := n.cpuUsed + req.cpu, memUsed := n.memUsed + req.mem, releases := n.releases + 1)
  }

  // The listed rows have become Failed and nothing else has changed.
  ghost predicate Lapsed(was: seq<Placement>, ps: seq<Placement>, rows: seq<nat>) {
    && |ps| == |was|
    && forall k :: 0 <= k < |ps| ==> ps[k] == if k in rows then was[k].(status := Failed) else was[k]
  }

  lemma LapsedNext(was: seq<Placement>, ps: seq<Placement>, ps': seq<Placement>, rows: seq<nat>, k: nat)
    requires Lapsed(was, ps, rows) && k < |ps| && k !in rows && |ps'| == |ps| && ps'[k] == ps[k].(status := Failed)
    requires forall i :: 0 <= i < |ps| && i != k ==> ps'[i] == ps[i]
    ensures Lapsed(was, ps', rows + [k])
  {
  }

  /** What releasing does, in terms of the rows: if the latest placement of the release is Placed or Active, every
      placement of the release becomes Stopped and that one's node is credited with it, never below nothing; a
      latest placement that is over, or none, leaves everything as it was. */
  lemma ReleaseIs(f: Fleet, release: Uuid, k: nat)
    requires k < |f.placements| && f.placements[k].release == release
    requires forall i :: k < i < |f.placements| ==> f.placements[i].release != release
    ensures var ps, p, f' := f.placements, f.placements[k], Release(f, release);
      && (p.status == Stopped || p.status == Failed ==> f' == f)
      && (p.status == Placed || p.status == Active ==>
            && |f'.placements| == |ps|
            && (forall i :: 0 <= i < |ps| ==>
                  f'.placements[i] == if ps[i].release == release then ps[i].(status := Stopped) else ps[i])
            && f'.nodes.Keys == f.nodes.Keys
            && (forall id :: id in f.nodes && id != p.node ==> f'.nodes[id] == f.nodes[id])
            && (p.node in f.nodes ==>
                  var n, n' := f.nodes[p.node], f'.nodes[p.node];
                  && n' == n.(cpuUsed := n'.cpuUsed, memUsed := n'.memUsed, releases := n'.releases)
                  && n'.cpuUsed == (if n.cpuUsed > p.cpu then n.cpuUsed - p.cpu else 0)
                  && n'.memUsed == (if n.memUsed > p.mem then n.memUsed - p.mem else 0)
                  && n'.releases == if n.releases > 1 then n.releases - 1 else 0))
  {
    LatestAt(f.placements, release, k);
    RetireIndexed(f.placements, release, Stopped, false);
  }

  lemma {:induction false} LatestAt(ps: seq<Placement>, release: Uuid, k: nat)
    requires k < |ps| && ps[k].release == release && forall i :: k < i < |ps| ==> ps[i].release != release
    ensures Latest(ps, release) == Some(ps[k])
  {
    if k < |ps| - 1 {
      assert ps[|ps| - 1].release != release;
      LatestAt(ps[..|ps| - 1], release, k);
    }
  }

  // Expiring one overdue placement changes no other live one, and none becomes overdue.
  lemma ExpireTouchesOneRow(f: Fleet, k: nat)
    requires Inv(f) && k < |f.placements| && f.placements[k].status == Placed
    ensures var ps := Expire(f, f.placements[k]).placements;
      && |ps| == |f.placements|
      && ps[k].status == Failed
      && forall i :: 0 <= i < |ps| && i != k ==> ps[i] == f.placements[i]
  {
    RetireIndexed(f.placements, f.placements[k].release, Failed, true);
    LiveIsLatest(f.placements, k);
  }

  class Scheduler {
    var nodes: map<Uuid, Node>
    var placements: seq<Placement>

    ghost function State(): Fleet
      reads this
    {
      Fleet(nodes, placements)
    }

    constructor (nodes: map<Uuid, Node>)
      requires IdleFleet(Fleet(nodes, []))
      ensures this.nodes == nodes && placements == [] && Inv(State())
    {
      this.nodes := nodes;
      placements := [];
    }

    /** Places the release on the best eligible node, or fails and changes nothing exactly when no listed
        node is eligible. */
    method ScheduleRelease(req: Request, active: seq<Uuid>, expires: int) returns (r: Result<Uuid>)
      requires Keyed(nodes) && (forall i :: 0 <= i < |active| ==> active[i] in nodes)
      modifies this
      ensures Keyed(nodes)
      ensures r.Err? <==> forall i :: 0 <= i < |active| ==> !Eligible(old(nodes)[active[i]], req)
      ensures r.Err? ==> State() == old(State())
      ensures r.Err? ==> forall i :: 0 <= i < |active| ==>
        var n := old(nodes)[active[i]];
        || (req.candidates.Some? && n.id !in req.candidates.value) || n.id in req.avoid
        || n.status != Online || !n.enabled || n.draining
        || n.cpuUsed + req.cpu > n.cpuCapacity || n.memUsed + req.mem > n.memCapacity
        || n.releases >= n.maxReleases
      ensures r.Ok? ==> Chosen(old(State()), req, active, r.value) && State() == Place(old(State()), req, r.value, expires)
      ensures r.Ok? ==> State() == Step(old(State()), Schedule(req, active, r.value, expires))
      ensures r.Ok? ==> r.value in active && Takes(old(nodes)[r.value], req, nodes[r.value])
      ensures r.Ok? ==>
        && (req.candidates.Some? ==> r.value in req.candidates.value) && r.value !in req.avoid
        && placements == old(placements) + [Placement(req.release, r.value, Placed, req.cpu, req.mem, expires)]
        && nodes == old(nodes)[r.value := nodes[r.value]]
      ensures Inv(old(State())) && !HasLive(old(placements), req.release) ==> Inv(State())
    {
      var chosen := Choose(req, active);
      if chosen.None? {
        return Err;
      }
      var id := chosen.value;
      if Inv(State()) && !HasLive(placements, req.release) {
        PlaceKeepsInv(State(), req, active, id, expires);
      }
      placements := placements + [Placement(req.release, id, Placed, req.cpu, req.mem, expires)];
      nodes := Charge(nodes, id, req.cpu, req.mem);
      r := Ok(id);
    }

    // The choice among the listed rows of the node table.
    method Choose(req: Request, active: seq<Uuid>) returns (r: Option<Uuid>)
      requires Keyed(nodes) && (forall i :: 0 <= i < |active| ==> active[i] in nodes)
      ensures r.None? ==> forall i :: 0 <= i < |active| ==> !Eligible(nodes[active[i]], req)
      ensures r.Some? ==> r.value in active && r.value in nodes && Eligible(nodes[r.value], req)
      ensures r.Some? ==> Chosen(State(), req, active, r.value)
    {
      var rows := Rows(Fleet(nodes, placements), active);
      assert forall i :: 0 <= i < |active| ==> rows[i] == nodes[active[i]] && rows[i] in rows;
      var chosen := SelectNode(rows, req);
      if chosen.None? {
        return None;
      }
      var n := chosen.value;
      assert n.id in active && nodes[n.id] == n by {
        var i :| 0 <= i < |rows| && rows[i] == n;
        assert nodes[active[i]] == n;
      }
      r := Some(n.id);
    }

    method ReleasePlacement(release: Uuid) returns (found: bool)
      modifies this
      ensures State() == Release(old(State()), release) == Step(old(State()), Free(release))
      ensures found <==> Latest(old(placements), release).Some?
      ensures Inv(old(State())) ==> Inv(State()) && !HasLive(placements, release)
    {
      if Inv(State()) {
        ReleaseKeepsInv(State(), release);
      }
      var latest := Latest(placements, release);
      if latest.None? {
        return false;
      }
      var p := latest.value;
      if Live(p) {
        placements := Retire(placements, release, Stopped, false);
        nodes := Credit(nodes, p.node, p.cpu, p.mem);
      }
      found := true;
    }

    /** Moves a release away from a failed node: its old placement is released first, so the release never
        holds two, and the new node is not the failed one. */
    method RescheduleFailedRelease(req: Request, failed: Uuid, active: seq<Uuid>, expires: int) returns (r: Result<Uuid>)
      requires Keyed(nodes) && (forall i :: 0 <= i < |active| ==> active[i] in nodes)
      modifies this
      ensures Inv(old(State())) ==> Inv(State())
      ensures r.Ok? ==>
        && r.value != failed && r.value in active
        && State() == Place(Release(old(State()), req.release), req.(avoid := {failed}), r.value, expires)
      ensures r.Ok? ==> State() == Step(old(State()), Reschedule(req.(avoid := {failed}), active, r.value, expires))
      ensures r.Err? ==> State() == Release(old(State()), req.release)
    {
      var _ := ReleasePlacement(req.release);
      r := ScheduleRelease(req.(avoid := {failed}), active, expires);
      if r.Ok? {
        ghost var g := Release(old(State()), req.release);
        assert Chosen(g, req.(avoid := {failed}), active, r.value);
        assert g.nodes[r.value] in Rows(g, active);
      }
    }

    // One pass of the expiry loop.
    method ExpireRow(k: nat) returns (release: Uuid)
      requires Inv(State()) && k < |placements| && placements[k].status == Placed
      modifies this
      ensures Inv(State()) && State() == Expire(old(State()), old(placements)[k])
      ensures forall now :: old(placements)[k].expires < now ==> State() == Step(old(State()), Lapse(k, now))
      ensures |placements| == |old(placements)| && placements[k] == old(placements)[k].(status := Failed)
      ensures forall i :: 0 <= i < |placements| && i != k ==> placements[i] == old(placements)[i]
      ensures release == old(placements)[k].release
    {
      var p := placements[k];
      TakeDownKeepsInv(State(), k, Failed, true);
      ExpireTouchesOneRow(State(), k);
      ExpiredRow(placements, p, k);
      placements := Retire(placements, p.release, Failed, true);
      nodes := Credit(nodes, p.node, p.cpu, p.mem);
      release := p.release;
    }

    /** The expiry sweep: exactly the overdue placements become Failed, each credited once to its node, and
        the books stay balanced. */
    method ReconcileExpiredLeases(rows: seq<nat>, now: int) returns (expired: seq<Uuid>)
      requires Inv(State()) && SelectedOverdue(placements, rows, now)
      modifies this
      ensures Inv(State())
      ensures |placements| == |old(placements)|
      ensures forall k :: 0 <= k < |placements| ==>
        var p := old(placements)[k];
        placements[k] == if p.status == Placed && p.expires < now then p.(status := Failed) else p
      ensures expired == ReleasesOf(old(placements), rows)
    {
      expired := [];
      ghost var done: seq<nat> := [];
      for i := 0 to |rows|
        invariant Inv(State()) == true
        invariant done == rows[..i]
        invariant Lapsed(old(placements), placements, done) == true
        invariant expired == ReleasesOf(old(placements), done)
      {
        var k := rows[i];
        NextRow(old(placements), placements, rows, i, done, now);
        ghost var was := placements;
        var release := ExpireRow(k);
        LapsedNext(old(placements), was, placements, done, k);
        expired := expired + [release];
        done := done + [k];
      }
      assert rows[..|rows|] == rows;
      LapsedAll(old(placements), placements, rows, now);
    }
  }

  // The next row selected is still as it was when it was selected.
  lemma NextRow(was: seq<Placement>, ps: seq<Placement>, rows: seq<nat>, i: nat, done: seq<nat>, now: int)
    requires SelectedOverdue(was, rows, now) && i < |rows| && done == rows[..i] && Lapsed(was, ps, done)
    ensures rows[i] < |ps| && rows[i] !in done && ps[rows[i]] == was[rows[i]] && ps[rows[i]].status == Placed
    ensures rows[..i + 1] == done + [rows[i]]
    ensures ReleasesOf(was, done + [rows[i]]) == ReleasesOf(was, done) + [was[rows[i]].release]
  {
    assert (done + [rows[i]])[..i] == done;
  }

  lemma LapsedAll(was: seq<Placement>, ps: seq<Placement>, rows: seq<nat>, now: int)
    requires Lapsed(was, ps, rows) && SelectedOverdue(was, rows, now)
    ensures |ps| == |was|
    ensures forall k :: 0 <= k < |ps| ==>
      ps[k] == if was[k].status == Placed && was[k].expires < now then was[k].(status := Failed) else was[k]
  {
    forall k | 0 <= k < |ps|
      ensures k in rows <==> was[k].status == Placed && was[k].expires < now
    {
    }
  }

  lemma ExpiredRow(ps: seq<Placement>, p: Placement, k: nat)
    requires k < |ps| && ps[k] == p && p.status == Placed
    ensures |Retire(ps, p.release, Failed, true)| == |ps| && Retire(ps, p.release, Failed, true)[k] == p.(status := Failed)
  {
    RetireIndexed(ps, p.release, Failed, true);
  }
}
