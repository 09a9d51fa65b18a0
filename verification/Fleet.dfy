/** Placements and node usage: every method of the scheduler as one atomic step over the two tables. */
module Fleet {
  import opened Common
  import opened NodeChoice

  datatype PlacementStatus = Placed | Active | Stopped | Failed

  // Placements in the order they were created.
  datatype Placement = Placement(release: Uuid, node: Uuid, status: PlacementStatus, cpu: nat, mem: nat, expires: int)

  datatype Fleet = Fleet(nodes: map<Uuid, Node>, placements: seq<Placement>)

  datatype Usage = Usage(cpu: int, mem: int, releases: int)

  function Idle(): Usage { Usage(0, 0, 0) }

  function Plus(a: Usage, b: Usage): Usage { Usage(a.cpu + b.cpu, a.mem + b.mem, a.releases + b.releases) }

  function Minus(a: Usage, b: Usage): Usage { Usage(a.cpu - b.cpu, a.mem - b.mem, a.releases - b.releases) }

  function Recorded(n: Node): Usage { Usage(n.cpuUsed, n.memUsed, n.releases) }

  predicate Live(p: Placement) { p.status == Placed || p.status == Active }

  function Load(p: Placement): Usage { if Live(p) then Usage(p.cpu, p.mem, 1) else Idle() }

  // GREATEST(0, x)
  function Clamp(x: int): nat { if x < 0 then 0 else x }

  function Credit(nodes: map<Uuid, Node>, id: Uuid, cpu: nat, mem: nat): map<Uuid, Node> {
    if id !in nodes then nodes
    else
      var n := nodes[id];
      nodes[id := n.(cpuUsed := Clamp(n.cpuUsed - cpu), memUsed := Clamp(n.memUsed - mem),
                     releases := Clamp(n.releases - 1))]
  }

  function Charge(nodes: map<Uuid, Node>, id: Uuid, cpu: nat, mem: nat): map<Uuid, Node> {
    if id !in nodes then nodes
    else
      var n := nodes[id];
      nodes[id := n.(cpuUsed := n.cpuUsed + cpu, memUsed := n.memUsed + mem, releases := n.releases + 1)]
  }

  // The transaction at the end of `schedule_release`, once a node has been chosen.
  function Place(f: Fleet, req: Request, node: Uuid, expires: int): Fleet {
    Fleet(Charge(f.nodes, node, req.cpu, req.mem),
          f.placements + [Placement(req.release, node, Placed, req.cpu, req.mem, expires)])
  }

  // UPDATE placements SET status = to, for the rows of the release (or only those still Placed)
  function Retire(ps: seq<Placement>, release: Uuid, to: PlacementStatus, onlyPlaced: bool): seq<Placement> {
    if ps == [] then []
    else
      var last := ps[|ps| - 1];
      Retire(ps[..|ps| - 1], release, to, onlyPlaced) + [Retired(last, release, to, onlyPlaced)]
  }

  function Retired(p: Placement, release: Uuid, to: PlacementStatus, onlyPlaced: bool): Placement {
    if p.release == release && (onlyPlaced ==> p.status == Placed) then p.(status := to) else p
  }

  // ORDER BY created_at DESC LIMIT 1
  function Latest(ps: seq<Placement>, release: Uuid): Option<Placement> {
    if ps == [] then None
    else if ps[|ps| - 1].release == release then Some(ps[|ps| - 1])
    else Latest(ps[..|ps| - 1], release)
  }

  // `release_placement`; a release that was never placed is an error and changes nothing.
  function Release(f: Fleet, release: Uuid): Fleet {
    match Latest(f.placements, release)
    case None => f
    case Some(p) =>
      if !Live(p) then f
      else Fleet(Credit(f.nodes, p.node, p.cpu, p.mem), Retire(f.placements, release, Stopped, false))
  }

  predicate Overdue(p: Placement, now: int) { p.status == Placed && p.expires < now }

  // The SELECT of the expiry sweep: every overdue placement, each once, in any order.
  ghost predicate SelectedOverdue(ps: seq<Placement>, rows: seq<nat>, now: int) {
    && (forall i :: 0 <= i < |rows| ==> rows[i] < |ps| && Overdue(ps[rows[i]], now))
    && (forall i, j :: 0 <= i < j < |rows| ==> rows[i] != rows[j])
    && (forall k :: 0 <= k < |ps| && Overdue(ps[k], now) ==> k in rows)
  }

  // One row of `reconcile_expired_leases`.
  function Expire(f: Fleet, p: Placement): Fleet {
    Fleet(Credit(f.nodes, p.node, p.cpu, p.mem), Retire(f.placements, p.release, Failed, true))
  }

  datatype Action =
    | Schedule(req: Request, active: seq<Uuid>, node: Uuid, expires: int)
    | Free(release: Uuid)
    | Lapse(row: nat, now: int)
    | Reschedule(req: Request, active: seq<Uuid>, node: Uuid, expires: int)

  function Rows(f: Fleet, ids: seq<Uuid>): seq<Node>
    requires forall i :: 0 <= i < |ids| ==> ids[i] in f.nodes
  {
    seq(|ids|, i requires 0 <= i < |ids| => f.nodes[ids[i]])
  }

  // The choice the scheduler makes among the listed nodes, if it makes one.
  ghost predicate Chosen(f: Fleet, req: Request, active: seq<Uuid>, node: Uuid) {
    && (forall i :: 0 <= i < |active| ==> active[i] in f.nodes)
    && node in f.nodes
    && Picked(f.nodes[node], Rows(f, active), req)
  }

  ghost function Step(f: Fleet, a: Action): Fleet {
    match a
    case Schedule(req, active, node, expires) =>
      if Chosen(f, req, active, node) then Place(f, req, node, expires) else f
    case Free(release) => Release(f, release)
    case Lapse(row, now) =>
      if row < |f.placements| && Overdue(f.placements[row], now) then Expire(f, f.placements[row]) else f
    case Reschedule(req, active, node, expires) =>
      var g := Release(f, req.release);
      if Chosen(g, req, active, node) then Place(g, req, node, expires) else g
  }

  ghost function Exec(f: Fleet, run: seq<Action>): Fleet {
    if run == [] then f else Step(Exec(f, run[..|run| - 1]), run[|run| - 1])
  }

  ghost predicate HasLive(ps: seq<Placement>, release: Uuid) {
    exists i :: 0 <= i < |ps| && ps[i].release == release && Live(ps[i])
  }

  // `schedule_release` is called only for a release that has no live placement.
  ghost predicate Honest(f: Fleet, a: Action) {
    a.Schedule? ==> !HasLive(f.placements, a.req.release)
  }

  ghost predicate HonestRun(f: Fleet, run: seq<Action>) {
    forall i :: 0 <= i < |run| ==> Honest(Exec(f, run[..i]), run[i])
  }

  // ---------------------------------------------------------------- accounting

  function LoadOn(p: Placement, node: Uuid): Usage { if p.node == node then Load(p) else Idle() }

  function LoadFor(p: Placement, node: Uuid, release: Uuid): Usage {
    if p.release == release then LoadOn(p, node) else Idle()
  }

  // What the live placements on a node add up to.
  function Held(ps: seq<Placement>, node: Uuid): Usage {
    if ps == [] then Idle() else Plus(Held(ps[..|ps| - 1], node), LoadOn(ps[|ps| - 1], node))
  }

  // The part of it that belongs to one release.
  function HeldBy(ps: seq<Placement>, node: Uuid, release: Uuid): Usage {
    if ps == [] then Idle()
    else Plus(HeldBy(ps[..|ps| - 1], node, release), LoadFor(ps[|ps| - 1], node, release))
  }

  ghost predicate Balanced(f: Fleet) {
    forall id :: id in f.nodes ==> Recorded(f.nodes[id]) == Held(f.placements, id)
  }

  ghost predicate WithinCapacity(f: Fleet) {
    forall id :: id in f.nodes ==>
      && f.nodes[id].cpuUsed <= f.nodes[id].cpuCapacity
      && f.nodes[id].memUsed <= f.nodes[id].memCapacity
      && f.nodes[id].releases <= f.nodes[id].maxReleases
  }

  // Only the latest placement of a release can be live, and placements are on known nodes.
  ghost predicate Succession(ps: seq<Placement>) {
    forall i, j :: 0 <= i < j < |ps| && ps[i].release == ps[j].release ==> !Live(ps[i])
  }

  // The node table is indexed by the nodes' own ids.
  ghost predicate Keyed(nodes: map<Uuid, Node>) { forall id :: id in nodes ==> nodes[id].id == id }

  ghost predicate OnNodes(f: Fleet) {
    forall i :: 0 <= i < |f.placements| ==> f.placements[i].node in f.nodes
  }

  ghost predicate Inv(f: Fleet) {
    Balanced(f) && WithinCapacity(f) && Succession(f.placements) && OnNodes(f) && Keyed(f.nodes)
  }

  // Retiring a release removes exactly its own share of every node.
  lemma {:induction false} RetireRemovesShare(ps: seq<Placement>, node: Uuid, release: Uuid, to: PlacementStatus, onlyPlaced: bool)
    requires to == Stopped || to == Failed
    requires onlyPlaced ==> forall i :: 0 <= i < |ps| && ps[i].release == release ==> ps[i].status != Active
    ensures Plus(Held(Retire(ps, release, to, onlyPlaced), node), HeldBy(ps, node, release)) == Held(ps, node)
  {
    if ps != [] {
      var front, last := ps[..|ps| - 1], ps[|ps| - 1];
      RetireRemovesShare(front, node, release, to, onlyPlaced);
      var gone := Retired(last, release, to, onlyPlaced);
      HeldSnoc(Retire(front, release, to, onlyPlaced), gone, node);
      RetiredLoad(last, node, release, to, onlyPlaced);
      PlusSwaps(Held(Retire(front, release, to, onlyPlaced), node), LoadOn(gone, node),
                HeldBy(front, node, release), LoadFor(last, node, release));
    }
  }

  lemma RetiredLoad(p: Placement, node: Uuid, release: Uuid, to: PlacementStatus, onlyPlaced: bool)
    requires (to == Stopped || to == Failed) && (onlyPlaced && p.release == release ==> p.status != Active)
    ensures Plus(LoadOn(Retired(p, release, to, onlyPlaced), node), LoadFor(p, node, release)) == LoadOn(p, node)
  {
  }

  lemma PlusSwaps(a: Usage, b: Usage, c: Usage, d: Usage)
    ensures Plus(Plus(a, b), Plus(c, d)) == Plus(Plus(a, c), Plus(b, d))
  {
  }

  lemma HeldSnoc(ps: seq<Placement>, p: Placement, node: Uuid)
    ensures Held(ps + [p], node) == Plus(Held(ps, node), LoadOn(p, node))
  {
    assert (ps + [p])[..|ps|] == ps;
  }

  lemma {:induction false} RetireIndexed(ps: seq<Placement>, release: Uuid, to: PlacementStatus, onlyPlaced: bool)
    ensures var r := Retire(ps, release, to, onlyPlaced);
      && |r| == |ps|
      && forall i :: 0 <= i < |ps| ==>
           r[i] == Retired(ps[i], release, to, onlyPlaced)
  {
    if ps != [] {
      RetireIndexed(ps[..|ps| - 1], release, to, onlyPlaced);
    }
  }

  lemma {:induction false} NoShare(ps: seq<Placement>, node: Uuid, release: Uuid)
    requires !HasLive(ps, release)
    ensures HeldBy(ps, node, release) == Idle()
  {
    if ps != [] {
      var front := ps[..|ps| - 1];
      assert ps[|ps| - 1].release == release ==> !Live(ps[|ps| - 1]);
      assert forall i :: 0 <= i < |front| ==> front[i] == ps[i];
      NoShare(front, node, release);
    }
  }

  // Placement k is the only live one of its release.
  ghost predicate Sole(ps: seq<Placement>, release: Uuid, k: nat) {
    && k < |ps| && ps[k].release == release && Live(ps[k])
    && forall i :: 0 <= i < |ps| && ps[i].release == release && Live(ps[i]) ==> i == k
  }

  lemma {:induction false} ShareOfOne(ps: seq<Placement>, node: Uuid, release: Uuid, k: nat)
    requires Sole(ps, release, k)
    ensures HeldBy(ps, node, release) == LoadOn(ps[k], node)
  {
    var front, last := ps[..|ps| - 1], ps[|ps| - 1];
    assert forall i :: 0 <= i < |front| ==> front[i] == ps[i];
    if k == |ps| - 1 {
      assert !HasLive(front, release);
      NoShare(front, node, release);
      assert HeldBy(ps, node, release) == Plus(Idle(), LoadFor(last, node, release));
    } else {
      assert LoadFor(last, node, release) == Idle();
      ShareOfOne(front, node, release, k);
    }
  }

  lemma {:induction false} LatestIsThere(ps: seq<Placement>, release: Uuid)
    ensures match Latest(ps, release)
      case None => forall i :: 0 <= i < |ps| ==> ps[i].release != release
      case Some(p) => exists k :: 0 <= k < |ps| && ps[k] == p && p.release == release
                               && forall i :: k < i < |ps| ==> ps[i].release != release
  {
    if ps != [] && ps[|ps| - 1].release != release {
      LatestIsThere(ps[..|ps| - 1], release);
      var front := ps[..|ps| - 1];
      if Latest(ps, release).Some? {
        var p := Latest(ps, release).value;
        var k :| 0 <= k < |front| && front[k] == p && p.release == release && forall i :: k < i < |front| ==> front[i].release != release;
        assert ps[k] == p;
      }
    }
  }
}
