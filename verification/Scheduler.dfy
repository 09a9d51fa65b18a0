// Choosing a node for a release.
module NodeChoice {
  import opened Common
  import opened Sorting

  datatype NodeStatus = Online | Degraded | Draining | Offline

  datatype Node = Node(id: Uuid, status: NodeStatus, enabled: bool, draining: bool,
                       cpuCapacity: nat, memCapacity: nat, maxReleases: nat,
                       cpuUsed: nat, memUsed: nat, releases: nat)

  datatype Request = Request(release: Uuid, cpu: nat, mem: nat, candidates: Option<set<Uuid>>, avoid: set<Uuid>)

  // A floating-point result, rounding aside.
  datatype Score = Number(value: real) | PlusInfinity | MinusInfinity | NotANumber

  // Division of two numbers that are not negative.
  function Divide(x: nat, y: nat): Score {
    if y != 0 then Number(x as real / y as real) else if x == 0 then NotANumber else PlusInfinity
  }

  // 1.0 - s
  function OneMinus(s: Score): Score {
    match s
    case Number(x) => Number(1.0 - x)
    case PlusInfinity => MinusInfinity
    case MinusInfinity => PlusInfinity
    case NotANumber => NotANumber
  }

  // (s + t) / 2.0
  function Mean(s: Score, t: Score): Score {
    if s.NotANumber? || t.NotANumber? then NotANumber
    else if s.Number? && t.Number? then Number((s.value + t.value) / 2.0)
    else if s.Number? || s == t then t
    else if t.Number? then s
    else NotANumber
  }

  // s < t; nothing compares with NaN.
  predicate Less(s: Score, t: Score) {
    match (s, t)
    case (Number(x), Number(y)) => x < y
    case (Number(_), PlusInfinity) => true
    case (MinusInfinity, Number(_)) => true
    case (MinusInfinity, PlusInfinity) => true
    case _ => false
  }

  predicate Fits(n: Node, cpu: nat, mem: nat) {
    && n.status == Online && n.enabled && !n.draining
    && n.cpuUsed + cpu <= n.cpuCapacity
    && n.memUsed + mem <= n.memCapacity
    && n.releases < n.maxReleases
  }

  function ScoreNode(n: Node, cpu: nat, mem: nat): Option<Score> {
    if !Fits(n, cpu, mem) then None
    else Some(Mean(OneMinus(Divide(n.cpuUsed + cpu, n.cpuCapacity)), OneMinus(Divide(n.memUsed + mem, n.memCapacity))))
  }

  predicate Allowed(n: Node, req: Request) {
    (req.candidates.Some? ==> n.id in req.candidates.value) && n.id !in req.avoid
  }

  predicate Eligible(n: Node, req: Request) { Allowed(n, req) && Fits(n, req.cpu, req.mem) }

  datatype Candidate = Candidate(node: Node, score: Score)

  // The comparison of the sort: higher score first, then smaller id; scores that do not compare tie.
  predicate Before(a: Candidate, b: Candidate) {
    if Less(b.score, a.score) then true
    else if Less(a.score, b.score) then false
    else a.node.id <= b.node.id
  }

  // The order the sort is meant to follow, on candidates whose scores are numbers.
  predicate Ahead(a: Candidate, b: Candidate) {
    match (a.score, b.score)
    case (Number(x), Number(y)) => x > y || (x == y && a.node.id <= b.node.id)
    case (Number(_), _) => true
    case (_, Number(_)) => false
    case (_, _) => a.node.id <= b.node.id
  }

  /** Following the arithmetic through: a node that fits scores a number or NaN, never an infinity, and NaN exactly
      when it has no CPU or no memory at all; so never when something of both is asked for. */
  lemma WhenScoresAreNumbers(n: Node, cpu: nat, mem: nat)
    requires Fits(n, cpu, mem)
    ensures var score := ScoreNode(n, cpu, mem).value;
      && (score.Number? <==> n.cpuCapacity > 0 && n.memCapacity > 0)
      && (score.NotANumber? <==> n.cpuCapacity == 0 || n.memCapacity == 0)
      && (cpu > 0 && mem > 0 ==> score.Number?)
  {
  }

  /** The score is the mean of the shares of CPU and memory that would be left, without dividing: between 0
      and 1 for every node that fits. */
  lemma ScoreIsMeanFreeShare(n: Node, cpu: nat, mem: nat)
    requires Fits(n, cpu, mem) && n.cpuCapacity > 0 && n.memCapacity > 0
    ensures var freeCpu, freeMem := n.cpuCapacity - n.cpuUsed - cpu, n.memCapacity - n.memUsed - mem;
      var score := ScoreNode(n, cpu, mem).value;
      && score.Number? && 0.0 <= score.value <= 1.0
      && score.value * (2 * n.cpuCapacity * n.memCapacity) as real == (freeCpu * n.memCapacity + freeMem * n.cpuCapacity) as real
  {
    var c, m := n.cpuCapacity as real, n.memCapacity as real;
    var x, y := (n.cpuUsed + cpu) as real, (n.memUsed + mem) as real;
    ShareLeft(x, c);
    ShareLeft(y, m);
    var leftCpu, leftMem := 1.0 - x / c, 1.0 - y / m;
    MeanTimes(leftCpu, leftMem, c, m);
    assert leftCpu * c == c - x && leftMem * m == m - y;
    assert (2 * n.cpuCapacity * n.memCapacity) as real == 2.0 * c * m;
  }

  lemma ShareLeft(used: real, capacity: real)
    requires 0.0 <= used <= capacity && capacity > 0.0
    ensures 0.0 <= 1.0 - used / capacity <= 1.0
    ensures (1.0 - used / capacity) * capacity == capacity - used
  {
  }

  lemma MeanTimes(a: real, b: real, c: real, m: real)
    ensures (a + b) / 2.0 * (2.0 * c * m) == (a * c) * m + (b * m) * c
  {
  }

  /** One NaN among the scores and the comparison is no order: of two nodes with scores, the better one comes
      first, yet the worse one comes before a NaN that comes before the better one. */
  lemma NanBreaksTheOrder(worse: Candidate, odd: Candidate, better: Candidate)
    requires worse.score.Number? && better.score.Number? && worse.score.value < better.score.value && odd.score.NotANumber?
    requires worse.node.id < odd.node.id < better.node.id
    ensures Before(better, worse) && !Before(worse, better) && Before(worse, odd) && Before(odd, better)
  {
  }

  ghost predicate Comparable(active: seq<Node>, req: Request) {
    forall n :: n in active && Eligible(n, req) ==> n.cpuCapacity > 0 && n.memCapacity > 0
  }

  // A higher score, or the same and a smaller id.
  ghost predicate Better(n: Node, m: Node, req: Request) {
    match (ScoreNode(n, req.cpu, req.mem), ScoreNode(m, req.cpu, req.mem))
    case (Some(Number(x)), Some(Number(y))) => x > y || (x == y && n.id <= m.id)
    case _ => false
  }

  // An eligible node of maximal score, and of smallest id among those.
  ghost predicate Best(n: Node, active: seq<Node>, req: Request) {
    && n in active && Eligible(n, req)
    && forall m :: m in active && Eligible(m, req) ==> Better(n, m, req)
  }

  // The outcome of a choice: eligible, and best whenever all scores compare.
  ghost predicate Picked(n: Node, active: seq<Node>, req: Request) {
    && n in active && Eligible(n, req)
    && (Comparable(active, req) ==> Best(n, active, req))
  }

  /** The choice does not depend on the order in which the active nodes are listed. */
  lemma BestIsUnique(a: Node, b: Node, active: seq<Node>, active': seq<Node>, req: Request)
    requires Best(a, active, req) && Best(b, active', req)
    requires forall n :: n in active <==> n in active'
    requires forall n, m :: n in active && m in active && n.id == m.id ==> n == m
    ensures a == b
  {
    assert b in active && a in active';
  }

  lemma AheadIsTotal()
    ensures TotalPreorder(Ahead)
  {
  }

  ghost predicate Candidates(active: seq<Node>, req: Request, scores: seq<Candidate>) {
    && (forall c :: c in scores ==>
          c.node in active && Eligible(c.node, req) && ScoreNode(c.node, req.cpu, req.mem) == Some(c.score))
    && (forall n :: n in active && Eligible(n, req) ==> exists c :: c in scores && c.node == n)
  }

  /** The scheduler's choice: a listed node that is a candidate if there are candidates, is not to be avoided, takes
      work and has room; none exactly when every listed node misses one of these; and the best such node, by score
      and then by id, whenever the scores are numbers. */
  method SelectNode(active: seq<Node>, req: Request) returns (r: Option<Node>)
    ensures r.Some? ==>
      && r.value in active
      && (req.candidates.Some? ==> r.value.id in req.candidates.value) && r.value.id !in req.avoid
      && r.value.status == Online && r.value.enabled && !r.value.draining
      && r.value.cpuUsed + req.cpu <= r.value.cpuCapacity && r.value.memUsed + req.mem <= r.value.memCapacity
      && r.value.releases < r.value.maxReleases
    ensures r.None? ==> forall n :: n in active ==>
      || (req.candidates.Some? && n.id !in req.candidates.value) || n.id in req.avoid
      || n.status != Online || !n.enabled || n.draining
      || n.cpuUsed + req.cpu > n.cpuCapacity || n.memUsed + req.mem > n.memCapacity
      || n.releases >= n.maxReleases
    ensures r.None? <==> forall n :: n in active ==> !Eligible(n, req)
    ensures r.Some? ==> Picked(r.value, active, req)
  {
    var scores: seq<Candidate> := [];
    for i := 0 to |active|
      invariant Candidates(active[..i], req, scores)
    {
      assert active[..i + 1] == active[..i] + [active[i]];
      if req.candidates.Some? && active[i].id !in req.candidates.value {
        continue;
      }
      if active[i].id in req.avoid {
        continue;
      }
      var score := ScoreNode(active[i], req.cpu, req.mem);
      if score.Some? {
        var scores' := scores + [Candidate(active[i], score.value)];
        forall n | n in active[..i + 1] && Eligible(n, req)
          ensures exists c :: c in scores' && c.node == n
        {
          if n in active[..i] {
            var c :| c in scores && c.node == n;
            assert c in scores';
          } else {
            assert Candidate(active[i], score.value) in scores';
          }
        }
        scores := scores';
      }
    }
    assert active[..|active|] == active;
    if scores == [] {
      return None;
    }
    var sorted := Sort(scores, Before);
    SortKeeps(scores, Before);
    assert sorted[0] in multiset(sorted);
    r := Some(sorted[0].node);
    if Comparable(active, req) {
      BestIsFirst(active, req, scores);
    }
  }

  // Of two candidates whose scores are numbers, what coming first means.
  lemma FirstIsBetter(a: Candidate, b: Candidate, req: Request)
    requires Ahead(a, b) && a.score.Number? && b.score.Number?
    requires ScoreNode(a.node, req.cpu, req.mem) == Some(a.score) && ScoreNode(b.node, req.cpu, req.mem) == Some(b.score)
    ensures Better(a.node, b.node, req)
  {
  }

  ghost predicate Numbered(scores: seq<Candidate>, req: Request) {
    forall c :: c in scores ==> c.score.Number? && ScoreNode(c.node, req.cpu, req.mem) == Some(c.score)
  }

  lemma ComparableIsNumbered(active: seq<Node>, req: Request, scores: seq<Candidate>)
    requires Candidates(active, req, scores) && Comparable(active, req)
    ensures Numbered(scores, req)
  {
    forall c | c in scores
      ensures c.score.Number?
    {
      WhenScoresAreNumbers(c.node, req.cpu, req.mem);
    }
  }

  lemma SortedFirst(scores: seq<Candidate>, req: Request)
    requires Numbered(scores, req) && scores != []
    ensures |Sort(scores, Before)| == |scores| && Sort(scores, Before)[0] in scores
    ensures forall c :: c in scores ==> Better(Sort(scores, Before)[0].node, c.node, req)
  {
    AheadIsTotal();
    SortSorts(scores, Ahead);
    SortAgrees(scores, Before, Ahead);
    var sorted := Sort(scores, Before);
    assert sorted[0] in multiset(sorted);
    forall c | c in scores
      ensures Better(sorted[0].node, c.node, req)
    {
      assert c in multiset(sorted);
      assert Ahead(sorted[0], c);
      FirstIsBetter(sorted[0], c, req);
    }
  }

  lemma BestIsFirst(active: seq<Node>, req: Request, scores: seq<Candidate>)
    requires Candidates(active, req, scores) && scores != [] && Comparable(active, req)
    ensures |Sort(scores, Before)| == |scores| && Best(Sort(scores, Before)[0].node, active, req)
  {
    ComparableIsNumbered(active, req, scores);
    SortedFirst(scores, req);
  }
}
