/** What every reachable state of the interleaved orchestrations keeps. */
module OrchestrationSafety {
  import opened Common
  import opened ReleaseLifecycle
  import opened Orchestration

  // Between its INSERT and its route upsert a release is known to its own orchestration only.
  predicate Private(pc: Pc) {
    match pc
    case Create => false
    case Move(stage, _) => stage == ToHealthChecking || stage == ToFailed || stage == ToReady
    case Reload => false
    case CloseRoute => false
    case _ => true
  }

  predicate Published(pc: Pc) { pc != Create && !Private(pc) }

  // The status of its own row that an orchestration can count on at each point.
  function OwnStatus(pc: Pc): Option<Status> {
    match pc
    case Create => None
    case Move(ToHealthChecking, phase) => Some(if phase.Log? then HealthChecking else Starting)
    case Move(ToFailed, phase) => Some(if phase.Log? then Failed else HealthChecking)
    case Move(ToReady, phase) => Some(if phase.Log? then Ready else HealthChecking)
    case Move(ToActive, phase) => if phase.Log? then None else Some(Ready)
    case Move(_, _) => None
    case Probe => Some(HealthChecking)
    case Reload => None
    case CloseRoute => None
    case _ => Some(Ready)
  }

  ghost predicate Unrouted(db: Db, id: Uuid) {
    forall k :: k in db.routes ==> db.routes[k] != id
  }

  ghost predicate OwnOk(db: Db, run: Run) {
    && run.own in db.releases
    && KeyOf(db.releases[run.own]) == PlanKey(run.plan)
    && (OwnStatus(run.pc).Some? ==>
          db.releases[run.own].status == OwnStatus(run.pc).value && db.releases[run.own].version == run.version)
    && (Private(run.pc) ==> Unrouted(db, run.own))
  }

  ghost predicate PreviousOk(db: Db, run: Run, x: Snapshot) {
    && Saw(db, x.id, x.row)
    && KeyOf(x.row) == PlanKey(run.plan)
    && x.id != run.own
    && (Published(run.pc) ==> Unrouted(db, x.id))
  }

  ghost predicate MoveOk(db: Db, run: Run, stage: Stage, phase: Phase) {
    && (stage == ToDraining || stage == ToStopped ==> run.previous.Some?)
    && (stage == ToStopped && !phase.Log? ==> run.previous.value.row.status == Draining)
    && (stage == ToDraining && phase.Log? ==> run.previous.value.row.status == Draining)
    && match phase
       case Check => true
       case Write(current) =>
         && Saw(db, Subject(run, stage), current)
         && Expected(run, stage) <= current.version
         && CanTransition(current.status, Target(stage))
       case Log(current) => LifeOf(db, Subject(run, stage)).Took(current.status, Target(stage))
  }

  ghost predicate PcOk(db: Db, run: Run) {
    match run.pc
    case Move(stage, phase) => MoveOk(db, run, stage, phase)
    case LoadPrevious(id) =>
      id in db.releases && KeyOf(db.releases[id]) == PlanKey(run.plan) && id != run.own
    case CloseRoute => run.previous.Some? && run.previous.value.row.status == Draining
    case _ => true
  }

  ghost predicate RunOk(db: Db, run: Run) {
    && (run.pc == Create ==> run.previous.None?)
    && (run.pc != Create ==> OwnOk(db, run))
    && (run.previous.Some? ==> PreviousOk(db, run, run.previous.value))
    && PcOk(db, run)
  }

  predicate Mentions(run: Run, id: Uuid) {
    (run.previous.Some? && run.previous.value.id == id) || (run.pc.LoadPrevious? && run.pc.id == id)
  }

  predicate Apart(a: Run, b: Run) {
    && (a.pc != Create && b.pc != Create ==> a.own != b.own)
    && (Private(a.pc) ==> !Mentions(b, a.own))
    && (Private(b.pc) ==> !Mentions(a, b.own))
  }

  // The property the route table is for.
  ghost predicate RoutesServe(db: Db) {
    forall k :: k in db.routes ==>
      && db.routes[k] in db.releases
      && KeyOf(db.releases[db.routes[k]]) == k
      && Serving(db.releases[db.routes[k]].status)
  }

  ghost predicate DbOk(db: Db) { Lineages(db) && RecordsHappened(db) && RoutesServe(db) }

  ghost predicate ModeOk(s: System) {
    && (!s.mode.Up? ==> s.runs == map[])
    && (s.mode.Recovering? ==> RecoveringOk(s.db, s.mode.todo, s.mode.pc))
  }

  // What recovery knows at each of its statements.
  ghost predicate RecoveringOk(db: Db, todo: seq<Snapshot>, pc: RecoveryPc) {
    match pc
    case Look => Fresh(db, todo)
    case Halt(to) => todo != [] && Fresh(db, todo) && to == RecoveryTarget(db, todo[0])
    case Examine(to) => todo != [] && Fresh(db, todo) && to == RecoveryTarget(db, todo[0])
    case Store(to, current) => todo != [] && Fresh(db, todo) && to == RecoveryTarget(db, todo[0]) && current == todo[0].row
    case Note(to, current) => todo != [] && Fresh(db, todo[1..]) && LifeOf(db, todo[0].id).Took(current.status, to)
  }

  ghost predicate Inv(s: System) {
    && DbOk(s.db)
    && ModeOk(s)
    && (forall r :: r in s.runs ==> RunOk(s.db, s.runs[r]))
    && (forall q, r :: q in s.runs && r in s.runs && q != r ==> Apart(s.runs[q], s.runs[r]))
  }

  // ---------------------------------------------------------------- one statement of one run

  // Everything the other orchestrations rely on survives the statement.
  ghost predicate OthersOk(s: System, r: nat, db: Db) {
    forall q :: q in s.runs && q != r ==> RunOk(db, s.runs[q])
  }

  lemma PutKeepsInv(s: System, r: nat, db: Db, run: Run)
    requires Inv(s) && s.mode.Up? && DbOk(db) && RunOk(db, run) && OthersOk(s, r, db)
    requires forall q :: q in s.runs && q != r ==> Apart(run, s.runs[q])
    ensures Inv(Put(s, r, db, run))
  {
  }

  lemma EndKeepsInv(s: System, r: nat, db: Db)
    requires Inv(s) && (s.mode.Up? || db == s.db) && DbOk(db) && OthersOk(s, r, db)
    ensures Inv(End(s, r, db))
  {
    if !s.mode.Up? {
      assert s.runs - {r} == map[];
    }
  }

  // A run that keeps its release, its secrecy and its predecessor stays apart from the others.
  lemma StillApart(s: System, r: nat, run: Run)
    requires Inv(s) && r in s.runs && s.runs[r].pc != Create && run.pc != Create
    requires run.own == s.runs[r].own
    requires Private(run.pc) ==> Private(s.runs[r].pc)
    requires forall id :: Mentions(run, id) ==> Mentions(s.runs[r], id)
    ensures forall q :: q in s.runs && q != r ==> Apart(run, s.runs[q])
  {
    forall q | q in s.runs && q != r
      ensures Apart(run, s.runs[q])
    {
      assert Apart(s.runs[r], s.runs[q]);
    }
  }

  lemma RunKeptByInsert(db: Db, run: Run, id: Uuid, project: Uuid, environment: string, container: Option<string>)
    requires RunOk(db, run) && id !in db.releases && Lineages(db)
    ensures RunOk(Insert(db, id, project, environment, container), run)
  {
  }

  // A compare-and-set on a row disturbs only an orchestration that counts on that row as its own.
  lemma RunKeptBySwap(db: Db, run: Run, id: Uuid, target: Status)
    requires RunOk(db, run) && id in db.releases && Lineages(db)
    requires run.own != id || OwnStatus(run.pc).None?
    ensures RunOk(Swap(db, id, target), run)
  {
    var db' := Swap(db, id, target);
    assert run.previous.Some? ==> PreviousOk(db', run, run.previous.value);
    if run.pc.Move? && run.pc.phase.Log? {
      var x := Subject(run, run.pc.stage);
      assert LifeOf(db, x).Took(run.pc.phase.current.status, Target(run.pc.stage));
      assert LifeOf(db', x).Took(run.pc.phase.current.status, Target(run.pc.stage));
    }
  }

  lemma RunKeptByAppend(db: Db, run: Run, id: Uuid, from: Status, to: Status)
    requires RunOk(db, run)
    ensures RunOk(Append(db, id, from, to), run)
  {
  }

  lemma RunKeptByUpsert(db: Db, run: Run, key: RouteKey, id: Uuid)
    requires RunOk(db, run) && (run.pc != Create ==> run.own != id) && !Mentions(run, id)
    ensures RunOk(Upsert(db, key, id), run)
  {
  }

  lemma InsertKeepsDb(db: Db, drawn: Uuid, p: Plan, db': Db)
    requires DbOk(db) && drawn !in db.releases && db' == Insert(db, drawn, p.project, p.environment, Some(p.container))
    ensures DbOk(db')
  {
    InsertGrows(db, drawn, p.project, p.environment, Some(p.container));
  }

  lemma CreateKeepsInv(s: System, r: nat, drawn: Uuid)
    requires Inv(s) && s.mode.Up? && r in s.runs && s.runs[r].pc.Create?
    ensures Inv(Advance(s, r, s.runs[r], drawn, true))
  {
    var run := s.runs[r];
    assert RunOk(s.db, run);
    if drawn in s.db.releases {
      EndKeepsInv(s, r, s.db);
    } else {
      var p := run.plan;
      var db := Insert(s.db, drawn, p.project, p.environment, Some(p.container));
      InsertKeepsDb(s.db, drawn, p, db);
      forall q | q in s.runs && q != r
        ensures RunOk(db, s.runs[q]) && !Mentions(s.runs[q], drawn)
        ensures s.runs[q].pc != Create ==> s.runs[q].own != drawn
      {
        assert RunOk(s.db, s.runs[q]);
        RunKeptByInsert(s.db, s.runs[q], drawn, p.project, p.environment, Some(p.container));
      }
      PutKeepsInv(s, r, db, run.(own := drawn, version := 1, pc := Move(ToHealthChecking, Check)));
    }
  }

  lemma CheckKeepsInv(s: System, r: nat, stage: Stage)
    requires Inv(s) && s.mode.Up? && r in s.runs && s.runs[r].pc == Move(stage, Check)
    ensures Inv(AdvanceMove(s, r, s.runs[r], stage, Check))
  {
    var run := s.runs[r];
    assert RunOk(s.db, run);
    var id := Subject(run, stage);
    if CanTransition(s.db.releases[id].status, Target(stage)) {
      StillApart(s, r, run.(pc := Move(stage, Write(s.db.releases[id]))));
      PutKeepsInv(s, r, s.db, run.(pc := Move(stage, Write(s.db.releases[id]))));
    } else {
      EndKeepsInv(s, r, s.db);
    }
  }

  // When the compare-and-set matches, the row is exactly the one that was checked.
  lemma MatchedRow(db: Db, run: Run, stage: Stage, current: Release)
    requires RunOk(db, run) && run.pc == Move(stage, Write(current))
    requires Matches(db, Subject(run, stage), Expected(run, stage))
    ensures current == db.releases[Subject(run, stage)]
    ensures OnPrevious(run, stage) ==> current.status == Active || current.status == Draining
    ensures OnPrevious(run, stage) ==> Unrouted(db, Subject(run, stage))
    ensures stage == ToDraining || stage == ToStopped <==> OnPrevious(run, stage)
  {
  }

  lemma SwapKeepsRoutes(db: Db, id: Uuid, target: Status)
    requires RoutesServe(db) && id in db.releases && (Unrouted(db, id) || Serving(target))
    ensures RoutesServe(Swap(db, id, target))
  {
  }

  // No other orchestration counts on the row that this compare-and-set is about to change.
  lemma NobodyElseCounts(s: System, r: nat, stage: Stage, current: Release, q: nat)
    requires Inv(s) && r in s.runs && s.runs[r].pc == Move(stage, Write(current)) && q in s.runs && q != r
    requires Matches(s.db, Subject(s.runs[r], stage), Expected(s.runs[r], stage))
    ensures s.runs[q].own != Subject(s.runs[r], stage) || OwnStatus(s.runs[q].pc).None?
  {
    assert RunOk(s.db, s.runs[r]) && RunOk(s.db, s.runs[q]) && Apart(s.runs[q], s.runs[r]);
    MatchedRow(s.db, s.runs[r], stage, current);
  }

  lemma WrittenRunOk(db: Db, db': Db, run: Run, stage: Stage, current: Release, run': Run)
    requires Lineages(db) && RunOk(db, run) && run.pc == Move(stage, Write(current))
    requires Matches(db, Subject(run, stage), Expected(run, stage))
    requires db' == Swap(db, Subject(run, stage), Target(stage))
    requires run' == Returned(run, stage, db'.releases[Subject(run, stage)]).(pc := Move(stage, Log(current)))
    ensures RunOk(db', run')
  {
    MatchedRow(db, run, stage, current);
    assert LifeOf(db', Subject(run, stage)).Took(current.status, Target(stage)) by {
      assert Lineage(db.lives[Subject(run, stage)], current);
    }
    assert run'.previous.Some? ==> PreviousOk(db', run', run'.previous.value);
    assert OwnOk(db', run');
  }

  lemma WriteKeepsInv(s: System, r: nat, stage: Stage, current: Release)
    requires Inv(s) && s.mode.Up? && r in s.runs && s.runs[r].pc == Move(stage, Write(current))
    ensures Inv(AdvanceMove(s, r, s.runs[r], stage, Write(current)))
  {
    var run := s.runs[r];
    assert RunOk(s.db, run);
    var id := Subject(run, stage);
    if Matches(s.db, id, Expected(run, stage)) {
      var db := Swap(s.db, id, Target(stage));
      MatchedRow(s.db, run, stage, current);
      SwapIsLegal(s.db, id, Expected(run, stage), current, Target(stage));
      SwapKeepsRoutes(s.db, id, Target(stage));
      forall q | q in s.runs && q != r
        ensures RunOk(db, s.runs[q])
      {
        NobodyElseCounts(s, r, stage, current, q);
        RunKeptBySwap(s.db, s.runs[q], id, Target(stage));
      }
      var run' := Returned(run, stage, db.releases[id]).(pc := Move(stage, Log(current)));
      WrittenRunOk(s.db, db, run, stage, current, run');
      StillApart(s, r, run');
      PutKeepsInv(s, r, db, run');
    } else {
      EndKeepsInv(s, r, s.db);
    }
  }

  // Where the orchestration goes after the log entry of a transition.
  function Next(stage: Stage): Option<Pc> {
    match stage
    case ToHealthChecking => Some(Probe)
    case ToFailed => None
    case ToReady => Some(OpenRoute)
    case ToActive => Some(Reload)
    case ToDraining => Some(CloseRoute)
    case ToStopped => None
  }

  lemma LogKeepsInv(s: System, r: nat, stage: Stage, current: Release)
    requires Inv(s) && s.mode.Up? && r in s.runs && s.runs[r].pc == Move(stage, Log(current))
    ensures Inv(AdvanceMove(s, r, s.runs[r], stage, Log(current)))
  {
    var run := s.runs[r];
    assert RunOk(s.db, run);
    var id := Subject(run, stage);
    var db := Append(s.db, id, current.status, Target(stage));
    AppendHappened(s.db, id, current.status, Target(stage));
    assert RoutesServe(db);
    forall q | q in s.runs
      ensures RunOk(db, s.runs[q])
    {
      RunKeptByAppend(s.db, s.runs[q], id, current.status, Target(stage));
    }
    if Next(stage).Some? {
      var run' := run.(pc := Next(stage).value);
      StillApart(s, r, run');
      PutKeepsInv(s, r, db, run');
    } else {
      EndKeepsInv(s, r, db);
    }
  }

  lemma ReadRunOk(s: System, r: nat, drawn: Uuid, ok: bool)
    requires r in s.runs && RunOk(s.db, s.runs[r]) && r in Advance(s, r, s.runs[r], drawn, ok).runs
    requires s.runs[r].pc.Probe? || s.runs[r].pc.OpenRoute? || s.runs[r].pc.Reload? || s.runs[r].pc.CloseRoute?
          || s.runs[r].pc.LoadPrevious?
    ensures RunOk(s.db, Advance(s, r, s.runs[r], drawn, ok).runs[r])
  {
  }

  // Statements that only read, and calls to the probe loop, the router and the stopper.
  lemma ReadKeepsInv(s: System, r: nat, drawn: Uuid, ok: bool)
    requires Inv(s) && s.mode.Up? && r in s.runs
    requires s.runs[r].pc.Probe? || s.runs[r].pc.OpenRoute? || s.runs[r].pc.Reload? || s.runs[r].pc.CloseRoute?
          || s.runs[r].pc.LoadPrevious?
    ensures Inv(Advance(s, r, s.runs[r], drawn, ok))
  {
    var run := s.runs[r];
    assert RunOk(s.db, run);
    var s' := Advance(s, r, run, drawn, ok);
    if r in s'.runs {
      var run' := s'.runs[r];
      ReadRunOk(s, r, drawn, ok);
      StillApart(s, r, run');
      PutKeepsInv(s, r, s.db, run');
      assert s' == Put(s, r, s.db, run').(stops := s'.stops);
    } else {
      EndKeepsInv(s, r, s.db);
      assert s' == End(s, r, s.db);
    }
  }

  lemma FindRouteKeepsInv(s: System, r: nat, drawn: Uuid, ok: bool)
    requires Inv(s) && s.mode.Up? && r in s.runs && s.runs[r].pc.FindRoute?
    ensures Inv(Advance(s, r, s.runs[r], drawn, ok))
  {
    var run := s.runs[r];
    assert RunOk(s.db, run);
    var run' := Advance(s, r, run, drawn, ok).runs[r];
    assert RunOk(s.db, run');
    forall q | q in s.runs && q != r
      ensures Apart(run', s.runs[q])
    {
      assert Apart(run, s.runs[q]) && RunOk(s.db, s.runs[q]);
    }
    PutKeepsInv(s, r, s.db, run');
  }

  // The moment a release goes public, and its predecessor stops being routed for good.
  lemma SaveRouteKeepsInv(s: System, r: nat, drawn: Uuid, ok: bool)
    requires Inv(s) && s.mode.Up? && r in s.runs && s.runs[r].pc.SaveRoute?
    ensures Inv(Advance(s, r, s.runs[r], drawn, ok))
  {
    var run := s.runs[r];
    assert RunOk(s.db, run);
    var db, run' := Upsert(s.db, PlanKey(run.plan), run.own), run.(pc := Move(ToActive, Check));
    assert DbOk(db);
    forall q | q in s.runs && q != r
      ensures RunOk(db, s.runs[q])
    {
      assert Apart(run, s.runs[q]);
      RunKeptByUpsert(s.db, s.runs[q], PlanKey(run.plan), run.own);
    }
    assert run.previous.Some? ==> Unrouted(db, run.previous.value.id);
    assert RunOk(db, run');
    StillApart(s, r, run');
    PutKeepsInv(s, r, db, run');
  }

  lemma StatementKeepsInv(s: System, r: nat, drawn: Uuid, ok: bool)
    requires Inv(s) && s.mode.Up? && r in s.runs
    ensures Inv(Advance(s, r, s.runs[r], drawn, ok))
  {
    match s.runs[r].pc
    case Create => CreateKeepsInv(s, r, drawn);
    case Move(stage, Check) => CheckKeepsInv(s, r, stage);
    case Move(stage, Write(current)) => WriteKeepsInv(s, r, stage, current);
    case Move(stage, Log(current)) => LogKeepsInv(s, r, stage, current);
    case FindRoute => FindRouteKeepsInv(s, r, drawn, ok);
    case SaveRoute => SaveRouteKeepsInv(s, r, drawn, ok);
    case _ => ReadKeepsInv(s, r, drawn, ok);
  }
}
