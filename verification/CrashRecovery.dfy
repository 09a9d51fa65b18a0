/** Full recovery, and the theorems about whole runs of the release system. */
module CrashRecovery {
  import opened Common
  import opened ReleaseLifecycle
  import opened Orchestration
  import opened OrchestrationSafety

  // One complete run of full recovery over the rows its SELECT returned.
  function Recover(db: Db, todo: seq<Snapshot>): Db
    decreases |todo|
  {
    if todo == [] then db else Recover(RecoverRow(db, todo[0]), todo[1..])
  }

  // The containers that run asks the stopper to stop.
  function StopRequests(db: Db, todo: seq<Snapshot>): seq<string>
    decreases |todo|
  {
    if todo == [] then [] else RecoverStops(db, todo[0]) + StopRequests(RecoverRow(db, todo[0]), todo[1..])
  }

  // Recovery of x changed x alone, to the status recovery aims at.
  ghost predicate OneRow(db: Db, db': Db, x: Snapshot) {
    && x.id in db.releases
    && db'.routes == db.routes
    && db'.releases.Keys == db.releases.Keys
    && (forall id :: id in db.releases && id != x.id ==> db'.releases[id] == db.releases[id])
    && db'.releases[x.id].status == RecoveryTarget(db, x)
    && db'.releases[x.id].container == db.releases[x.id].container
  }

  lemma RowSettles(db: Db, x: Snapshot)
    requires DbOk(db) && x.id in db.releases && db.releases[x.id] == x.row && Interrupted(x.row.status)
    ensures DbOk(RecoverRow(db, x)) && OneRow(db, RecoverRow(db, x), x)
  {
    var to := RecoveryTarget(db, x);
    var mid := Swap(db, x.id, to);
    SwapIsLegal(db, x.id, x.row.version, x.row, to);
    if x.row.status != Ready {
      assert Unrouted(db, x.id);
    }
    SwapKeepsRoutes(db, x.id, to);
    AppendHappened(mid, x.id, x.row.status, to);
    assert RecoverRow(db, x) == Append(mid, x.id, x.row.status, to);
  }

  lemma SelectedTail(db: Db, todo: seq<Snapshot>, db': Db)
    requires Selected(db, todo) && todo != [] && OneRow(db, db', todo[0])
    ensures Selected(db', todo[1..])
  {
    var rest := todo[1..];
    forall id | id in db'.releases && Interrupted(db'.releases[id].status)
      ensures exists i :: 0 <= i < |rest| && rest[i].id == id
    {
      var i :| 0 <= i < |todo| && todo[i].id == id;
      assert rest[i - 1].id == id;
    }
  }

  ghost predicate TakenDown(db: Db, db': Db, id: Uuid) {
    && id in db.releases && id in db'.releases
    && Interrupted(db.releases[id].status)
    && (db'.releases[id].status == Stopped || db'.releases[id].status == Failed)
  }

  // The stop requests name the containers of exactly the releases that were failed or stopped.
  ghost predicate StopsMatch(db: Db, db': Db, stops: seq<string>) {
    && (forall id :: TakenDown(db, db', id) && db.releases[id].container.Some? ==>
          db.releases[id].container.value in stops)
    && (forall c :: c in stops ==> exists id :: TakenDown(db, db', id) && db.releases[id].container == Some(c))
  }

  // A release that was draining is stopped, a routed one becomes Active, what never got traffic has failed.
  ghost predicate SettledRightly(db: Db, was: Release, now: Release, id: Uuid) {
    match was.status
    case Draining => now.status == Stopped
    case Ready => now.status == if Routed(db, id, was) then Active else Failed
    case Starting => now.status == Failed
    case HealthChecking => now.status == Failed
    case _ => now == was
  }

  // Everything settled, nothing rerouted, settled releases untouched.
  ghost predicate Recovered(db: Db, db': Db) {
    && db'.routes == db.routes
    && db'.releases.Keys == db.releases.Keys
    && (forall id :: id in db'.releases ==> Settled(db'.releases[id].status))
    && (forall id :: id in db'.releases ==> SettledRightly(db, db.releases[id], db'.releases[id], id))
    && (forall id :: id in db.releases && Settled(db.releases[id].status) ==> db'.releases[id] == db.releases[id])
  }

  lemma StopsOfHead(db: Db, mid: Db, db': Db, x: Snapshot, rest: seq<string>)
    requires x.id in db.releases && db.releases[x.id] == x.row && Interrupted(x.row.status)
    requires OneRow(db, mid, x) && StopsMatch(mid, db', rest)
    requires db'.releases.Keys == mid.releases.Keys && db'.releases[x.id] == mid.releases[x.id]
    ensures StopsMatch(db, db', RecoverStops(db, x) + rest)
  {
    forall c | c in RecoverStops(db, x) + rest
      ensures exists id :: TakenDown(db, db', id) && db.releases[id].container == Some(c)
    {
      if c in rest {
        var id :| TakenDown(mid, db', id) && mid.releases[id].container == Some(c);
        assert TakenDown(db, db', id) && db.releases[id].container == Some(c);
      } else {
        assert TakenDown(db, db', x.id) && db.releases[x.id].container == Some(c);
      }
    }
    forall id | TakenDown(db, db', id) && db.releases[id].container.Some?
      ensures db.releases[id].container.value in RecoverStops(db, x) + rest
    {
      if id == x.id {
        assert RecoverStops(db, x) == [x.row.container.value];
      } else {
        assert TakenDown(mid, db', id);
      }
    }
  }

  lemma RecoveredVia(db: Db, mid: Db, db': Db, x: Snapshot)
    requires x.id in db.releases && db.releases[x.id] == x.row && Interrupted(x.row.status)
    requires OneRow(db, mid, x) && Recovered(mid, db')
    ensures Recovered(db, db')
  {
    forall id | id in db'.releases
      ensures SettledRightly(db, db.releases[id], db'.releases[id], id)
    {
      assert SettledRightly(mid, mid.releases[id], db'.releases[id], id);
    }
  }

  lemma NothingLeft(db: Db, todo: seq<Snapshot>)
    requires Selected(db, todo)
    ensures todo == [] <==> Recovered(db, db)
    ensures todo == [] ==> StopsMatch(db, db, [])
  {
    if todo != [] {
      assert todo[0].id in db.releases && Interrupted(db.releases[todo[0].id].status);
    }
  }

  lemma {:induction false} RecoverSettles(db: Db, todo: seq<Snapshot>)
    requires DbOk(db) && Selected(db, todo)
    ensures DbOk(Recover(db, todo)) && Recovered(db, Recover(db, todo))
    ensures StopsMatch(db, Recover(db, todo), StopRequests(db, todo))
    decreases |todo|
  {
    if todo == [] {
      NothingLeft(db, todo);
    } else {
      var x := todo[0];
      var mid := RecoverRow(db, x);
      assert x.id in db.releases && db.releases[x.id] == x.row && Interrupted(x.row.status);
      RowSettles(db, x);
      SelectedTail(db, todo, mid);
      RecoverSettles(mid, todo[1..]);
      var db', rest := Recover(mid, todo[1..]), StopRequests(mid, todo[1..]);
      RecoveredVia(db, mid, db', x);
      assert Settled(mid.releases[x.id].status) && db'.releases[x.id] == mid.releases[x.id];
      StopsOfHead(db, mid, db', x, rest);
      assert Recover(db, todo) == db' && StopRequests(db, todo) == RecoverStops(db, x) + rest;
    }
  }

  // ---------------------------------------------------------------- whole runs

  lemma StepKeepsInv(s: System, a: Action)
    requires Inv(s)
    ensures Inv(Step(s, a))
  {
    match a
    case Launch(r, plan) =>
      if s.mode.Up? && r !in s.runs {
        PutKeepsInv(s, r, s.db, Run(plan, 0, 0, None, Create));
      }
    case Statement(r, drawn, ok) =>
      if s.mode.Up? && r in s.runs {
        StatementKeepsInv(s, r, drawn, ok);
      }
    case Abort(r) => EndKeepsInv(s, r, s.db);
    case Crash =>
    case BeginRecovery(todo) =>
    case RecoverNext =>
      if s.mode.Recovering? && s.mode.todo != [] {
        RecoverStepKeepsInv(s, s.mode.todo, s.mode.pc);
      }
    case RecoverSkip =>
    case EndRecovery =>
  }

  lemma RecoverStepKeepsInv(s: System, todo: seq<Snapshot>, pc: RecoveryPc)
    requires Inv(s) && s.mode == Recovering(todo, pc) && todo != []
    ensures Inv(RecoverStep(s, todo, pc))
  {
    match pc
    case Look =>
    case Halt(_) =>
    case Examine(_) =>
    case Store(to, current) =>
      if Matches(s.db, todo[0].id, todo[0].row.version) {
        StoreKeeps(s.db, todo, to, Swap(s.db, todo[0].id, to));
      }
    case Note(to, current) => AppendHappened(s.db, todo[0].id, current.status, to);
  }

  // The compare-and-set of recovery leaves the tables in order and the rows still to come as they were.
  lemma StoreKeeps(db: Db, todo: seq<Snapshot>, to: Status, db': Db)
    requires DbOk(db) && todo != [] && Fresh(db, todo) && to == RecoveryTarget(db, todo[0])
    requires db' == Swap(db, todo[0].id, to)
    ensures DbOk(db') && Fresh(db', todo[1..]) && LifeOf(db', todo[0].id).Took(todo[0].row.status, to)
  {
    var x := todo[0];
    SwapIsLegal(db, x.id, x.row.version, x.row, to);
    if x.row.status != Ready {
      assert Unrouted(db, x.id);
    }
    SwapKeepsRoutes(db, x.id, to);
  }

  lemma {:induction false} ExecKeepsInv(s: System, run: seq<Action>)
    requires Inv(s)
    ensures Inv(Exec(s, run))
  {
    if run != [] {
      ExecKeepsInv(s, run[..|run| - 1]);
      StepKeepsInv(Exec(s, run[..|run| - 1]), run[|run| - 1]);
    }
  }

  /** What can be cut short, and what that leaves: an orchestration may end at any statement and a crash ends all of
      them, with the tables as they stand; recovery may give a row up once it has begun its transition. */
  lemma InterruptionsAre(s: System, r: nat)
    ensures Step(s, Abort(r)) == System(s.db, s.stops, map q | q in s.runs && q != r :: s.runs[q], s.mode)
    ensures Step(s, Crash) == System(s.db, s.stops, map[], Down)
    ensures s.mode.Recovering? && s.mode.todo != [] && (s.mode.pc.Examine? || s.mode.pc.Store? || s.mode.pc.Note?) ==>
      Step(s, RecoverSkip) == System(s.db, s.stops, s.runs, Recovering(s.mode.todo[1..], Look))
  {
  }

  /** Whatever the interleaving and wherever the crashes, a route leads to a release of that very
      project and environment which is Ready or Active. */
  lemma RoutesAlwaysServe(run: seq<Action>, key: RouteKey)
    requires key in Exec(INIT, run).db.routes
    ensures var db := Exec(INIT, run).db;
      && db.routes[key] in db.releases
      && (db.releases[db.routes[key]].project, db.releases[db.routes[key]].environment) == key
      && (db.releases[db.routes[key]].status == Ready || db.releases[db.routes[key]].status == Active)
  {
    ExecKeepsInv(INIT, run);
  }

  /** Each release has lived a legal life of at most five transitions, counted by its version. */
  lemma LivesAreLegal(run: seq<Action>, id: Uuid)
    requires id in Exec(INIT, run).db.releases
    ensures var db := Exec(INIT, run).db;
      id in db.lives && db.lives[id].Legal() && db.releases[id].version == db.lives[id].Length() <= 6
  {
    ExecKeepsInv(INIT, run);
    var db := Exec(INIT, run).db;
    assert Lineage(db.lives[id], db.releases[id]);
    LifeIsShort(db.lives[id]);
  }

  lemma StepKeepsRoutes(s: System, a: Action)
    ensures s.db.routes.Keys <= Step(s, a).db.routes.Keys
  {
  }

  /** Once an environment has a route it always has one. */
  lemma {:induction false} RoutesNeverVanish(s: System, run: seq<Action>)
    ensures s.db.routes.Keys <= Exec(s, run).db.routes.Keys
  {
    if run != [] {
      RoutesNeverVanish(s, run[..|run| - 1]);
      StepKeepsRoutes(Exec(s, run[..|run| - 1]), run[|run| - 1]);
    }
  }

  /** After a crash at any statement of any set of orchestrations, also during an earlier recovery, one
      complete recovery leaves every release Active, Stopped or Failed and every routed one Active,
      keeps every route and every settled release, and asks for the stop of exactly the containers whose
      releases it takes down. A second recovery finds nothing to do. */
  lemma RecoveryAfterAnyCrash(run: seq<Action>, todo: seq<Snapshot>, again: seq<Snapshot>)
    requires Selected(Exec(INIT, run).db, todo)
    requires Selected(Recover(Exec(INIT, run).db, todo), again)
    ensures var db := Exec(INIT, run).db;
      var db' := Recover(db, todo);
      && Recovered(db, db')
      && (forall k :: k in db'.routes ==>
            db'.routes[k] in db'.releases && db'.releases[db'.routes[k]].status == Active)
      && StopsMatch(db, db', StopRequests(db, todo))
      && again == [] && Recover(db', again) == db' && StopRequests(db', again) == []
  {
    ExecKeepsInv(INIT, run);
    CompleteRecovery(Exec(INIT, run).db, todo, again);
  }

  lemma CompleteRecovery(db: Db, todo: seq<Snapshot>, again: seq<Snapshot>)
    requires DbOk(db) && Selected(db, todo) && Selected(Recover(db, todo), again)
    ensures var db' := Recover(db, todo);
      && Recovered(db, db')
      && (forall k :: k in db'.routes ==>
            db'.routes[k] in db'.releases && db'.releases[db'.routes[k]].status == Active)
      && StopsMatch(db, db', StopRequests(db, todo))
      && again == [] && Recover(db', again) == db' && StopRequests(db', again) == []
  {
    RecoverSettles(db, todo);
    NothingInterrupted(Recover(db, todo), again);
  }

  // When everything is settled there is nothing left to select, and what is routed is Active.
  lemma NothingInterrupted(db: Db, todo: seq<Snapshot>)
    requires DbOk(db) && Selected(db, todo) && forall id :: id in db.releases ==> Settled(db.releases[id].status)
    ensures todo == []
    ensures forall k :: k in db.routes ==> db.routes[k] in db.releases && db.releases[db.routes[k]].status == Active
  {
    assert |todo| > 0 ==> Interrupted(db.releases[todo[0].id].status);
  }

  // ---------------------------------------------------------------- recovery, statement by statement

  lemma {:induction false} ExecSplit(s: System, run: seq<Action>, more: seq<Action>)
    ensures Exec(s, run + more) == Exec(Exec(s, run), more)
  {
    if more == [] {
      assert run + more == run;
    } else {
      assert (run + more)[..|run + more| - 1] == run + more[..|more| - 1];
      ExecSplit(s, run, more[..|more| - 1]);
    }
  }

  lemma ExecOne(s: System, a: Action)
    ensures Exec(s, [a]) == Step(s, a)
  {
    assert [a][..0] == [];
    assert Exec(s, []) == s;
  }

  // The five statements of one row do what one pass of the loop is said to do.
  lemma RowInSteps(s: System, todo: seq<Snapshot>) returns (run: seq<Action>)
    requires DbOk(s.db) && s.mode == Recovering(todo, Look) && todo != [] && Fresh(s.db, todo)
    ensures Exec(s, run) == System(RecoverRow(s.db, todo[0]), s.stops + RecoverStops(s.db, todo[0]), s.runs,
                                   Recovering(todo[1..], Look))
    ensures |run| == 5 && forall a :: a in run ==> a == RecoverNext
  {
    var x := todo[0];
    var to := RecoveryTarget(s.db, x);
    var s3 := System(s.db, s.stops + RecoverStops(s.db, x), s.runs, Recovering(todo, Store(to, x.row)));
    FirstThree(s, todo, x, to, s3);
    LastTwo(s3, todo, x, to);
    FiveSteps(s, Step(s, RecoverNext), Step(Step(s, RecoverNext), RecoverNext), s3, Step(s3, RecoverNext));
    run := Five();
  }

  // Read the route, stop the container, check the edge.
  lemma FirstThree(s: System, todo: seq<Snapshot>, x: Snapshot, to: Status, s3: System)
    requires s.mode == Recovering(todo, Look) && todo != [] && Fresh(s.db, todo)
    requires x == todo[0] && to == RecoveryTarget(s.db, x)
    requires s3 == System(s.db, s.stops + RecoverStops(s.db, x), s.runs, Recovering(todo, Store(to, x.row)))
    ensures Step(Step(Step(s, RecoverNext), RecoverNext), RecoverNext) == s3
  {
    assert CanTransition(x.row.status, to);
  }

  // Compare-and-set, log.
  lemma LastTwo(s: System, todo: seq<Snapshot>, x: Snapshot, to: Status)
    requires todo != [] && x == todo[0] && x.id in s.db.releases && s.db.releases[x.id] == x.row && Interrupted(x.row.status)
    requires to == RecoveryTarget(s.db, x) && s.mode == Recovering(todo, Store(to, x.row))
    ensures Step(Step(s, RecoverNext), RecoverNext)
         == System(RecoverRow(s.db, x), s.stops, s.runs, Recovering(todo[1..], Look))
  {
    assert CanTransition(x.row.status, to);
  }

  function Five(): seq<Action> { [RecoverNext] + [RecoverNext] + [RecoverNext] + [RecoverNext] + [RecoverNext] }

  lemma FiveSteps(s: System, s1: System, s2: System, s3: System, s4: System)
    requires s1 == Step(s, RecoverNext) && s2 == Step(s1, RecoverNext) && s3 == Step(s2, RecoverNext) && s4 == Step(s3, RecoverNext)
    ensures Exec(s, Five()) == Step(s4, RecoverNext)
  {
    ExecSplit(s, [RecoverNext] + [RecoverNext] + [RecoverNext] + [RecoverNext], [RecoverNext]);
    ExecSplit(s, [RecoverNext] + [RecoverNext] + [RecoverNext], [RecoverNext]);
    ExecSplit(s, [RecoverNext] + [RecoverNext], [RecoverNext]);
    ExecSplit(s, [RecoverNext], [RecoverNext]);
    ExecOne(s, RecoverNext);
    ExecOne(s1, RecoverNext);
    ExecOne(s2, RecoverNext);
    ExecOne(s3, RecoverNext);
    ExecOne(s4, RecoverNext);
  }

  lemma AfterRow(db: Db, todo: seq<Snapshot>, db': Db)
    requires DbOk(db) && Fresh(db, todo) && todo != [] && db' == RecoverRow(db, todo[0])
    ensures DbOk(db') && Fresh(db', todo[1..])
  {
    RowSettles(db, todo[0]);
  }

  /** Left to run, the statements of recovery, five a row, amount to the complete run the theorems speak of: same
      tables, same stop requests. */
  lemma {:induction false} RecoveryInSteps(s: System, todo: seq<Snapshot>) returns (run: seq<Action>)
    requires DbOk(s.db) && s.mode == Recovering(todo, Look) && Fresh(s.db, todo)
    ensures Exec(s, run) == System(Recover(s.db, todo), s.stops + StopRequests(s.db, todo), s.runs, Recovering([], Look))
    ensures |run| == 5 * |todo| && forall a :: a in run ==> a == RecoverNext
    decreases |todo|
  {
    if todo == [] {
      run := [];
    } else {
      var db' := RecoverRow(s.db, todo[0]);
      var s' := System(db', s.stops + RecoverStops(s.db, todo[0]), s.runs, Recovering(todo[1..], Look));
      var first := RowInSteps(s, todo);
      AfterRow(s.db, todo, db');
      var later := RecoveryInSteps(s', todo[1..]);
      ExecSplit(s, first, later);
      RestOfRecovery(s.db, todo, db', s.stops);
      run := first + later;
    }
  }

  lemma RestOfRecovery(db: Db, todo: seq<Snapshot>, db': Db, stops: seq<string>)
    requires todo != [] && db' == RecoverRow(db, todo[0])
    ensures Recover(db', todo[1..]) == Recover(db, todo)
    ensures stops + RecoverStops(db, todo[0]) + StopRequests(db', todo[1..]) == stops + StopRequests(db, todo)
  {
    var head, rest := RecoverStops(db, todo[0]), StopRequests(db', todo[1..]);
    assert stops + (head + rest) == stops + head + rest;
  }

  lemma Restarted(s: System, todo: seq<Snapshot>)
    requires Selected(s.db, todo)
    ensures Exec(s, [Crash] + [BeginRecovery(todo)]) == System(s.db, s.stops, map[], Recovering(todo, Look))
  {
    ExecOne(s, Crash);
    ExecSplit(s, [Crash], [BeginRecovery(todo)]);
    ExecOne(Step(s, Crash), BeginRecovery(todo));
  }

  lemma BackUp(s: System, s': System)
    requires s.mode == Recovering([], Look) && s' == System(s.db, s.stops, s.runs, Up)
    ensures Exec(s, [EndRecovery]) == s'
  {
    ExecOne(s, EndRecovery);
  }

  /** A crash followed by recovery left to run: from any reachable state, with the interrupted rows selected in any
      order, the system is up again with nothing in flight, the tables recovered and the containers told to stop. */
  lemma CrashThenRecover(s: System, todo: seq<Snapshot>) returns (steps: seq<Action>)
    requires Inv(s) && Selected(s.db, todo)
    ensures Exec(s, ([Crash] + [BeginRecovery(todo)]) + steps + [EndRecovery])
         == System(Recover(s.db, todo), s.stops + StopRequests(s.db, todo), map[], Up)
    ensures |steps| == 5 * |todo| && forall a :: a in steps ==> a == RecoverNext
  {
    var start, s2 := [Crash] + [BeginRecovery(todo)], System(s.db, s.stops, map[], Recovering(todo, Look));
    var db', stops' := Recover(s.db, todo), s.stops + StopRequests(s.db, todo);
    Restarted(s, todo);
    steps := RecoveryInSteps(s2, todo);
    ExecSplit(s, start, steps);
    ExecSplit(s, start + steps, [EndRecovery]);
    BackUp(System(db', stops', map[], Recovering([], Look)), System(db', stops', map[], Up));
  }
}
