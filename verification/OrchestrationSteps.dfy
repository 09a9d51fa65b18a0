/** One orchestration left to run alone, statement by statement: it ends, and what it leaves is exactly the outcome
    the controller promises. Other orchestrations may be in flight; they just do not move meanwhile. */
module OrchestrationSteps {
  import opened Common
  import opened ReleaseLifecycle
  import opened Orchestration
  import opened OrchestrationSafety
  import opened CrashRecovery
  import opened ReleaseController

  predicate At(s: System, r: nat, run: Run) { s.mode == Up && r in s.runs && s.runs[r] == run }

  predicate Gone(s: System, r: nat) { s.mode == Up && r !in s.runs }

  // What the outside contributes: the UUID the INSERT draws, the verdict of the probe loop, the router's answers.
  datatype Outside = Outside(drawn: Uuid, healthy: bool, router: RouterAnswers)

  // The answer each statement gets: only the probe loop and the router have a say.
  function Answer(pc: Pc, w: Outside): bool {
    match pc
    case Probe => w.healthy
    case OpenRoute => w.router.opens
    case CloseRoute => w.router.drains
    case _ => true
  }

  // The next statement of orchestration r.
  function Ask(s: System, r: nat, w: Outside): Action {
    Statement(r, w.drawn, r in s.runs && Answer(s.runs[r].pc, w))
  }

  // Nobody but r moves, and each statement gets the answer it is due.
  ghost predicate Driven(s: System, steps: seq<Action>, r: nat, w: Outside) {
    Follows(steps, xs => Ask(Exec(s, xs), r, w))
  }

  // Every step is the one that follows from those before it.
  ghost predicate Follows(steps: seq<Action>, next: seq<Action> -> Action) {
    forall i :: 0 <= i < |steps| ==> steps[i] == next(steps[..i])
  }

  lemma FollowsOn(a: seq<Action>, b: seq<Action>, next: seq<Action> -> Action, next': seq<Action> -> Action)
    requires Follows(a, next) && Follows(b, next')
    requires forall i :: 0 <= i < |b| ==> next'(b[..i]) == next(a + b[..i])
    ensures Follows(a + b, next)
  {
    forall i | 0 <= i < |a + b|
      ensures (a + b)[i] == next((a + b)[..i])
    {
      if i < |a| {
        assert (a + b)[..i] == a[..i];
      } else {
        assert (a + b)[..i] == a + b[..i - |a|];
      }
    }
  }

  lemma Then(s: System, r: nat, w: Outside, a: seq<Action>, b: seq<Action>)
    requires Driven(s, a, r, w) && Driven(Exec(s, a), b, r, w)
    ensures Driven(s, a + b, r, w) && Exec(s, a + b) == Exec(Exec(s, a), b)
  {
    ExecSplit(s, a, b);
    var next, next' := xs => Ask(Exec(s, xs), r, w), xs => Ask(Exec(Exec(s, a), xs), r, w);
    forall i | 0 <= i < |b|
      ensures next'(b[..i]) == next(a + b[..i])
    {
      ExecSplit(s, a, b[..i]);
    }
    FollowsOn(a, b, next, next');
  }

  lemma OneStatement(s: System, r: nat, run: Run, w: Outside) returns (steps: seq<Action>)
    requires At(s, r, run)
    ensures Driven(s, steps, r, w) && Exec(s, steps) == Advance(s, r, run, w.drawn, Answer(run.pc, w))
  {
    steps := [Ask(s, r, w)];
    assert steps[..0] == [] && Exec(s, []) == s;
    ExecOne(s, Ask(s, r, w));
  }

  // The tables differ in the named row only.
  predicate OneRowTo(db: Db, db': Db, id: Uuid, row: Release) {
    db'.releases == db.releases[id := row] && db'.routes == db.routes
  }

  function MovedOn(row: Release, to: Status): Release { row.(status := to, version := row.version + 1) }

  // ---------------------------------------------------------------- a transition is three statements

  // The transition will pass its check and its compare-and-set.
  predicate Due(s: System, r: nat, run: Run, stage: Stage, row: Release) {
    && At(s, r, run) && run.pc == Move(stage, Check)
    && Subject(run, stage) in s.db.releases && s.db.releases[Subject(run, stage)] == row
    && CanTransition(row.status, Target(stage)) && Expected(run, stage) == row.version
  }

  lemma MoveInSteps(s: System, r: nat, w: Outside, run: Run, stage: Stage, row: Release) returns (steps: seq<Action>)
    requires Due(s, r, run, stage, row)
    ensures Driven(s, steps, r, w)
    ensures var s' := Exec(s, steps);
      && OneRowTo(s.db, s'.db, Subject(run, stage), MovedOn(row, Target(stage)))
      && s'.stops == s.stops
      && match stage
         case ToHealthChecking => At(s', r, Returned(run, stage, MovedOn(row, Target(stage))).(pc := Probe))
         case ToFailed => Gone(s', r)
         case ToReady => At(s', r, Returned(run, stage, MovedOn(row, Target(stage))).(pc := OpenRoute))
         case ToActive => At(s', r, Returned(run, stage, MovedOn(row, Target(stage))).(pc := Reload))
         case ToDraining => At(s', r, Returned(run, stage, MovedOn(row, Target(stage))).(pc := CloseRoute))
         case ToStopped => Gone(s', r)
  {
    var run1 := run.(pc := Move(stage, Write(row)));
    var a := OneStatement(s, r, run, w);
    var s1 := Exec(s, a);
    assert At(s1, r, run1) && s1.db == s.db;
    var run2 := Returned(run1, stage, MovedOn(row, Target(stage))).(pc := Move(stage, Log(row)));
    var b := OneStatement(s1, r, run1, w);
    var s2 := Exec(s1, b);
    Written(s1, r, run1, stage, row, s2);
    var c := OneStatement(s2, r, run2, w);
    Then(s, r, w, a, b);
    Then(s, r, w, a + b, c);
    steps := a + b + c;
    assert Subject(run2, stage) == Subject(run, stage);
  }

  lemma Written(s: System, r: nat, run: Run, stage: Stage, row: Release, s': System)
    requires At(s, r, run) && run.pc == Move(stage, Write(row))
    requires Subject(run, stage) in s.db.releases && s.db.releases[Subject(run, stage)] == row && Expected(run, stage) == row.version
    requires s' == AdvanceMove(s, r, run, stage, Write(row))
    ensures At(s', r, Returned(run, stage, MovedOn(row, Target(stage))).(pc := Move(stage, Log(row))))
    ensures OneRowTo(s.db, s'.db, Subject(run, stage), MovedOn(row, Target(stage))) && s'.stops == s.stops
  {
  }

  // ---------------------------------------------------------------- up to the probe's answer

  function NewRow(plan: Plan, status: Status, version: nat): Release {
    Release(plan.project, plan.environment, status, version, Some(plan.container))
  }

  lemma Created(s: System, r: nat, plan: Plan, w: Outside) returns (steps: seq<Action>)
    requires Gone(s, r)
    ensures Driven(Step(s, Launch(r, plan)), steps, r, w)
    ensures var s' := Exec(Step(s, Launch(r, plan)), steps);
      && s'.stops == s.stops
      && (if w.drawn in s.db.releases then Gone(s', r) && s'.db == s.db
          else At(s', r, Run(plan, w.drawn, 1, None, Move(ToHealthChecking, Check)))
               && OneRowTo(s.db, s'.db, w.drawn, NewRow(plan, Starting, 1)))
  {
    steps := OneStatement(Step(s, Launch(r, plan)), r, Run(plan, 0, 0, None, Create), w);
  }

  // From the INSERT to the verdict of the probe loop.
  lemma Verdict(s: System, r: nat, plan: Plan, w: Outside) returns (steps: seq<Action>)
    requires At(s, r, Run(plan, w.drawn, 1, None, Move(ToHealthChecking, Check)))
    requires w.drawn in s.db.releases && s.db.releases[w.drawn] == NewRow(plan, Starting, 1)
    ensures Driven(s, steps, r, w)
    ensures var s' := Exec(s, steps);
      && OneRowTo(s.db, s'.db, w.drawn, NewRow(plan, HealthChecking, 2))
      && At(s', r, Run(plan, w.drawn, 2, None, Move(if w.healthy then ToReady else ToFailed, Check)))
      && s'.stops == s.stops + if w.healthy then [] else [plan.container]
  {
    var a := MoveInSteps(s, r, w, Run(plan, w.drawn, 1, None, Move(ToHealthChecking, Check)), ToHealthChecking, NewRow(plan, Starting, 1));
    var b := OneStatement(Exec(s, a), r, Run(plan, w.drawn, 2, None, Probe), w);
    Then(s, r, w, a, b);
    steps := a + b;
  }

  // Steps 1 to 4: Ready and about to take traffic, or Failed and over.
  lemma Prepared(s: System, r: nat, plan: Plan, w: Outside) returns (steps: seq<Action>)
    requires At(s, r, Run(plan, w.drawn, 1, None, Move(ToHealthChecking, Check)))
    requires w.drawn in s.db.releases && s.db.releases[w.drawn] == NewRow(plan, Starting, 1)
    ensures Driven(s, steps, r, w)
    ensures var s' := Exec(s, steps);
      && OneRowTo(s.db, s'.db, w.drawn, NewRow(plan, if w.healthy then Ready else Failed, 3))
      && (if w.healthy then At(s', r, Run(plan, w.drawn, 3, None, OpenRoute)) else Gone(s', r))
      && s'.stops == s.stops + if w.healthy then [] else [plan.container]
  {
    var a := Verdict(s, r, plan, w);
    var stage := if w.healthy then ToReady else ToFailed;
    var b := MoveInSteps(Exec(s, a), r, w, Run(plan, w.drawn, 2, None, Move(stage, Check)), stage, NewRow(plan, HealthChecking, 2));
    Then(s, r, w, a, b);
    steps := a + b;
  }

  // ---------------------------------------------------------------- switching traffic

  function PreviousOf(db: Db, key: RouteKey): Option<Snapshot> {
    if key in db.routes && db.routes[key] in db.releases then Some(Snapshot(db.routes[key], db.releases[db.routes[key]])) else None
  }

  // Ask the router and look up what is routed.
  lemma RouteFound(s: System, r: nat, plan: Plan, w: Outside) returns (steps: seq<Action>)
    requires At(s, r, Run(plan, w.drawn, 3, None, OpenRoute)) && w.router.opens
    ensures Driven(s, steps, r, w)
    ensures var s' := Exec(s, steps);
      && s'.db == s.db && s'.stops == s.stops
      && At(s', r, Run(plan, w.drawn, 3, None,
                       if PlanKey(plan) in s.db.routes then LoadPrevious(s.db.routes[PlanKey(plan)]) else SaveRoute))
  {
    var a := OneStatement(s, r, Run(plan, w.drawn, 3, None, OpenRoute), w);
    var s1 := Exec(s, a);
    assert At(s1, r, Run(plan, w.drawn, 3, None, FindRoute)) && s1.db == s.db && s1.stops == s.stops;
    var b := OneStatement(s1, r, Run(plan, w.drawn, 3, None, FindRoute), w);
    Then(s, r, w, a, b);
    steps := a + b;
  }

  lemma PreviousLoaded(s: System, r: nat, plan: Plan, w: Outside) returns (steps: seq<Action>)
    requires At(s, r, Run(plan, w.drawn, 3, None, OpenRoute)) && RoutesServe(s.db) && Unrouted(s.db, w.drawn) && w.router.opens
    ensures Driven(s, steps, r, w)
    ensures var s' := Exec(s, steps);
      && s'.db == s.db && s'.stops == s.stops
      && At(s', r, Run(plan, w.drawn, 3, PreviousOf(s.db, PlanKey(plan)), SaveRoute))
  {
    var key := PlanKey(plan);
    steps := RouteFound(s, r, plan, w);
    if key in s.db.routes {
      assert s.db.routes[key] != w.drawn;
      var c := OneStatement(Exec(s, steps), r, Run(plan, w.drawn, 3, None, LoadPrevious(s.db.routes[key])), w);
      Then(s, r, w, steps, c);
      steps := steps + c;
    }
  }

  // Ask the router, find what is routed, and move the route.
  lemma RouteMoved(s: System, r: nat, plan: Plan, w: Outside) returns (steps: seq<Action>)
    requires At(s, r, Run(plan, w.drawn, 3, None, OpenRoute)) && RoutesServe(s.db) && Unrouted(s.db, w.drawn) && w.router.opens
    ensures Driven(s, steps, r, w)
    ensures var s' := Exec(s, steps);
      && At(s', r, Run(plan, w.drawn, 3, PreviousOf(s.db, PlanKey(plan)), Move(ToActive, Check)))
      && s'.db.releases == s.db.releases && s'.db.routes == s.db.routes[PlanKey(plan) := w.drawn] && s'.stops == s.stops
  {
    var a := PreviousLoaded(s, r, plan, w);
    var b := RouteSaved(Exec(s, a), r, plan, w, PreviousOf(s.db, PlanKey(plan)));
    Then(s, r, w, a, b);
    steps := a + b;
  }

  lemma RouteSaved(s: System, r: nat, plan: Plan, w: Outside, previous: Option<Snapshot>) returns (steps: seq<Action>)
    requires At(s, r, Run(plan, w.drawn, 3, previous, SaveRoute))
    ensures Driven(s, steps, r, w)
    ensures var s' := Exec(s, steps);
      && At(s', r, Run(plan, w.drawn, 3, previous, Move(ToActive, Check)))
      && s'.db.releases == s.db.releases && s'.db.routes == s.db.routes[PlanKey(plan) := w.drawn] && s'.stops == s.stops
  {
    steps := OneStatement(s, r, Run(plan, w.drawn, 3, previous, SaveRoute), w);
  }

  // From the route upsert to the end of the switch or the start of the drain.
  lemma TrafficMoved(s: System, r: nat, plan: Plan, w: Outside, row: Release, previous: Option<Snapshot>) returns (steps: seq<Action>)
    requires At(s, r, Run(plan, w.drawn, 3, previous, Move(ToActive, Check)))
    requires w.drawn in s.db.releases && s.db.releases[w.drawn] == row && row.status == Ready && row.version == 3
    ensures Driven(s, steps, r, w)
    ensures var s' := Exec(s, steps);
      && OneRowTo(s.db, s'.db, w.drawn, MovedOn(row, Active)) && s'.stops == s.stops
      && (if previous.None? then Gone(s', r) else At(s', r, Run(plan, w.drawn, 4, previous, Move(ToDraining, Check))))
  {
    var a := MoveInSteps(s, r, w, Run(plan, w.drawn, 3, previous, Move(ToActive, Check)), ToActive, row);
    var s1 := Exec(s, a);
    assert At(s1, r, Run(plan, w.drawn, 4, previous, Reload));
    var b := Reloaded(s1, r, plan, w, previous);
    Then(s, r, w, a, b);
    steps := a + b;
  }

  lemma Reloaded(s: System, r: nat, plan: Plan, w: Outside, previous: Option<Snapshot>) returns (steps: seq<Action>)
    requires At(s, r, Run(plan, w.drawn, 4, previous, Reload)) && w.drawn in s.db.releases
    ensures Driven(s, steps, r, w)
    ensures var s' := Exec(s, steps);
      && s'.db == s.db && s'.stops == s.stops
      && (if previous.None? then Gone(s', r) else At(s', r, Run(plan, w.drawn, 4, previous, Move(ToDraining, Check))))
  {
    steps := OneStatement(s, r, Run(plan, w.drawn, 4, previous, Reload), w);
  }

  // Taking the previous release down, as far as its status and the router let it go.
  lemma Drained(s: System, r: nat, plan: Plan, w: Outside, x: Snapshot) returns (steps: seq<Action>)
    requires At(s, r, Run(plan, w.drawn, 4, Some(x), Move(ToDraining, Check)))
    requires x.id in s.db.releases && s.db.releases[x.id] == x.row && Serving(x.row.status)
    ensures Driven(s, steps, r, w)
    ensures var s' := Exec(s, steps);
      && Gone(s', r)
      && x.id in s'.db.releases && OneRowTo(s.db, s'.db, x.id, s'.db.releases[x.id])
      && s'.db.releases[x.id].status == AfterDrain(x.row.status, w.router.drains)
      && s'.stops == s.stops + if x.row.status == Active && w.router.drains then StopRequest(x.row.container) else []
  {
    var run := Run(plan, w.drawn, 4, Some(x), Move(ToDraining, Check));
    if x.row.status == Ready {
      steps := OneStatement(s, r, run, w);
      assert s.db.releases[x.id := x.row] == s.db.releases;
    } else {
      var a := MoveInSteps(s, r, w, run, ToDraining, x.row);
      var b := Closed(Exec(s, a), r, plan, w, Snapshot(x.id, MovedOn(x.row, Draining)));
      Then(s, r, w, a, b);
      steps := a + b;
    }
  }

  // Draining: if the router has drained it, the container is told to stop and the release is Stopped.
  lemma Closed(s: System, r: nat, plan: Plan, w: Outside, y: Snapshot) returns (steps: seq<Action>)
    requires At(s, r, Run(plan, w.drawn, 4, Some(y), CloseRoute))
    requires y.id in s.db.releases && s.db.releases[y.id] == y.row && y.row.status == Draining
    ensures Driven(s, steps, r, w)
    ensures var s' := Exec(s, steps);
      && Gone(s', r)
      && OneRowTo(s.db, s'.db, y.id, if w.router.drains then MovedOn(y.row, Stopped) else y.row)
      && s'.stops == s.stops + if w.router.drains then StopRequest(y.row.container) else []
  {
    steps := OneStatement(s, r, Run(plan, w.drawn, 4, Some(y), CloseRoute), w);
    assert s.db.releases[y.id := y.row] == s.db.releases;
    if w.router.drains {
      var c := MoveInSteps(Exec(s, steps), r, w, Run(plan, w.drawn, 4, Some(y), Move(ToStopped, Check)), ToStopped, y.row);
      Then(s, r, w, steps, c);
      steps := steps + c;
    }
  }

  // Steps 5 and 6, once the router agrees.
  lemma SwitchedOver(s: System, r: nat, plan: Plan, w: Outside, row: Release) returns (steps: seq<Action>, ok: bool)
    requires At(s, r, Run(plan, w.drawn, 3, None, OpenRoute)) && RoutesServe(s.db) && Unrouted(s.db, w.drawn) && w.router.opens
    requires w.drawn in s.db.releases && s.db.releases[w.drawn] == row
    requires row.status == Ready && row.version == 3 && KeyOf(row) == PlanKey(plan)
    ensures Driven(s, steps, r, w)
    ensures var s' := Exec(s, steps);
      && Gone(s', r)
      && Switched(s.db, s'.db, PlanKey(plan), w.drawn, w.router.drains, ok)
      && s'.stops == s.stops + SwitchStops(s.db, PlanKey(plan), ok)
  {
    var key, previous := PlanKey(plan), PreviousOf(s.db, PlanKey(plan));
    var m := RouteMoved(s, r, plan, w);
    var s1 := Exec(s, m);
    var t := TrafficMoved(s1, r, plan, w, row, previous);
    var s2 := Exec(s1, t);
    Then(s, r, w, m, t);
    steps := m + t;
    if previous.None? {
      ok := true;
      assert key !in s.db.routes;
    } else {
      var x := previous.value;
      ok := x.row.status == Active && w.router.drains;
      assert x.id != w.drawn;
      var k := Drained(s2, r, plan, w, x);
      Then(s, r, w, steps, k);
      steps := steps + k;
      SwitchIs(s.db, s2.db, Exec(s2, k).db, key, w.drawn, row, x, w.router.drains, ok);
    }
  }

  lemma SwitchIs(db: Db, mid: Db, db': Db, key: RouteKey, own: Uuid, row: Release, x: Snapshot, drains: bool, ok: bool)
    requires own in db.releases && KeyOf(row) == key && RoutedIn(db, key) == Some(x.id)
    requires x.id in db.releases && db.releases[x.id] == x.row && x.id != own
    requires mid.releases == db.releases[own := MovedOn(row, Active)] && mid.routes == db.routes[key := own]
    requires x.id in db'.releases && OneRowTo(mid, db', x.id, db'.releases[x.id])
    requires db'.releases[x.id].status == AfterDrain(x.row.status, drains)
    requires ok <==> x.row.status == Active && drains
    ensures Switched(db, db', key, own, drains, ok)
  {
  }

  // What an orchestration has made of the state it started from.
  ghost predicate Outcome(s: System, s': System, r: nat, plan: Plan, w: Outside, ok: bool) {
    && Gone(s', r)
    && s.stops <= s'.stops
    && Orchestrated(s.db, s'.db, s'.stops[|s.stops|..], plan, w.drawn, w.healthy, w.router, ok)
  }

  /** Left to run alone, from any reachable state and whatever the outside answers, an orchestration ends, and what
      it has done to the tables and asked of the container stopper is what the controller promises. */
  lemma OrchestrationInSteps(s: System, r: nat, plan: Plan, w: Outside) returns (steps: seq<Action>, ok: bool)
    requires Inv(s) && s.mode.Up? && r !in s.runs
    ensures Driven(Step(s, Launch(r, plan)), steps, r, w)
    ensures Outcome(s, Exec(Step(s, Launch(r, plan)), steps), r, plan, w, ok)
  {
    ok := false;
    steps := Created(s, r, plan, w);
    if w.drawn !in s.db.releases {
      var more;
      more, ok := Continued(s, Exec(Step(s, Launch(r, plan)), steps), r, plan, w);
      Then(Step(s, Launch(r, plan)), r, w, steps, more);
      steps := steps + more;
    }
  }

  lemma Continued(s: System, mid: System, r: nat, plan: Plan, w: Outside) returns (steps: seq<Action>, ok: bool)
    requires RoutesServe(s.db) && w.drawn !in s.db.releases
    requires OneRowTo(s.db, mid.db, w.drawn, NewRow(plan, Starting, 1)) && mid.stops == s.stops
    requires At(mid, r, Run(plan, w.drawn, 1, None, Move(ToHealthChecking, Check)))
    ensures Driven(mid, steps, r, w)
    ensures Outcome(s, Exec(mid, steps), r, plan, w, ok)
  {
    ok := false;
    steps := Prepared(mid, r, plan, w);
    if !w.healthy {
      FailedOutcome(s, mid, Exec(mid, steps), r, plan, w);
    } else {
      var more;
      more, ok := Finished(s, Exec(mid, steps), r, plan, w);
      Then(mid, r, w, steps, more);
      steps := steps + more;
    }
  }

  lemma FailedOutcome(s: System, mid: System, s': System, r: nat, plan: Plan, w: Outside)
    requires w.drawn !in s.db.releases && !w.healthy && Gone(s', r)
    requires OneRowTo(s.db, mid.db, w.drawn, NewRow(plan, Starting, 1)) && mid.stops == s.stops
    requires OneRowTo(mid.db, s'.db, w.drawn, NewRow(plan, Failed, 3)) && s'.stops == mid.stops + [plan.container]
    ensures Outcome(s, s', r, plan, w, false)
  {
  }

  lemma SwitchedOutcome(s: System, mid: System, s': System, r: nat, plan: Plan, w: Outside, ok: bool)
    requires RoutesServe(s.db) && w.healthy && w.router.opens && w.drawn !in s.db.releases && Gone(s', r)
    requires OneRowTo(s.db, mid.db, w.drawn, NewRow(plan, Ready, 3)) && mid.stops == s.stops
    requires Switched(mid.db, s'.db, PlanKey(plan), w.drawn, w.router.drains, ok)
    requires s'.stops == mid.stops + SwitchStops(mid.db, PlanKey(plan), ok)
    ensures Outcome(s, s', r, plan, w, ok)
  {
    SwitchedFromBefore(s.db, mid.db, s'.db, PlanKey(plan), w.drawn, w.router.drains, ok);
  }

  lemma Finished(s: System, mid: System, r: nat, plan: Plan, w: Outside) returns (steps: seq<Action>, ok: bool)
    requires RoutesServe(s.db) && w.healthy && w.drawn !in s.db.releases
    requires OneRowTo(s.db, mid.db, w.drawn, NewRow(plan, Ready, 3)) && mid.stops == s.stops
    requires At(mid, r, Run(plan, w.drawn, 3, None, OpenRoute))
    ensures Driven(mid, steps, r, w)
    ensures Outcome(s, Exec(mid, steps), r, plan, w, ok)
  {
    if !w.router.opens {
      ok := false;
      steps := OneStatement(mid, r, Run(plan, w.drawn, 3, None, OpenRoute), w);
    } else {
      assert RoutesServe(mid.db) && Unrouted(mid.db, w.drawn);
      steps, ok := SwitchedOver(mid, r, plan, w, NewRow(plan, Ready, 3));
      SwitchedOutcome(s, mid, Exec(mid, steps), r, plan, w, ok);
    }
  }
}
