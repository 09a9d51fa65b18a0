/** The release controller as one caller drives it, statement after statement, against tables nobody
    else is touching. */
module ReleaseController {
  import opened Common
  import opened ReleaseLifecycle
  import opened Orchestration
  import opened OrchestrationSafety
  import opened CrashRecovery
  import opened Health

  // The answers of the traffic router: to prepare and activate, and to prepare and drain the old route.
  datatype RouterAnswers = RouterAnswers(opens: bool, drains: bool)

  // In every environment at most the routed release is Active.
  ghost predicate OnlyRoutedActive(db: Db) {
    forall id :: id in db.releases && db.releases[id].status == Active ==> Routed(db, id, db.releases[id])
  }

  // The release an orchestration of this plan would replace.
  function RoutedIn(db: Db, key: RouteKey): Option<Uuid> {
    if key in db.routes then Some(db.routes[key]) else None
  }

  // `db'` differs from `db` in the rows of `ids` only.
  ghost predicate SameRowsBut(db: Db, db': Db, ids: set<Uuid>) {
    && db'.releases.Keys == db.releases.Keys + ids
    && forall id :: id in db.releases && id !in ids ==> db'.releases[id] == db.releases[id]
  }

  // One of the allowed probes is answered as the policy asks.
  ghost predicate Probed(policy: HealthPolicy, answers: nat -> Answer) {
    exists k: nat :: 1 <= k <= MaxAttempts(policy) && Healthy(policy, answers(k))
  }

  // A predecessor still waiting to become Active cannot be drained and is left alone.
  function AfterDrain(was: Status, drains: bool): Status {
    if was != Active then was else if drains then Stopped else Draining
  }

  /** What switching the environment `key` to release `id` does to the tables: the route moves, the
      release is Active, and whatever was routed there is drained as far as it goes. Nothing else changes. */
  ghost predicate Switched(db: Db, db': Db, key: RouteKey, id: Uuid, drains: bool, ok: bool) {
    && db'.routes == db.routes[key := id]
    && id in db'.releases && db'.releases[id].status == Active && KeyOf(db'.releases[id]) == key
    && match RoutedIn(db, key)
       case None => ok && SameRowsBut(db, db', {id})
       case Some(p) =>
         && p in db.releases
         && SameRowsBut(db, db', {id, p})
         && db'.releases[p].status == AfterDrain(db.releases[p].status, drains)
         && (ok <==> db.releases[p].status == Active && drains)
  }

  // The container that a switch tells to stop.
  function SwitchStops(db: Db, key: RouteKey, ok: bool): seq<string> {
    if ok && key in db.routes && db.routes[key] in db.releases then
      StopRequest(db.releases[db.routes[key]].container)
    else []
  }

  lemma InsertOk(db: Db, id: Uuid, p: Plan)
    requires DbOk(db) && id !in db.releases
    ensures var db' := Insert(db, id, p.project, p.environment, Some(p.container));
      DbOk(db') && Unrouted(db', id) && SameRowsBut(db, db', {id})
  {
    InsertGrows(db, id, p.project, p.environment, Some(p.container));
    assert RoutesServe(Insert(db, id, p.project, p.environment, Some(p.container)));
  }

  // Activating the route and then draining what it replaced amounts to a switch.
  lemma SwitchComposes(db: Db, mid: Db, db': Db, release: Release, id: Uuid, p: Uuid, drains: bool, ok: bool)
    requires DbOk(db) && id in db.releases && db.releases[id] == release
    requires RoutedIn(db, KeyOf(release)) == Some(p) && p in db.releases && p != id
    requires mid.routes == db.routes[KeyOf(release) := id] && SameRowsBut(db, mid, {id})
    requires mid.releases[id].status == Active && KeyOf(mid.releases[id]) == KeyOf(release)
    requires db'.routes == mid.routes && SameRowsBut(mid, db', {p})
    requires db'.releases[p].status == AfterDrain(db.releases[p].status, drains)
    requires ok <==> db.releases[p].status == Active && drains
    ensures Switched(db, db', KeyOf(release), id, drains, ok)
  {
  }

  lemma SwitchedFromBefore(db: Db, mid: Db, db': Db, key: RouteKey, id: Uuid, drains: bool, ok: bool)
    requires id !in db.releases && RoutesServe(db) && mid.routes == db.routes && SameRowsBut(db, mid, {id})
    requires Switched(mid, db', key, id, drains, ok)
    ensures Switched(db, db', key, id, drains, ok)
    ensures SwitchStops(mid, key, ok) == SwitchStops(db, key, ok)
  {
  }

  predicate Current(db: Db, id: Uuid, release: Release) { id in db.releases && db.releases[id] == release }

  // The call gets as far as moving the route.
  predicate Accepted(db: Db, id: Uuid, release: Release, opens: bool) {
    opens && Serving(release.status) && id in db.releases
  }

  // `activate_traffic` given a copy of the row, current or not.
  function Activated(db: Db, id: Uuid, release: Release, opens: bool): Db {
    if !Accepted(db, id, release, opens) then db
    else if release.status == Ready then Transitioned(Upsert(db, KeyOf(release), id), id, release.version, Active)
    else Upsert(db, KeyOf(release), id)
  }

  // The release routed there before, unless it is this one.
  function Displaced(db: Db, key: RouteKey, id: Uuid): Option<Snapshot> {
    match RoutedIn(db, key)
    case None => None
    case Some(p) => if p == id || p !in db.releases then None else Some(Snapshot(p, db.releases[p]))
  }

  /** Activating from a copy of the row leaves every route on a serving release exactly when the call is refused,
      or the row itself still serves and belongs to that environment, however old the copy is. */
  lemma ActivationServesIff(db: Db, id: Uuid, release: Release, opens: bool)
    requires DbOk(db)
    ensures RoutesServe(Activated(db, id, release, opens)) <==>
      Accepted(db, id, release, opens) ==> Serving(db.releases[id].status) && KeyOf(db.releases[id]) == KeyOf(release)
  {
    var db' := Activated(db, id, release, opens);
    if Accepted(db, id, release, opens) {
      assert db'.routes == db.routes[KeyOf(release) := id];
      assert KeyOf(db'.releases[id]) == KeyOf(db.releases[id]);
      assert Serving(db'.releases[id].status) <==> Serving(db.releases[id].status);
      assert db'.routes[KeyOf(release)] == id;
    }
  }

  /** The outcome of a whole orchestration. A failed probe leaves one more release, Failed, its container
      told to stop, and every route and every other release as before; a router that refuses leaves one
      more release, Ready; otherwise the environment is switched. */
  ghost predicate Orchestrated(db: Db, db': Db, asked: seq<string>, plan: Plan, drawn: Uuid, healthy: bool,
                               router: RouterAnswers, ok: bool)
  {
    if drawn in db.releases then
      !ok && db' == db && asked == []
    else if !healthy || !router.opens then
      && !ok
      && db'.routes == db.routes && SameRowsBut(db, db', {drawn})
      && db'.releases[drawn].status == (if healthy then Ready else Failed)
      && asked == if healthy then [] else [plan.container]
    else
      && Switched(db, db', PlanKey(plan), drawn, router.drains, ok)
      && asked == SwitchStops(db, PlanKey(plan), ok)
  }

  lemma OnlyRoutedStaysActive(db: Db, db': Db, asked: seq<string>, plan: Plan, drawn: Uuid, healthy: bool,
                              router: RouterAnswers, ok: bool)
    requires RoutesServe(db) && OnlyRoutedActive(db)
    requires Orchestrated(db, db', asked, plan, drawn, healthy, router, ok)
    ensures RoutesServe(db') && OnlyRoutedActive(db')
  {
    OrchestratedServes(db, db', asked, plan, drawn, healthy, router, ok);
    forall id | id in db'.releases && db'.releases[id].status == Active
      ensures Routed(db', id, db'.releases[id])
    {
      assert id in db.releases && db'.releases[id] == db.releases[id] ==> Routed(db, id, db.releases[id]);
    }
  }

  lemma OrchestratedServes(db: Db, db': Db, asked: seq<string>, plan: Plan, drawn: Uuid, healthy: bool,
                           router: RouterAnswers, ok: bool)
    requires RoutesServe(db) && Orchestrated(db, db', asked, plan, drawn, healthy, router, ok)
    ensures RoutesServe(db')
  {
    forall k | k in db'.routes
      ensures db'.routes[k] in db'.releases && KeyOf(db'.releases[db'.routes[k]]) == k
      ensures Serving(db'.releases[db'.routes[k]].status)
    {
      assert k in db.routes ==> db.routes[k] in db.releases && KeyOf(db.releases[db.routes[k]]) == k;
    }
  }

  // One orchestration of a sequence: what was asked for, what the outside answered, what came of it.
  datatype Turn = Turn(plan: Plan, drawn: Uuid, healthy: bool, router: RouterAnswers, asked: seq<string>, ok: bool)

  // The tables after each of a sequence of orchestrations, from the empty ones.
  ghost predicate OneAfterAnother(dbs: seq<Db>, turns: seq<Turn>) {
    && |dbs| == |turns| + 1 && dbs[0] == EMPTY_DB
    && forall i :: 0 <= i < |turns| ==> TurnOf(dbs[i], dbs[i + 1], turns[i])
  }

  ghost predicate TurnOf(db: Db, db': Db, t: Turn) {
    Orchestrated(db, db', t.asked, t.plan, t.drawn, t.healthy, t.router, t.ok)
  }

  lemma {:induction false} TurnsKeepRouted(dbs: seq<Db>, turns: seq<Turn>, i: nat)
    requires OneAfterAnother(dbs, turns) && i < |dbs|
    ensures RoutesServe(dbs[i]) && OnlyRoutedActive(dbs[i])
  {
    if i > 0 {
      TurnsKeepRouted(dbs, turns, i - 1);
      var t := turns[i - 1];
      assert TurnOf(dbs[i - 1], dbs[i - 1 + 1], t);
      OnlyRoutedStaysActive(dbs[i - 1], dbs[i], t.asked, t.plan, t.drawn, t.healthy, t.router, t.ok);
    }
  }

  /** Without crashes or rivals, after every sequence of orchestrations from the empty tables, whatever the probes
      and the router answered, an environment has at most one Active release, and it is the routed one. */
  lemma AtMostOneActive(dbs: seq<Db>, turns: seq<Turn>, i: nat, a: Uuid, b: Uuid)
    requires OneAfterAnother(dbs, turns) && i < |dbs|
    requires a in dbs[i].releases && dbs[i].releases[a].status == Active
    ensures Routed(dbs[i], a, dbs[i].releases[a])
    ensures b in dbs[i].releases && dbs[i].releases[b].status == Active && KeyOf(dbs[i].releases[a]) == KeyOf(dbs[i].releases[b])
            ==> a == b
  {
    TurnsKeepRouted(dbs, turns, i);
  }

  // Part-way through the recovery loop: what is left to do completes what there was to do.
  ghost predicate Remains(was: Db, todo: seq<Snapshot>, db: Db, rest: seq<Snapshot>, asked: seq<string>) {
    && DbOk(db) && Selected(db, rest)
    && Recover(db, rest) == Recover(was, todo)
    && asked + StopRequests(db, rest) == StopRequests(was, todo)
  }

  lemma RemainsStep(was: Db, todo: seq<Snapshot>, db: Db, x: Snapshot, rest: seq<Snapshot>, asked: seq<string>)
    requires Remains(was, todo, db, rest, asked) && rest != [] && x == rest[0]
    ensures x.id in db.releases && db.releases[x.id] == x.row && Interrupted(x.row.status)
    ensures Remains(was, todo, RecoverRow(db, x), rest[1..], asked + RecoverStops(db, x))
  {
    var db' := RecoverRow(db, x);
    RowSettles(db, x);
    SelectedTail(db, rest, db');
    RecoverUnfolds(db, x, rest, db', asked);
  }

  // Without a stopper nothing is asked for.
  function Asked(stopper: bool, stops: seq<string>): seq<string> { if stopper then stops else [] }

  lemma AskedStep(stopper: bool, before: seq<string>, asked: seq<string>, more: seq<string>)
    ensures before + Asked(stopper, asked) + Asked(stopper, more) == before + Asked(stopper, asked + more)
  {
  }

  function Ids(todo: seq<Snapshot>): seq<Uuid> { if todo == [] then [] else [todo[0].id] + Ids(todo[1..]) }

  // The ids handed back so far, then those of the rows left, are those of all rows.
  ghost predicate Listed(todo: seq<Snapshot>, rest: seq<Snapshot>, ids: seq<Uuid>) { ids + Ids(rest) == Ids(todo) }

  lemma ListedNone(todo: seq<Snapshot>)
    ensures Listed(todo, todo, [])
  {
    assert [] + Ids(todo) == Ids(todo);
  }

  lemma ListedStep(todo: seq<Snapshot>, x: Snapshot, rest: seq<Snapshot>, ids: seq<Uuid>)
    requires Listed(todo, rest, ids) && rest != [] && x == rest[0]
    ensures Listed(todo, rest[1..], ids + [x.id])
  {
    assert ids + ([x.id] + Ids(rest[1..])) == ids + [x.id] + Ids(rest[1..]);
  }

  lemma ListedAll(todo: seq<Snapshot>, rest: seq<Snapshot>, ids: seq<Uuid>)
    requires Listed(todo, rest, ids) && rest == []
    ensures ids == Ids(todo)
  {
    assert ids + [] == ids;
  }

  lemma RecoverUnfolds(db: Db, x: Snapshot, rest: seq<Snapshot>, db': Db, asked: seq<string>)
    requires DbOk(db) && Selected(db, rest) && rest != [] && x == rest[0] && db' == RecoverRow(db, x)
    ensures Recover(db, rest) == Recover(db', rest[1..])
    ensures asked + StopRequests(db, rest) == asked + RecoverStops(db, x) + StopRequests(db', rest[1..])
  {
    var more := StopRequests(db', rest[1..]);
    assert asked + (RecoverStops(db, x) + more) == (asked + RecoverStops(db, x)) + more;
  }

  class Controller {
    var db: Db
    var stops: seq<string>

    constructor ()
      ensures db == EMPTY_DB && stops == []
      ensures DbOk(db) && OnlyRoutedActive(db)
    {
      db := EMPTY_DB;
      stops := [];
    }

    method Transition(id: Uuid, expected: nat, target: Status) returns (r: Result<Release>)
      requires Lineages(db) && RecordsHappened(db)
      modifies `db
      ensures db == Transitioned(old(db), id, expected, target)
      ensures Lineages(db) && RecordsHappened(db)
      ensures r.Ok? <==> Applies(old(db), id, expected, target)
      ensures r.Ok? <==>
        id in old(db).releases && old(db).releases[id].version == expected && CanTransition(old(db).releases[id].status, target)
      ensures r.Err? ==> db == old(db)
      ensures r.Ok? ==>
        && id in db.releases && r.value == db.releases[id]
        && db.releases == old(db).releases[id := old(db).releases[id].(status := target, version := expected + 1)]
        && db.routes == old(db).routes
        && db.records == old(db).records + [TransitionRecord(id, old(db).releases[id].status, target)]
    {
      if id !in db.releases {
        return Err;
      }
      var current := db.releases[id];
      if !CanTransition(current.status, target) || current.version != expected {
        return Err;
      }
      SwapIsLegal(db, id, expected, current, target);
      AppendHappened(Swap(db, id, target), id, current.status, target);
      db := Swap(db, id, target);
      r := Ok(db.releases[id]);
      db := Append(db, id, current.status, target);
    }

    // A transition that will apply, of a release that is unrouted or stays able to serve.
    method Move(id: Uuid, target: Status)
      requires DbOk(db) && id in db.releases && CanTransition(db.releases[id].status, target)
      requires Unrouted(db, id) || Serving(target)
      modifies `db
      ensures db == Transitioned(old(db), id, old(db).releases[id].version, target)
      ensures DbOk(db) && db.routes == old(db).routes && SameRowsBut(old(db), db, {id})
      ensures db.releases[id] == old(db).releases[id].(status := target, version := old(db).releases[id].version + 1)
    {
      SwapKeepsRoutes(db, id, target);
      var _ := Transition(id, db.releases[id].version, target);
    }

    method Stop(container: Option<string>)
      modifies `stops
      ensures stops == old(stops) + StopRequest(container)
    {
      stops := stops + StopRequest(container);
    }

    /** Routes the release, makes it Active and hands back the release it replaced, as that one stood
        before. A release that may not serve, or a router that refuses, leaves everything as it was. The caller's
        copy of the row may be stale; if it is current, that is all that can go wrong. */
    method ActivateTraffic(id: Uuid, release: Release, opens: bool) returns (r: Result<Option<Snapshot>>)
      requires DbOk(db)
      modifies `db
      ensures db == Activated(old(db), id, release, opens)
      ensures r.Ok? <==> Accepted(old(db), id, release, opens)
                         && (release.status == Ready ==> Applies(old(db), id, release.version, Active))
      ensures r.Ok? ==> r.value == Displaced(old(db), KeyOf(release), id)
      ensures Current(old(db), id, release) ==>
        && DbOk(db)
        && (r.Ok? <==> opens && Serving(release.status))
        && (r.Err? ==> db == old(db))
      ensures Current(old(db), id, release) && r.Ok? ==>
        && db.routes == old(db).routes[KeyOf(release) := id]
        && SameRowsBut(old(db), db, {id})
        && db.releases[id].status == Active
        && db.releases[id].version == release.version + (if release.status == Ready then 1 else 0)
        && KeyOf(db.releases[id]) == KeyOf(release)
    {
      if !Serving(release.status) || !opens {
        return Err;
      }
      var prev: Option<Snapshot> := None;
      if KeyOf(release) in db.routes {
        var p := db.routes[KeyOf(release)];
        if p != id {
          prev := Some(Snapshot(p, db.releases[p]));
        }
      }
      // The route references an existing release.
      if id !in db.releases {
        return Err;
      }
      ActivationServesIff(db, id, release, opens);
      db := Upsert(db, KeyOf(release), id);
      if release.status == Ready {
        var moved := Transition(id, release.version, Active);
        if moved.Err? {
          return Err;
        }
      }
      r := Ok(prev);
    }

    /** Takes a replaced release down: Draining, router drain, container stop, Stopped. A release that
        is not Active cannot be drained and is left alone. */
    method DrainPrevious(prev: Snapshot, drains: bool) returns (ok: bool)
      requires DbOk(db) && prev.id in db.releases && db.releases[prev.id] == prev.row && Unrouted(db, prev.id)
      modifies this
      ensures DbOk(db) && db.routes == old(db).routes && SameRowsBut(old(db), db, {prev.id})
      ensures ok <==> prev.row.status == Active && drains
      ensures db.releases[prev.id].status == AfterDrain(prev.row.status, drains)
      ensures prev.row.status != Active ==> db == old(db)
      ensures stops == old(stops) + if ok then StopRequest(prev.row.container) else []
    {
      if !CanTransition(prev.row.status, Draining) {
        return false;
      }
      Move(prev.id, Draining);
      if !drains {
        return false;
      }
      Stop(prev.row.container);
      Move(prev.id, Stopped);
      ok := true;
    }

    // Steps 1 and 2: the new row, and its first transition.
    method StartProbing(plan: Plan, drawn: Uuid)
      requires DbOk(db) && drawn !in db.releases
      modifies `db
      ensures DbOk(db) && db.routes == old(db).routes && SameRowsBut(old(db), db, {drawn})
      ensures db.releases[drawn]
           == Release(plan.project, plan.environment, HealthChecking, 2, Some(plan.container))
      ensures Unrouted(db, drawn)
    {
      InsertOk(db, drawn, plan);
      db := Insert(db, drawn, plan.project, plan.environment, Some(plan.container));
      Move(drawn, HealthChecking);
    }

    // Steps 1 to 4: a new release, probed, and Ready or Failed accordingly.
    method Prepare(plan: Plan, policy: HealthPolicy, answers: nat -> Answer, drawn: Uuid) returns (healthy: bool)
      requires DbOk(db) && drawn !in db.releases
      modifies this
      ensures DbOk(db) && db.routes == old(db).routes && SameRowsBut(old(db), db, {drawn})
      ensures healthy <==> Probed(policy, answers)
      ensures db.releases[drawn] == Release(plan.project, plan.environment,
                if healthy then Ready else Failed, 3, Some(plan.container))
      ensures stops == old(stops) + if healthy then [] else [plan.container]
    {
      StartProbing(plan, drawn);
      var check := WaitUntilHealthy(policy, answers);
      healthy := check.healthy;
      if healthy {
        Move(drawn, Ready);
      } else {
        Stop(Some(plan.container));
        Move(drawn, Failed);
      }
    }

    // Steps 5 and 6: traffic goes to the Ready release, and the release it replaces is taken down.
    method SwitchTraffic(id: Uuid, release: Release, router: RouterAnswers) returns (ok: bool)
      requires DbOk(db) && id in db.releases && db.releases[id] == release && release.status == Ready && Unrouted(db, id)
      modifies this
      ensures DbOk(db)
      ensures !router.opens ==> !ok && db == old(db) && stops == old(stops)
      ensures router.opens ==>
        && Switched(old(db), db, KeyOf(release), id, router.drains, ok)
        && stops == old(stops) + SwitchStops(old(db), KeyOf(release), ok)
    {
      var replaced := ActivateTraffic(id, release, router.opens);
      if replaced.Err? {
        return false;
      }
      ok := true;
      if replaced.value.Some? {
        ghost var mid := db;
        var prev := replaced.value.value;
        ok := DrainPrevious(prev, router.drains);
        SwitchComposes(old(db), mid, db, release, id, prev.id, router.drains, ok);
      }
    }

    method OrchestrateRelease(plan: Plan, policy: HealthPolicy, answers: nat -> Answer, drawn: Uuid,
                              router: RouterAnswers) returns (r: Result<Release>)
      requires DbOk(db)
      modifies this
      ensures DbOk(db)
      ensures old(stops) <= stops
      ensures Orchestrated(old(db), db, stops[|old(stops)|..], plan, drawn, Probed(policy, answers), router, r.Ok?)
      ensures r.Ok? ==> drawn in db.releases && r.value == db.releases[drawn]
    {
      if drawn in db.releases {
        return Err;
      }
      var healthy := Prepare(plan, policy, answers, drawn);
      if !healthy {
        return Err;
      }
      ghost var mid := db;
      var ok := SwitchTraffic(drawn, db.releases[drawn], router);
      if router.opens {
        SwitchedFromBefore(old(db), mid, db, PlanKey(plan), drawn, router.drains, ok);
      }
      r := if ok then Ok(db.releases[drawn]) else Err;
    }

    // One pass of the recovery loop.
    method ReconcileRow(x: Snapshot, stopper: bool) returns (updated: bool)
      requires DbOk(db) && x.id in db.releases && db.releases[x.id] == x.row && Interrupted(x.row.status)
      modifies this
      ensures db == RecoverRow(old(db), x)
      ensures stops == old(stops) + Asked(stopper, RecoverStops(old(db), x))
      ensures updated
    {
      RowSettles(db, x);
      var to := RecoveryTarget(db, x);
      if stopper && to != Active {
        Stop(x.row.container);
      }
      var r := Transition(x.id, x.row.version, to);
      updated := r.Ok?;
    }

    /** Full recovery: the loop over the selected rows does what `Recover` says, so everything proved of
        it holds of the controller after a crash. */
    method Reconcile(todo: seq<Snapshot>, stopper: bool) returns (reconciled: seq<Uuid>)
      requires DbOk(db) && Selected(db, todo)
      modifies this
      ensures db == Recover(old(db), todo)
      ensures DbOk(db)
      ensures stops == old(stops) + Asked(stopper, StopRequests(old(db), todo))
      ensures reconciled == Ids(todo)
    {
      reconciled := [];
      ghost var was, asked := db, [];
      var rest := todo;
      ListedNone(todo);
      while rest != []
        invariant Remains(was, todo, db, rest, asked) == true
        invariant stops == old(stops) + Asked(stopper, asked)
        invariant Listed(todo, rest, reconciled) == true
        decreases |rest|
      {
        var x := rest[0];
        RemainsStep(was, todo, db, x, rest, asked);
        ListedStep(todo, x, rest, reconciled);
        AskedStep(stopper, old(stops), asked, RecoverStops(db, x));
        asked := asked + RecoverStops(db, x);
        var updated := ReconcileRow(x, stopper);
        if updated {
          reconciled := reconciled + [x.id];
        }
        rest := rest[1..];
      }
      ListedAll(todo, rest, reconciled);
    }
  }
}
