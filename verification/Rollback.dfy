/** Rolling back: pick the newest release that once served and still has something to run, and orchestrate a
    new release of it. */
module Rollback {
  import opened Common
  import opened ReleaseLifecycle
  import opened Orchestration
  import opened OrchestrationSafety
  import opened ReleaseController
  import opened Health

  datatype DeploymentStatus = Running | Stopped | Other

  datatype DeploymentRow = DeploymentRow(project: Uuid, status: DeploymentStatus, image: Option<string>, commit: Option<string>,
                                         rollbackFrom: Option<Uuid>)

  // The columns of a release row that tie it to its deployment.
  datatype Origin = Origin(deployment: Uuid, createdAt: int)

  datatype Tables = Tables(db: Db, deployments: map<Uuid, DeploymentRow>, origins: map<Uuid, Origin>)

  datatype Command = Command(project: Uuid, environment: string, current: Uuid)

  // The WHERE clause of the query for a target.
  predicate Eligible(t: Tables, c: Command, id: Uuid) {
    && id in t.db.releases && id in t.origins && t.origins[id].deployment in t.deployments
    && var r, d := t.db.releases[id], t.deployments[t.origins[id].deployment];
       && d.project == c.project && r.environment == c.environment
       && t.origins[id].deployment != c.current
       && r.status in {Active, Status.Stopped} && d.status in {Running, DeploymentStatus.Stopped}
       && (d.image.Some? || d.commit.Some? || r.container.Some?)
  }

  ghost predicate Newest(t: Tables, c: Command, id: Uuid) {
    && Eligible(t, c, id)
    && forall other :: Eligible(t, c, other) ==> t.origins[other].createdAt <= t.origins[id].createdAt
  }

  method SelectTarget(t: Tables, c: Command) returns (r: Option<Uuid>)
    ensures r.Some? ==> Newest(t, c, r.value)
    ensures r.None? ==> forall id :: !Eligible(t, c, id)
    ensures r.Some? ==>
      && r.value in t.db.releases && r.value in t.origins && t.origins[r.value].deployment in t.deployments
      && t.origins[r.value].deployment != c.current
      && t.db.releases[r.value].environment == c.environment
      && t.db.releases[r.value].status in {Active, Status.Stopped}
      && t.deployments[t.origins[r.value].deployment].project == c.project
      && t.deployments[t.origins[r.value].deployment].status in {Running, DeploymentStatus.Stopped}
    ensures forall id | id in t.db.releases && id in t.origins && t.origins[id].deployment in t.deployments ::
      var row, d := t.db.releases[id], t.deployments[t.origins[id].deployment];
      && t.origins[id].deployment != c.current && d.project == c.project && row.environment == c.environment
      && row.status in {Active, Status.Stopped} && d.status in {Running, DeploymentStatus.Stopped}
      && (d.image.Some? || d.commit.Some? || row.container.Some?)
      ==> r.Some? && t.origins[id].createdAt <= t.origins[r.value].createdAt
    ensures r.Some? ==>
      var d := t.deployments[t.origins[r.value].deployment];
      d.image.Some? || d.commit.Some? || t.db.releases[r.value].container.Some?
  {
    r := None;
    var rest := t.db.releases.Keys;
    while rest != {}
      invariant rest <= t.db.releases.Keys
      invariant r.None? ==> forall id :: Eligible(t, c, id) ==> id in rest
      invariant r.Some? ==> Eligible(t, c, r.value)
      invariant r.Some? ==> forall id :: Eligible(t, c, id) && id !in rest ==> t.origins[id].createdAt <= t.origins[r.value].createdAt
      decreases |rest|
    {
      var id :| id in rest;
      if Eligible(t, c, id) && (r.None? || t.origins[r.value].createdAt < t.origins[id].createdAt) {
        r := Some(id);
      }
      rest := rest - {id};
    }
    forall id | id in t.db.releases && id in t.origins && t.origins[id].deployment in t.deployments
      ensures var row, d := t.db.releases[id], t.deployments[t.origins[id].deployment];
        && t.origins[id].deployment != c.current && d.project == c.project && row.environment == c.environment
        && row.status in {Active, Status.Stopped} && d.status in {Running, DeploymentStatus.Stopped}
        && (d.image.Some? || d.commit.Some? || row.container.Some?)
        ==> Eligible(t, c, id)
    {
    }
  }

  // Who asks, and with which scopes; the nil id is the operator's own.
  datatype Auth = Auth(user: Uuid, nil: bool, scopes: set<string>) {
    predicate Has(scope: string) { "*" in scopes || scope in scopes }

    predicate Owns(owner: Option<Uuid>) { owner.Some? ==> user == owner.value || nil }
  }

  predicate Permission(a: Auth, owner: Option<Uuid>, environment: string) {
    if !a.Owns(owner) then false
    else if environment == "production" then a.Has("*") || a.Has("production:operate") || a.Has("deploy:rollback")
    else a.Owns(owner) && (a.Has("*") || a.Has("deploy:write") || a.Has("deploy:operate"))
  }

  /** Exactly who may roll back: the owner of the project, or the operator, with a scope for it. Production takes a
      scope of its own: being able to operate other environments is not enough, and neither is owning the project. */
  lemma ProductionTakesMore(a: Auth, owner: Option<Uuid>, environment: string)
    requires environment != "production"
    ensures Permission(a, owner, "production") <==>
      (owner == None || owner == Some(a.user) || a.nil) && a.scopes * {"*", "production:operate", "deploy:rollback"} != {}
    ensures Permission(a, owner, environment) <==>
      (owner == None || owner == Some(a.user) || a.nil) && a.scopes * {"*", "deploy:write", "deploy:operate"} != {}
    ensures a.scopes <= {"deploy:write", "deploy:operate"} ==> !Permission(a, owner, "production")
    ensures a.scopes <= {"production:operate", "deploy:rollback"} ==> !Permission(a, owner, environment)
  {
    var t := {"*", "production:operate", "deploy:rollback"};
    var u := {"*", "deploy:write", "deploy:operate"};
    assert forall s :: s in a.scopes && s in t ==> s in a.scopes * t;
    assert forall s :: s in a.scopes && s in u ==> s in a.scopes * u;
  }

  // What the outside contributes to one rollback. `owner` is the project's, if there is such a project; `audited`
  // is whether the audit event can be written.
  datatype Draw = Draw(auth: Auth, owner: Option<Uuid>, deployment: Uuid, release: Uuid, container: string, now: int, audited: bool)

  // The project exists, the caller may roll back, there is something to roll back to, and the new deployment's id is new.
  ghost predicate Begins(t: Tables, c: Command, w: Draw) {
    w.owner.Some? && Permission(w.auth, w.owner, c.environment) && w.deployment !in t.deployments && exists id :: Eligible(t, c, id)
  }

  // One deployment is added: it carries the newest eligible release's artifact and names what it replaces.
  ghost predicate Recorded(t: Tables, c: Command, w: Draw, deployments: map<Uuid, DeploymentRow>) {
    exists id :: Newest(t, c, id)
      && var target := t.deployments[t.origins[id].deployment];
         deployments == t.deployments[w.deployment :=
           DeploymentRow(c.project, Running, target.image, target.commit, Some(c.current))]
  }

  class Rollbacks {
    const controller: Controller
    var deployments: map<Uuid, DeploymentRow>
    var origins: map<Uuid, Origin>
    var audit: seq<Uuid>

    function State(): Tables
      reads this, controller
    {
      Tables(controller.db, deployments, origins)
    }

    constructor (controller: Controller)
      ensures this.controller == controller && deployments == map[] && origins == map[] && audit == []
    {
      this.controller := controller;
      deployments, origins, audit := map[], map[], [];
    }

    /** Nothing changes unless there is a target. Then one deployment is added, and the release tables change as
        an orchestration changes them: if the probes fail, every route and every other release is as before.
        The rollback succeeds exactly when the orchestration does and the audit event can be written. */
    method ExecuteRollback(c: Command, w: Draw, policy: HealthPolicy, answers: nat -> Answer, router: RouterAnswers)
      returns (ok: bool)
      requires DbOk(controller.db)
      modifies this, controller
      ensures DbOk(controller.db)
      ensures audit == old(audit) + if ok then [w.deployment] else []
      ensures !Begins(old(State()), c, w) ==> !ok && State() == old(State())
      ensures Begins(old(State()), c, w) ==>
        && Recorded(old(State()), c, w, deployments)
        && old(controller.stops) <= controller.stops
        && exists done :: (ok <==> done && w.audited)
             && Orchestrated(old(controller.db), controller.db, controller.stops[|old(controller.stops)|..],
                             Plan(c.project, c.environment, w.container), w.release, Probed(policy, answers), router, done)
    {
      ok := false;
      if w.owner.None? || !Permission(w.auth, w.owner, c.environment) {
        return;
      }
      var found := SelectTarget(State(), c);
      if found.None? {
        return;
      }
      if w.deployment in deployments {
        return;
      }
      var target := deployments[origins[found.value].deployment];
      deployments := deployments[w.deployment := DeploymentRow(c.project, Running, target.image, target.commit, Some(c.current))];
      var plan := Plan(c.project, c.environment, w.container);
      if w.release !in controller.db.releases {
        origins := origins[w.release := Origin(w.deployment, w.now)];
      }
      var release := controller.OrchestrateRelease(plan, policy, answers, w.release, router);
      ok := release.Ok? && w.audited;
      if ok {
        audit := audit + [w.deployment];
      }
    }
  }
}
