/** Deploying and stopping on a single node: what each operation does to projects, deployments and containers,
    what every run of them keeps, and the service that performs them step by step. */
module Deploying {
  import opened Common
  import opened Store

  datatype World = World(projects: map<Uuid, Project>, deployments: map<Uuid, Deployment>, containers: set<nat>)

  // How the outside answers one deploy: detection, build, start, and stopping the container it replaces.
  datatype Answers = Answers(detected: bool, image: Option<string>, container: Option<nat>, stopped: bool)

  datatype Operation =
    | CreateProject(id: Uuid)
    | Deploy(project: Uuid, id: Uuid, answers: Answers)
    | Stop(id: Uuid, stopped: bool)

  predicate IsRunning(w: World, id: Uuid) { id in w.deployments && w.deployments[id].status.Running? }

  // The deploy finds its project and a new id; what comes after is up to the outside.
  predicate Admitted(w: World, o: Operation)
    requires o.Deploy?
  {
    o.project in w.projects && o.id !in w.deployments
  }

  predicate Starts(a: Answers) { a.detected && a.image.Some? && a.container.Some? }

  function FailureOf(project: Uuid, a: Answers): Deployment
    requires !Starts(a)
  {
    if !a.detected then Deployment(project, Failed, None, None, Some("detection failed"))
    else if a.image.None? then Deployment(project, Failed, None, None, Some("build failed"))
    else Deployment(project, Failed, a.image, None, Some("runtime start failed"))
  }

  function Retired(d: Deployment, stopped: bool): Deployment {
    if d.container.None? || stopped then d.(status := Stopped)
    else d.(status := Stopped, error := Some((if d.error.Some? then d.error.value else "") + "; cleanup failed"))
  }

  function Without(containers: set<nat>, d: Deployment, stopped: bool): set<nat> {
    if d.container.Some? && stopped then containers - {d.container.value} else containers
  }

  // The deployment that was active before is stopped if it still runs.
  function Relieved(w: World, active: Option<Uuid>, stopped: bool): World {
    if active.None? || !IsRunning(w, active.value) then w
    else
      var d := w.deployments[active.value];
      World(w.projects, w.deployments[active.value := Retired(d, stopped)], Without(w.containers, d, stopped))
  }

  function With(w: World, id: Uuid, d: Deployment): World {
    World(w.projects, w.deployments[id := d], w.containers)
  }

  // The new deployment is recorded, and its container started if all goes well.
  function Begun(w: World, o: Operation): World
    requires o.Deploy?
  {
    var a := o.answers;
    if Starts(a) then
      With(w.(containers := w.containers + {a.container.value}), o.id, Deployment(o.project, Running, a.image, a.container, None))
    else With(w, o.id, FailureOf(o.project, a))
  }

  function Switched(w: World, o: Operation): World
    requires o.Deploy? && Admitted(w, o) && Starts(o.answers)
  {
    var w' := Relieved(Begun(w, o), w.projects[o.project].active, o.answers.stopped);
    World(w'.projects[o.project := Project(Some(o.id))], w'.deployments, w'.containers)
  }

  // Stopping does something: the deployment is there, not over, has a container, and the runtime stops it.
  predicate Halts(w: World, o: Operation)
    requires o.Stop?
  {
    && o.id in w.deployments && !w.deployments[o.id].status.Stopped? && !w.deployments[o.id].status.Failed?
    && w.deployments[o.id].container.Some? && o.stopped
  }

  predicate IsOver(w: World, id: Uuid) { id in w.deployments && w.deployments[id].status in {Stopped, Failed} }

  function Halted(w: World, o: Operation): World
    requires o.Stop? && Halts(w, o)
  {
    var d := w.deployments[o.id];
    var owns := d.project in w.projects && w.projects[d.project].active == Some(o.id);
    World(if owns then w.projects[d.project := Project(None)] else w.projects,
          w.deployments[o.id := d.(status := Stopped)],
          w.containers - {d.container.value})
  }

  function After(w: World, o: Operation): World {
    match o
    case CreateProject(id) => if id in w.projects then w else w.(projects := w.projects[id := Project(None)])
    case Deploy(project, id, answers) =>
      if !Admitted(w, o) then w
      else if Starts(answers) then Switched(w, o)
      else Begun(w, o)
    case Stop(_, _) => if Halts(w, o) then Halted(w, o) else w
  }

  function Run(run: seq<Operation>): World {
    if run == [] then World(map[], map[], {}) else After(Run(run[..|run| - 1]), run[|run| - 1])
  }

  // The runtime never names a new container like one it still runs.
  predicate NewContainer(w: World, o: Operation) {
    o.Deploy? && o.answers.container.Some? ==> o.answers.container.value !in w.containers
  }

  ghost predicate NewContainers(run: seq<Operation>) {
    forall i :: 0 <= i < |run| ==> NewContainer(Run(run[..i]), run[i])
  }

  // ---------------------------------------------------------------- what every run keeps

  // The active deployment of each project is its running one, and there is no other.
  ghost predicate ActiveIsRunning(w: World) {
    && (forall id :: id in w.deployments ==> w.deployments[id].project in w.projects)
    && (forall id :: id in w.deployments ==> (IsRunning(w, id) <==> w.projects[w.deployments[id].project].active == Some(id)))
    && (forall p :: p in w.projects && w.projects[p].active.Some? ==>
          w.projects[p].active.value in w.deployments && w.deployments[w.projects[p].active.value].project == p)
  }

  // Between operations a deployment is running, failed or stopped; the running ones have a container each.
  ghost predicate Contained(w: World) {
    && (forall id :: id in w.deployments ==> w.deployments[id].status in {Running, Failed, Stopped})
    && (forall id :: IsRunning(w, id) ==> w.deployments[id].container.Some? && w.deployments[id].container.value in w.containers)
    && (forall i, j :: IsRunning(w, i) && IsRunning(w, j) && i != j ==> w.deployments[i].container != w.deployments[j].container)
  }

  // What a switch does to one deployment.
  lemma SwitchedRow(w: World, o: Operation, id: Uuid)
    requires ActiveIsRunning(w) && o.Deploy? && Admitted(w, o) && Starts(o.answers)
    ensures id in Switched(w, o).deployments <==> id == o.id || id in w.deployments
    ensures id in w.deployments && w.projects[o.project].active == Some(id) ==>
              Switched(w, o).deployments[id] == Retired(w.deployments[id], o.answers.stopped)
    ensures id in w.deployments && w.projects[o.project].active != Some(id) ==>
              Switched(w, o).deployments[id] == w.deployments[id]
    ensures Switched(w, o).deployments[o.id] == Deployment(o.project, Running, o.answers.image, o.answers.container, None)
  {
  }

  lemma SwitchKeepsActive(w: World, o: Operation)
    requires ActiveIsRunning(w) && o.Deploy? && Admitted(w, o) && Starts(o.answers)
    ensures ActiveIsRunning(Switched(w, o))
  {
    var w' := Switched(w, o);
    forall id | id in w'.deployments
      ensures w'.deployments[id].project in w'.projects
      ensures IsRunning(w', id) <==> w'.projects[w'.deployments[id].project].active == Some(id)
    {
      SwitchedRow(w, o, id);
    }
    forall p | p in w'.projects && w'.projects[p].active.Some?
      ensures w'.projects[p].active.value in w'.deployments && w'.deployments[w'.projects[p].active.value].project == p
    {
      SwitchedRow(w, o, w'.projects[p].active.value);
    }
  }

  lemma SwitchKeepsContainers(w: World, o: Operation)
    requires ActiveIsRunning(w) && Contained(w) && o.Deploy? && Admitted(w, o) && Starts(o.answers) && NewContainer(w, o)
    ensures Contained(Switched(w, o))
  {
    var w' := Switched(w, o);
    forall id | id in w'.deployments
      ensures w'.deployments[id].status in {Running, Failed, Stopped}
      ensures IsRunning(w', id) ==> id == o.id || (IsRunning(w, id) && w'.deployments[id] == w.deployments[id])
      ensures IsRunning(w', id) && id != o.id ==> w.projects[o.project].active != Some(id)
    {
      SwitchedRow(w, o, id);
    }
    SwitchedRow(w, o, o.id);
  }

  lemma StepKeepsActive(w: World, o: Operation)
    requires ActiveIsRunning(w)
    ensures ActiveIsRunning(After(w, o))
  {
    match o
    case CreateProject(_) => CreateKeeps(w, o, After(w, o));
    case Deploy(_, _, _) =>
      if Admitted(w, o) && Starts(o.answers) {
        SwitchKeepsActive(w, o);
      } else if Admitted(w, o) {
        FailureKeeps(w, o.id, FailureOf(o.project, o.answers), After(w, o));
      }
    case Stop(_, _) =>
      if Halts(w, o) {
        HaltKeeps(w, o, Halted(w, o));
      }
  }

  lemma StepKeepsContained(w: World, o: Operation)
    requires ActiveIsRunning(w) && Contained(w) && NewContainer(w, o)
    ensures Contained(After(w, o))
  {
    match o
    case CreateProject(_) => CreateKeeps(w, o, After(w, o));
    case Deploy(_, _, _) =>
      if Admitted(w, o) && Starts(o.answers) {
        SwitchKeepsContainers(w, o);
      } else if Admitted(w, o) {
        FailureKeeps(w, o.id, FailureOf(o.project, o.answers), After(w, o));
      }
    case Stop(_, _) =>
      if Halts(w, o) {
        HaltKeeps(w, o, Halted(w, o));
      }
  }

  lemma CreateKeeps(w: World, o: Operation, w': World)
    requires ActiveIsRunning(w) && o.CreateProject? && w' == After(w, o)
    ensures ActiveIsRunning(w') && (Contained(w) ==> Contained(w'))
  {
  }

  lemma FailureKeeps(w: World, id: Uuid, d: Deployment, w': World)
    requires ActiveIsRunning(w) && id !in w.deployments && d.project in w.projects && d.status == Failed
    requires w' == With(w, id, d)
    ensures ActiveIsRunning(w') && (Contained(w) ==> Contained(w'))
  {
  }

  lemma HaltKeeps(w: World, o: Operation, w': World)
    requires ActiveIsRunning(w) && o.Stop? && Halts(w, o) && w' == Halted(w, o)
    ensures ActiveIsRunning(w') && (Contained(w) ==> Contained(w'))
  {
  }

  lemma {:induction false} RunKeepsActive(run: seq<Operation>)
    ensures ActiveIsRunning(Run(run))
  {
    if run != [] {
      RunKeepsActive(run[..|run| - 1]);
      StepKeepsActive(Run(run[..|run| - 1]), run[|run| - 1]);
    }
  }

  lemma {:induction false} RunKeepsContained(run: seq<Operation>)
    requires NewContainers(run)
    ensures Contained(Run(run))
  {
    if run != [] {
      var before := run[..|run| - 1];
      forall i | 0 <= i < |before|
        ensures NewContainer(Run(before[..i]), before[i])
      {
        assert before[..i] == run[..i];
      }
      RunKeepsContained(before);
      RunKeepsActive(before);
      StepKeepsContained(Run(before), run[|run| - 1]);
    }
  }

  /** In every run of creations, deploys and stops, whatever the runtime answers, a project's active deployment is
      its one running deployment, and it has none exactly when none of its deployments runs. */
  lemma ActiveIsTheRunningOne(run: seq<Operation>, p: Uuid)
    requires p in Run(run).projects
    ensures var w := Run(run);
            var active := w.projects[p].active;
            && (forall id :: id in w.deployments && w.deployments[id].project == p ==> (IsRunning(w, id) <==> active == Some(id)))
            && (active.Some? ==> IsRunning(w, active.value) && w.deployments[active.value].project == p)
  {
    RunKeepsActive(run);
  }

  // The deployment runs in a container that the runtime still runs.
  predicate HasContainer(w: World, id: Uuid) {
    id in w.deployments && w.deployments[id].container.Some? && w.deployments[id].container.value in w.containers
  }

  /** A deploy whose detection, build or start fails adds one failed deployment and changes nothing else: the
      active deployment still runs, and in its own container if the runtime never reuses the name of one in use. */
  lemma FailedDeployOnlyAdds(run: seq<Operation>, o: Operation)
    requires o.Deploy? && Admitted(Run(run), o) && !Starts(o.answers)
    ensures var w, w' := Run(run), Run(run + [o]);
            && w'.projects == w.projects && w'.containers == w.containers
            && w'.deployments.Keys == w.deployments.Keys + {o.id} && o.id !in w.deployments
            && (forall id :: id in w.deployments ==> w'.deployments[id] == w.deployments[id])
            && w'.deployments[o.id] ==
                 Deployment(o.project, Failed, if o.answers.detected then o.answers.image else None, None, w'.deployments[o.id].error)
            && w'.deployments[o.id].error == Some(if !o.answers.detected then "detection failed"
                                                  else if o.answers.image == None then "build failed" else "runtime start failed")
            && (forall id :: w.projects[o.project].active == Some(id) ==>
                  IsRunning(w', id) && (NewContainers(run) ==> HasContainer(w', id)))
  {
    assert (run + [o])[..|run|] == run;
    RunKeepsActive(run);
    if NewContainers(run) {
      RunKeepsContained(run);
    }
  }

  /** A successful deploy makes the new deployment the only running one of its project and leaves every other
      project's deployments alone, and their containers too if the runtime never reuses the name of one in use. */
  lemma DeployReplaces(run: seq<Operation>, o: Operation)
    requires o.Deploy? && Admitted(Run(run), o) && Starts(o.answers)
    ensures var w, w' := Run(run), Run(run + [o]);
            && (forall id :: id in w'.deployments && w'.deployments[id].project == o.project ==> (IsRunning(w', id) <==> id == o.id))
            && w'.deployments[o.id] == Deployment(o.project, Running, o.answers.image, o.answers.container, None)
            && w'.projects == w.projects[o.project := Project(Some(o.id))]
            && (forall id :: id in w.deployments ==>
                  id in w'.deployments
                  && w'.deployments[id] == if w.projects[o.project].active == Some(id)
                                           then StoppedRow(w.deployments[id], o.answers.stopped) else w.deployments[id])
            && (NewContainers(run + [o]) ==> forall id :: IsRunning(w', id) ==> HasContainer(w', id))
  {
    assert (run + [o])[..|run|] == run;
    RunKeepsActive(run);
    RunKeepsActive(run + [o]);
    SwitchedRows(Run(run), o, Run(run + [o]));
    if NewContainers(run + [o]) {
      RunKeepsContained(run + [o]);
    }
  }

  lemma SwitchedRows(w: World, o: Operation, w': World)
    requires ActiveIsRunning(w) && o.Deploy? && Admitted(w, o) && Starts(o.answers) && w' == Switched(w, o)
    ensures o.id in w'.deployments
    ensures w'.deployments[o.id] == Deployment(o.project, Running, o.answers.image, o.answers.container, None)
    ensures w'.projects == w.projects[o.project := Project(Some(o.id))]
    ensures forall id :: id in w.deployments ==>
      id in w'.deployments
      && w'.deployments[id] == if w.projects[o.project].active == Some(id)
                               then StoppedRow(w.deployments[id], o.answers.stopped) else w.deployments[id]
  {
    SwitchedRow(w, o, o.id);
    forall id | id in w.deployments
      ensures id in w'.deployments
      ensures w'.deployments[id] == if w.projects[o.project].active == Some(id)
                                    then StoppedRow(w.deployments[id], o.answers.stopped) else w.deployments[id]
    {
      SwitchedRow(w, o, id);
    }
  }

  // A deployment that was stopped, with a note if its container would not stop.
  function StoppedRow(d: Deployment, stopped: bool): Deployment {
    var note := if d.container == None || stopped then d.error
                else Some((match d.error case None => "" case Some(e) => e) + "; cleanup failed");
    Deployment(d.project, Stopped, d.image, d.container, note)
  }

  /** Stopping, in terms of the rows: a running deployment whose container the runtime stops becomes Stopped, its
      container is gone, and its project has no active deployment any more; anything else changes nothing. */
  lemma StopStops(run: seq<Operation>, id: Uuid, stopped: bool)
    ensures var w, w' := Run(run), Run(run + [Stop(id, stopped)]);
            && (IsRunning(w, id) && w.deployments[id].container.Some? && stopped ==>
                  && w'.deployments == w.deployments[id := w.deployments[id].(status := Stopped)]
                  && w'.containers == w.containers - {w.deployments[id].container.value}
                  && w.deployments[id].project in w.projects
                  && w'.projects == w.projects[w.deployments[id].project := Project(None)])
            && (!IsRunning(w, id) && (id in w.deployments ==> w.deployments[id].status in {Stopped, Failed}) ==> w' == w)
            && (!stopped ==> w' == w)
  {
    assert (run + [Stop(id, stopped)])[..|run|] == run;
    RunKeepsActive(run);
  }

  // ---------------------------------------------------------------- no container is left behind

  // Every stop of a container succeeds.
  predicate Obliging(o: Operation) { (o.Deploy? ==> o.answers.stopped) && (o.Stop? ==> o.stopped) }

  // The containers are those of the running deployments, and no others.
  ghost predicate Tidy(w: World) { forall c :: c in w.containers <==> exists id :: RunsIn(w, id, c) }

  predicate RunsIn(w: World, id: Uuid, c: nat) { IsRunning(w, id) && w.deployments[id].container == Some(c) }

  lemma SwitchIsTidy(w: World, o: Operation)
    requires ActiveIsRunning(w) && Contained(w) && Tidy(w) && NewContainer(w, o) && Obliging(o)
    requires o.Deploy? && Admitted(w, o) && Starts(o.answers)
    ensures Tidy(Switched(w, o))
  {
    var w' := Switched(w, o);
    SwitchedRow(w, o, o.id);
    forall c | c in w'.containers
      ensures exists id :: RunsIn(w', id, c)
    {
      if c == o.answers.container.value {
        assert RunsIn(w', o.id, c);
      } else {
        var id :| RunsIn(w, id, c);
        SwitchedRow(w, o, id);
        assert RunsIn(w', id, c);
      }
    }
    forall id, c | RunsIn(w', id, c)
      ensures c in w'.containers
    {
      SwitchedRow(w, o, id);
      assert id == o.id || RunsIn(w, id, c);
    }
  }

  lemma HaltIsTidy(w: World, o: Operation)
    requires ActiveIsRunning(w) && Contained(w) && Tidy(w) && o.Stop? && Halts(w, o)
    ensures Tidy(Halted(w, o))
  {
    var w' := Halted(w, o);
    forall c | c in w'.containers
      ensures exists id :: RunsIn(w', id, c)
    {
      var id :| RunsIn(w, id, c);
      assert RunsIn(w', id, c);
    }
    forall id, c | RunsIn(w', id, c)
      ensures c in w'.containers
    {
      assert RunsIn(w, id, c);
    }
  }

  lemma StepIsTidy(w: World, o: Operation)
    requires ActiveIsRunning(w) && Contained(w) && Tidy(w) && NewContainer(w, o) && Obliging(o)
    ensures Tidy(After(w, o))
  {
    match o
    case CreateProject(_) => SameRuns(w, After(w, o));
    case Deploy(_, _, _) =>
      if Admitted(w, o) && Starts(o.answers) {
        SwitchIsTidy(w, o);
      } else {
        SameRuns(w, After(w, o));
      }
    case Stop(_, _) =>
      if Halts(w, o) {
        HaltIsTidy(w, o);
      }
  }

  lemma SameRuns(w: World, w': World)
    requires Tidy(w) && w'.containers == w.containers
    requires forall id, c :: RunsIn(w', id, c) <==> RunsIn(w, id, c)
    ensures Tidy(w')
  {
    forall c: nat
      ensures c in w'.containers <==> exists id :: RunsIn(w', id, c)
    {
      if c in w.containers {
        var id :| RunsIn(w, id, c);
        assert RunsIn(w', id, c);
      }
    }
  }

  /** No container is left behind: in every run in which the runtime stops what it is asked to stop and never reuses the
      name of a container in use, the containers running are exactly those of the running deployments. */
  lemma {:induction false} NoContainerIsLeft(run: seq<Operation>)
    requires NewContainers(run) && forall i :: 0 <= i < |run| ==> Obliging(run[i])
    ensures Tidy(Run(run))
  {
    if run != [] {
      var before := run[..|run| - 1];
      forall i | 0 <= i < |before|
        ensures NewContainer(Run(before[..i]), before[i])
      {
        assert before[..i] == run[..i];
      }
      NoContainerIsLeft(before);
      RunKeepsActive(before);
      RunKeepsContained(before);
      StepIsTidy(Run(before), run[|run| - 1]);
    }
  }

  // ---------------------------------------------------------------- the service

  class DeploymentService {
    const store: StateStore
    var containers: set<nat>

    ghost predicate Valid()
      reads this, store
    {
      store.Valid()
    }

    ghost function Now(): World
      reads this, store
    {
      World(store.Projects(), store.Deployments(), containers)
    }

    constructor ()
      ensures Valid() && Now() == Run([]) && fresh(store)
    {
      store := new StateStore();
      containers := {};
    }

    method Create(id: Uuid) returns (ok: bool)
      requires Valid()
      modifies store
      ensures Valid() && Now() == After(old(Now()), CreateProject(id))
      ensures ok ==> Now() == old(Now()).(projects := old(Now()).projects[id := Project(None)])
      ensures !ok ==> Now() == old(Now())
      ensures ok == (id !in old(Now()).projects)
    {
      ok := store.InsertProject(id, Project(None));
    }

    method Deploy(project: Uuid, id: Uuid, a: Answers) returns (r: Result<Deployment>)
      requires Valid()
      modifies this, store
      ensures Valid()
      ensures Now() == After(old(Now()), Operation.Deploy(project, id, a))
      ensures r.Ok? <==> Admitted(old(Now()), Operation.Deploy(project, id, a)) && Starts(a)
      ensures r.Ok? <==>
        project in old(Now()).projects && id !in old(Now()).deployments && a.detected && a.image.Some? && a.container.Some?
      ensures project !in old(Now()).projects || id in old(Now()).deployments ==> Now() == old(Now())
      ensures r.Ok? ==> r.value == Deployment(project, Running, a.image, a.container, None)
    {
      var found := store.FindProject(project);
      if found.Err? {
        return Err;
      }
      var ok := store.InsertDeployment(id, Deployment(project, Pending, None, None, None));
      if !ok {
        return Err;
      }
      var d := Start(project, id, a, old(Now()));
      if d.None? {
        return Err;
      }
      RetireOld(found.value.active, a.stopped);
      ok := store.UpdateProject(project, Project(Some(id)));
      r := Ok(d.value);
    }

    // Detect, build and start; every failure is recorded in the new deployment and nowhere else.
    method Start(project: Uuid, id: Uuid, a: Answers, ghost before: World) returns (r: Option<Deployment>)
      requires Valid()
      requires Now() == With(before, id, Deployment(project, Pending, None, None, None))
      modifies this, store
      ensures Valid()
      ensures r == if Starts(a) then Some(Deployment(project, Running, a.image, a.container, None)) else None
      ensures Now() == Begun(before, Operation.Deploy(project, id, a))
    {
      var d := Deployment(project, Building, None, None, None);
      Save(id, d, before);
      if !a.detected {
        Save(id, d.(status := Failed, error := Some("detection failed")), before);
        return None;
      }
      if a.image.None? {
        Save(id, d.(status := Failed, error := Some("build failed")), before);
        return None;
      }
      d := d.(image := a.image);
      Save(id, d, before);
      if a.container.None? {
        Save(id, d.(status := Failed, error := Some("runtime start failed")), before);
        return None;
      }
      containers := containers + {a.container.value};
      ghost var begun := before.(containers := containers);
      assert Now() == With(begun, id, d);
      d := d.(container := a.container, status := Running);
      Save(id, d, begun);
      r := Some(d);
    }

    method Save(id: Uuid, d: Deployment, ghost before: World)
      requires Valid() && exists e :: Now() == With(before, id, e)
      modifies store
      ensures Valid() && Now() == With(before, id, d)
    {
      var _ := store.UpdateDeployment(id, d);
    }

    // Stop the deployment that was active before, if it still runs; a failed stop is only noted.
    method RetireOld(active: Option<Uuid>, stopped: bool)
      requires Valid()
      modifies this, store
      ensures Valid() && Now() == Relieved(old(Now()), active, stopped)
    {
      if active.None? {
        return;
      }
      var found := store.FindDeployment(active.value);
      if found.Err? || !found.value.status.Running? {
        return;
      }
      var d := found.value;
      if d.container.Some? && stopped {
        containers := containers - {d.container.value};
      }
      var failed := d.container.Some? && !stopped;
      d := d.(status := Stopped);
      if failed {
        d := d.(error := Some((if d.error.Some? then d.error.value else "") + "; cleanup failed"));
      }
      var _ := store.UpdateDeployment(active.value, d);
    }

    method Stop(id: Uuid, stopped: bool) returns (r: Result<Deployment>)
      requires Valid()
      modifies this, store
      ensures Valid()
      ensures Now() == After(old(Now()), Operation.Stop(id, stopped))
      ensures r.Ok? ==> id in Now().deployments && r.value == Now().deployments[id] && r.value.status in {Stopped, Failed}
      ensures r.Ok? <==> IsOver(old(Now()), id) || Halts(old(Now()), Operation.Stop(id, stopped))
      ensures id !in old(Now()).deployments ==> r.Err?
      ensures id in old(Now()).deployments ==>
        var d := old(Now()).deployments[id];
        r.Ok? <==> d.status in {Stopped, Failed} || (d.container.Some? && stopped)
    {
      var found := store.FindDeployment(id);
      if found.Err? {
        return Err;
      }
      var d := found.value;
      if d.status.Stopped? || d.status.Failed? {
        return Ok(d);
      }
      if d.container.None? || !stopped {
        return Err;
      }
      containers := containers - {d.container.value};
      d := d.(status := Stopped);
      var ok := store.UpdateDeployment(id, d);
      var p := store.FindProject(d.project);
      if p.Ok? && p.value.active == Some(id) {
        ok := store.UpdateProject(d.project, Project(None));
      }
      r := Ok(d);
    }
  }
}
