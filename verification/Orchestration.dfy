/** Any number of `orchestrate_release` runs against the shared tables, one SQL statement (or one call
    to the probe loop, the router or the container stopper) at a time, in any order. A run may end at
    any statement, because every statement and every router call can fail; a crash ends all of them at
    once, and then full recovery runs alone, again one statement at a time. A crash may also hit recovery at
    any statement, which then starts over; and a transition that fails in recovery is passed over. */
module Orchestration {
  import opened Common
  import opened ReleaseLifecycle

  datatype Plan = Plan(project: Uuid, environment: string, container: string)

  // The six calls of `transition` an orchestration can make.
  datatype Stage = ToHealthChecking | ToFailed | ToReady | ToActive | ToDraining | ToStopped

  datatype Phase = Check | Write(current: Release) | Log(current: Release)

  datatype Pc =
    | Create
    | Move(stage: Stage, phase: Phase)
    | Probe
    | OpenRoute
    | FindRoute
    | LoadPrevious(id: Uuid)
    | SaveRoute
    | Reload
    | CloseRoute

  datatype Snapshot = Snapshot(id: Uuid, row: Release)

  // The locals of one orchestration; `own` means nothing before the INSERT.
  datatype Run = Run(plan: Plan, own: Uuid, version: nat, previous: Option<Snapshot>, pc: Pc)

  // Where recovery stands with the first row left: reading the route, stopping the container, and the three
  // statements of `transition`.
  datatype RecoveryPc =
    | Look
    | Halt(to: Status)
    | Examine(to: Status)
    | Store(to: Status, current: Release)
    | Note(to: Status, current: Release)

  datatype Mode = Up | Down | Recovering(todo: seq<Snapshot>, pc: RecoveryPc)

  datatype System = System(db: Db, stops: seq<string>, runs: map<nat, Run>, mode: Mode)

  const INIT := System(EMPTY_DB, [], map[], Up)

  function PlanKey(p: Plan): RouteKey { (p.project, p.environment) }

  function Target(stage: Stage): Status {
    match stage
    case ToHealthChecking => HealthChecking
    case ToFailed => Failed
    case ToReady => Ready
    case ToActive => Active
    case ToDraining => Draining
    case ToStopped => Stopped
  }

  predicate OnPrevious(run: Run, stage: Stage) {
    (stage == ToDraining || stage == ToStopped) && run.previous.Some?
  }

  function Subject(run: Run, stage: Stage): Uuid {
    if OnPrevious(run, stage) then run.previous.value.id else run.own
  }

  function Expected(run: Run, stage: Stage): nat {
    if OnPrevious(run, stage) then run.previous.value.row.version else run.version
  }

  // The row the UPDATE returned replaces the local it was computed from.
  function Returned(run: Run, stage: Stage, row: Release): Run {
    if OnPrevious(run, stage) then run.(previous := Some(Snapshot(run.previous.value.id, row)))
    else run.(version := row.version)
  }

  function Put(s: System, r: nat, db: Db, run: Run): System {
    s.(db := db, runs := s.runs[r := run])
  }

  function End(s: System, r: nat, db: Db): System {
    s.(db := db, runs := s.runs - {r})
  }

  function AdvanceMove(s: System, r: nat, run: Run, stage: Stage, phase: Phase): System {
    var id := Subject(run, stage);
    match phase
    case Check =>
      if id in s.db.releases && CanTransition(s.db.releases[id].status, Target(stage)) then
        Put(s, r, s.db, run.(pc := Move(stage, Write(s.db.releases[id]))))
      else End(s, r, s.db)
    case Write(current) =>
      if Matches(s.db, id, Expected(run, stage)) then
        var db := Swap(s.db, id, Target(stage));
        Put(s, r, db, Returned(run, stage, db.releases[id]).(pc := Move(stage, Log(current))))
      else End(s, r, s.db)
    case Log(current) =>
      var db := Append(s.db, id, current.status, Target(stage));
      match stage
      case ToHealthChecking => Put(s, r, db, run.(pc := Probe))
      case ToFailed => End(s, r, db)
      case ToReady => Put(s, r, db, run.(pc := OpenRoute))
      case ToActive => Put(s, r, db, run.(pc := Reload))
      case ToDraining => Put(s, r, db, run.(pc := CloseRoute))
      case ToStopped => End(s, r, db)
  }

  function StopRequest(c: Option<string>): seq<string> {
    if c.Some? then [c.value] else []
  }

  // `drawn` is the UUID drawn by the INSERT; `ok` is the answer of the probe loop or of the router.
  function Advance(s: System, r: nat, run: Run, drawn: Uuid, ok: bool): System {
    var key := PlanKey(run.plan);
    match run.pc
    case Create =>
      if drawn in s.db.releases then End(s, r, s.db)
      else Put(s, r, Insert(s.db, drawn, run.plan.project, run.plan.environment, Some(run.plan.container)),
               run.(own := drawn, version := 1, pc := Move(ToHealthChecking, Check)))
    case Move(stage, phase) => AdvanceMove(s, r, run, stage, phase)
    case Probe =>
      if ok then Put(s, r, s.db, run.(pc := Move(ToReady, Check)))
      else Put(s, r, s.db, run.(pc := Move(ToFailed, Check))).(stops := s.stops + [run.plan.container])
    case OpenRoute =>
      if ok then Put(s, r, s.db, run.(pc := FindRoute)) else End(s, r, s.db)
    case FindRoute =>
      if key in s.db.routes then Put(s, r, s.db, run.(pc := LoadPrevious(s.db.routes[key])))
      else Put(s, r, s.db, run.(previous := None, pc := SaveRoute))
    case LoadPrevious(id) =>
      if id !in s.db.releases then End(s, r, s.db)
      else Put(s, r, s.db, run.(
        previous := if id == run.own then None else Some(Snapshot(id, s.db.releases[id])),
        pc := SaveRoute))
    case SaveRoute => Put(s, r, Upsert(s.db, key, run.own), run.(pc := Move(ToActive, Check)))
    case Reload =>
      if run.own in s.db.releases && run.previous.Some? then
        Put(s, r, s.db, run.(pc := Move(ToDraining, Check)))
      else End(s, r, s.db)
    case CloseRoute =>
      if ok && run.previous.Some? then
        Put(s, r, s.db, run.(pc := Move(ToStopped, Check)))
          .(stops := s.stops + StopRequest(run.previous.value.row.container))
      else End(s, r, s.db)
  }

  // ---------------------------------------------------------------- recovery

  // The SELECT of full recovery: what it picks up, in whatever order the rows come.
  predicate Interrupted(st: Status) {
    st == Starting || st == HealthChecking || st == Ready || st == Draining
  }

  // Rows as they stand, each once.
  ghost predicate Fresh(db: Db, todo: seq<Snapshot>) {
    && (forall i :: 0 <= i < |todo| ==>
          todo[i].id in db.releases && db.releases[todo[i].id] == todo[i].row && Interrupted(todo[i].row.status))
    && (forall i, j :: 0 <= i < j < |todo| ==> todo[i].id != todo[j].id)
  }

  ghost predicate Selected(db: Db, todo: seq<Snapshot>) {
    && Fresh(db, todo)
    && (forall id :: id in db.releases && Interrupted(db.releases[id].status) ==>
          exists i :: 0 <= i < |todo| && todo[i].id == id)
  }

  predicate Routed(db: Db, id: Uuid, row: Release) {
    KeyOf(row) in db.routes && db.routes[KeyOf(row)] == id
  }

  function RecoveryTarget(db: Db, x: Snapshot): Status {
    match x.row.status
    case Draining => Stopped
    case Ready => if Routed(db, x.id, x.row) then Active else Failed
    case _ => Failed
  }

  // A whole pass of the recovery loop over the row `x` that the SELECT returned.
  function RecoverRow(db: Db, x: Snapshot): Db {
    Transitioned(db, x.id, x.row.version, RecoveryTarget(db, x))
  }

  function RecoverStops(db: Db, x: Snapshot): seq<string> {
    if RecoveryTarget(db, x) == Active then [] else StopRequest(x.row.container)
  }

  // One statement of recovery. A transition that does not apply is passed over, like one whose statement fails.
  function RecoverStep(s: System, todo: seq<Snapshot>, pc: RecoveryPc): System
    requires todo != []
  {
    var x, next := todo[0], Recovering(todo[1..], Look);
    match pc
    case Look => s.(mode := Recovering(todo, Halt(RecoveryTarget(s.db, x))))
    case Halt(to) =>
      s.(stops := s.stops + (if to == Active then [] else StopRequest(x.row.container)), mode := Recovering(todo, Examine(to)))
    case Examine(to) =>
      if x.id in s.db.releases && CanTransition(s.db.releases[x.id].status, to) then
        s.(mode := Recovering(todo, Store(to, s.db.releases[x.id])))
      else s.(mode := next)
    case Store(to, current) =>
      if Matches(s.db, x.id, x.row.version) then s.(db := Swap(s.db, x.id, to), mode := Recovering(todo, Note(to, current)))
      else s.(mode := next)
    case Note(to, current) => s.(db := Append(s.db, x.id, current.status, to), mode := next)
  }

  datatype Action =
    | Launch(r: nat, plan: Plan)
    | Statement(r: nat, drawn: Uuid, ok: bool)
    | Abort(r: nat)
    | Crash
    | BeginRecovery(todo: seq<Snapshot>)
    | RecoverNext
    | RecoverSkip
    | EndRecovery

  ghost function Step(s: System, a: Action): System {
    match a
    case Launch(r, plan) =>
      if s.mode.Up? && r !in s.runs then Put(s, r, s.db, Run(plan, 0, 0, None, Create)) else s
    case Statement(r, drawn, ok) =>
      if s.mode.Up? && r in s.runs then Advance(s, r, s.runs[r], drawn, ok) else s
    case Abort(r) => End(s, r, s.db)
    case Crash => s.(runs := map[], mode := Down)
    case BeginRecovery(todo) =>
      if s.mode.Down? && Selected(s.db, todo) then s.(mode := Recovering(todo, Look)) else s
    case RecoverNext =>
      if s.mode.Recovering? && s.mode.todo != [] then RecoverStep(s, s.mode.todo, s.mode.pc) else s
    case RecoverSkip =>
      if s.mode.Recovering? && s.mode.todo != [] && !s.mode.pc.Look? && !s.mode.pc.Halt? then
        s.(mode := Recovering(s.mode.todo[1..], Look))
      else s
    case EndRecovery =>
      if s.mode == Recovering([], Look) then s.(mode := Up) else s
  }

  ghost function Exec(s: System, run: seq<Action>): System {
    if run == [] then s else Step(Exec(s, run[..|run| - 1]), run[|run| - 1])
  }
}
