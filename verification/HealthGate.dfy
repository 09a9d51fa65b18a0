/** The health gate, over every interleaving: nothing gets as far as serving without a probe that answered well. */
module HealthGate {
  import opened Common
  import opened ReleaseLifecycle
  import opened Orchestration
  import opened OrchestrationSafety
  import opened CrashRecovery

  // The release whose probe loop answers well in this step, if one does.
  function Passing(s: System, a: Action): set<Uuid> {
    if a.Statement? && a.ok && s.mode.Up? && a.r in s.runs && s.runs[a.r].pc == Probe then {s.runs[a.r].own} else {}
  }

  // All of them in a run.
  ghost function Passed(run: seq<Action>): set<Uuid> {
    if run == [] then {}
    else Passed(run[..|run| - 1]) + Passing(Exec(INIT, run[..|run| - 1]), run[|run| - 1])
  }

  predicate Unproven(s: Status) { s == Starting || s == HealthChecking || s == Failed }

  ghost predicate Proven(db: Db, passed: set<Uuid>) {
    forall id :: id in db.releases ==> Unproven(db.releases[id].status) || id in passed
  }

  predicate RunGated(run: Run, passed: set<Uuid>) { run.pc.Move? && run.pc.stage == ToReady ==> run.own in passed }

  ghost predicate Gated(s: System, passed: set<Uuid>) {
    && Proven(s.db, passed)
    && forall r :: r in s.runs ==> RunGated(s.runs[r], passed)
  }

  // A compare-and-set that matches takes a release out of the unproven statuses only after its probe.
  lemma WriteProven(db: Db, run: Run, stage: Stage, current: Release, passed: set<Uuid>)
    requires RunOk(db, run) && run.pc == Move(stage, Write(current)) && RunGated(run, passed) && Proven(db, passed)
    requires Matches(db, Subject(run, stage), Expected(run, stage))
    ensures Proven(Swap(db, Subject(run, stage), Target(stage)), passed)
  {
    MatchedRow(db, run, stage, current);
  }

  lemma PutGated(s: System, r: nat, db: Db, run: Run, passed: set<Uuid>, passed': set<Uuid>)
    requires Gated(s, passed) && passed <= passed' && Proven(db, passed') && RunGated(run, passed')
    ensures Gated(Put(s, r, db, run), passed') && Gated(End(s, r, db), passed')
  {
  }

  lemma MoveGated(s: System, r: nat, run: Run, stage: Stage, phase: Phase, passed: set<Uuid>)
    requires Gated(s, passed) && RunOk(s.db, run) && RunGated(run, passed) && run.pc == Move(stage, phase)
    ensures Gated(AdvanceMove(s, r, run, stage, phase), passed)
  {
    var id := Subject(run, stage);
    match phase
    case Check =>
      if id in s.db.releases {
        PutGated(s, r, s.db, run.(pc := Move(stage, Write(s.db.releases[id]))), passed, passed);
      }
      PutGated(s, r, s.db, run, passed, passed);
    case Write(current) =>
      if Matches(s.db, id, Expected(run, stage)) {
        WriteProven(s.db, run, stage, current, passed);
        var db := Swap(s.db, id, Target(stage));
        PutGated(s, r, db, Returned(run, stage, db.releases[id]).(pc := Move(stage, Log(current))), passed, passed);
      } else {
        PutGated(s, r, s.db, run, passed, passed);
      }
    case Log(current) =>
      var db := Append(s.db, id, current.status, Target(stage));
      assert Proven(db, passed);
      PutGated(s, r, db, run.(pc := if Next(stage).Some? then Next(stage).value else Probe), passed, passed);
  }

  lemma AdvanceGated(s: System, r: nat, drawn: Uuid, ok: bool, passed: set<Uuid>)
    requires Inv(s) && Gated(s, passed) && s.mode.Up? && r in s.runs
    ensures Gated(Advance(s, r, s.runs[r], drawn, ok), passed + Passing(s, Statement(r, drawn, ok)))
  {
    var run := s.runs[r];
    assert RunOk(s.db, run) && RunGated(run, passed);
    if run.pc.Move? {
      MoveGated(s, r, run, run.pc.stage, run.pc.phase, passed);
    }
  }

  lemma RecoverGated(s: System, todo: seq<Snapshot>, pc: RecoveryPc, passed: set<Uuid>)
    requires Inv(s) && Gated(s, passed) && s.mode == Recovering(todo, pc) && todo != []
    ensures Gated(RecoverStep(s, todo, pc), passed)
  {
    if pc.Store? {
      assert todo[0].id in s.db.releases && s.db.releases[todo[0].id] == todo[0].row;
    }
  }

  lemma StepGated(s: System, a: Action, passed: set<Uuid>)
    requires Inv(s) && Gated(s, passed)
    ensures Gated(Step(s, a), passed + Passing(s, a))
  {
    match a
    case Statement(r, drawn, ok) =>
      if s.mode.Up? && r in s.runs {
        AdvanceGated(s, r, drawn, ok, passed);
      }
    case RecoverNext =>
      if s.mode.Recovering? && s.mode.todo != [] {
        RecoverGated(s, s.mode.todo, s.mode.pc, passed);
      }
    case _ =>
  }

  lemma {:induction false} RunIsGated(run: seq<Action>)
    ensures Gated(Exec(INIT, run), Passed(run))
  {
    if run != [] {
      var before := run[..|run| - 1];
      RunIsGated(before);
      ExecKeepsInv(INIT, before);
      StepGated(Exec(INIT, before), run[|run| - 1], Passed(before));
    }
  }

  /** Whatever the interleaving and wherever the crashes, a release that is Ready, Active, Draining or Stopped, or
      that a route leads to, is one whose own probe loop has answered well. */
  lemma OnlyHealthyReleasesServe(run: seq<Action>, id: Uuid)
    requires id in Exec(INIT, run).db.releases
    ensures var db := Exec(INIT, run).db;
      && (db.releases[id].status in {Ready, Active, Draining, Stopped} ==> id in Passed(run))
      && ((exists k :: k in db.routes && db.routes[k] == id) ==> id in Passed(run))
  {
    RunIsGated(run);
    ExecKeepsInv(INIT, run);
  }
}
