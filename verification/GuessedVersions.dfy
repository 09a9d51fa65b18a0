/** How much it matters that `expected_version` was read and not guessed. One call of `transition` with any
    version at all, among callers that behave. */
module GuessedVersions {
  import opened Common
  import opened ReleaseLifecycle
  import opened ConcurrentTransitions

  ghost predicate LegalLives(db: Db) { forall id :: id in db.lives ==> db.lives[id].Legal() }

  // The world once caller c's call has passed its legality check.
  function Checked(w: World, c: nat, id: Uuid, expected: nat, target: Status): World {
    Step(Step(w, Begin(c, id, expected, target)), Advance(c))
  }

  // Whatever behaved callers do from here on, and c when it goes on, no illegal edge is written.
  ghost predicate Harmless(w: World) {
    forall later: seq<Action> :: HonestRun(w, later) ==> LegalLives(Exec(w, later).db)
  }

  // ---------------------------------------------------------------- other callers can always get there first

  lemma {:induction false} NewCaller(taken: set<nat>) returns (d: nat)
    ensures d !in taken && forall k :: k in taken ==> k < d
    decreases |taken|
  {
    if taken == {} {
      d := 0;
    } else {
      var k :| k in taken;
      var e := NewCaller(taken - {k});
      d := if e <= k then k + 1 else e;
      assert forall j :: j in taken ==> j == k || j in taken - {k};
    }
  }

  lemma HonestSplit(w: World, run: seq<Action>, more: seq<Action>)
    requires HonestRun(w, run) && HonestRun(Exec(w, run), more)
    ensures HonestRun(w, run + more)
  {
    forall i | 0 <= i < |run + more|
      ensures Honest(Exec(w, (run + more)[..i]), (run + more)[i])
    {
      if i < |run| {
        assert (run + more)[..i] == run[..i];
      } else {
        assert (run + more)[..i] == run + more[..i - |run|];
        ExecSplit(w, run, more[..i - |run|]);
      }
    }
  }

  lemma OneStep(w: World, a: Action)
    requires Honest(w, a)
    ensures HonestRun(w, [a]) && Exec(w, [a]) == Step(w, a)
  {
    assert [a][..0] == [];
    assert Exec(w, []) == w;
  }

  // Caller d, idle, has seen the row as it stands.
  ghost predicate Poised(w: World, d: nat, id: Uuid) {
    && Lineages(w.db) && RecordsHappened(w.db) && id in w.db.releases
    && CallerOf(w, d).call.None?
    && id in CallerOf(w, d).known && CallerOf(w, d).known[id] == w.db.releases[id].version
  }

  // Caller d has moved the release on to `to` in `steps` transitions, and nobody else has done anything.
  ghost predicate MovedBy(w: World, w': World, d: nat, id: Uuid, steps: nat, to: Status)
    requires id in w.db.releases
  {
    && Poised(w', d, id)
    && w'.db.releases[id].version == w.db.releases[id].version + steps && w'.db.releases[id].status == to
    && forall c: nat :: c != d ==> CallerOf(w', c) == CallerOf(w, c)
  }

  // One whole call by d, with nobody in between.
  lemma OneMove(w: World, d: nat, id: Uuid, to: Status) returns (run: seq<Action>)
    requires Poised(w, d, id) && CanTransition(w.db.releases[id].status, to)
    ensures HonestRun(w, run) && MovedBy(w, Exec(w, run), d, id, 1, to)
  {
    var row, known := w.db.releases[id], CallerOf(w, d).known;
    var a, call := Begin(d, id, row.version, to), Call(id, row.version, to, Check);
    var w1 := Put(w, w.db, d, Caller(known, Some(call)));
    var w2 := Put(w1, w.db, d, Caller(known, Some(call.(phase := Write(row)))));
    var db3 := Swap(w.db, id, to);
    var w3 := Put(w2, db3, d, Caller(known[id := row.version + 1], Some(call.(phase := Log(row)))));
    var db4 := Append(db3, id, row.status, to);
    var w4 := Put(w3, db4, d, Caller(known[id := row.version + 1], None));
    assert Step(w, a) == w1 && Step(w1, Advance(d)) == w2;
    Written(w2, d, row, known, call, w3);
    assert Step(w3, Advance(d)) == w4;
    FourSteps(w, a, w1, Advance(d), w2, w3, w4);
    run := [a] + [Advance(d)] + [Advance(d)] + [Advance(d)];
    StillPoised(w, w4, d, id, row, to, db3, db4);
  }

  lemma Written(w: World, d: nat, row: Release, known: map<Uuid, nat>, k: Call, w': World)
    requires k.id in w.db.releases && w.db.releases[k.id] == row && k.expected == row.version
    requires CallerOf(w, d) == Caller(known, Some(k.(phase := Write(row))))
    requires w' == Put(w, Swap(w.db, k.id, k.target), d, Caller(known[k.id := row.version + 1], Some(k.(phase := Log(row)))))
    ensures Step(w, Advance(d)) == w'
  {
  }

  lemma StillPoised(w: World, w': World, d: nat, id: Uuid, row: Release, to: Status, db3: Db, db4: Db)
    requires Poised(w, d, id) && row == w.db.releases[id] && CanTransition(row.status, to)
    requires db3 == Swap(w.db, id, to) && db4 == Append(db3, id, row.status, to) && w'.db == db4
    requires CallerOf(w', d) == Caller(CallerOf(w, d).known[id := row.version + 1], None)
    requires forall c: nat :: c != d ==> CallerOf(w', c) == CallerOf(w, c)
    ensures MovedBy(w, w', d, id, 1, to)
  {
    SwapIsLegal(w.db, id, row.version, row, to);
    AppendHappened(db3, id, row.status, to);
  }

  lemma FourSteps(w: World, a: Action, w1: World, b: Action, w2: World, w3: World, w4: World)
    requires Honest(w, a) && b.Advance?
    requires Step(w, a) == w1 && Step(w1, b) == w2 && Step(w2, b) == w3 && Step(w3, b) == w4
    ensures HonestRun(w, [a] + [b] + [b] + [b]) && Exec(w, [a] + [b] + [b] + [b]) == w4
  {
    OneStep(w, a);
    OneStep(w1, b);
    OneStep(w2, b);
    OneStep(w3, b);
    HonestSplit(w, [a], [b]);
    ExecSplit(w, [a], [b]);
    HonestSplit(w, [a] + [b], [b]);
    ExecSplit(w, [a] + [b], [b]);
    HonestSplit(w, [a] + [b] + [b], [b]);
    ExecSplit(w, [a] + [b] + [b], [b]);
  }

  function Next(s: Status): Status {
    match s
    case Starting => HealthChecking
    case HealthChecking => Status.Ready
    case Ready => Active
    case _ => Draining
  }

  // From any status, any number of transitions that the lifecycle has room for, ending in Failed.
  lemma {:induction false} Climb(w: World, d: nat, id: Uuid, steps: nat) returns (run: seq<Action>)
    requires Poised(w, d, id) && 1 <= steps <= 5 - Rank(w.db.releases[id].status)
    ensures HonestRun(w, run) && MovedBy(w, Exec(w, run), d, id, steps, Failed)
    decreases steps
  {
    if steps == 1 {
      run := OneMove(w, d, id, Failed);
    } else {
      var first := OneMove(w, d, id, Next(w.db.releases[id].status));
      var mid := Exec(w, first);
      var rest := Climb(mid, d, id, steps - 1);
      HonestSplit(w, first, rest);
      ExecSplit(w, first, rest);
      run := first + rest;
    }
  }

  // ---------------------------------------------------------------- the exact condition

  // Version and status go together until the release ends.
  lemma RoomLeft(db: Db, id: Uuid)
    requires Lineages(db) && id in db.releases && Rank(db.releases[id].status) < 5
    ensures db.releases[id].version == 1 + Rank(db.releases[id].status)
  {
    assert Lineage(db.lives[id], db.releases[id]);
    LifeIsShort(db.lives[id]);
  }

  lemma ModestIsHarmless(w: World, c: nat, id: Uuid, expected: nat, target: Status)
    requires Inv(w) && CallerOf(w, c).call.None? && id in w.db.releases && CanTransition(w.db.releases[id].status, target)
    requires expected <= w.db.releases[id].version || expected > 6
    ensures Harmless(Checked(w, c, id, expected, target))
  {
    var me, k := CallerOf(w, c), Call(id, expected, target, Check);
    var w1 := Put(w, w.db, c, Caller(me.known, Some(k)));
    assert CallerOk(w.db, me);
    StatementKeepsInv(w, c, w.db, Caller(me.known, Some(k)));
    AdvanceKeepsInv(w1, c, CallerOf(w1, c), k);
    var w2 := Checked(w, c, id, expected, target);
    assert Inv(w2);
    forall later: seq<Action> | HonestRun(w2, later)
      ensures LegalLives(Exec(w2, later).db)
    {
      ExecKeepsInv(w2, later);
      LineagesAreLegal(Exec(w2, later).db);
    }
  }

  lemma LineagesAreLegal(db: Db)
    requires Lineages(db)
    ensures LegalLives(db)
  {
    forall id | id in db.lives
      ensures db.lives[id].Legal()
    {
      assert Lineage(db.lives[id], db.releases[id]);
    }
  }

  // A compare-and-set that matches a failed row writes an edge out of Failed.
  lemma WriteOnFailed(w: World, c: nat, id: Uuid, expected: nat, target: Status)
    requires Lineages(w.db) && Wins(w, c, id, expected) && w.db.releases[id].status == Failed
    ensures !LegalLives(Step(w, Advance(c)).db)
  {
    var db := Step(w, Advance(c)).db;
    assert Lineage(w.db.lives[id], w.db.releases[id]);
    assert id in db.lives && db.lives[id].Moved? && db.lives[id].past.Now() == Failed;
    assert !db.lives[id].Legal();
  }

  lemma GuessIsHarmful(w: World, c: nat, id: Uuid, expected: nat, target: Status)
    requires Inv(w) && CallerOf(w, c).call.None? && id in w.db.releases && CanTransition(w.db.releases[id].status, target)
    requires w.db.releases[id].version < expected <= 6
    ensures !Harmless(Checked(w, c, id, expected, target))
  {
    var w0, row := Checked(w, c, id, expected, target), w.db.releases[id];
    assert w0.db == w.db && CallerOf(w0, c).call == Some(Call(id, expected, target, Write(row)));
    var d := NewCaller(w0.callers.Keys);
    assert d != c;
    var w1 := Step(w0, Observe(d, id));
    OneStep(w0, Observe(d, id));
    RoomLeft(w.db, id);
    assert Poised(w1, d, id);
    var run := Climb(w1, d, id, expected - row.version);
    var w2 := Exec(w1, run);
    assert CallerOf(w2, c) == CallerOf(w1, c) == CallerOf(w0, c);
    WriteOnFailed(w2, c, id, expected, target);
    HonestSplit(w0, [Observe(d, id)], run);
    ExecSplit(w0, [Observe(d, id)], run);
    OneStep(w2, Advance(c));
    HonestSplit(w0, [Observe(d, id)] + run, [Advance(c)]);
    ExecSplit(w0, [Observe(d, id)] + run, [Advance(c)]);
  }

  /** A call that passes its legality check can end up writing an illegal edge, in some run of callers that behave,
      exactly when the version it expects is above the one the row had at the check and not above six, the highest
      a row can reach. */
  lemma GuessIsHarmlessIff(w: World, c: nat, id: Uuid, expected: nat, target: Status)
    requires Inv(w) && CallerOf(w, c).call.None? && id in w.db.releases && CanTransition(w.db.releases[id].status, target)
    ensures Harmless(Checked(w, c, id, expected, target)) <==> expected <= w.db.releases[id].version || expected > 6
  {
    if expected <= w.db.releases[id].version || expected > 6 {
      ModestIsHarmless(w, c, id, expected, target);
    } else {
      GuessIsHarmful(w, c, id, expected, target);
    }
  }
}
