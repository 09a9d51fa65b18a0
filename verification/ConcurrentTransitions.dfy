/** `transition` as any number of callers see it. One call is three statements: read the row and check
    that the edge is legal, compare-and-set on the version the caller passed, append to the log. Other
    callers may run between any two of them, and a caller may stop for good between any two. */
module ConcurrentTransitions {
  import opened Common
  import opened ReleaseLifecycle

  datatype Phase = Check | Write(current: Release) | Log(current: Release)

  datatype Call = Call(id: Uuid, expected: nat, target: Status, phase: Phase)

  // `known` holds the versions this caller has been shown by the database.
  datatype Caller = Caller(known: map<Uuid, nat>, call: Option<Call>)

  datatype World = World(db: Db, callers: map<nat, Caller>)

  datatype Action =
    | Create(c: nat, id: Uuid, project: Uuid, environment: string, container: Option<string>)
    | Observe(c: nat, id: Uuid)
    | Begin(c: nat, id: Uuid, expected: nat, target: Status)
    | Advance(c: nat)
    | Vanish(c: nat)

  const INIT := World(EMPTY_DB, map[])

  function CallerOf(w: World, c: nat): Caller {
    if c in w.callers then w.callers[c] else Caller(map[], None)
  }

  // The statement of caller c has turned the database into `db` and left the caller as `me`.
  function Put(w: World, db: Db, c: nat, me: Caller): World {
    World(db, w.callers[c := me])
  }

  // One statement of the call in progress; every error return ends the call.
  function AdvanceCall(w: World, c: nat, me: Caller, k: Call): World {
    match k.phase
    case Check =>
      if k.id in w.db.releases && CanTransition(w.db.releases[k.id].status, k.target) then
        Put(w, w.db, c, Caller(me.known, Some(k.(phase := Write(w.db.releases[k.id])))))
      else
        Put(w, w.db, c, Caller(me.known, None))
    case Write(current) =>
      if Matches(w.db, k.id, k.expected) then
        Put(w, Swap(w.db, k.id, k.target), c,
            Caller(me.known[k.id := k.expected + 1], Some(k.(phase := Log(current)))))
      else
        Put(w, w.db, c, Caller(me.known, None))
    case Log(current) =>
      Put(w, Append(w.db, k.id, current.status, k.target), c, Caller(me.known, None))
  }

  function Step(w: World, a: Action): World {
    var me := CallerOf(w, a.c);
    match a
    case Create(c, id, project, environment, container) =>
      if id in w.db.releases then w
      else Put(w, Insert(w.db, id, project, environment, container), c, Caller(me.known[id := 1], me.call))
    case Observe(c, id) =>
      if id !in w.db.releases then w
      else Put(w, w.db, c, Caller(me.known[id := w.db.releases[id].version], me.call))
    case Begin(c, id, expected, target) =>
      if me.call.Some? then w
      else Put(w, w.db, c, Caller(me.known, Some(Call(id, expected, target, Check))))
    case Advance(c) =>
      if me.call.None? then w else AdvanceCall(w, c, me, me.call.value)
    case Vanish(c) =>
      w.(callers := w.callers - {c})
  }

  function Exec(w: World, run: seq<Action>): World {
    if run == [] then w else Step(Exec(w, run[..|run| - 1]), run[|run| - 1])
  }

  // The caller passes a version the database has shown it for that row, not one it made up.
  predicate Honest(w: World, a: Action) {
    a.Begin? ==> a.id in CallerOf(w, a.c).known && a.expected == CallerOf(w, a.c).known[a.id]
  }

  ghost predicate HonestRun(w: World, run: seq<Action>) {
    forall i :: 0 <= i < |run| ==> Honest(Exec(w, run[..i]), run[i])
  }

  // Caller c is about to execute a compare-and-set that will match.
  predicate Wins(w: World, c: nat, id: Uuid, version: nat) {
    && CallerOf(w, c).call.Some?
    && var k := CallerOf(w, c).call.value;
       k.phase.Write? && k.id == id && k.expected == version && Matches(w.db, id, version)
  }

  // The version a call expects was the row's when it was checked, or before; or it is one no row ever has.
  ghost predicate CallOk(db: Db, k: Call) {
    match k.phase
    case Check => k.expected > 6 || (k.id in db.releases && k.expected <= db.releases[k.id].version)
    case Write(current) =>
      || k.expected > 6
      || (Saw(db, k.id, current) && k.expected <= current.version && CanTransition(current.status, k.target))
    case Log(current) => LifeOf(db, k.id).Took(current.status, k.target)
  }

  // No row's version exceeds six.
  lemma VersionsAreSmall(db: Db, id: Uuid)
    requires Lineages(db) && id in db.releases
    ensures db.releases[id].version <= 6
  {
    assert Lineage(db.lives[id], db.releases[id]);
    LifeIsShort(db.lives[id]);
  }

  ghost predicate CallerOk(db: Db, me: Caller) {
    && (forall id :: id in me.known ==> id in db.releases && me.known[id] <= db.releases[id].version)
    && (me.call.Some? ==> CallOk(db, me.call.value))
  }

  ghost predicate Inv(w: World) {
    && Lineages(w.db)
    && RecordsHappened(w.db)
    && forall c :: c in w.callers ==> CallerOk(w.db, w.callers[c])
  }

  // A statement of caller c: the database grows, c's own record changes, nobody else's does.
  lemma StatementKeepsInv(w: World, c: nat, db: Db, me: Caller)
    requires Inv(w) && Lineages(db) && RecordsHappened(db) && Grows(w.db, db) && CallerOk(db, me)
    ensures Inv(Put(w, db, c, me))
  {
    forall d | d in w.callers && d != c
      ensures CallerOk(db, w.callers[d])
    {
      CallerKept(w.db, db, w.callers[d]);
    }
  }

  // What a caller knows stays true while the database grows.
  lemma CallerKept(db: Db, db': Db, me: Caller)
    requires CallerOk(db, me) && Grows(db, db')
    ensures CallerOk(db', me)
  {
  }

  // Having written, the caller knows the version it wrote and owes the log that edge.
  lemma WriterOk(db: Db, me: Caller, k: Call, current: Release)
    requires CallerOk(db, me) && LifeOf(db, k.id).Took(current.status, k.target)
    requires k.id in db.releases && db.releases[k.id].version == k.expected + 1
    ensures CallerOk(db, Caller(me.known[k.id := k.expected + 1], Some(k.(phase := Log(current)))))
  {
  }

  lemma WriteKeepsInv(w: World, c: nat, me: Caller, k: Call)
    requires Inv(w) && CallerOk(w.db, me) && me.call == Some(k)
    requires k.phase.Write? && Matches(w.db, k.id, k.expected)
    ensures Inv(AdvanceCall(w, c, me, k))
  {
    var current, db := k.phase.current, Swap(w.db, k.id, k.target);
    VersionsAreSmall(w.db, k.id);
    SwapIsLegal(w.db, k.id, k.expected, current, k.target);
    CallerKept(w.db, db, me);
    WriterOk(db, me, k, current);
    StatementKeepsInv(w, c, db, Caller(me.known[k.id := k.expected + 1], Some(k.(phase := Log(current)))));
  }

  lemma AdvanceKeepsInv(w: World, c: nat, me: Caller, k: Call)
    requires Inv(w) && CallerOk(w.db, me) && me.call == Some(k)
    ensures Inv(AdvanceCall(w, c, me, k))
  {
    match k.phase
    case Check =>
    case Write(current) =>
      if Matches(w.db, k.id, k.expected) {
        WriteKeepsInv(w, c, me, k);
      }
    case Log(current) =>
      AppendHappened(w.db, k.id, current.status, k.target);
      var db := Append(w.db, k.id, current.status, k.target);
      CallerKept(w.db, db, me);
      StatementKeepsInv(w, c, db, Caller(me.known, None));
  }

  lemma StepKeepsInv(w: World, a: Action)
    requires Inv(w) && Honest(w, a)
    ensures Inv(Step(w, a))
  {
    var me := CallerOf(w, a.c);
    assert CallerOk(w.db, me);
    match a
    case Create(c, id, project, environment, container) =>
      if id !in w.db.releases {
        InsertGrows(w.db, id, project, environment, container);
        var db := Insert(w.db, id, project, environment, container);
        CallerKept(w.db, db, me);
        StatementKeepsInv(w, c, db, Caller(me.known[id := 1], me.call));
      }
    case Observe(c, id) =>
    case Begin(c, id, expected, target) =>
    case Advance(c) =>
      if me.call.Some? {
        AdvanceKeepsInv(w, c, me, me.call.value);
      }
    case Vanish(c) =>
  }

  lemma {:induction false} ExecKeepsInv(w: World, run: seq<Action>)
    requires Inv(w) && HonestRun(w, run)
    ensures Inv(Exec(w, run))
  {
    if run != [] {
      var front := run[..|run| - 1];
      forall i | 0 <= i < |front|
        ensures Honest(Exec(w, front[..i]), front[i])
      {
        assert front[..i] == run[..i];
      }
      ExecKeepsInv(w, front);
      StepKeepsInv(Exec(w, front), run[|run| - 1]);
    }
  }

  /** Whatever the interleaving, each release has lived a legal life, its version counts one plus the
      transitions applied to it, there were at most five of them, and the log records only transitions
      that were applied. */
  lemma EveryAppliedWriteIsLegal(run: seq<Action>)
    requires HonestRun(INIT, run)
    ensures var db := Exec(INIT, run).db;
      && db.lives.Keys == db.releases.Keys
      && (forall id :: id in db.releases ==>
            && db.lives[id].Legal()
            && db.releases[id].status == db.lives[id].Now()
            && db.releases[id].version == db.lives[id].Length() <= 6)
      && (forall r :: r in db.records ==> LifeOf(db, r.release).Took(r.from, r.to))
  {
    ExecKeepsInv(INIT, run);
    var db := Exec(INIT, run).db;
    forall id | id in db.releases
      ensures db.lives[id].Length() <= 6
    {
      assert Lineage(db.lives[id], db.releases[id]);
      LifeIsShort(db.lives[id]);
    }
  }

  lemma StepVersionUp(w: World, a: Action, id: Uuid)
    requires id in w.db.releases
    ensures id in Step(w, a).db.releases
    ensures w.db.releases[id].version <= Step(w, a).db.releases[id].version
  {
  }

  lemma {:induction false} ExecVersionUp(w: World, run: seq<Action>, id: Uuid)
    requires id in w.db.releases
    ensures id in Exec(w, run).db.releases
    ensures w.db.releases[id].version <= Exec(w, run).db.releases[id].version
  {
    if run != [] {
      ExecVersionUp(w, run[..|run| - 1], id);
      StepVersionUp(Exec(w, run[..|run| - 1]), run[|run| - 1], id);
    }
  }

  /** A caller may stop for good at any point; then only what it was about to do is lost. */
  lemma VanishingIs(w: World, c: nat)
    ensures Step(w, Vanish(c)) == World(w.db, map d | d in w.callers && d != c :: w.callers[d])
  {
  }

  /** At most one caller holding a given version wins: once a compare-and-set on (id, version) has
      matched, none on the same pair matches in any later state, whoever issues it. */
  lemma OneWinnerPerVersion(w: World, c: nat, id: Uuid, version: nat, later: seq<Action>, d: nat)
    requires Wins(w, c, id, version)
    ensures !Wins(Exec(Step(w, Advance(c)), later), d, id, version)
  {
    var w' := Step(w, Advance(c));
    assert w'.db.releases[id].version == version + 1;
    ExecVersionUp(w', later, id);
  }

  lemma {:induction false} ExecSplit(w: World, run: seq<Action>, more: seq<Action>)
    ensures Exec(w, run + more) == Exec(Exec(w, run), more)
  {
    if more == [] {
      assert run + more == run;
    } else {
      assert (run + more)[..|run + more| - 1] == run + more[..|more| - 1];
      ExecSplit(w, run, more[..|more| - 1]);
    }
  }

  // ---------------------------------------------------------------- the log misses nothing

  // Caller c has written the edge and is about to log it.
  predicate Owes(w: World, c: nat, e: TransitionRecord) {
    && c in w.callers && w.callers[c].call.Some?
    && var k := w.callers[c].call.value;
       k.phase.Log? && e == TransitionRecord(k.id, k.phase.current.status, k.target)
  }

  ghost predicate Accounted(w: World, e: TransitionRecord) { e in w.db.records || exists c :: Owes(w, c, e) }

  ghost predicate AllAccounted(w: World) {
    forall id, from, to :: id in w.db.lives && w.db.lives[id].Took(from, to) ==> Accounted(w, TransitionRecord(id, from, to))
  }

  // Whoever owed an entry before still does, or it is in the log.
  lemma StillAccounted(w: World, c: nat, db: Db, me: Caller, e: TransitionRecord)
    requires Accounted(w, e) && (forall x :: x in w.db.records ==> x in db.records)
    requires Owes(w, c, e) ==> e in db.records || Owes(Put(w, db, c, me), c, e)
    ensures Accounted(Put(w, db, c, me), e)
  {
    if e !in w.db.records {
      var d :| Owes(w, d, e);
      if d != c {
        assert Owes(Put(w, db, c, me), d, e);
      }
    }
  }

  // A statement that takes no edge.
  lemma QuietKeepsAccounts(w: World, c: nat, db: Db, me: Caller)
    requires AllAccounted(w) && (forall x :: x in w.db.records ==> x in db.records)
    requires forall id :: id in db.lives ==> db.lives[id] == Born || (id in w.db.lives && db.lives[id] == w.db.lives[id])
    requires forall e :: Owes(w, c, e) ==> e in db.records || Owes(Put(w, db, c, me), c, e)
    ensures AllAccounted(Put(w, db, c, me))
  {
    forall id, from, to | id in db.lives && db.lives[id].Took(from, to)
      ensures Accounted(Put(w, db, c, me), TransitionRecord(id, from, to))
    {
      StillAccounted(w, c, db, me, TransitionRecord(id, from, to));
    }
  }

  lemma WriteKeepsAccounts(w: World, c: nat, me: Caller, k: Call, w': World)
    requires Inv(w) && AllAccounted(w) && CallerOf(w, c) == me && me.call == Some(k) && CallerOk(w.db, me)
    requires k.phase.Write? && Matches(w.db, k.id, k.expected) && w' == AdvanceCall(w, c, me, k)
    ensures AllAccounted(w')
  {
    var current, db := k.phase.current, Swap(w.db, k.id, k.target);
    VersionsAreSmall(w.db, k.id);
    SwapIsLegal(w.db, k.id, k.expected, current, k.target);
    var me' := Caller(me.known[k.id := k.expected + 1], Some(k.(phase := Log(current))));
    assert Lineage(w.db.lives[k.id], w.db.releases[k.id]);
    forall id, from, to | id in db.lives && db.lives[id].Took(from, to)
      ensures Accounted(w', TransitionRecord(id, from, to))
    {
      if id == k.id && from == current.status && to == k.target {
        assert Owes(w', c, TransitionRecord(id, from, to));
      } else {
        assert w.db.lives[id].Took(from, to);
        StillAccounted(w, c, db, me', TransitionRecord(id, from, to));
      }
    }
  }

  lemma AdvanceKeepsAccounts(w: World, c: nat, me: Caller, k: Call)
    requires Inv(w) && AllAccounted(w) && c in w.callers && w.callers[c] == me && me.call == Some(k) && CallerOk(w.db, me)
    ensures AllAccounted(AdvanceCall(w, c, me, k))
  {
    match k.phase
    case Check =>
      QuietKeepsAccounts(w, c, w.db, Caller(me.known, None));
      if k.id in w.db.releases {
        QuietKeepsAccounts(w, c, w.db, Caller(me.known, Some(k.(phase := Write(w.db.releases[k.id])))));
      }
    case Write(_) =>
      if Matches(w.db, k.id, k.expected) {
        WriteKeepsAccounts(w, c, me, k, AdvanceCall(w, c, me, k));
      } else {
        QuietKeepsAccounts(w, c, w.db, Caller(me.known, None));
      }
    case Log(current) =>
      QuietKeepsAccounts(w, c, Append(w.db, k.id, current.status, k.target), Caller(me.known, None));
  }

  lemma StepKeepsAccounts(w: World, a: Action)
    requires Inv(w) && AllAccounted(w) && !a.Vanish?
    ensures AllAccounted(Step(w, a))
  {
    var me := CallerOf(w, a.c);
    match a
    case Create(c, id, project, environment, container) =>
      if id !in w.db.releases {
        QuietKeepsAccounts(w, c, Insert(w.db, id, project, environment, container), Caller(me.known[id := 1], me.call));
      }
    case Observe(c, id) =>
      if id in w.db.releases {
        QuietKeepsAccounts(w, c, w.db, Caller(me.known[id := w.db.releases[id].version], me.call));
      }
    case Begin(c, id, expected, target) =>
      if me.call.None? {
        QuietKeepsAccounts(w, c, w.db, Caller(me.known, Some(Call(id, expected, target, Check))));
      }
    case Advance(c) =>
      if me.call.Some? {
        assert CallerOk(w.db, me);
        AdvanceKeepsAccounts(w, c, me, me.call.value);
      }
  }

  lemma {:induction false} RunKeepsAccounts(run: seq<Action>)
    requires HonestRun(INIT, run) && forall i :: 0 <= i < |run| ==> !run[i].Vanish?
    ensures AllAccounted(Exec(INIT, run))
  {
    if run != [] {
      var front := run[..|run| - 1];
      forall i | 0 <= i < |front|
        ensures Honest(Exec(INIT, front[..i]), front[i])
      {
        assert front[..i] == run[..i];
      }
      RunKeepsAccounts(front);
      ExecKeepsInv(INIT, front);
      StepKeepsAccounts(Exec(INIT, front), run[|run| - 1]);
    }
  }

  /** The log misses nothing: in every run in which no caller stops for good, every edge a release has taken is in the
      log, or the call that took it is about to put it there. */
  lemma EveryTransitionIsLogged(run: seq<Action>, id: Uuid, from: Status, to: Status)
    requires HonestRun(INIT, run) && forall i :: 0 <= i < |run| ==> !run[i].Vanish?
    requires id in Exec(INIT, run).db.lives && Exec(INIT, run).db.lives[id].Took(from, to)
    ensures var w := Exec(INIT, run);
      || TransitionRecord(id, from, to) in w.db.records
      || exists c :: c in w.callers && w.callers[c].call.Some? && w.callers[c].call.value.phase.Log?
           && w.callers[c].call.value.id == id && w.callers[c].call.value.target == to
           && w.callers[c].call.value.phase.current.status == from
  {
    RunKeepsAccounts(run);
    var w, e := Exec(INIT, run), TransitionRecord(id, from, to);
    assert Accounted(w, e);
    if e !in w.db.records {
      var c :| Owes(w, c, e);
    }
  }
}
