// The release rows, the seven-state lifecycle, and the single SQL statements that touch them.
module ReleaseLifecycle {
  import opened Common

  datatype Status = Starting | HealthChecking | Ready | Active | Draining | Stopped | Failed

  predicate CanTransition(from: Status, to: Status) {
    match from
    case Starting => to == HealthChecking || to == Failed
    case HealthChecking => to == Ready || to == Failed
    case Ready => to == Active || to == Stopped || to == Failed
    case Active => to == Draining || to == Stopped || to == Failed
    case Draining => to == Stopped || to == Failed
    case Stopped => false
    case Failed => false
  }

  // How far along the lifecycle a status is; every legal edge goes up.
  function Rank(s: Status): nat {
    match s
    case Starting => 0
    case HealthChecking => 1
    case Ready => 2
    case Active => 3
    case Draining => 4
    case Stopped => 5
    case Failed => 5
  }

  /** The lifecycle in one sentence: a release that has not ended may always fail, may take the next step, and
      may be stopped outright once it is able to serve. */
  lemma EdgesAre(from: Status, to: Status)
    ensures CanTransition(from, to) <==>
      from !in {Stopped, Failed} && (to == Failed || Rank(to) == Rank(from) + 1 || (to == Stopped && Serving(from)))
  {
  }

  predicate Serving(s: Status) { s == Ready || s == Active }

  predicate Settled(s: Status) { s == Active || s == Stopped || s == Failed }

  datatype Release = Release(project: Uuid, environment: string, status: Status, version: nat,
                             container: Option<string>)

  type RouteKey = (Uuid, string)

  datatype TransitionRecord = TransitionRecord(release: Uuid, from: Status, to: Status)

  // Every status a release has had, latest outermost.
  datatype Life = Born | Moved(past: Life, status: Status) {

    function Now(): Status { if Born? then Starting else status }

    // Statuses held so far, the first one included.
    function Length(): nat { if Born? then 1 else past.Length() + 1 }

    // Only ever took edges of the lifecycle.
    ghost predicate Legal() { Moved? ==> past.Legal() && CanTransition(past.Now(), status) }

    ghost predicate Took(from: Status, to: Status) {
      Moved? && ((past.Now() == from && status == to) || past.Took(from, to))
    }
  }

  /** The three tables of the release schema. `lives` is not a table: it remembers every status a row
      has ever had, so that properties can speak about the whole life of a release. */
  datatype Db = Db(releases: map<Uuid, Release>,
                   routes: map<RouteKey, Uuid>,
                   records: seq<TransitionRecord>,
                   lives: map<Uuid, Life>)

  const EMPTY_DB := Db(map[], map[], [], map[])

  function KeyOf(r: Release): RouteKey { (r.project, r.environment) }

  function LifeOf(db: Db, id: Uuid): Life {
    if id in db.lives then db.lives[id] else Born
  }

  // INSERT INTO releases
  function Insert(db: Db, id: Uuid, project: Uuid, environment: string, container: Option<string>): Db {
    db.(releases := db.releases[id := Release(project, environment, Starting, 1, container)],
        lives := db.lives[id := Born])
  }

  // The WHERE clause of the compare-and-set UPDATE.
  predicate Matches(db: Db, id: Uuid, expected: nat) {
    id in db.releases && db.releases[id].version == expected
  }

  // UPDATE releases SET status = target, version = version + 1 on the row it matched
  function Swap(db: Db, id: Uuid, target: Status): Db
    requires id in db.releases
  {
    var row := db.releases[id];
    db.(releases := db.releases[id := row.(status := target, version := row.version + 1)],
        lives := db.lives[id := Moved(LifeOf(db, id), target)])
  }

  // INSERT INTO release_transitions
  function Append(db: Db, id: Uuid, from: Status, to: Status): Db {
    db.(records := db.records + [TransitionRecord(id, from, to)])
  }

  // INSERT INTO active_routes .. ON CONFLICT DO UPDATE
  function Upsert(db: Db, key: RouteKey, id: Uuid): Db {
    db.(routes := db.routes[key := id])
  }

  // A whole call of `transition` with nobody else in between.
  predicate Applies(db: Db, id: Uuid, expected: nat, target: Status) {
    Matches(db, id, expected) && CanTransition(db.releases[id].status, target)
  }

  function Transitioned(db: Db, id: Uuid, expected: nat, target: Status): Db {
    if Applies(db, id, expected, target) then
      Append(Swap(db, id, target), id, db.releases[id].status, target)
    else db
  }

  // The row agrees with its life: current status, and a version that counts the statuses held.
  ghost predicate Lineage(life: Life, row: Release) {
    life.Legal() && life.Length() == row.version && life.Now() == row.status
  }

  ghost predicate Lineages(db: Db) {
    && db.lives.Keys == db.releases.Keys
    && forall id :: id in db.releases ==> Lineage(db.lives[id], db.releases[id])
  }

  // The transition log never invents an edge.
  ghost predicate RecordsHappened(db: Db) {
    forall r :: r in db.records ==> LifeOf(db, r.release).Took(r.from, r.to)
  }

  /** What a row read earlier still says about the table: the row is there, it is no older than the
      snapshot, and if its version is the same then nothing in it has changed. */
  ghost predicate Saw(db: Db, id: Uuid, snap: Release) {
    && id in db.releases
    && KeyOf(snap) == KeyOf(db.releases[id])
    && snap.version <= db.releases[id].version
    && (snap.version == db.releases[id].version ==> snap == db.releases[id])
  }

  ghost predicate Longer(life: Life, life': Life) {
    life' == life || (life'.Moved? && life'.past == life)
  }

  // One statement later: no row is deleted or moved, and each life is the same or one status longer.
  ghost predicate Grows(db: Db, db': Db) {
    && (forall id :: id in db.releases ==> Saw(db', id, db.releases[id]))
    && (forall id :: id in db.lives ==> id in db'.lives)
    && (forall id :: id in db.lives ==> Longer(db.lives[id], db'.lives[id]))
  }

  /** A life takes at most five transitions, and up to Draining the status says exactly how many. */
  lemma {:induction false} LifeIsShort(life: Life)
    requires life.Legal()
    ensures 1 <= life.Length() <= 1 + Rank(life.Now()) <= 6
    ensures Rank(life.Now()) < 5 ==> life.Length() == 1 + Rank(life.Now())
  {
    if life.Moved? {
      LifeIsShort(life.past);
    }
  }

  lemma InsertGrows(db: Db, id: Uuid, project: Uuid, environment: string, container: Option<string>)
    requires Lineages(db) && RecordsHappened(db) && id !in db.releases
    ensures var db' := Insert(db, id, project, environment, container);
      Lineages(db') && RecordsHappened(db') && Grows(db, db')
  {
    assert id !in db.lives;
  }

  /** The heart of the compare-and-set: legality was checked against `current`, the write happens
      later against whatever the row has become, and still the edge that is written is legal, because
      the version matched and `expected` was no newer than the row that was checked. */
  lemma SwapIsLegal(db: Db, id: Uuid, expected: nat, current: Release, target: Status)
    requires Lineages(db) && RecordsHappened(db) && Matches(db, id, expected)
    requires Saw(db, id, current) && expected <= current.version && CanTransition(current.status, target)
    ensures current == db.releases[id]
    ensures var db' := Swap(db, id, target);
      && Lineages(db') && RecordsHappened(db') && Grows(db, db')
      && LifeOf(db', id).Took(current.status, target)
  {
    var db' := Swap(db, id, target);
    assert Lineage(db.lives[id], db.releases[id]);
    assert Lineage(db'.lives[id], db'.releases[id]);
  }

  lemma AppendHappened(db: Db, id: Uuid, from: Status, to: Status)
    requires Lineages(db) && RecordsHappened(db) && LifeOf(db, id).Took(from, to)
    ensures var db' := Append(db, id, from, to);
      Lineages(db') && RecordsHappened(db') && Grows(db, db')
  {
  }
}
