/** Requeueing, one statement at a time. The lease sweep and `fail` both read a row first, decide by the
    `attempt` they read, and write later; the write's WHERE clause looks at the status or at the owner, never
    at the attempt. So a requeue can be stale, and here is exactly when that costs a job its last chance. */
module RequeueRaces {
  import opened Common
  import opened BuildJobs
  import opened JobLeases

  // A method between its read and its write, with the row it read.
  datatype Reader =
    | Sweeping(id: Uuid, row: Job)
    | Failing(id: Uuid, row: Job, worker: string, retryable: bool)

  datatype Desk = Desk(table: Table, readers: map<nat, Reader>)

  datatype Move =
    | Plain(statement: Statement)
    | Select(c: nat, id: Uuid, now: int)
    | Load(c: nat, id: Uuid, worker: string, retryable: bool)
    | Write(c: nat)
    | Vanish(c: nat)

  function Empty(): Desk { Desk(Table(map[], map[]), map[]) }

  // The statements that requeue or fail a job are issued by readers only.
  predicate ByReader(a: Statement) { a.FailRequeue? || a.FailForGood? || a.SweepRequeue? || a.SweepFail? }

  // The branch taken on the row that was read.
  predicate Requeues(r: Reader) { (r.Failing? ==> r.retryable) && r.row.attempt < r.row.maxAttempts }

  function Owed(r: Reader): Statement {
    match r
    case Sweeping(id, _) => if Requeues(r) then SweepRequeue(id) else SweepFail(id)
    case Failing(id, _, worker, _) => if Requeues(r) then FailRequeue(id, worker) else FailForGood(id, worker)
  }

  function After(d: Desk, m: Move): Desk {
    match m
    case Plain(a) => if ByReader(a) then d else Desk(Step(d.table, a), d.readers)
    case Select(c, id, now) =>
      if c in d.readers || !Expired(d.table.jobs, id, now) then d
      else Desk(d.table, d.readers[c := Sweeping(id, d.table.jobs[id])])
    case Load(c, id, worker, retryable) =>
      if c in d.readers || id !in d.table.jobs then d
      else Desk(d.table, d.readers[c := Failing(id, d.table.jobs[id], worker, retryable)])
    case Write(c) =>
      if c !in d.readers then d else Desk(Step(d.table, Owed(d.readers[c])), d.readers - {c})
    case Vanish(c) => Desk(d.table, d.readers - {c})
  }

  function Run(d: Desk, run: seq<Move>): Desk {
    if run == [] then d else After(Run(d, run[..|run| - 1]), run[|run| - 1])
  }

  // ---------------------------------------------------------------- what every run keeps

  ghost predicate ReaderOk(t: Table, r: Reader) {
    && r.id in t.jobs
    && r.row.attempt <= t.jobs[r.id].attempt
    && r.row.maxAttempts == t.jobs[r.id].maxAttempts
  }

  ghost predicate Sound(d: Desk) {
    JobLeases.Inv(d.table) && forall c :: c in d.readers ==> ReaderOk(d.table, d.readers[c])
  }

  // A row is never dropped, its attempts never go down, its maximum never changes.
  lemma RowGrows(t: Table, a: Statement, id: Uuid)
    requires id in t.jobs
    ensures id in Step(t, a).jobs
    ensures t.jobs[id].attempt <= Step(t, a).jobs[id].attempt
    ensures t.jobs[id].maxAttempts == Step(t, a).jobs[id].maxAttempts
  {
  }

  lemma StepKeepsSound(d: Desk, a: Statement, readers: map<nat, Reader>)
    requires Sound(d) && forall c :: c in readers ==> c in d.readers && readers[c] == d.readers[c]
    ensures Sound(Desk(Step(d.table, a), readers))
  {
    JobLeases.StepKeepsInv(d.table, a);
    forall c | c in readers
      ensures ReaderOk(Step(d.table, a), readers[c])
    {
      assert ReaderOk(d.table, d.readers[c]);
      RowGrows(d.table, a, readers[c].id);
    }
  }

  lemma AfterKeepsSound(d: Desk, m: Move)
    requires Sound(d)
    ensures Sound(After(d, m))
  {
    match m
    case Plain(a) => if !ByReader(a) { StepKeepsSound(d, a, d.readers); }
    case Select(c, id, now) =>
    case Load(c, id, worker, retryable) =>
    case Write(c) => if c in d.readers { StepKeepsSound(d, Owed(d.readers[c]), d.readers - {c}); }
    case Vanish(c) =>
  }

  lemma {:induction false} RunKeepsSound(d: Desk, run: seq<Move>)
    requires Sound(d)
    ensures Sound(Run(d, run))
  {
    if run != [] {
      RunKeepsSound(d, run[..|run| - 1]);
      AfterKeepsSound(Run(d, run[..|run| - 1]), run[|run| - 1]);
    }
  }

  /** What a sweep selects and what the two pending writes do, in terms of the rows: the branch is decided by the row
      that was read, whether anything is written by the row that is there. */
  lemma ReadersAre(d: Desk, c: nat, id: Uuid, now: int)
    ensures c !in d.readers ==>
      (c in After(d, Select(c, id, now)).readers <==>
         id in d.table.jobs && d.table.jobs[id].status == Running && d.table.jobs[id].expires.Some? && d.table.jobs[id].expires.value < now)
    ensures c !in d.readers && id in d.table.jobs ==>
      forall worker, retryable :: After(d, Load(c, id, worker, retryable)).readers
                               == d.readers[c := Failing(id, d.table.jobs[id], worker, retryable)]
    ensures c in d.readers ==>
      var r, jobs, jobs' := d.readers[c], d.table.jobs, After(d, Write(c)).table.jobs;
      var left := r.row.attempt < r.row.maxAttempts && (r.Failing? ==> r.retryable);
      var finds := r.id in jobs && (if r.Sweeping? then jobs[r.id].status == Running else jobs[r.id].owner == Some(r.worker));
      && After(d, Write(c)).readers == d.readers - {c}
      && (finds ==> jobs' == jobs[r.id := jobs[r.id].(status := if left then Queued else Failed, owner := None, expires := None)])
      && (!finds ==> jobs' == jobs)
  {
  }

  // ---------------------------------------------------------------- exactly when a write strands a job

  // Queued, with no attempt left: no claim will ever take it.
  predicate Stranded(j: Job) { j.status == Queued && j.attempt >= j.maxAttempts }

  predicate StrandedIn(d: Desk, id: Uuid) { id in d.table.jobs && Stranded(d.table.jobs[id]) }

  predicate Strands(d: Desk, m: Move, id: Uuid) { !StrandedIn(d, id) && StrandedIn(After(d, m), id) }

  // The WHERE clause of the pending write finds the row.
  predicate Finds(d: Desk, r: Reader) {
    match r
    case Sweeping(id, _) => id in d.table.jobs && d.table.jobs[id].status == Running
    case Failing(id, _, worker, _) => OwnedBy(d.table.jobs, id, worker)
  }

  predicate Claims(d: Desk, m: Move, id: Uuid) {
    m.Plain? && m.statement.Claim? && m.statement.id == id && id in d.table.jobs && Claimable(d.table.jobs[id])
  }

  // How many claims of the job succeed in the run.
  function ClaimsWon(d: Desk, run: seq<Move>, id: Uuid): nat {
    if run == [] then 0
    else
      var before := run[..|run| - 1];
      ClaimsWon(d, before, id) + if Claims(Run(d, before), run[|run| - 1], id) then 1 else 0
  }

  // The reader does nothing in the run.
  predicate Rests(run: seq<Move>, c: nat) {
    forall i :: 0 <= i < |run| ==> run[i] != Write(c) && run[i] != Vanish(c)
  }

  lemma AttemptCounts(d: Desk, m: Move, id: Uuid)
    requires id in d.table.jobs
    ensures id in After(d, m).table.jobs
    ensures After(d, m).table.jobs[id].attempt == d.table.jobs[id].attempt + if Claims(d, m, id) then 1 else 0
    ensures After(d, m).table.jobs[id].maxAttempts == d.table.jobs[id].maxAttempts
  {
  }

  // While the reader rests it keeps its row, and the attempt counts the claims won.
  lemma {:induction false} SinceTheRead(d: Desk, run: seq<Move>, c: nat, id: Uuid)
    requires c in d.readers && id in d.table.jobs && Rests(run, c)
    ensures c in Run(d, run).readers && Run(d, run).readers[c] == d.readers[c]
    ensures id in Run(d, run).table.jobs
    ensures Run(d, run).table.jobs[id].attempt == d.table.jobs[id].attempt + ClaimsWon(d, run, id)
    ensures Run(d, run).table.jobs[id].maxAttempts == d.table.jobs[id].maxAttempts
  {
    if run != [] {
      var before, m := run[..|run| - 1], run[|run| - 1];
      SinceTheRead(d, before, c, id);
      AttemptCounts(Run(d, before), m, id);
    }
  }

  // The move reads the row of job `id` for reader `c`, and the reader will requeue.
  predicate Reads(d: Desk, m: Move, c: nat, id: Uuid) {
    && (m.Select? || m.Load?) && m.c == c && m.id == id
    && c !in d.readers && c in After(d, m).readers && Requeues(After(d, m).readers[c])
  }

  /** The exact condition, for every run up to the read and every run between the read and the write. A sweep
      or a retryable failure that read attempt a of max strands the job when it writes exactly if its WHERE
      clause finds the row and max - a claims of the job have succeeded since the read. */
  lemma RequeueStrandsIff(before: seq<Move>, read: Move, since: seq<Move>, c: nat, id: Uuid)
    requires Reads(Run(Empty(), before), read, c, id) && Rests(since, c)
    ensures var d := After(Run(Empty(), before), read);
      var row, late := d.readers[c].row, Run(d, since);
      && c in late.readers && late.readers[c] == d.readers[c]
      && (Strands(late, Write(c), id) <==>
            Finds(late, late.readers[c]) && ClaimsWon(d, since, id) == row.maxAttempts - row.attempt)
  {
    var d0 := Run(Empty(), before);
    var d := After(d0, read);
    RunKeepsSound(Empty(), before);
    AfterKeepsSound(d0, read);
    SinceTheRead(d, since, c, id);
    RunKeepsSound(d, since);
    WriteStrandsIff(Run(d, since), c);
  }

  lemma WriteStrandsIff(d: Desk, c: nat)
    requires Sound(d) && c in d.readers && Requeues(d.readers[c])
    ensures var r := d.readers[c];
      Strands(d, Write(c), r.id) <==> Finds(d, r) && d.table.jobs[r.id].attempt == d.table.jobs[r.id].maxAttempts
  {
    var r := d.readers[c];
    assert ReaderOk(d.table, r);
    assert JobOk(d.table.jobs[r.id], ClaimsOf(d.table, r.id));
  }

  predicate Hopeless(j: Job) { LeaseOk(j) && (Stranded(j) || j.status == Cancelled) }

  lemma StaysHopeless(t: Table, a: Statement, id: Uuid)
    requires id in t.jobs && Hopeless(t.jobs[id])
    ensures id in Step(t, a).jobs && Hopeless(Step(t, a).jobs[id])
  {
  }

  lemma AfterStranded(d: Desk, m: Move, id: Uuid)
    requires Sound(d) && id in d.table.jobs && (Stranded(d.table.jobs[id]) || d.table.jobs[id].status == Cancelled)
    ensures id in After(d, m).table.jobs
    ensures Stranded(After(d, m).table.jobs[id]) || After(d, m).table.jobs[id].status == Cancelled
    ensures !Claims(d, m, id)
  {
    assert JobOk(d.table.jobs[id], ClaimsOf(d.table, id));
    match m
    case Plain(a) => StaysHopeless(d.table, a, id);
    case Select(_, _, _) =>
    case Load(_, _, _, _) =>
    case Write(c) => if c in d.readers { StaysHopeless(d.table, Owed(d.readers[c]), id); }
    case Vanish(_) =>
  }

  /** Stranded is for good: in every later run the job is claimed by nobody, and all that can still happen to
      it is to be cancelled. */
  lemma {:induction false} StrandedForGood(d: Desk, run: seq<Move>, id: Uuid)
    requires Sound(d) && StrandedIn(d, id)
    ensures id in Run(d, run).table.jobs
    ensures Stranded(Run(d, run).table.jobs[id]) || Run(d, run).table.jobs[id].status == Cancelled
    ensures ClaimsWon(d, run, id) == 0
  {
    if run != [] {
      StrandedForGood(d, run[..|run| - 1], id);
      RunKeepsSound(d, run[..|run| - 1]);
      AfterStranded(Run(d, run[..|run| - 1]), run[|run| - 1], id);
    }
  }

  // ---------------------------------------------------------------- nothing else strands a job

  predicate Worthwhile(d: Desk, id: Uuid) { id in d.table.jobs && d.table.jobs[id].maxAttempts >= 1 }

  lemma OnlyWritesStrand(d: Desk, m: Move, id: Uuid)
    requires Sound(d) && Worthwhile(After(d, m), id) && Strands(d, m, id)
    ensures m.Write? && m.c in d.readers && d.readers[m.c].id == id && Requeues(d.readers[m.c])
  {
  }

  /** A job that was enqueued with an attempt and is stranded was stranded by a requeue in the run. */
  lemma {:induction false} StrandedByRequeue(run: seq<Move>, id: Uuid) returns (i: nat)
    requires Worthwhile(Run(Empty(), run), id) && StrandedIn(Run(Empty(), run), id)
    ensures i < |run| && run[i].Write? && Strands(Run(Empty(), run[..i]), run[i], id)
    ensures var d := Run(Empty(), run[..i]);
      run[i].c in d.readers && d.readers[run[i].c].id == id && Requeues(d.readers[run[i].c])
  {
    var n := |run| - 1;
    var before := run[..n];
    RunKeepsSound(Empty(), before);
    if StrandedIn(Run(Empty(), before), id) {
      AttemptCounts(Run(Empty(), before), run[n], id);
      i := StrandedByRequeue(before, id);
      assert before[..i] == run[..i];
    } else {
      i := n;
      OnlyWritesStrand(Run(Empty(), before), run[n], id);
    }
  }

  // A requeue that finds its row writes over the attempt it read.
  predicate UpToDate(d: Desk, m: Move) {
    m.Write? && m.c in d.readers && Requeues(d.readers[m.c]) && Finds(d, d.readers[m.c])
    ==> d.table.jobs[d.readers[m.c].id].attempt == d.readers[m.c].row.attempt
  }

  ghost predicate AllUpToDate(run: seq<Move>) {
    forall i :: 0 <= i < |run| ==> UpToDate(Run(Empty(), run[..i]), run[i])
  }

  /** In every run whose requeues are up to date, every queued job enqueued with an attempt can be claimed. */
  lemma UpToDateRunsStrandNothing(run: seq<Move>, id: Uuid)
    requires AllUpToDate(run) && Worthwhile(Run(Empty(), run), id) && Run(Empty(), run).table.jobs[id].status == Queued
    ensures Claimable(Run(Empty(), run).table.jobs[id])
  {
    if StrandedIn(Run(Empty(), run), id) {
      var i := StrandedByRequeue(run, id);
      var d := Run(Empty(), run[..i]);
      RunKeepsSound(Empty(), run[..i]);
      WriteStrandsIff(d, run[i].c);
      assert false;
    }
  }

  // ---------------------------------------------------------------- runs of the program that strand a job

  lemma {:induction false} RunSplit(d: Desk, run: seq<Move>, more: seq<Move>)
    ensures Run(d, run + more) == Run(Run(d, run), more)
  {
    if more == [] {
      assert run + more == run;
    } else {
      assert (run + more)[..|run + more| - 1] == run + more[..|more| - 1];
      RunSplit(d, run, more[..|more| - 1]);
    }
  }

  lemma RunOne(d: Desk, m: Move)
    ensures Run(d, [m]) == After(d, m)
  {
    assert [m][..0] == [];
    assert Run(d, []) == d;
  }

  function FirstAttempt(worker: string): Job { Job(0, Production, Running, 1, 2, Some(worker), Some(0)) }

  // Enqueued with two attempts and claimed once.
  lemma ClaimedOnce(worker: string)
    ensures var d := Run(Empty(), [Plain(Insert(0, 0, Production, 2)), Plain(Claim(0, worker, 0))]);
      d.readers == map[] && d.table.jobs == map[0 := FirstAttempt(worker)]
  {
    var a, b := Plain(Insert(0, 0, Production, 2)), Plain(Claim(0, worker, 0));
    assert [a, b] == [a] + [b];
    RunSplit(Empty(), [a], [b]);
    RunOne(Empty(), a);
    RunOne(After(Empty(), a), b);
  }

  // With the first attempt running: a second reader requeues the job, the worker claims it again, and the
  // reader that came first writes too.
  lemma LateWriteStrands(d: Desk, worker: string, c: nat, first: Move)
    requires d.readers == map[] && d.table.jobs == map[0 := FirstAttempt(worker)] && c != 9
    requires first == Select(c, 0, 1) || first == Load(c, 0, worker, true)
    ensures StrandedIn(Run(d, [first, Select(9, 0, 1), Write(9), Plain(Claim(0, worker, 0)), Write(c)]), 0)
  {
    var start, rest := [first, Select(9, 0, 1), Write(9)], [Plain(Claim(0, worker, 0)), Write(c)];
    SweptMeanwhile(d, worker, c, first);
    ClaimedAndRequeued(Run(d, start), worker, c);
    assert [first, Select(9, 0, 1), Write(9), Plain(Claim(0, worker, 0)), Write(c)] == start + rest;
    RunSplit(d, start, rest);
  }

  lemma SweptMeanwhile(d: Desk, worker: string, c: nat, first: Move)
    requires d.readers == map[] && d.table.jobs == map[0 := FirstAttempt(worker)] && c != 9
    requires first == Select(c, 0, 1) || first == Load(c, 0, worker, true)
    ensures var d' := Run(d, [first, Select(9, 0, 1), Write(9)]);
      && d'.table.jobs == map[0 := Job(0, Production, Queued, 1, 2, None, None)]
      && c in d'.readers && LateReader(d'.readers[c], worker)
  {
    var d1 := After(d, first);
    var d2 := After(d1, Select(9, 0, 1));
    assert [first, Select(9, 0, 1), Write(9)] == [first] + [Select(9, 0, 1)] + [Write(9)];
    RunSplit(d, [first] + [Select(9, 0, 1)], [Write(9)]);
    RunSplit(d, [first], [Select(9, 0, 1)]);
    RunOne(d, first);
    RunOne(d1, Select(9, 0, 1));
    RunOne(d2, Write(9));
  }

  // Read the first attempt of two and is about to requeue.
  predicate LateReader(r: Reader, worker: string) {
    r.id == 0 && r.row == FirstAttempt(worker) && (r.Failing? ==> r.retryable && r.worker == worker)
  }

  lemma ClaimedAndRequeued(d: Desk, worker: string, c: nat)
    requires d.table.jobs == map[0 := Job(0, Production, Queued, 1, 2, None, None)]
    requires c in d.readers && LateReader(d.readers[c], worker)
    ensures StrandedIn(Run(d, [Plain(Claim(0, worker, 0)), Write(c)]), 0)
  {
    var d1 := After(d, Plain(Claim(0, worker, 0)));
    assert [Plain(Claim(0, worker, 0)), Write(c)] == [Plain(Claim(0, worker, 0))] + [Write(c)];
    RunSplit(d, [Plain(Claim(0, worker, 0))], [Write(c)]);
    RunOne(d, Plain(Claim(0, worker, 0)));
    RunOne(d1, Write(c));
    assert d1.table.jobs[0] == Job(0, Production, Running, 2, 2, Some(worker), Some(0));
  }

  function Start(worker: string): seq<Move> { [Plain(Insert(0, 0, Production, 2)), Plain(Claim(0, worker, 0))] }

  function Late(first: Move, worker: string): seq<Move> {
    [first, Select(9, 0, 1), Write(9), Plain(Claim(0, worker, 0)), Write(1)]
  }

  /** Two sweepers select the same expired first attempt of two; one requeues it, it is claimed again, and the
      other requeues it as well. */
  lemma TwoSweepsStrand(worker: string)
    ensures var d := Run(Empty(), Start(worker) + Late(Select(1, 0, 1), worker));
      Worthwhile(d, 0) && StrandedIn(d, 0)
  {
    ClaimedOnce(worker);
    LateWriteStrands(Run(Empty(), Start(worker)), worker, 1, Select(1, 0, 1));
    RunSplit(Empty(), Start(worker), Late(Select(1, 0, 1), worker));
    StillWorthwhile(Start(worker), Late(Select(1, 0, 1), worker), worker);
  }

  /** A worker reports a failure of its first attempt of two; before the write its lease is swept and it claims
      the job again, so the write finds it the owner of the last attempt. */
  lemma FailAfterReclaimStrands(worker: string)
    ensures var d := Run(Empty(), Start(worker) + Late(Load(1, 0, worker, true), worker));
      Worthwhile(d, 0) && StrandedIn(d, 0)
  {
    ClaimedOnce(worker);
    LateWriteStrands(Run(Empty(), Start(worker)), worker, 1, Load(1, 0, worker, true));
    RunSplit(Empty(), Start(worker), Late(Load(1, 0, worker, true), worker));
    StillWorthwhile(Start(worker), Late(Load(1, 0, worker, true), worker), worker);
  }

  lemma {:induction false} MaximumStays(d: Desk, run: seq<Move>, id: Uuid)
    requires id in d.table.jobs
    ensures id in Run(d, run).table.jobs && Run(d, run).table.jobs[id].maxAttempts == d.table.jobs[id].maxAttempts
  {
    if run != [] {
      MaximumStays(d, run[..|run| - 1], id);
      AttemptCounts(Run(d, run[..|run| - 1]), run[|run| - 1], id);
    }
  }

  lemma StillWorthwhile(start: seq<Move>, rest: seq<Move>, worker: string)
    requires Run(Empty(), start).table.jobs == map[0 := FirstAttempt(worker)]
    ensures Worthwhile(Run(Empty(), start + rest), 0)
  {
    RunSplit(Empty(), start, rest);
    MaximumStays(Run(Empty(), start), rest, 0);
  }
}
