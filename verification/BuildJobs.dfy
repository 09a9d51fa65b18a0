// The build_jobs table: one function per guarded statement of the queue.
module BuildJobs {
  import opened Common

  datatype Priority = Production | Preview

  datatype JobStatus = Queued | Running | Completed | Failed | Cancelled

  datatype Job = Job(deployment: Uuid, priority: Priority, status: JobStatus, attempt: nat, maxAttempts: int,
                     owner: Option<string>, expires: Option<int>)

  type Jobs = map<Uuid, Job>

  predicate HasDeployment(jobs: Jobs, deployment: Uuid) {
    exists id :: id in jobs && jobs[id].deployment == deployment
  }

  // A lease is held, and has an end, exactly while the job runs.
  predicate LeaseOk(j: Job) {
    (j.owner.Some? <==> j.status == Running) && (j.expires.Some? <==> j.status == Running)
  }

  predicate Claimable(j: Job) {
    (j.status == Queued || j.status == Failed) && j.attempt < j.maxAttempts
  }

  predicate OwnedBy(jobs: Jobs, id: Uuid, worker: string) {
    id in jobs && jobs[id].owner == Some(worker)
  }

  // The lease has ended; a job without one never matches.
  predicate Expired(jobs: Jobs, id: Uuid, now: int) {
    id in jobs && jobs[id].status == Running && jobs[id].expires.Some? && jobs[id].expires.value < now
  }

  function Unleased(j: Job, status: JobStatus): Job {
    j.(status := status, owner := None, expires := None)
  }

  function InsertJob(jobs: Jobs, id: Uuid, deployment: Uuid, priority: Priority, maxAttempts: int): Jobs {
    if id in jobs || HasDeployment(jobs, deployment) then jobs
    else jobs[id := Job(deployment, priority, Queued, 0, maxAttempts, None, None)]
  }

  function ClaimJob(jobs: Jobs, id: Uuid, worker: string, expires: int): Jobs {
    if id in jobs && Claimable(jobs[id]) then
      jobs[id := jobs[id].(status := Running, attempt := jobs[id].attempt + 1, owner := Some(worker),
                           expires := Some(expires))]
    else jobs
  }

  function RenewJob(jobs: Jobs, id: Uuid, worker: string, expires: int): Jobs {
    if OwnedBy(jobs, id, worker) && jobs[id].status == Running then
      jobs[id := jobs[id].(expires := Some(expires))]
    else jobs
  }

  function CompleteJob(jobs: Jobs, id: Uuid, worker: string): Jobs {
    if OwnedBy(jobs, id, worker) && jobs[id].status == Running then jobs[id := Unleased(jobs[id], Completed)]
    else jobs
  }

  // `fail` writes Queued or Failed; its WHERE clause names the owner but not the status.
  function FailJob(jobs: Jobs, id: Uuid, worker: string, to: JobStatus): Jobs {
    if OwnedBy(jobs, id, worker) then jobs[id := Unleased(jobs[id], to)] else jobs
  }

  function CancelJob(jobs: Jobs, id: Uuid): Jobs {
    if id in jobs && (jobs[id].status == Queued || jobs[id].status == Running) then
      jobs[id := Unleased(jobs[id], Cancelled)]
    else jobs
  }

  // The lease sweep writes Queued or Failed; its WHERE clause names the status but not the attempt.
  function SweepJob(jobs: Jobs, id: Uuid, to: JobStatus): Jobs {
    if id in jobs && jobs[id].status == Running then jobs[id := Unleased(jobs[id], to)] else jobs
  }
}

/** The statement grain. Workers, sweepers and cancellers interleave freely between statements, so by the
    time a statement runs, whatever its method read before may be stale. The steps therefore allow any
    statement at any time; only its own WHERE clause guards it. */
module JobLeases {
  import opened Common
  import opened BuildJobs

  // `claims` remembers, per job, the attempt numbers that successful claims have returned.
  datatype Table = Table(jobs: Jobs, claims: map<Uuid, seq<nat>>)

  const INIT := Table(map[], map[])

  datatype Statement =
    | Insert(id: Uuid, deployment: Uuid, priority: Priority, maxAttempts: int)
    | Claim(id: Uuid, worker: string, expires: int)
    | Renew(id: Uuid, worker: string, expires: int)
    | Complete(id: Uuid, worker: string)
    | FailRequeue(id: Uuid, worker: string)
    | FailForGood(id: Uuid, worker: string)
    | Cancel(id: Uuid)
    | SweepRequeue(id: Uuid)
    | SweepFail(id: Uuid)

  function ClaimsOf(t: Table, id: Uuid): seq<nat> {
    if id in t.claims then t.claims[id] else []
  }

  function Step(t: Table, a: Statement): Table {
    match a
    case Insert(id, deployment, priority, maxAttempts) =>
      t.(jobs := InsertJob(t.jobs, id, deployment, priority, maxAttempts))
    case Claim(id, worker, expires) =>
      if id in t.jobs && Claimable(t.jobs[id]) then
        Table(ClaimJob(t.jobs, id, worker, expires), t.claims[id := ClaimsOf(t, id) + [t.jobs[id].attempt + 1]])
      else t
    case Renew(id, worker, expires) => t.(jobs := RenewJob(t.jobs, id, worker, expires))
    case Complete(id, worker) => t.(jobs := CompleteJob(t.jobs, id, worker))
    case FailRequeue(id, worker) => t.(jobs := FailJob(t.jobs, id, worker, Queued))
    case FailForGood(id, worker) => t.(jobs := FailJob(t.jobs, id, worker, Failed))
    case Cancel(id) => t.(jobs := CancelJob(t.jobs, id))
    case SweepRequeue(id) => t.(jobs := SweepJob(t.jobs, id, Queued))
    case SweepFail(id) => t.(jobs := SweepJob(t.jobs, id, Failed))
  }

  function Exec(t: Table, run: seq<Statement>): Table {
    if run == [] then t else Step(Exec(t, run[..|run| - 1]), run[|run| - 1])
  }

  ghost predicate JobOk(j: Job, claims: seq<nat>) {
    && LeaseOk(j)
    && j.attempt == |claims|
    && (claims == [] || |claims| <= j.maxAttempts)
    && forall i :: 0 <= i < |claims| ==> claims[i] == i + 1
  }

  ghost predicate Inv(t: Table) {
    && t.claims.Keys <= t.jobs.Keys
    && forall id :: id in t.jobs ==> JobOk(t.jobs[id], ClaimsOf(t, id))
  }

  lemma StepKeepsJob(t: Table, a: Statement, id: Uuid)
    requires id in t.jobs && JobOk(t.jobs[id], ClaimsOf(t, id))
    ensures id in Step(t, a).jobs && JobOk(Step(t, a).jobs[id], ClaimsOf(Step(t, a), id))
  {
  }

  lemma StepKeepsInv(t: Table, a: Statement)
    requires Inv(t)
    ensures Inv(Step(t, a))
  {
    var t' := Step(t, a);
    forall id | id in t'.jobs
      ensures JobOk(t'.jobs[id], ClaimsOf(t', id))
    {
      if id in t.jobs {
        StepKeepsJob(t, a, id);
      }
    }
  }

  lemma {:induction false} ExecKeepsInv(t: Table, run: seq<Statement>)
    requires Inv(t)
    ensures Inv(Exec(t, run))
  {
    if run != [] {
      ExecKeepsInv(t, run[..|run| - 1]);
      StepKeepsInv(Exec(t, run[..|run| - 1]), run[|run| - 1]);
    }
  }

  /** In every state of every run a job has an owner exactly while it runs, and the claims of it carried
      attempt numbers 1, 2, 3, .. of which there are never more than max_attempts. */
  lemma LeasesAndAttempts(run: seq<Statement>, id: Uuid)
    requires id in Exec(INIT, run).jobs
    ensures var t := Exec(INIT, run);
      var j, claims := t.jobs[id], ClaimsOf(t, id);
      && (j.owner.Some? <==> j.status == Running)
      && (forall i :: 0 <= i < |claims| ==> claims[i] == i + 1)
      && j.attempt == |claims| <= (if j.maxAttempts < 0 then 0 else j.maxAttempts)
  {
    ExecKeepsInv(INIT, run);
    assert JobOk(Exec(INIT, run).jobs[id], ClaimsOf(Exec(INIT, run), id));
  }

  lemma StepKeepsFinished(t: Table, a: Statement, id: Uuid)
    requires id in t.jobs && LeaseOk(t.jobs[id]) && (t.jobs[id].status == Completed || t.jobs[id].status == Cancelled)
    ensures id in Step(t, a).jobs && Step(t, a).jobs[id] == t.jobs[id]
  {
  }

  /** Completed and Cancelled are absorbing: no statement changes such a row again. */
  lemma {:induction false} FinishedForGood(t: Table, run: seq<Statement>, id: Uuid)
    requires Inv(t) && id in t.jobs && (t.jobs[id].status == Completed || t.jobs[id].status == Cancelled)
    ensures id in Exec(t, run).jobs && Exec(t, run).jobs[id] == t.jobs[id]
  {
    if run != [] {
      var front := run[..|run| - 1];
      FinishedForGood(t, front, id);
      assert JobOk(t.jobs[id], ClaimsOf(t, id));
      StepKeepsFinished(Exec(t, front), run[|run| - 1], id);
    }
  }

  /** The statements in terms of the row: a claim leases a queued or failed job with attempts left, renewing and
      completing are for the holder of a running one, cancelling for queued and running ones; nothing else happens. */
  lemma StatementsAre(t: Table, id: Uuid, worker: string, expires: int)
    requires id in t.jobs
    ensures var j := t.jobs[id];
      var mine := j.owner == Some(worker) && j.status == Running;
      && Step(t, Claim(id, worker, expires)).jobs ==
           (if j.status in {Queued, Failed} && j.attempt < j.maxAttempts
            then t.jobs[id := j.(status := Running, attempt := j.attempt + 1, owner := Some(worker), expires := Some(expires))]
            else t.jobs)
      && Step(t, Renew(id, worker, expires)).jobs == (if mine then t.jobs[id := j.(expires := Some(expires))] else t.jobs)
      && Step(t, Complete(id, worker)).jobs ==
           (if mine then t.jobs[id := j.(status := Completed, owner := None, expires := None)] else t.jobs)
      && Step(t, Cancel(id)).jobs ==
           (if j.status in {Queued, Running} then t.jobs[id := j.(status := Cancelled, owner := None, expires := None)] else t.jobs)
  {
  }

  // The statements a worker issues about a job on the strength of a lease.
  predicate LeaseUse(a: Statement, id: Uuid, worker: string) {
    match a
    case Renew(i, w, _) => i == id && w == worker
    case Complete(i, w) => i == id && w == worker
    case FailRequeue(i, w) => i == id && w == worker
    case FailForGood(i, w) => i == id && w == worker
    case _ => false
  }

  ghost predicate NoClaim(run: seq<Statement>, id: Uuid, worker: string) {
    forall a :: a in run ==> !(a.Claim? && a.id == id && a.worker == worker)
  }

  /** A worker that does not hold the lease, because it was swept, cancelled or given to another, cannot
      change the row until it claims the job again: renewing, completing and failing all do nothing. */
  lemma {:induction false} LostLeaseIsPowerless(t: Table, run: seq<Statement>, id: Uuid, worker: string, a: Statement)
    requires !OwnedBy(t.jobs, id, worker) && NoClaim(run, id, worker) && LeaseUse(a, id, worker)
    ensures !OwnedBy(Exec(t, run).jobs, id, worker)
    ensures Step(Exec(t, run), a) == Exec(t, run)
  {
    if run != [] {
      LostLeaseIsPowerless(t, run[..|run| - 1], id, worker, a);
      assert run[|run| - 1] in run;
    }
  }
}
