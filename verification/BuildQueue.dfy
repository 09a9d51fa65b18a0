/** The build queue at the grain of its public methods: each method, and each row of the lease sweep, is
    one step over the job table, the two Redis streams and the claim counter. */
module BuildQueue {
  import opened Common
  import opened BuildJobs

  // A stream with its consumer group: entries before `next` have been delivered to some worker.
  datatype Stream = Stream(entries: seq<Uuid>, next: nat, pending: set<nat>)

  // `handed` remembers which stream the claims of each job have returned.
  datatype Queue = Queue(jobs: Jobs, production: Stream, preview: Stream, counter: nat,
                         handed: set<(Uuid, Priority)>)

  datatype Claimed = Claimed(id: Uuid, attempt: nat, stream: Priority, entry: nat)

  const EMPTY := Stream([], 0, {})
  const INIT := Queue(map[], EMPTY, EMPTY, 0, {})

  function StreamOf(q: Queue, p: Priority): Stream {
    if p == Production then q.production else q.preview
  }

  function SetStream(q: Queue, p: Priority, s: Stream): Queue {
    if p == Production then q.(production := s) else q.(preview := s)
  }

  // XADD
  function Publish(q: Queue, p: Priority, id: Uuid): Queue {
    var s := StreamOf(q, p);
    SetStream(q, p, s.(entries := s.entries + [id]))
  }

  // XACK
  function Acknowledge(q: Queue, p: Priority, entry: nat): Queue {
    var s := StreamOf(q, p);
    SetStream(q, p, s.(pending := s.pending - {entry}))
  }

  function Enqueue(q: Queue, id: Uuid, deployment: Uuid, priority: Priority, maxAttempts: int): Queue {
    if id in q.jobs || HasDeployment(q.jobs, deployment) then q
    else Publish(q.(jobs := InsertJob(q.jobs, id, deployment, priority, maxAttempts)), priority, id)
  }

  predicate HeadClaimable(q: Queue, p: Priority) {
    var s := StreamOf(q, p);
    s.next < |s.entries| && s.entries[s.next] in q.jobs && Claimable(q.jobs[s.entries[s.next]])
  }

  // XREADGROUP of one entry: delivered, and pending until acknowledged.
  function Deliver(q: Queue, p: Priority): Queue
    requires StreamOf(q, p).next < |StreamOf(q, p).entries|
  {
    var s := StreamOf(q, p);
    SetStream(q, p, s.(next := s.next + 1, pending := s.pending + {s.next}))
  }

  // One turn of the claim loop: read an entry; lease its job, or acknowledge it and go on.
  function TryStream(q: Queue, p: Priority, worker: string, expires: int): (Queue, Option<Claimed>) {
    var s := StreamOf(q, p);
    if s.next >= |s.entries| then (q, None)
    else
      var id := s.entries[s.next];
      if HeadClaimable(q, p) then
        (Deliver(q, p).(jobs := ClaimJob(q.jobs, id, worker, expires),
                        counter := q.counter + (if p == Production then 1 else 0),
                        handed := q.handed + {(id, p)}),
         Some(Claimed(id, q.jobs[id].attempt + 1, p, s.next)))
      else
        (Acknowledge(Deliver(q, p), p, s.next), None)
  }

  function ClaimFrom(q: Queue, order: seq<Priority>, worker: string, expires: int): (Queue, Option<Claimed>)
    decreases |order|
  {
    if order == [] then (q, None)
    else
      var (q', c) := TryStream(q, order[0], worker, expires);
      if c.Some? then (q', c) else ClaimFrom(q', order[1..], worker, expires)
  }

  // Three production claims, then preview first.
  function Order(counter: nat): seq<Priority> {
    if counter >= 3 then [Preview, Production] else [Production, Preview]
  }

  function Claim(q: Queue, worker: string, expires: int): (Queue, Option<Claimed>) {
    ClaimFrom(q.(counter := if q.counter >= 3 then 0 else q.counter), Order(q.counter), worker, expires)
  }

  function Ack(q: Queue, id: Uuid, worker: string, stream: Priority, entry: nat): Queue {
    Acknowledge(q.(jobs := CompleteJob(q.jobs, id, worker)), stream, entry)
  }

  function Fail(q: Queue, id: Uuid, worker: string, stream: Priority, entry: nat, retryable: bool): Queue {
    if id !in q.jobs then q
    else if retryable && q.jobs[id].attempt < q.jobs[id].maxAttempts then
      Acknowledge(Publish(q.(jobs := FailJob(q.jobs, id, worker, Queued)), stream, id), stream, entry)
    else
      Acknowledge(q.(jobs := FailJob(q.jobs, id, worker, Failed)), stream, entry)
  }

  // One row of the sweep.
  function SweepRow(q: Queue, id: Uuid, now: int): Queue {
    if !Expired(q.jobs, id, now) then q
    else if q.jobs[id].attempt < q.jobs[id].maxAttempts then
      Publish(q.(jobs := SweepJob(q.jobs, id, Queued)), q.jobs[id].priority, id)
    else q.(jobs := SweepJob(q.jobs, id, Failed))
  }

  datatype Action =
    | DoEnqueue(id: Uuid, deployment: Uuid, priority: Priority, maxAttempts: int)
    | DoClaim(worker: string, expires: int)
    | DoRenew(id: Uuid, worker: string, expires: int)
    | DoAck(id: Uuid, worker: string, stream: Priority, entry: nat)
    | DoFail(id: Uuid, worker: string, stream: Priority, entry: nat, retryable: bool)
    | DoCancel(id: Uuid)
    | DoSweepRow(id: Uuid, now: int)

  function Step(q: Queue, a: Action): Queue {
    match a
    case DoEnqueue(id, deployment, priority, maxAttempts) => Enqueue(q, id, deployment, priority, maxAttempts)
    case DoClaim(worker, expires) => Claim(q, worker, expires).0
    case DoRenew(id, worker, expires) => q.(jobs := RenewJob(q.jobs, id, worker, expires))
    case DoAck(id, worker, stream, entry) => Ack(q, id, worker, stream, entry)
    case DoFail(id, worker, stream, entry, retryable) => Fail(q, id, worker, stream, entry, retryable)
    case DoCancel(id) => q.(jobs := CancelJob(q.jobs, id))
    case DoSweepRow(id, now) => SweepRow(q, id, now)
  }

  function Exec(q: Queue, run: seq<Action>): Queue {
    if run == [] then q else Step(Exec(q, run[..|run| - 1]), run[|run| - 1])
  }

  // `fail` is given the stream that some claim of that job returned, however long ago.
  predicate Honest(q: Queue, a: Action) {
    a.DoFail? ==> (a.id, a.stream) in q.handed
  }

  ghost predicate HonestRun(q: Queue, run: seq<Action>) {
    forall i :: 0 <= i < |run| ==> Honest(Exec(q, run[..i]), run[i])
  }
}

/** No queued job is lost, and none waits for ever. */
module QueueDelivery {
  import opened Common
  import opened BuildJobs
  import opened BuildQueue

  ghost predicate WaitsAt(q: Queue, p: Priority, id: Uuid, k: nat) {
    var s := StreamOf(q, p);
    s.next <= k < |s.entries| && s.entries[k] == id
  }

  // The job has an undelivered message in the stream of its own priority.
  ghost predicate Deliverable(q: Queue, id: Uuid) {
    id in q.jobs && exists k: nat :: WaitsAt(q, q.jobs[id].priority, id, k)
  }

  ghost predicate JobOk(j: Job) {
    && LeaseOk(j)
    && (j.status == Queued && j.maxAttempts >= 1 ==> j.attempt < j.maxAttempts)
    && (j.maxAttempts < 1 ==> j.attempt == 0)
    && (j.attempt == 0 || j.attempt <= j.maxAttempts)
  }

  ghost predicate StreamOk(q: Queue, p: Priority) {
    var s := StreamOf(q, p);
    && s.next <= |s.entries|
    && forall k :: 0 <= k < |s.entries| ==> s.entries[k] in q.jobs && q.jobs[s.entries[k]].priority == p
  }

  ghost predicate Awaited(q: Queue, id: Uuid)
    requires id in q.jobs
  {
    q.jobs[id].status == Queued && q.jobs[id].maxAttempts >= 1 ==> Deliverable(q, id)
  }

  ghost predicate Inv(q: Queue) {
    && (forall id :: id in q.jobs ==> JobOk(q.jobs[id]))
    && StreamOk(q, Production) && StreamOk(q, Preview)
    && (forall id :: id in q.jobs ==> Awaited(q, id))
    && (forall h :: h in q.handed ==> h.0 in q.jobs && q.jobs[h.0].priority == h.1)
    && q.counter <= 3
  }

  // Nothing undelivered becomes delivered, except messages of job x.
  ghost predicate KeepsMessages(q: Queue, q': Queue, x: Option<Uuid>) {
    forall p, id: Uuid, k: nat :: WaitsAt(q, p, id, k) && x != Some(id) ==> WaitsAt(q', p, id, k)
  }

  lemma StillAwaited(q: Queue, q': Queue, x: Option<Uuid>, id: Uuid)
    requires id in q.jobs && Awaited(q, id) && KeepsMessages(q, q', x) && x != Some(id)
    requires id in q'.jobs && q'.jobs[id].priority == q.jobs[id].priority
    requires q'.jobs[id].maxAttempts == q.jobs[id].maxAttempts
    requires q'.jobs[id].status == Queued ==> q.jobs[id].status == Queued
    ensures Awaited(q', id)
  {
    if q'.jobs[id].status == Queued && q'.jobs[id].maxAttempts >= 1 {
      var k: nat :| WaitsAt(q, q.jobs[id].priority, id, k);
      assert WaitsAt(q', q'.jobs[id].priority, id, k);
    }
  }

  // The row of one job changes; it does not become Queued.
  lemma RowKeepsInv(q: Queue, id: Uuid, j: Job)
    requires Inv(q) && id in q.jobs && JobOk(j)
    requires j.priority == q.jobs[id].priority && j.maxAttempts == q.jobs[id].maxAttempts
    requires j.status == Queued ==> q.jobs[id].status == Queued
    ensures Inv(q.(jobs := q.jobs[id := j]))
  {
    var q' := q.(jobs := q.jobs[id := j]);
    assert KeepsMessages(q, q', None);
    forall x | x in q'.jobs
      ensures Awaited(q', x)
    {
      StillAwaited(q, q', None, x);
    }
  }

  lemma PublishOk(q: Queue, p: Priority, id: Uuid)
    requires StreamOk(q, Production) && StreamOk(q, Preview) && id in q.jobs && q.jobs[id].priority == p
    ensures var q' := Publish(q, p, id);
      StreamOk(q', Production) && StreamOk(q', Preview) && Deliverable(q', id) && KeepsMessages(q, q', None)
  {
    assert WaitsAt(Publish(q, p, id), p, id, |StreamOf(q, p).entries|);
  }

  // The row of one job changes, even to Queued, or is new, and the job is published.
  lemma RequeueKeepsInv(q: Queue, id: Uuid, j: Job)
    requires Inv(q) && JobOk(j)
    requires id in q.jobs ==> j.priority == q.jobs[id].priority && j.maxAttempts == q.jobs[id].maxAttempts
    ensures Inv(Publish(q.(jobs := q.jobs[id := j]), j.priority, id))
  {
    var mid := q.(jobs := q.jobs[id := j]);
    var q' := Publish(mid, j.priority, id);
    PublishOk(mid, j.priority, id);
    assert KeepsMessages(q, q', None);
    forall x | x in q'.jobs && x != id
      ensures Awaited(q', x)
    {
      StillAwaited(q, q', None, x);
    }
  }

  predicate SamePlace(s: Stream, s': Stream) { s'.entries == s.entries && s'.next == s.next }

  // Only acknowledgements, the counter, or what is remembered of claims changed.
  lemma BookkeepingKeepsInv(q: Queue, q': Queue)
    requires Inv(q) && q'.jobs == q.jobs && q'.counter <= 3 && q'.handed <= q.handed
    requires SamePlace(q.production, q'.production) && SamePlace(q.preview, q'.preview)
    ensures Inv(q')
  {
    assert KeepsMessages(q, q', None);
    forall x | x in q'.jobs
      ensures Awaited(q', x)
    {
      StillAwaited(q, q', None, x);
    }
  }

  // Delivery takes one message away, of a job that is not waiting for it or that is being claimed.
  lemma DeliverKeepsInv(q: Queue, p: Priority, id: Uuid, j: Job, q': Queue)
    requires Inv(q) && StreamOf(q, p).next < |StreamOf(q, p).entries| && id == StreamOf(q, p).entries[StreamOf(q, p).next]
    requires JobOk(j) && j.priority == p && id in q.jobs && j.maxAttempts == q.jobs[id].maxAttempts
    requires j.status == Queued ==> j.maxAttempts < 1
    requires q'.counter <= 3 && q'.handed == q.handed + {(id, p)}
    requires q' == Deliver(q, p).(jobs := q.jobs[id := j], counter := q'.counter, handed := q'.handed)
    ensures Inv(q')
  {
    assert KeepsMessages(q, q', Some(id));
    forall x | x in q'.jobs && x != id
      ensures Awaited(q', x)
    {
      StillAwaited(q, q', Some(id), x);
    }
  }

  lemma TryStreamKeepsInv(q: Queue, p: Priority, worker: string, expires: int)
    requires Inv(q) && (p == Production ==> q.counter < 3)
    ensures Inv(TryStream(q, p, worker, expires).0)
    ensures TryStream(q, p, worker, expires).1.None? ==> TryStream(q, p, worker, expires).0.counter == q.counter
  {
    var s := StreamOf(q, p);
    if s.next < |s.entries| {
      var id := s.entries[s.next];
      var q' := TryStream(q, p, worker, expires).0;
      if HeadClaimable(q, p) {
        DeliverKeepsInv(q, p, id, ClaimJob(q.jobs, id, worker, expires)[id], q');
      } else {
        var d := Deliver(q, p);
        var marked := d.(handed := q.handed + {(id, p)});
        assert q.jobs[id := q.jobs[id]] == q.jobs;
        DeliverKeepsInv(q, p, id, q.jobs[id], marked);
        BookkeepingKeepsInv(marked, q');
      }
    }
  }

  // A claim is one try, and a second one only if the first found nothing.
  lemma ClaimTries(q: Queue, worker: string, expires: int)
    ensures var q0 := q.(counter := if q.counter >= 3 then 0 else q.counter);
      var first := TryStream(q0, Order(q.counter)[0], worker, expires);
      Claim(q, worker, expires)
        == if first.1.Some? then first else TryStream(first.0, Order(q.counter)[1], worker, expires)
  {
    var q0 := q.(counter := if q.counter >= 3 then 0 else q.counter);
    var order := Order(q.counter);
    var t1 := TryStream(q0, order[0], worker, expires);
    var t2 := TryStream(t1.0, order[1], worker, expires);
    assert t2 == (t2.0, t2.1) && t1 == (t1.0, t1.1);
    assert order[1..][0] == order[1] && order[1..][1..] == [];
    assert ClaimFrom(t1.0, order[1..], worker, expires) == t2 by {
      assert ClaimFrom(t2.0, order[1..][1..], worker, expires) == (t2.0, None);
    }
  }

  lemma ClaimKeepsInv(q: Queue, worker: string, expires: int)
    requires Inv(q)
    ensures Inv(Claim(q, worker, expires).0)
  {
    var q0 := q.(counter := if q.counter >= 3 then 0 else q.counter);
    var order := Order(q.counter);
    ClaimTries(q, worker, expires);
    BookkeepingKeepsInv(q, q0);
    TryStreamKeepsInv(q0, order[0], worker, expires);
    var (q1, c) := TryStream(q0, order[0], worker, expires);
    if c.None? {
      TryStreamKeepsInv(q1, order[1], worker, expires);
    }
  }

  lemma FailKeepsInv(q: Queue, id: Uuid, worker: string, stream: Priority, entry: nat, retryable: bool)
    requires Inv(q) && (id, stream) in q.handed
    ensures Inv(Fail(q, id, worker, stream, entry, retryable))
  {
    var to := if retryable && q.jobs[id].attempt < q.jobs[id].maxAttempts then Queued else Failed;
    var j := FailJob(q.jobs, id, worker, to)[id];
    assert FailJob(q.jobs, id, worker, to) == q.jobs[id := j];
    if to == Queued {
      RequeueKeepsInv(q, id, j);
      BookkeepingKeepsInv(Publish(q.(jobs := q.jobs[id := j]), stream, id), Fail(q, id, worker, stream, entry, retryable));
    } else {
      RowKeepsInv(q, id, j);
      BookkeepingKeepsInv(q.(jobs := q.jobs[id := j]), Fail(q, id, worker, stream, entry, retryable));
    }
  }

  lemma SweepRowKeepsInv(q: Queue, id: Uuid, now: int)
    requires Inv(q)
    ensures Inv(SweepRow(q, id, now))
  {
    if Expired(q.jobs, id, now) {
      if q.jobs[id].attempt < q.jobs[id].maxAttempts {
        RequeueKeepsInv(q, id, Unleased(q.jobs[id], Queued));
      } else {
        RowKeepsInv(q, id, Unleased(q.jobs[id], Failed));
      }
    }
  }

  lemma AckKeepsInv(q: Queue, id: Uuid, worker: string, stream: Priority, entry: nat)
    requires Inv(q)
    ensures Inv(Ack(q, id, worker, stream, entry))
  {
    if OwnedBy(q.jobs, id, worker) {
      RowKeepsInv(q, id, Unleased(q.jobs[id], Completed));
    }
    BookkeepingKeepsInv(q.(jobs := CompleteJob(q.jobs, id, worker)), Ack(q, id, worker, stream, entry));
  }

  lemma StepKeepsInv(q: Queue, a: Action)
    requires Inv(q) && Honest(q, a)
    ensures Inv(Step(q, a))
  {
    match a
    case DoEnqueue(id, deployment, priority, maxAttempts) =>
      if id !in q.jobs && !HasDeployment(q.jobs, deployment) {
        RequeueKeepsInv(q, id, Job(deployment, priority, Queued, 0, maxAttempts, None, None));
      }
    case DoClaim(worker, expires) => ClaimKeepsInv(q, worker, expires);
    case DoRenew(id, worker, expires) =>
      if OwnedBy(q.jobs, id, worker) {
        RowKeepsInv(q, id, q.jobs[id].(expires := Some(expires)));
      }
    case DoAck(id, worker, stream, entry) => AckKeepsInv(q, id, worker, stream, entry);
    case DoFail(id, worker, stream, entry, retryable) => FailKeepsInv(q, id, worker, stream, entry, retryable);
    case DoCancel(id) =>
      if id in q.jobs && (q.jobs[id].status == Queued || q.jobs[id].status == Running) {
        RowKeepsInv(q, id, Unleased(q.jobs[id], Cancelled));
      }
    case DoSweepRow(id, now) => SweepRowKeepsInv(q, id, now);
  }

  lemma {:induction false} ExecKeepsInv(q: Queue, run: seq<Action>)
    requires Inv(q) && HonestRun(q, run)
    ensures Inv(Exec(q, run))
  {
    if run != [] {
      var front := run[..|run| - 1];
      HonestFront(q, run);
      ExecKeepsInv(q, front);
      assert front == run[..|run| - 1];
      StepKeepsInv(Exec(q, front), run[|run| - 1]);
    }
  }

  lemma HonestFront(q: Queue, run: seq<Action>)
    requires HonestRun(q, run) && run != []
    ensures HonestRun(q, run[..|run| - 1])
  {
    var front := run[..|run| - 1];
    forall i | 0 <= i < |front|
      ensures Honest(Exec(q, front[..i]), front[i])
    {
      assert front[..i] == run[..i];
    }
  }

  /** No queued job is lost. In every reachable state, stale workers and duplicate messages included, a
      Queued job that was enqueued with at least one attempt has attempts left and an undelivered message
      in the stream of its own priority; and a Queued job has attempts left exactly when it was enqueued
      with at least one. */
  lemma NoQueuedJobIsLost(run: seq<Action>, id: Uuid)
    requires HonestRun(INIT, run) && id in Exec(INIT, run).jobs && Exec(INIT, run).jobs[id].status == Queued
    ensures var q := Exec(INIT, run);
      && (q.jobs[id].attempt < q.jobs[id].maxAttempts <==> q.jobs[id].maxAttempts >= 1)
      && (q.jobs[id].maxAttempts >= 1 ==> Deliverable(q, id))
  {
    ExecKeepsInv(INIT, run);
    var q := Exec(INIT, run);
    assert JobOk(q.jobs[id]) && Awaited(q, id);
  }
}
