// The build queue as the object the workers hold, one call at a time.
module QueueService {
  import opened Common
  import opened BuildJobs
  import opened BuildQueue
  import opened QueueDelivery

  // The lease sweep over the rows its SELECT returned.
  function Sweep(q: Queue, rows: seq<Uuid>, now: int): Queue {
    if rows == [] then q else Step(Sweep(q, rows[..|rows| - 1], now), DoSweepRow(rows[|rows| - 1], now))
  }

  // How many of the rows have attempts left.
  function Requeued(jobs: Jobs, rows: seq<Uuid>): nat {
    if rows == [] then 0
    else
      var id := rows[|rows| - 1];
      Requeued(jobs, rows[..|rows| - 1]) + if id in jobs && jobs[id].attempt < jobs[id].maxAttempts then 1 else 0
  }

  // The SELECT: every running job whose lease has ended, each once, in any order.
  ghost predicate SelectedExpired(q: Queue, rows: seq<Uuid>, now: int) {
    && (forall i :: 0 <= i < |rows| ==> Expired(q.jobs, rows[i], now))
    && (forall i, j :: 0 <= i < j < |rows| ==> rows[i] != rows[j])
    && (forall id :: Expired(q.jobs, id, now) ==> id in rows)
  }

  // What the sweep does to one job: an expired one is requeued while it has attempts left, else failed.
  function Swept(j: Job, expired: bool): Job {
    if !expired then j else Unleased(j, if j.attempt < j.maxAttempts then Queued else Failed)
  }

  lemma {:induction false} SweepRows(q: Queue, rows: seq<Uuid>, now: int)
    requires forall i :: 0 <= i < |rows| ==> Expired(q.jobs, rows[i], now)
    requires forall i, j :: 0 <= i < j < |rows| ==> rows[i] != rows[j]
    ensures Sweep(q, rows, now).jobs.Keys == q.jobs.Keys
    ensures forall id :: id in q.jobs ==> Sweep(q, rows, now).jobs[id] == Swept(q.jobs[id], id in rows)
  {
    if rows != [] {
      var n := |rows| - 1;
      var front, last := rows[..n], rows[n];
      SweepRows(q, front, now);
      assert last !in front;
      assert forall id :: id in rows <==> id in front || id == last;
    }
  }

  /** The sweep as one operation on the table: exactly the running jobs whose lease ended before now lose it, back
      to the queue while they have attempts left and Failed otherwise; no such lease is left. */
  lemma SweepEndsExpiredLeases(q: Queue, rows: seq<Uuid>, now: int)
    requires SelectedExpired(q, rows, now)
    ensures var q' := Sweep(q, rows, now);
      && q'.jobs.Keys == q.jobs.Keys
      && (forall id :: id in q.jobs ==>
            var j := q.jobs[id];
            q'.jobs[id] == if j.status == Running && j.expires.Some? && j.expires.value < now
                           then j.(status := if j.attempt < j.maxAttempts then Queued else Failed, owner := None, expires := None)
                           else j)
      && (forall id :: id in q'.jobs && q'.jobs[id].status == Running && q'.jobs[id].expires.Some? ==>
            q'.jobs[id].expires.value >= now)
  {
    SweepRows(q, rows, now);
    forall id | id in q.jobs
      ensures id in rows <==> Expired(q.jobs, id, now)
    {
    }
  }

  /** What a worker relies on: after it has renewed its lease to t, no sweep at t or before touches the job, whatever
      rows the sweep goes over. */
  lemma {:induction false} RenewedLeaseHolds(q: Queue, id: Uuid, worker: string, t: int, rows: seq<Uuid>, now: int)
    requires id in q.jobs && q.jobs[id].status == Running && q.jobs[id].owner == Some(worker) && now <= t
    ensures var renewed := q.(jobs := RenewJob(q.jobs, id, worker, t));
      && id in Sweep(renewed, rows, now).jobs
      && Sweep(renewed, rows, now).jobs[id] == q.jobs[id].(expires := Some(t))
  {
    if rows != [] {
      RenewedLeaseHolds(q, id, worker, t, rows[..|rows| - 1], now);
    }
  }

  // The job could be claimed and now runs for this worker, under the next attempt number; no other row changed.
  predicate HandedOut(jobs: Jobs, jobs': Jobs, c: Claimed, worker: string, expires: int) {
    && c.id in jobs && jobs[c.id].status in {Queued, Failed} && jobs[c.id].attempt < jobs[c.id].maxAttempts
    && c.attempt == jobs[c.id].attempt + 1
    && jobs' == jobs[c.id := jobs[c.id].(status := Running, attempt := c.attempt, owner := Some(worker), expires := Some(expires))]
  }

  function Streams(q: Queue): map<Priority, Stream> { map[Production := q.production, Preview := q.preview] }

  /** One try at a stream. With nothing undelivered, nothing happens. Otherwise the next entry is delivered: if its job
      is queued or failed with attempts left, the job is handed out and the entry stays pending; if not, the entry is
      acknowledged. Only a production claim counts. */
  lemma TryIs(q: Queue, p: Priority, worker: string, expires: int)
    ensures var (q', c) := TryStream(q, p, worker, expires);
      var s, s' := Streams(q)[p], Streams(q')[p];
      var other := if p == Production then Preview else Production;
      && Streams(q')[other] == Streams(q)[other]
      && (s.next >= |s.entries| ==> q' == q && c == None)
      && (s.next < |s.entries| ==>
            var id := s.entries[s.next];
            var can := id in q.jobs && q.jobs[id].status in {Queued, Failed} && q.jobs[id].attempt < q.jobs[id].maxAttempts;
            && s'.entries == s.entries && s'.next == s.next + 1
            && (can ==> c.Some? && c.value.id == id && c.value.stream == p && c.value.entry == s.next
                        && HandedOut(q.jobs, q'.jobs, c.value, worker, expires)
                        && s'.pending == s.pending + {s.next}
                        && q'.counter == q.counter + if p == Production then 1 else 0)
            && (!can ==> c == None && q'.jobs == q.jobs && s'.pending == s.pending - {s.next} && q'.counter == q.counter))
  {
  }

  /** What a claim hands out, whichever stream it comes from. */
  lemma ClaimHandsOut(q: Queue, worker: string, expires: int)
    ensures var (q', c) := Claim(q, worker, expires);
      if c.Some? then HandedOut(q.jobs, q'.jobs, c.value, worker, expires) else q'.jobs == q.jobs
  {
    ClaimTries(q, worker, expires);
  }

  class Service {
    var jobs: Jobs
    var production: Stream
    var preview: Stream
    var counter: nat
    ghost var handed: set<(Uuid, Priority)>

    ghost function State(): Queue
      reads this
    {
      Queue(jobs, production, preview, counter, handed)
    }

    constructor ()
      ensures State() == INIT
    {
      jobs := map[];
      production, preview := EMPTY, EMPTY;
      counter := 0;
      handed := {};
    }

    method XAdd(p: Priority, id: Uuid)
      modifies this
      ensures State() == Publish(old(State()), p, id)
    {
      if p == Production {
        production := production.(entries := production.entries + [id]);
      } else {
        preview := preview.(entries := preview.entries + [id]);
      }
    }

    method XAck(p: Priority, entry: nat)
      modifies this
      ensures State() == Acknowledge(old(State()), p, entry)
    {
      if p == Production {
        production := production.(pending := production.pending - {entry});
      } else {
        preview := preview.(pending := preview.pending - {entry});
      }
    }

    method XReadGroup(p: Priority) returns (r: Option<(nat, Uuid)>)
      modifies this
      ensures var s := StreamOf(old(State()), p);
        if s.next < |s.entries| then r == Some((s.next, s.entries[s.next])) && State() == Deliver(old(State()), p)
        else r == None && State() == old(State())
    {
      var s := if p == Production then production else preview;
      if s.next >= |s.entries| {
        return None;
      }
      var s' := s.(next := s.next + 1, pending := s.pending + {s.next});
      if p == Production {
        production := s';
      } else {
        preview := s';
      }
      return Some((s.next, s.entries[s.next]));
    }

    /** At most one job per deployment: a second enqueue of the same deployment changes nothing. */
    method EnqueueJob(id: Uuid, deployment: Uuid, priority: Priority, maxAttempts: int)
      modifies this
      ensures State() == Step(old(State()), DoEnqueue(id, deployment, priority, maxAttempts))
      ensures id in old(jobs) || (exists x :: x in old(jobs) && old(jobs)[x].deployment == deployment) ==> State() == old(State())
      ensures id !in old(jobs) && (forall x :: x in old(jobs) ==> old(jobs)[x].deployment != deployment) ==>
        && jobs == old(jobs)[id := Job(deployment, priority, Queued, 0, maxAttempts, None, None)]
        && production.entries == old(production.entries) + (if priority == Production then [id] else [])
        && preview.entries == old(preview.entries) + (if priority == Preview then [id] else [])
    {
      if id in jobs || HasDeployment(jobs, deployment) {
        return;
      }
      jobs := InsertJob(jobs, id, deployment, priority, maxAttempts);
      XAdd(priority, id);
    }

    method TryOne(p: Priority, worker: string, expires: int) returns (r: Option<Claimed>)
      modifies this
      ensures (State(), r) == TryStream(old(State()), p, worker, expires)
    {
      var message := XReadGroup(p);
      if message.None? {
        return None;
      }
      var (entry, id) := message.value;
      if id in jobs && Claimable(jobs[id]) {
        jobs := ClaimJob(jobs, id, worker, expires);
        handed := handed + {(id, p)};
        if p == Production {
          counter := counter + 1;
        }
        return Some(Claimed(id, jobs[id].attempt, p, entry));
      }
      XAck(p, entry);
      return None;
    }

    /** The claim loop does what `Claim` says, and a job it hands out was claimable and is now running
        for this worker, under the next attempt number. */
    method ClaimNext(worker: string, expires: int) returns (r: Option<Claimed>)
      modifies this
      ensures (State(), r) == Claim(old(State()), worker, expires)
      ensures State() == Step(old(State()), DoClaim(worker, expires))
      ensures r.None? ==> jobs == old(jobs)
      ensures r.Some? ==> HandedOut(old(jobs), jobs, r.value, worker, expires)
    {
      ClaimHandsOut(State(), worker, expires);
      var order := Order(counter);
      if counter >= 3 {
        counter := 0;
      }
      ghost var start := State();
      assert order[0..] == order;
      for i := 0 to |order|
        invariant ClaimFrom(State(), order[i..], worker, expires) == ClaimFrom(start, order, worker, expires)
      {
        assert order[i..][0] == order[i] && order[i..][1..] == order[i + 1..];
        r := TryOne(order[i], worker, expires);
        if r.Some? {
          return;
        }
      }
      r := None;
    }

    method RenewLease(id: Uuid, worker: string, expires: int) returns (held: bool)
      modifies this
      ensures State() == Step(old(State()), DoRenew(id, worker, expires))
      ensures State() == old(State()).(jobs := jobs)
      ensures held <==> id in old(jobs) && old(jobs)[id].owner == Some(worker) && old(jobs)[id].status == Running
      ensures held ==> jobs == old(jobs)[id := old(jobs)[id].(expires := Some(expires))]
      ensures !held ==> jobs == old(jobs)
    {
      held := OwnedBy(jobs, id, worker) && jobs[id].status == Running;
      jobs := RenewJob(jobs, id, worker, expires);
    }

    method AckJob(id: Uuid, worker: string, stream: Priority, entry: nat)
      modifies this
      ensures State() == Step(old(State()), DoAck(id, worker, stream, entry))
      ensures !(id in old(jobs) && old(jobs)[id].owner == Some(worker) && old(jobs)[id].status == Running) ==> jobs == old(jobs)
      ensures id in old(jobs) && old(jobs)[id].owner == Some(worker) && old(jobs)[id].status == Running ==>
        jobs == old(jobs)[id := old(jobs)[id].(status := Completed, owner := None, expires := None)]
      ensures production.pending == old(production.pending) - (if stream == Production then {entry} else {})
      ensures preview.pending == old(preview.pending) - (if stream == Preview then {entry} else {})
    {
      jobs := CompleteJob(jobs, id, worker);
      XAck(stream, entry);
    }

    method FailOrRequeue(id: Uuid, worker: string, stream: Priority, entry: nat, retryable: bool) returns (ok: bool)
      modifies this
      ensures ok <==> id in old(jobs)
      ensures State() == Step(old(State()), DoFail(id, worker, stream, entry, retryable))
      ensures !(id in old(jobs) && old(jobs)[id].owner == Some(worker)) ==> jobs == old(jobs)
      ensures id in old(jobs) && old(jobs)[id].owner == Some(worker) ==>
        var j := old(jobs)[id];
        jobs == old(jobs)[id := j.(status := if retryable && j.attempt < j.maxAttempts then Queued else Failed,
                                   owner := None, expires := None)]
      ensures id in old(jobs) ==>
        var again := if retryable && old(jobs)[id].attempt < old(jobs)[id].maxAttempts then [id] else [];
        && production == old(production).(entries := old(production.entries) + (if stream == Production then again else []),
                                          pending := old(production.pending) - (if stream == Production then {entry} else {}))
        && preview == old(preview).(entries := old(preview.entries) + (if stream == Preview then again else []),
                                    pending := old(preview.pending) - (if stream == Preview then {entry} else {}))
    {
      if id !in jobs {
        return false;
      }
      if retryable && jobs[id].attempt < jobs[id].maxAttempts {
        jobs := FailJob(jobs, id, worker, Queued);
        XAdd(stream, id);
      } else {
        jobs := FailJob(jobs, id, worker, Failed);
      }
      XAck(stream, entry);
      ok := true;
    }

    method CancelQueued(id: Uuid)
      modifies this
      ensures State() == Step(old(State()), DoCancel(id))
      ensures State() == old(State()).(jobs := jobs)
      ensures !(id in old(jobs) && old(jobs)[id].status in {Queued, Running}) ==> jobs == old(jobs)
      ensures id in old(jobs) && old(jobs)[id].status in {Queued, Running} ==>
        jobs == old(jobs)[id := old(jobs)[id].(status := Cancelled, owner := None, expires := None)]
    {
      jobs := CancelJob(jobs, id);
    }

    method RequeueExpired(rows: seq<Uuid>, now: int) returns (count: nat)
      requires SelectedExpired(State(), rows, now)
      modifies this
      ensures State() == Sweep(old(State()), rows, now)
      ensures count == Requeued(old(jobs), rows)
    {
      count := 0;
      ghost var start := State();
      assert rows[..|rows|] == rows;
      for i := 0 to |rows|
        invariant State() == Sweep(start, rows[..i], now) && count == Requeued(start.jobs, rows[..i])
      {
        var id := rows[i];
        SweepRows(start, rows[..i], now);
        assert rows[..i + 1][..i] == rows[..i] && id !in rows[..i];
        assert Expired(jobs, id, now);
        if jobs[id].attempt < jobs[id].maxAttempts {
          var priority := jobs[id].priority;
          jobs := SweepJob(jobs, id, Queued);
          XAdd(priority, id);
          count := count + 1;
        } else {
          jobs := SweepJob(jobs, id, Failed);
        }
      }
    }
  }
}
