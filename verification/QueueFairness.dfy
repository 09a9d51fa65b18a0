/** Who is served when: the three-to-one weighting, and a bound on how long a queued job can wait. */
module QueueFairness {
  import opened Common
  import opened BuildJobs
  import opened BuildQueue
  import opened QueueDelivery

  // One call of `claim`: the queue it finds, and its arguments.
  datatype Call = Call(q: Queue, worker: string, expires: int)

  function After(c: Call): Queue { Claim(c.q, c.worker, c.expires).0 }

  function Got(c: Call): Option<Claimed> { Claim(c.q, c.worker, c.expires).1 }

  predicate GotFrom(c: Call, p: Priority) { Got(c).Some? && Got(c).value.stream == p }

  // Between two calls anything but a claim may happen, so only the counter carries over.
  ghost predicate Chained(calls: seq<Call>) {
    forall i, j :: 0 <= i < j < |calls| && j == i + 1 ==> calls[j].q.counter == After(calls[i]).counter
  }

  lemma ClaimWithPreviewReady(c: Call)
    requires HeadClaimable(c.q, Preview) && c.q.counter <= 3
    ensures Got(c).Some?
    ensures c.q.counter == 3 ==> GotFrom(c, Preview) && After(c).counter == 0
    ensures c.q.counter < 3 && HeadClaimable(c.q, Production) ==>
      GotFrom(c, Production) && After(c).counter == c.q.counter + 1
    ensures c.q.counter < 3 && !HeadClaimable(c.q, Production) ==>
      GotFrom(c, Preview) && After(c).counter == c.q.counter
  {
    ClaimTries(c.q, c.worker, c.expires);
  }

  /** A claimable message at the head of the preview stream is passed over by at most 3 - c production
      claims, where c is the counter when the wait begins. */
  lemma {:induction false} PreviewIsPassedOverAtMost(calls: seq<Call>)
    requires calls != [] && calls[0].q.counter <= 3 && Chained(calls)
    requires forall i :: 0 <= i < |calls| ==> HeadClaimable(calls[i].q, Preview) && GotFrom(calls[i], Production)
    ensures |calls| <= 3 - calls[0].q.counter
  {
    ClaimWithPreviewReady(calls[0]);
    var rest := calls[1..];
    if rest != [] {
      assert calls[1].q.counter == After(calls[0]).counter;
      forall i, j | 0 <= i < j < |rest| && j == i + 1
        ensures rest[j].q.counter == After(rest[i]).counter
      {
        assert calls[j + 1].q.counter == After(calls[i + 1]).counter;
      }
      PreviewIsPassedOverAtMost(rest);
    }
  }

  function PreviewClaims(calls: seq<Call>): nat {
    if calls == [] then 0
    else PreviewClaims(calls[..|calls| - 1]) + (if GotFrom(calls[|calls| - 1], Preview) then 1 else 0)
  }

  function CounterAfter(c: nat, calls: seq<Call>): nat {
    if calls == [] then c else After(calls[|calls| - 1]).counter
  }

  /** While both heads stay claimable, exactly floor((n + c) / 4) of the next n claims are preview. */
  lemma {:induction false} ExactShare(calls: seq<Call>, c: nat)
    requires c <= 3 && Chained(calls) && (calls != [] ==> calls[0].q.counter == c)
    requires forall i :: 0 <= i < |calls| ==>
      HeadClaimable(calls[i].q, Preview) && HeadClaimable(calls[i].q, Production)
    ensures PreviewClaims(calls) == (|calls| + c) / 4
    ensures CounterAfter(c, calls) == (|calls| + c) % 4
  {
    if calls != [] {
      var n := |calls| - 1;
      LastCall(calls, c);
      ExactShare(calls[..n], c);
      ClaimWithPreviewReady(calls[n]);
      NextQuarter(n + c);
    }
  }

  lemma LastCall(calls: seq<Call>, c: nat)
    requires calls != [] && Chained(calls) && calls[0].q.counter == c
    ensures Chained(calls[..|calls| - 1])
    ensures calls[|calls| - 1].q.counter == CounterAfter(c, calls[..|calls| - 1])
  {
    var n := |calls| - 1;
    if n > 0 {
      assert calls[n].q.counter == After(calls[n - 1]).counter;
    }
  }

  lemma NextQuarter(m: nat)
    ensures (m + 1) / 4 == m / 4 + (if m % 4 == 3 then 1 else 0)
    ensures (m + 1) % 4 == if m % 4 == 3 then 0 else m % 4 + 1
  {
  }

  // ---------------------------------------------------------------- no starvation

  // How many claims can still pass before entry k of stream p is delivered.
  function Patience(q: Queue, p: Priority, k: nat): int {
    var ahead := k - StreamOf(q, p).next;
    if p == Preview then 4 * ahead + (3 - q.counter) else 2 * ahead + (if q.counter == 3 then 1 else 0)
  }

  lemma ClaimMakesProgress(c: Call, p: Priority, id: Uuid, k: nat)
    requires c.q.counter <= 3 && WaitsAt(c.q, p, id, k)
    ensures WaitsAt(After(c), p, id, k) ==> Patience(After(c), p, k) < Patience(c.q, p, k)
    ensures !WaitsAt(After(c), p, id, k) && id in c.q.jobs && Claimable(c.q.jobs[id]) ==>
      id in After(c).jobs && After(c).jobs[id].status == Running
  {
    ClaimTries(c.q, c.worker, c.expires);
  }

  lemma OtherStepsDoNotDeliver(q: Queue, a: Action, p: Priority, id: Uuid, k: nat)
    requires !a.DoClaim? && WaitsAt(q, p, id, k)
    ensures WaitsAt(Step(q, a), p, id, k) && Patience(Step(q, a), p, k) == Patience(q, p, k)
  {
  }

  function ClaimCount(run: seq<Action>): nat {
    if run == [] then 0
    else ClaimCount(run[..|run| - 1]) + (if run[|run| - 1].DoClaim? then 1 else 0)
  }

  ghost predicate QueuedThroughout(q: Queue, run: seq<Action>, id: Uuid) {
    forall i :: 0 <= i <= |run| ==> var at := Exec(q, run[..i]); id in at.jobs && at.jobs[id].status == Queued
  }

  lemma {:induction false} WaitingUsesUpPatience(q: Queue, run: seq<Action>, id: Uuid, p: Priority, k: nat)
    requires Inv(q) && HonestRun(q, run) && QueuedThroughout(q, run, id)
    requires id in q.jobs && q.jobs[id].maxAttempts >= 1 && WaitsAt(q, p, id, k)
    ensures Inv(Exec(q, run)) && WaitsAt(Exec(q, run), p, id, k)
    ensures Patience(Exec(q, run), p, k) + ClaimCount(run) <= Patience(q, p, k)
    ensures Exec(q, run).jobs[id].maxAttempts == q.jobs[id].maxAttempts
  {
    ExecKeepsInv(q, run);
    assert run[..|run|] == run;
    if run != [] {
      var front, a := run[..|run| - 1], run[|run| - 1];
      HonestFront(q, run);
      forall i | 0 <= i <= |front|
        ensures var at := Exec(q, front[..i]); id in at.jobs && at.jobs[id].status == Queued
      {
        assert front[..i] == run[..i];
      }
      WaitingUsesUpPatience(q, front, id, p, k);
      var mid := Exec(q, front);
      assert front[..|front|] == front;
      assert JobOk(mid.jobs[id]);
      if a.DoClaim? {
        ClaimMakesProgress(Call(mid, a.worker, a.expires), p, id, k);
      } else {
        OtherStepsDoNotDeliver(mid, a, p, id, k);
      }
      MaxAttemptsFixed(mid, a, id);
    }
  }

  lemma MaxAttemptsFixed(q: Queue, a: Action, id: Uuid)
    requires id in q.jobs
    ensures id in Step(q, a).jobs && Step(q, a).jobs[id].maxAttempts == q.jobs[id].maxAttempts
  {
    if a.DoClaim? {
      ClaimTries(q, a.worker, a.expires);
    }
  }

  /** No job starves. From any reachable state, let workers call `claim` often enough, four times per
      message queued ahead in the slower stream, with any other calls in between: a job that was Queued
      does not stay Queued all that time. */
  lemma QueuedJobMovesOn(before: seq<Action>, run: seq<Action>, id: Uuid) returns (i: nat)
    requires HonestRun(INIT, before) && HonestRun(Exec(INIT, before), run)
    requires var q := Exec(INIT, before);
      && id in q.jobs && q.jobs[id].status == Queued && q.jobs[id].maxAttempts >= 1
      && var s := StreamOf(q, q.jobs[id].priority); ClaimCount(run) >= 4 * (|s.entries| - s.next)
    ensures i <= |run|
    ensures var at := Exec(Exec(INIT, before), run[..i]); id !in at.jobs || at.jobs[id].status != Queued
  {
    var q := Exec(INIT, before);
    ExecKeepsInv(INIT, before);
    assert Awaited(q, id);
    var p := q.jobs[id].priority;
    var k: nat :| WaitsAt(q, p, id, k);
    if QueuedThroughout(q, run, id) {
      WaitingUsesUpPatience(q, run, id, p, k);
      assert false;
    } else {
      i :| 0 <= i <= |run| && !(var at := Exec(q, run[..i]); id in at.jobs && at.jobs[id].status == Queued);
    }
  }
}
