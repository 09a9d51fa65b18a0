// The health probe loop that gates every release.
module Health {
  import opened Common

  // `lower` is the lower-casing of header names; responses carry theirs in lower case.
  datatype HealthPolicy = HealthPolicy(attempts: nat, expectedStatus: nat, bodyContains: Option<string>,
                                       headers: seq<(string, string)>, lower: string -> string)

  datatype Response = Response(status: nat, headers: map<string, string>, body: string)

  // What one probe brings back: a response, or a transport error.
  type Answer = Result<Response>

  datatype Reason = WrongStatus | WrongBody | WrongHeader(key: string) | MissingHeader(key: string) | NoAnswer

  datatype Attempt = Attempt(number: nat, statusCode: Option<nat>, healthy: bool, error: Option<Reason>)

  datatype HealthCheck = HealthCheck(healthy: bool, attempts: seq<Attempt>, finalError: Option<Reason>)

  predicate OccursAt(part: string, whole: string, i: nat) {
    i + |part| <= |whole| && whole[i..i + |part|] == part
  }

  predicate Occurs(part: string, whole: string) {
    exists i :: 0 <= i <= |whole| && OccursAt(part, whole, i)
  }

  ghost predicate HeaderOk(p: HealthPolicy, h: (string, string), r: Response) {
    p.lower(h.0) in r.headers && r.headers[p.lower(h.0)] == h.1
  }

  // The policy as a reader would state it: status, then body, then every header.
  ghost predicate Meets(p: HealthPolicy, r: Response) {
    && r.status == p.expectedStatus
    && (p.bodyContains.Some? ==> Occurs(p.bodyContains.value, r.body))
    && forall i :: 0 <= i < |p.headers| ==> HeaderOk(p, p.headers[i], r)
  }

  ghost predicate Healthy(p: HealthPolicy, a: Answer) { a.Ok? && Meets(p, a.value) }

  function MaxAttempts(p: HealthPolicy): (n: nat)
    ensures n >= 1 && n >= p.attempts && (n == 1 || n == p.attempts)
  {
    if p.attempts < 1 then 1 else p.attempts
  }

  /** A text occurs in another exactly when it can be cut out of it. */
  lemma OccursIff(part: string, whole: string)
    ensures Occurs(part, whole) <==> exists before, after :: whole == before + part + after
  {
    if Occurs(part, whole) {
      var i :| 0 <= i <= |whole| && OccursAt(part, whole, i);
      assert whole == whole[..i] + part + whole[i + |part|..];
    }
    if before, after :| whole == before + part + after {
      assert OccursAt(part, whole, |before|);
    }
  }

  method Judge(p: HealthPolicy, r: Response) returns (error: Option<Reason>)
    ensures error.None? <==> Meets(p, r)
    ensures error.None? ==>
      && r.status == p.expectedStatus
      && (p.bodyContains.Some? ==> exists before, after :: r.body == before + p.bodyContains.value + after)
      && forall i :: 0 <= i < |p.headers| ==> p.lower(p.headers[i].0) in r.headers && r.headers[p.lower(p.headers[i].0)] == p.headers[i].1
    ensures error.Some? ==>
      || r.status != p.expectedStatus
      || (p.bodyContains.Some? && forall before, after :: r.body != before + p.bodyContains.value + after)
      || exists i :: 0 <= i < |p.headers|
           && !(p.lower(p.headers[i].0) in r.headers && r.headers[p.lower(p.headers[i].0)] == p.headers[i].1)
    ensures error == Some(WrongStatus) <==> r.status != p.expectedStatus
    ensures error == Some(WrongBody) ==> p.bodyContains.Some? && !Occurs(p.bodyContains.value, r.body)
  {
    if p.bodyContains.Some? {
      OccursIff(p.bodyContains.value, r.body);
    }
    if r.status != p.expectedStatus {
      return Some(WrongStatus);
    }
    if p.bodyContains.Some? && !Occurs(p.bodyContains.value, r.body) {
      return Some(WrongBody);
    }
    for i := 0 to |p.headers|
      invariant forall j :: 0 <= j < i ==> HeaderOk(p, p.headers[j], r)
    {
      var (key, value) := p.headers[i];
      if p.lower(key) !in r.headers {
        assert !HeaderOk(p, p.headers[i], r);
        return Some(MissingHeader(key));
      }
      if r.headers[p.lower(key)] != value {
        assert !HeaderOk(p, p.headers[i], r);
        return Some(WrongHeader(key));
      }
    }
    return None;
  }

  /** Healthy exactly when one of the first max(1, attempts) answers meets the policy; probing stops at
      the first such answer; the records are numbered 1..k and only the last can be healthy. */
  method WaitUntilHealthy(p: HealthPolicy, answers: nat -> Answer) returns (check: HealthCheck)
    ensures check.healthy <==> exists k: nat :: 1 <= k <= MaxAttempts(p) && Healthy(p, answers(k))
    ensures 1 <= |check.attempts| <= MaxAttempts(p)
    ensures !check.healthy ==> |check.attempts| == MaxAttempts(p)
    ensures forall i :: 0 <= i < |check.attempts| ==>
      && check.attempts[i].number == i + 1
      && (check.attempts[i].healthy <==> check.healthy && i == |check.attempts| - 1)
      && (check.attempts[i].healthy <==> Healthy(p, answers(i + 1)))
      && (check.attempts[i].error.None? <==> check.attempts[i].healthy)
      && check.attempts[i].statusCode == if answers(i + 1).Ok? then Some(answers(i + 1).value.status) else None
    ensures check.finalError == if check.healthy then None else check.attempts[|check.attempts| - 1].error
  {
    var attempts: seq<Attempt> := [];
    for number := 1 to MaxAttempts(p) + 1
      invariant |attempts| == number - 1
      invariant forall i :: 0 <= i < |attempts| ==>
        && attempts[i].number == i + 1
        && !attempts[i].healthy && !Healthy(p, answers(i + 1)) && attempts[i].error.Some?
        && attempts[i].statusCode == if answers(i + 1).Ok? then Some(answers(i + 1).value.status) else None
    {
      var answer := answers(number);
      if answer.Ok? {
        var error := Judge(p, answer.value);
        attempts := attempts + [Attempt(number, Some(answer.value.status), error.None?, error)];
        if error.None? {
          return HealthCheck(true, attempts, None);
        }
      } else {
        attempts := attempts + [Attempt(number, None, false, Some(NoAnswer))];
      }
    }
    forall k: nat | 1 <= k <= MaxAttempts(p)
      ensures !Healthy(p, answers(k))
    {
      assert attempts[k - 1].number == k;
    }
    return HealthCheck(false, attempts, attempts[|attempts| - 1].error);
  }
}
