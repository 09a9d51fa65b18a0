/** The agent protocol's validator: the checks an envelope passes, and the table of operation ids that is pruned
    as time goes by. Times are nanoseconds; the signature and the command format are parameters. */
module AgentProtocol {
  import opened Common

  datatype Envelope = Envelope(version: string, operation: Uuid, node: Uuid, timestamp: int, payload: seq<bv8>, signature: string)

  type Key = string

  datatype Verdict<+T> =
    | Accepted(command: T)
    | Unusable         // the payload does not parse, or names a forbidden command
    | VersionMismatch | PayloadTooLarge | TimestampExpired | TokenRevoked | NodeNotFound | InvalidSignature | ReplayDetected

  // How signatures are made and payloads are read, and the allowed skew.
  datatype Config<+T> = Config(maxSkew: nat, sign: (Envelope, Key) -> string, read: seq<bv8> -> Option<T>)

  datatype State = State(processed: map<Uuid, int>, credentials: map<Uuid, Key>, revoked: set<Uuid>)

  const Second := 1_000_000_000

  // Whole seconds of a duration, toward zero.
  function WholeSeconds(d: int): int { if d >= 0 then d / Second else -(-d / Second) }

  function Abs(x: int): nat { if x >= 0 then x else -x }

  predicate Fresh(e: Envelope, now: int, maxSkew: nat) { Abs(WholeSeconds(now - e.timestamp)) <= WholeSeconds(maxSkew) }

  function Pruned(processed: map<Uuid, int>, now: int, maxSkew: nat): map<Uuid, int> {
    map id | id in processed && now - processed[id] < maxSkew * 2 :: processed[id]
  }

  // The checks before the operation table, in order.
  function Screen<T>(c: Config<T>, s: State, e: Envelope, now: int): Option<Verdict<T>> {
    if e.version != "v1" then Some(VersionMismatch)
    else if |e.payload| > 1024 * 1024 then Some(PayloadTooLarge)
    else if !Fresh(e, now, c.maxSkew) then Some(TimestampExpired)
    else if e.node in s.revoked then Some(TokenRevoked)
    else if e.node !in s.credentials then Some(NodeNotFound)
    else if e.signature != c.sign(e, s.credentials[e.node]) then Some(InvalidSignature)
    else None
  }

  // The envelope gets past the duplicate check.
  predicate Passes<T>(c: Config<T>, s: State, e: Envelope, now: int) {
    Screen(c, s, e, now).None? && e.operation !in Pruned(s.processed, now, c.maxSkew)
  }

  function VerdictOf<T>(c: Config<T>, s: State, e: Envelope, now: int): Verdict<T> {
    var screen := Screen(c, s, e, now);
    if screen.Some? then screen.value
    else if !Passes(c, s, e, now) then ReplayDetected
    else if c.read(e.payload).Some? then Accepted(c.read(e.payload).value) else Unusable
  }

  // A screened envelope prunes the table, and enters it if it passes, even when its payload is of no use.
  function Validated<T>(c: Config<T>, s: State, e: Envelope, now: int): State {
    if Screen(c, s, e, now).Some? then s
    else
      var kept := Pruned(s.processed, now, c.maxSkew);
      s.(processed := if e.operation in kept then kept else kept[e.operation := now])
  }

  // ---------------------------------------------------------------- runs

  datatype Event =
    | Register(node: Uuid, key: Key)
    | Revoke(node: Uuid)
    | Validate(envelope: Envelope, now: int)

  function After<T>(c: Config<T>, s: State, v: Event): State {
    match v
    case Register(node, key) => s.(credentials := s.credentials[node := key])
    case Revoke(node) => s.(revoked := s.revoked + {node})
    case Validate(e, now) => Validated(c, s, e, now)
  }

  // The clock never runs backwards.
  predicate ClockFrom(run: seq<Event>, clock: int) {
    run == [] || (if run[0].Validate? then run[0].now >= clock && ClockFrom(run[1..], run[0].now) else ClockFrom(run[1..], clock))
  }

  // An envelope that reuses the operation id and is not newer: in particular the same one again.
  predicate Repeats(e': Envelope, e: Envelope) { e'.operation == e.operation && e'.timestamp <= e.timestamp }

  // No repeat of `e` gets past the duplicate check anywhere in the run.
  predicate Holds<T>(c: Config<T>, s: State, e: Envelope, run: seq<Event>)
    decreases |run|
  {
    run == []
    || ((run[0].Validate? && Repeats(run[0].envelope, e) ==> !Passes(c, s, run[0].envelope, run[0].now))
        && Holds(c, After(c, s, run[0]), e, run[1..]))
  }

  // ---------------------------------------------------------------- how long an envelope stays fresh

  // An envelope is fresh while less than this away from its timestamp.
  function Window(maxSkew: nat): int { (WholeSeconds(maxSkew) + 1) * Second }

  lemma FreshIs(e: Envelope, now: int, maxSkew: nat)
    ensures Fresh(e, now, maxSkew) <==> -Window(maxSkew) < now - e.timestamp < Window(maxSkew)
  {
  }

  // The entry outlives every repeat: it is younger than the pruning age until the last repeat has expired.
  ghost predicate Guarded(s: State, e: Envelope, clock: int, maxSkew: nat) {
    || clock >= e.timestamp + Window(maxSkew)
    || (e.operation in s.processed && s.processed[e.operation] + maxSkew * 2 >= e.timestamp + Window(maxSkew))
  }

  lemma GuardHolds<T>(c: Config<T>, s: State, e: Envelope, e': Envelope, clock: int, now: int)
    requires Guarded(s, e, clock, c.maxSkew) && clock <= now
    ensures Guarded(Validated(c, s, e', now), e, now, c.maxSkew)
    ensures Repeats(e', e) ==> !Passes(c, s, e', now)
  {
    FreshIs(e', now, c.maxSkew);
  }

  lemma {:induction false} GuardedRun<T>(c: Config<T>, s: State, e: Envelope, clock: int, run: seq<Event>)
    requires Guarded(s, e, clock, c.maxSkew) && ClockFrom(run, clock)
    ensures Holds(c, s, e, run)
    decreases |run|
  {
    if run != [] {
      var next := After(c, s, run[0]);
      match run[0]
      case Validate(e', now) =>
        GuardHolds(c, s, e, e', clock, now);
        GuardedRun(c, next, e, now, run[1..]);
      case Register(_, _) => GuardedRun(c, next, e, clock, run[1..]);
      case Revoke(_) => GuardedRun(c, next, e, clock, run[1..]);
    }
  }

  // ---------------------------------------------------------------- never twice, and exactly when

  // How far ahead of its own timestamp an envelope may first arrive.
  predicate NotTooEarly(e: Envelope, now: int, maxSkew: nat) { e.timestamp - now <= maxSkew * 2 - Window(maxSkew) }

  ghost predicate NeverAgain<T>(c: Config<T>, s: State, e: Envelope, now: int) {
    forall run: seq<Event> :: ClockFrom(run, now) ==> Holds(c, Validated(c, s, e, now), e, run)
  }

  lemma EarlyIsAcceptedAgain<T>(c: Config<T>, s: State, e: Envelope, now: int)
    requires Passes(c, s, e, now) && !NotTooEarly(e, now, c.maxSkew)
    ensures Passes(c, Validated(c, s, e, now), e, now + c.maxSkew * 2)
  {
    FreshIs(e, now, c.maxSkew);
    FreshIs(e, now + c.maxSkew * 2, c.maxSkew);
  }

  /** An envelope that got past the duplicate check is never let past it again, in any later run, however much is
      pruned, exactly when it did not arrive too early: no further ahead of its timestamp than twice the skew
      less the freshness window. */
  lemma NeverAgainIff<T(!new)>(c: Config<T>, s: State, e: Envelope, now: int)
    requires Passes(c, s, e, now)
    ensures NeverAgain(c, s, e, now) <==> NotTooEarly(e, now, c.maxSkew)
  {
    var s' := Validated(c, s, e, now);
    if NotTooEarly(e, now, c.maxSkew) {
      forall run: seq<Event> | ClockFrom(run, now)
        ensures Holds(c, s', e, run)
      {
        GuardedRun(c, s', e, now, run);
      }
    } else {
      EarlyIsAcceptedAgain(c, s, e, now);
      var run := [Validate(e, now + c.maxSkew * 2)];
      assert run[1..] == [];
      assert ClockFrom(run, now);
      assert run[0].envelope == e && Repeats(e, e) && Passes(c, s', e, run[0].now);
      assert !Holds(c, s', e, run);
    }
  }

  /** With a skew of at least one second, arriving at or after the timestamp is enough. */
  lemma OnTimeIsNeverAgain<T(!new)>(c: Config<T>, s: State, e: Envelope, now: int)
    requires Passes(c, s, e, now) && c.maxSkew >= Second && now >= e.timestamp
    ensures NeverAgain(c, s, e, now)
  {
    NeverAgainIff(c, s, e, now);
  }

  // ---------------------------------------------------------------- the object

  class AgentProtocolValidator<T> {
    const config: Config<T>
    var processed: map<Uuid, int>
    var credentials: map<Uuid, Key>
    var revoked: set<Uuid>

    function Contents(): State
      reads this
    {
      State(processed, credentials, revoked)
    }

    predicate Plain(e: Envelope) { e.version == "v1" && |e.payload| <= 1_048_576 }

    // Less than the allowed whole seconds, and one, away from now.
    predicate Timely(e: Envelope, now: int) {
      var limit := (config.maxSkew / 1_000_000_000 + 1) * 1_000_000_000;
      -limit < now - e.timestamp < limit
    }

    // From a registered node that has not been revoked, and signed with its key.
    predicate Genuine(e: Envelope, now: int)
      reads this
    {
      && Plain(e) && Timely(e, now)
      && e.node !in revoked && e.node in credentials && e.signature == config.sign(e, credentials[e.node])
    }

    predicate Recent(operation: Uuid, now: int, table: map<Uuid, int>) {
      operation in table && now - table[operation] < 2 * config.maxSkew
    }

    constructor (config: Config<T>)
      ensures this.config == config && Contents() == State(map[], map[], {})
    {
      this.config := config;
      processed, credentials, revoked := map[], map[], {};
    }

    method RegisterCredentials(node: Uuid, key: Key)
      modifies this
      ensures Contents() == After(config, old(Contents()), Register(node, key))
      ensures credentials == old(credentials)[node := key] && processed == old(processed) && revoked == old(revoked)
    {
      credentials := credentials[node := key];
    }

    method RevokeNode(node: Uuid)
      modifies this
      ensures Contents() == After(config, old(Contents()), Revoke(node))
      ensures revoked == old(revoked) + {node} && processed == old(processed) && credentials == old(credentials)
    {
      revoked := revoked + {node};
    }

    /** The checks in order, each error exactly when its own check fails and all earlier ones hold. Accepted exactly
        when the version is the protocol's, the payload has at most one MiB, the timestamp is within the allowed whole
        seconds of now, the node is registered and not revoked, the signature is the one its key makes, no entry of
        the operation is younger than twice the skew, and the payload can be read. Only an envelope that gets to the
        table changes it: entries past that age go, and the operation is entered unless it was there. */
    method ValidateAndUnpack(e: Envelope, now: int) returns (verdict: Verdict<T>)
      modifies this
      ensures verdict == VerdictOf(config, old(Contents()), e, now)
      ensures Contents() == After(config, old(Contents()), Validate(e, now))
      ensures credentials == old(credentials) && revoked == old(revoked)
      ensures verdict.VersionMismatch? <==> e.version != "v1"
      ensures verdict.PayloadTooLarge? <==> e.version == "v1" && |e.payload| > 1_048_576
      ensures verdict.TimestampExpired? <==> Plain(e) && !Timely(e, now)
      ensures verdict.TokenRevoked? <==> Plain(e) && Timely(e, now) && e.node in revoked
      ensures verdict.NodeNotFound? <==> Plain(e) && Timely(e, now) && e.node !in revoked && e.node !in credentials
      ensures verdict.InvalidSignature? <==>
        Plain(e) && Timely(e, now) && e.node !in revoked && e.node in credentials && e.signature != config.sign(e, credentials[e.node])
      ensures verdict.ReplayDetected? <==> Genuine(e, now) && Recent(e.operation, now, old(processed))
      ensures verdict.Unusable? <==> Genuine(e, now) && !Recent(e.operation, now, old(processed)) && config.read(e.payload) == None
      ensures verdict.Accepted? <==> Genuine(e, now) && !Recent(e.operation, now, old(processed)) && config.read(e.payload).Some?
      ensures verdict.Accepted? ==> config.read(e.payload) == Some(verdict.command)
      ensures !Genuine(e, now) ==> processed == old(processed)
      ensures Genuine(e, now) ==>
        && e.operation in processed && (!Recent(e.operation, now, old(processed)) ==> processed[e.operation] == now)
        && (forall id :: id != e.operation || Recent(e.operation, now, old(processed)) ==>
              (id in processed <==> Recent(id, now, old(processed))) && (id in processed ==> processed[id] == old(processed)[id]))
    {
      FreshIs(e, now, config.maxSkew);
      if e.version != "v1" {
        return VersionMismatch;
      }
      if |e.payload| > 1024 * 1024 {
        return PayloadTooLarge;
      }
      var skew := WholeSeconds(now - e.timestamp);
      if Abs(skew) > WholeSeconds(config.maxSkew) {
        return TimestampExpired;
      }
      if e.node in revoked {
        return TokenRevoked;
      }
      if e.node !in credentials {
        return NodeNotFound;
      }
      if e.signature != config.sign(e, credentials[e.node]) {
        return InvalidSignature;
      }
      processed := Pruned(processed, now, config.maxSkew);
      if e.operation in processed {
        return ReplayDetected;
      }
      processed := processed[e.operation := now];
      var command := config.read(e.payload);
      verdict := if command.Some? then Accepted(command.value) else Unusable;
    }
  }
}
