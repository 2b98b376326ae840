/** The lease registry of managed access (`managed_access/authority.py`).

    The wall clock and the monotonic clock are inputs of every operation; a capability is a
    fresh token. */
module ManagedAuthority {
  import opened Schema

  datatype Clock = Clock(wall: Instant, steady: real)

  datatype Lease = Lease(
    reference: string, build: string, instance: string, scopes: seq<string>,
    hostSession: string, hostTurn: string, capabilityId: string, expiresAt: Instant)

  type Token = nat

  datatype Denial =
    | RuntimeMismatch | InstanceMismatch | StaleAuthority | CapabilityRequired | AuthorityExpired
    | ScopeMismatch | HostSessionMismatch | HostTurnMismatch | AuthorityUnavailable

  datatype Result<+T> = Ok(value: T) | Err(denial: Denial)

  datatype Runtime = Runtime(build: string, instance: string, timeout: real)

  datatype Registry = Registry(session: Option<Lease>, capability: Option<Token>, lastSeen: real)

  const REVOKED := Registry(None, None, 0.0)

  predicate Connected(c: Runtime, r: Registry, clock: Clock) {
    r.session.Some? && r.lastSeen > 0.0 && clock.steady - r.lastSeen <= c.timeout
  }

  predicate Live(c: Runtime, r: Registry, clock: Clock) {
    Connected(c, r, clock) && r.session.value.expiresAt > clock.wall
  }

  predicate Permits(lease: Lease, scope: string) {
    "*" in lease.scopes || scope in lease.scopes
  }

  function BoundScope(host: string, scope: string): Option<string> {
    if host == "" || ':' in host || scope == "" then None else Some(host + ":" + scope)
  }

  lemma ColonEndsTheHost(host: string, scope: string)
    requires ':' !in host
    ensures (host + ":" + scope)[|host|] == ':' && forall i :: 0 <= i < |host| ==> (host + ":" + scope)[i] != ':'
    ensures (host + ":" + scope)[..|host|] == host && (host + ":" + scope)[|host| + 1..] == scope
  {
    forall i | 0 <= i < |host| ensures host[i] != ':' { assert host[i] in host; }
  }

  /** A bound scope names one host and one scope. */
  lemma BoundScopeIsInjective(h1: string, s1: string, h2: string, s2: string)
    requires BoundScope(h1, s1).Some? && BoundScope(h1, s1) == BoundScope(h2, s2)
    ensures h1 == h2 && s1 == s2
  {
    ColonEndsTheHost(h1, s1);
    ColonEndsTheHost(h2, s2);
  }

  // ---------------------------------------------------------------- operations

  function Activated(c: Runtime, r: Registry, lease: Lease, token: Token, clock: Clock): (Registry, Result<Token>) {
    if lease.build != c.build then (r, Err(RuntimeMismatch))
    else if lease.instance != c.instance then (r, Err(InstanceMismatch))
    else if lease.expiresAt <= clock.wall then (r, Err(StaleAuthority))
    else (Registry(Some(lease), Some(token), clock.steady), Ok(token))
  }

  /** `authority`. */
  function Observed(c: Runtime, r: Registry, clock: Clock): (Registry, Option<Lease>) {
    if Live(c, r, clock) then (r, r.session) else (REVOKED, None)
  }

  predicate Mismatched(expected: string, given: Option<string>) {
    given.Some? && given.value != expected
  }

  /** `require`: an expired session is cleared, and a granted call renews the contact. */
  function Required(
    c: Runtime, r: Registry, token: Token, scope: Option<string>, hostSession: Option<string>, hostTurn: Option<string>,
    clock: Clock): (Registry, Result<Lease>)
  {
    if r.session.None? || r.capability.None? || !Connected(c, r, clock) || token != r.capability.value
    then (r, Err(CapabilityRequired))
    else
      var lease := r.session.value;
      if lease.expiresAt <= clock.wall then (REVOKED, Err(AuthorityExpired))
      else if scope.Some? && !Permits(lease, scope.value) then (r, Err(ScopeMismatch))
      else if Mismatched(lease.hostSession, hostSession) then (r, Err(HostSessionMismatch))
      else if Mismatched(lease.hostTurn, hostTurn) then (r, Err(HostTurnMismatch))
      else (r.(lastSeen := clock.steady), Ok(lease))
  }

  /** `session_for_scope`. */
  function Resolved(
    c: Runtime, r: Registry, scope: string, hostSession: string, hostTurn: string, clock: Clock)
    : (Registry, Result<Lease>)
  {
    if !Live(c, r, clock) then (REVOKED, Err(AuthorityUnavailable))
    else if !Permits(r.session.value, scope) then (r, Err(ScopeMismatch))
    else if hostSession != r.session.value.hostSession then (r, Err(HostSessionMismatch))
    else if hostTurn != r.session.value.hostTurn then (r, Err(HostTurnMismatch))
    else (r, Ok(r.session.value))
  }

  // ---------------------------------------------------------------- the registry

  class ManagedAuthorityRegistry {
    const runtime: Runtime
    var session: Option<Lease>
    var capability: Option<Token>
    var lastSeen: real

    constructor (runtime: Runtime)
      ensures this.runtime == runtime && View() == REVOKED
    {
      this.runtime := runtime;
      session, capability, lastSeen := None, None, 0.0;
    }

    function View(): Registry
      reads this
    {
      Registry(session, capability, lastSeen)
    }

    method Clear()
      modifies this
      ensures View() == REVOKED
    {
      session, capability, lastSeen := None, None, 0.0;
    }

    method Activate(lease: Lease, token: Token, clock: Clock) returns (r: Result<Token>)
      modifies this
      ensures (View(), r) == Activated(runtime, old(View()), lease, token, clock)
    {
      if lease.build != runtime.build { return Err(RuntimeMismatch); }
      if lease.instance != runtime.instance { return Err(InstanceMismatch); }
      if lease.expiresAt <= clock.wall { return Err(StaleAuthority); }
      session, capability, lastSeen := Some(lease), Some(token), clock.steady;
      r := Ok(token);
    }

    method Authority(clock: Clock) returns (lease: Option<Lease>)
      modifies this
      ensures (View(), lease) == Observed(runtime, old(View()), clock)
    {
      var connected := Connected(runtime, View(), clock);
      if session.None? || !connected || session.value.expiresAt <= clock.wall {
        Clear();
        return None;
      }
      lease := session;
    }

    method Require(
      token: Token, scope: Option<string>, hostSession: Option<string>, hostTurn: Option<string>, clock: Clock)
      returns (r: Result<Lease>)
      modifies this
      ensures (View(), r) == Required(runtime, old(View()), token, scope, hostSession, hostTurn, clock)
    {
      var connected := Connected(runtime, View(), clock);
      if session.None? || capability.None? || !connected || token != capability.value {
        return Err(CapabilityRequired);
      }
      var lease := session.value;
      if lease.expiresAt <= clock.wall {
        Clear();
        return Err(AuthorityExpired);
      }
      if scope.Some? && "*" !in lease.scopes && scope.value !in lease.scopes { return Err(ScopeMismatch); }
      if hostSession.Some? && hostSession.value != lease.hostSession { return Err(HostSessionMismatch); }
      if hostTurn.Some? && hostTurn.value != lease.hostTurn { return Err(HostTurnMismatch); }
      lastSeen := clock.steady;
      r := Ok(lease);
    }

    method SessionForScope(
      scope: string, hostSession: string, hostTurn: string, clock: Clock)
      returns (r: Result<Lease>)
      modifies this
      ensures (View(), r) == Resolved(runtime, old(View()), scope, hostSession, hostTurn, clock)
    {
      var connected := Connected(runtime, View(), clock);
      if session.None? || !connected || session.value.expiresAt <= clock.wall {
        Clear();
        return Err(AuthorityUnavailable);
      }
      if "*" !in session.value.scopes && scope !in session.value.scopes { return Err(ScopeMismatch); }
      if hostSession != session.value.hostSession { return Err(HostSessionMismatch); }
      if hostTurn != session.value.hostTurn { return Err(HostTurnMismatch); }
      r := Ok(session.value);
    }
  }

  // ---------------------------------------------------------------- runs

  datatype Operation =
    | Activate(lease: Lease, token: Token)
    | Revoke
    | Observe
    | Require(token: Token, scope: Option<string>, hostSession: Option<string>, hostTurn: Option<string>)
    | Resolve(boundScope: string, session: string, turn: string)

  datatype Call = Call(operation: Operation, clock: Clock)

  function Apply(c: Runtime, r: Registry, call: Call): Registry {
    match call.operation
    case Activate(lease, token) => Activated(c, r, lease, token, call.clock).0
    case Revoke => REVOKED
    case Observe => Observed(c, r, call.clock).0
    case Require(token, scope, hostSession, hostTurn) =>
      Required(c, r, token, scope, hostSession, hostTurn, call.clock).0
    case Resolve(scope, session, turn) => Resolved(c, r, scope, session, turn, call.clock).0
  }

  function ApplyAll(c: Runtime, r: Registry, calls: seq<Call>): Registry {
    if calls == [] then r else Apply(c, ApplyAll(c, r, calls[..|calls| - 1]), calls[|calls| - 1])
  }

  predicate Later(a: Clock, b: Clock) {
    a.wall <= b.wall && a.steady <= b.steady
  }

  /** Both clocks only move forward. */
  predicate Forward(start: Clock, calls: seq<Call>) {
    && (forall i :: 0 <= i < |calls| ==> Later(start, calls[i].clock))
    && (forall i, j :: 0 <= i < j < |calls| ==> Later(calls[i].clock, calls[j].clock))
  }

  predicate NoActivation(calls: seq<Call>) {
    forall i :: 0 <= i < |calls| ==> !calls[i].operation.Activate?
  }

  lemma InactiveStaysByStep(c: Runtime, r: Registry, call: Call, at: Clock, later: Clock)
    requires !Live(c, r, at) && Later(at, call.clock) && Later(call.clock, later) && !call.operation.Activate?
    ensures !Live(c, Apply(c, r, call), later)
  {}

  /** A lease that is expired, disconnected or revoked stays inactive until the next
      activation, whatever is called meanwhile. */
  lemma {:induction false} InactiveUntilActivated(c: Runtime, r: Registry, calls: seq<Call>, at: Clock, later: Clock)
    requires !Live(c, r, at) && NoActivation(calls) && Forward(at, calls)
    requires Later(at, later) && forall i :: 0 <= i < |calls| ==> Later(calls[i].clock, later)
    ensures !Live(c, ApplyAll(c, r, calls), later)
  {
    if calls != [] {
      var n := |calls| - 1;
      InactiveUntilActivated(c, r, calls[..n], at, calls[n].clock);
      InactiveStaysByStep(c, ApplyAll(c, r, calls[..n]), calls[n], calls[n].clock, later);
    }
  }

  /** Once an operation has answered that authority is unavailable or expired, only an
      activation brings one back, even if the wall clock is set back. */
  lemma {:induction false} ReportedInactiveIsFinal(c: Runtime, r: Registry, first: Call, calls: seq<Call>)
    requires NoActivation(calls)
    requires
      || (first.operation.Observe? && Observed(c, r, first.clock).1.None?)
      || (first.operation.Resolve? && var o := first.operation;
         Resolved(c, r, o.boundScope, o.session, o.turn, first.clock).1 == Err(AuthorityUnavailable))
      || (first.operation.Require? && var o := first.operation;
          Required(c, r, o.token, o.scope, o.hostSession, o.hostTurn, first.clock).1 == Err(AuthorityExpired))
    ensures ApplyAll(c, Apply(c, r, first), calls) == REVOKED
  {
    if calls != [] { ReportedInactiveIsFinal(c, r, first, calls[..|calls| - 1]); }
  }

  /** The activation a session comes from: nothing replaced or revoked it since. */
  predicate ActivatedAt(c: Runtime, calls: seq<Call>, p: nat, r: Registry)
    requires p < |calls|
  {
    var call := calls[p];
    && call.operation.Activate? && r.session == Some(call.operation.lease) && r.capability == Some(call.operation.token)
    && call.operation.lease.build == c.build && call.operation.lease.instance == c.instance
    && call.clock.wall < call.operation.lease.expiresAt
    && (forall q :: p < q < |calls| ==> !calls[q].operation.Revoke?)
  }

  /** A held session is the lease of one activation for this runtime, unexpired then and not
      revoked since, under the token that activation returned. */
  lemma {:induction false} HeldSessionWasActivated(c: Runtime, calls: seq<Call>) returns (p: nat)
    requires ApplyAll(c, REVOKED, calls).session.Some?
    ensures p < |calls| && ActivatedAt(c, calls, p, ApplyAll(c, REVOKED, calls))
  {
    var n := |calls| - 1;
    var before, after := ApplyAll(c, REVOKED, calls[..n]), ApplyAll(c, REVOKED, calls);
    if calls[n].operation.Activate? && Activated(c, before, calls[n].operation.lease, calls[n].operation.token,
      calls[n].clock).1.Ok? {
      p := n;
    } else {
      assert after.session == before.session && after.capability == before.capability && !calls[n].operation.Revoke?;
      p := HeldSessionWasActivated(c, calls[..n]);
      assert calls[..n][p] == calls[p];
    }
  }
}
