/** The turn-bound context exchange (`managed_access/broker.py`): each section under the
    broker's lock is one step, and steps of any callers interleave freely with those of the
    registry. */
module ManagedContext {
  import opened Schema
  import opened ManagedAuthority
  import opened Texts

  const MAX_REFERENCE := 256
  const MAX_HOST := 64
  const MAX_PROMPT_CHARACTERS := 32768
  const MAX_CONTEXT_CHARACTERS := 8000
  const REQUEST_TTL := 8 * SECOND

  type RequestId = nat

  datatype PendingContext = PendingContext(
    id: RequestId, host: string, hostSession: string, hostTurn: string, scope: string, prompt: string,
    manager: string, expiresAt: Instant, taken: bool, result: Option<string>)

  datatype RequestPayload = RequestPayload(
    scope: Option<string>, host: Option<string>, hostSession: Option<string>, hostTurn: Option<string>,
    prompt: Option<string>)

  datatype CompletePayload = CompletePayload(
    id: Option<RequestId>, scope: Option<string>, host: Option<string>, hostSession: Option<string>,
    hostTurn: Option<string>,
    context: Option<string>)

  // ---------------------------------------------------------------- texts

  /** `_text`: stripped, not empty and not too long, or an error. */
  function Normalized(value: Option<string>, maximum: nat): Option<string> {
    if value.None? || Stripped(value.value) == "" || |Stripped(value.value)| > maximum then None
      else Some(Stripped(value.value))
  }

  // ---------------------------------------------------------------- the pending requests

  function Pruned(pending: seq<PendingContext>, now: Instant): seq<PendingContext> {
    if pending == [] then []
    else
      var front, x := Pruned(pending[..|pending| - 1], now), pending[|pending| - 1];
      if x.expiresAt > now then front + [x] else front
  }

  predicate Matches(x: PendingContext, lease: Lease) {
    x.manager == lease.reference && x.hostSession == lease.hostSession && x.hostTurn == lease.hostTurn
  }

  /** The first unassigned request of the lease's session and turn. */
  function FirstFor(pending: seq<PendingContext>, lease: Lease, from: nat): Option<nat>
    requires from <= |pending|
    decreases |pending| - from
  {
    if from == |pending| then None
    else if !pending[from].taken && Matches(pending[from], lease) then Some(from)
    else FirstFor(pending, lease, from + 1)
  }

  function Find(pending: seq<PendingContext>, id: RequestId, from: nat): Option<nat>
    requires from <= |pending|
    decreases |pending| - from
  {
    if from == |pending| then None else if pending[from].id == id then Some(from) else Find(pending, id, from + 1)
  }

  lemma {:induction false} FirstForIsFirst(pending: seq<PendingContext>, lease: Lease, from: nat)
    requires from <= |pending|
    ensures var i := FirstFor(pending, lease, from);
      && (i.None? ==> forall j :: from <= j < |pending| ==> pending[j].taken || !Matches(pending[j], lease))
      && (i.Some? ==> from <= i.value < |pending| && !pending[i.value].taken && Matches(pending[i.value], lease)
                      && forall j :: from <= j < i.value ==> pending[j].taken || !Matches(pending[j], lease))
    decreases |pending| - from
  {
    if from < |pending| { FirstForIsFirst(pending, lease, from + 1); }
  }

  lemma {:induction false} FindIsFirst(pending: seq<PendingContext>, id: RequestId, from: nat)
    requires from <= |pending|
    ensures var i := Find(pending, id, from);
      && (i.None? ==> forall j :: from <= j < |pending| ==> pending[j].id != id)
      && (i.Some? ==> from <= i.value < |pending| && pending[i.value].id == id
                      && forall j :: from <= j < i.value ==> pending[j].id != id)
    decreases |pending| - from
  {
    if from < |pending| { FindIsFirst(pending, id, from + 1); }
  }

  lemma {:induction false} PrunedKeeps(pending: seq<PendingContext>, now: Instant, x: PendingContext)
    ensures x in Pruned(pending, now) <==> x in pending && x.expiresAt > now
  {
    if pending != [] {
      var n := |pending| - 1;
      PrunedKeeps(pending[..n], now, x);
      assert pending == pending[..n] + [pending[n]];
    }
  }

  // ---------------------------------------------------------------- steps on the requests

  /** The second section of `request`: `reference` is the manager session its first section
      observed.  Nothing is drafted unless a live lease covers the scope, session and turn. */
  function Drafted(c: Runtime, r: Registry, payload: RequestPayload, reference: string, id: RequestId, clock: Clock)
    : (Registry, Option<PendingContext>)
  {
    var scope, host := Normalized(payload.scope, MAX_REFERENCE), Normalized(payload.host, MAX_HOST);
    var hostSession, hostTurn := Normalized(payload.hostSession, MAX_REFERENCE),
      Normalized(payload.hostTurn, MAX_REFERENCE);
    if scope.None? || host.None? || hostSession.None? || hostTurn.None? || BoundScope(host.value, scope.value).None?
      then (r, None)
    else
      var (after, lease) := Resolved(c, r, BoundScope(host.value, scope.value).value, hostSession.value,
        hostTurn.value, clock);
      var prompt := Normalized(payload.prompt, MAX_PROMPT_CHARACTERS);
      if lease.Err? || prompt.None? then (after, None)
      else (after, Some(PendingContext(id, host.value, hostSession.value, hostTurn.value, scope.value, prompt.value,
                                       reference, clock.wall + REQUEST_TTL, false, None)))
  }

  /** One pass of the loop in `next`. */
  function Polled(
    pending: seq<PendingContext>, lease: Lease, now: Instant): (seq<PendingContext>, Option<PendingContext>) {
    var kept := Pruned(pending, now);
    var i := FirstFor(kept, lease, 0);
    FirstForIsFirst(kept, lease, 0);
    if i.None? then (kept, None)
    else (kept[i.value := kept[i.value].(taken := true)], Some(kept[i.value].(taken := true)))
  }

  /** The checks of `complete` on a pending request. */
  predicate Bound(x: PendingContext, lease: Lease, payload: CompletePayload, now: Instant) {
    && x.manager == lease.reference
    && Some(x.scope) == Normalized(payload.scope, MAX_REFERENCE)
    && Some(x.host) == payload.host && Some(x.hostSession) == payload.hostSession
       && Some(x.hostTurn) == payload.hostTurn
    && x.taken && x.expiresAt > now
  }

  /** `complete`: the registry, the requests, and the lease that supplied the context. */
  function Completed(
    c: Runtime, r: Registry, pending: seq<PendingContext>, token: Token, payload: CompletePayload, clock: Clock)
    : (Registry, seq<PendingContext>, Option<Lease>)
  {
    var scope := Normalized(payload.scope, MAX_REFERENCE);
    if payload.id.None? || scope.None? then (r, pending, None)
    else
      var i := Find(pending, payload.id.value, 0);
      FindIsFirst(pending, payload.id.value, 0);
      if i.None? || pending[i.value].result.Some? || BoundScope(pending[i.value].host, scope.value).None?
        then (r, pending, None)
      else
        var x := pending[i.value];
        var (after, lease) := Required(c, r, token, BoundScope(x.host, scope.value), Some(x.hostSession),
          Some(x.hostTurn), clock);
        var context := Normalized(payload.context, MAX_CONTEXT_CHARACTERS);
        if lease.Err? || !Bound(x, lease.value, payload, clock.wall) || context.None? then (after, pending, None)
        else (after, pending[i.value := x.(result := context)], Some(lease.value))
  }

  function Popped(pending: seq<PendingContext>, id: RequestId): (seq<PendingContext>, Option<PendingContext>) {
    var i := Find(pending, id, 0);
    FindIsFirst(pending, id, 0);
    if i.None? then (pending, None) else (pending[..i.value] + pending[i.value + 1..], Some(pending[i.value]))
  }

  // ---------------------------------------------------------------- the broker

  class ManagedContextBroker {
    const authority: ManagedAuthorityRegistry
    var pending: seq<PendingContext>

    constructor (authority: ManagedAuthorityRegistry)
      ensures this.authority == authority && pending == []
    {
      this.authority := authority;
      pending := [];
    }

    method Prune(now: Instant)
      modifies `pending
      ensures pending == Pruned(old(pending), now)
    {
      var kept: seq<PendingContext> := [];
      for i := 0 to |pending|
        invariant kept == Pruned(pending[..i], now)
      {
        assert pending[..i + 1][..i] == pending[..i];
        if pending[i].expiresAt > now { kept := kept + [pending[i]]; }
      }
      assert pending[..|pending|] == pending;
      pending := kept;
    }

    /** The second section of `request`. */
    method Draft(
      payload: RequestPayload, reference: string, id: RequestId, clock: Clock)
      returns (draft: Option<PendingContext>)
      modifies authority
      ensures (authority.View(), draft) == Drafted(authority.runtime, old(authority.View()), payload, reference, id,
        clock)
    {
      var scope, host := Normalized(payload.scope, MAX_REFERENCE), Normalized(payload.host, MAX_HOST);
      var hostSession, hostTurn := Normalized(payload.hostSession, MAX_REFERENCE),
        Normalized(payload.hostTurn, MAX_REFERENCE);
      if scope.None? || host.None? || hostSession.None? || hostTurn.None? { return None; }
      var bound := BoundScope(host.value, scope.value);
      if bound.None? { return None; }
      var session := authority.SessionForScope(bound.value, hostSession.value, hostTurn.value, clock);
      if session.Err? { return None; }
      var prompt := Normalized(payload.prompt, MAX_PROMPT_CHARACTERS);
      if prompt.None? { return None; }
      draft := Some(PendingContext(id, host.value, hostSession.value, hostTurn.value, scope.value, prompt.value,
                                   reference, clock.wall + REQUEST_TTL, false, None));
    }

    /** The third section of `request`. */
    method Enqueue(draft: PendingContext, now: Instant)
      modifies `pending
      ensures pending == Pruned(old(pending), now) + [draft]
    {
      Prune(now);
      pending := pending + [draft];
    }

    /** One pass of the loop in `next`. */
    method Poll(lease: Lease, now: Instant) returns (request: Option<PendingContext>)
      modifies `pending
      ensures (pending, request) == Polled(old(pending), lease, now)
    {
      Prune(now);
      ghost var kept := pending;
      FirstForIsFirst(kept, lease, 0);
      for i := 0 to |pending|
        invariant pending == kept && FirstFor(kept, lease, 0) == FirstFor(kept, lease, i)
      {
        if !pending[i].taken && Matches(pending[i], lease) {
          pending := pending[i := pending[i].(taken := true)];
          return Some(pending[i]);
        }
      }
      request := None;
    }

    method Complete(token: Token, payload: CompletePayload, clock: Clock) returns (supplied: Option<Lease>)
      modifies this, authority
      ensures (authority.View(), pending, supplied)
              == Completed(authority.runtime, old(authority.View()), old(pending), token, payload, clock)
    {
      var scope := Normalized(payload.scope, MAX_REFERENCE);
      if payload.id.None? || scope.None? { return None; }
      var i := Find(pending, payload.id.value, 0);
      FindIsFirst(pending, payload.id.value, 0);
      if i.None? || pending[i.value].result.Some? { return None; }
      var x := pending[i.value];
      var bound := BoundScope(x.host, scope.value);
      if bound.None? { return None; }
      var session := authority.Require(token, bound, Some(x.hostSession), Some(x.hostTurn), clock);
      if session.Err? { return None; }
      if !Bound(x, session.value, payload, clock.wall) { return None; }
      var context := Normalized(payload.context, MAX_CONTEXT_CHARACTERS);
      if context.None? { return None; }
      pending := pending[i.value := x.(result := context)];
      supplied := Some(session.value);
    }

    /** The last section of `request`. */
    method Finish(id: RequestId) returns (context: Option<string>)
      modifies `pending
      ensures var (rest, x) := Popped(old(pending), id);
        pending == rest && context == if x.Some? then x.value.result else None
    {
      var i := Find(pending, id, 0);
      FindIsFirst(pending, id, 0);
      if i.None? { return None; }
      context := pending[i.value].result;
      pending := pending[..i.value] + pending[i.value + 1..];
    }

    method Revoke()
      modifies `pending
      ensures pending == []
    {
      pending := [];
    }
  }
}
