/** Who is granted what under managed access, in terms of the session held, the clocks and the
    pending requests alone. */
module ManagedEffects {
  import opened Schema
  import opened ManagedAuthority
  import opened ManagedContext
  import opened ManagedExchange
  import opened Texts

  // ---------------------------------------------------------------- the registry

  /** A session is held and its manager was in contact within the timeout. */
  predicate InContact(c: Runtime, r: Registry, clock: Clock) {
    r.session.Some? && r.lastSeen > 0.0 && clock.steady - r.lastSeen <= c.timeout
  }

  predicate IsLive(c: Runtime, r: Registry, clock: Clock) {
    InContact(c, r, clock) && clock.wall < r.session.value.expiresAt
  }

  predicate Covers(lease: Lease, scope: string) {
    exists i :: 0 <= i < |lease.scopes| && (lease.scopes[i] == "*" || lease.scopes[i] == scope)
  }

  predicate Agrees(given: Option<string>, expected: string) {
    given.None? || given.value == expected
  }

  const NO_SESSION := Registry(None, None, 0.0)

  /** A call is granted the session if and only if it presents the capability of a session in
      contact and unexpired, within scope, host session and turn as far as it names them.  Only
      a granted call renews the contact, and only an expired session is cleared. */
  lemma HolderIsGrantedIff(
    c: Runtime, r: Registry, token: Token, scope: Option<string>, hostSession: Option<string>, hostTurn: Option<string>,
    clock: Clock)
    ensures var (after, granted) := Required(c, r, token, scope, hostSession, hostTurn, clock);
      && (granted.Ok? <==>
            && IsLive(c, r, clock) && r.capability == Some(token)
            && (scope.Some? ==> Covers(r.session.value, scope.value))
            && Agrees(hostSession, r.session.value.hostSession) && Agrees(hostTurn, r.session.value.hostTurn))
      && (granted.Ok? ==> granted.value == r.session.value && after == Registry(r.session, r.capability, clock.steady))
      && (granted.Err? ==>
            after == if InContact(c, r, clock) && r.capability == Some(token) && !IsLive(c, r, clock) then NO_SESSION
                     else r)
      && (granted.Err? ==>
            granted.denial ==
            if !InContact(c, r, clock) || r.capability != Some(token) then CapabilityRequired
            else if !IsLive(c, r, clock) then AuthorityExpired
            else if scope.Some? && !Covers(r.session.value, scope.value) then ScopeMismatch
            else if !Agrees(hostSession, r.session.value.hostSession) then HostSessionMismatch else HostTurnMismatch)
  {
    if r.session.Some? && scope.Some? { CoversIff(r.session.value, scope.value); }
  }

  lemma CoversIff(lease: Lease, scope: string)
    ensures Permits(lease, scope) <==> Covers(lease, scope)
  {}

  /** A hook is given the session without its capability if and only if the session is live and
      covers the scope for that host session and turn; the contact is not renewed, and a
      session that is not live is cleared. */
  lemma HookIsGivenTheSessionIff(
    c: Runtime, r: Registry, scope: string, hostSession: string, hostTurn: string, clock: Clock)
    ensures var (after, given) := Resolved(c, r, scope, hostSession, hostTurn, clock);
      && (given.Ok? <==>
            && IsLive(c, r, clock) && Covers(r.session.value, scope)
            && hostSession == r.session.value.hostSession && hostTurn == r.session.value.hostTurn)
      && (given.Ok? ==> given.value == r.session.value)
      && after == (if IsLive(c, r, clock) then r else NO_SESSION)
      && (given.Err? ==>
            given.denial ==
            if !IsLive(c, r, clock) then AuthorityUnavailable
            else if !Covers(r.session.value, scope) then ScopeMismatch
            else if hostSession != r.session.value.hostSession then HostSessionMismatch else HostTurnMismatch)
  {
    if r.session.Some? { CoversIff(r.session.value, scope); }
  }

  /** A lease is activated if and only if it is for this build and instance and unexpired; it
      then replaces whatever was held, in contact from now on, and otherwise nothing changes. */
  lemma LeaseIsActivatedIff(c: Runtime, r: Registry, lease: Lease, token: Token, clock: Clock)
    ensures var (after, given) := Activated(c, r, lease, token, clock);
      && (given.Ok? <==> lease.build == c.build && lease.instance == c.instance && clock.wall < lease.expiresAt)
      && (given.Ok? ==> given.value == token && after == Registry(Some(lease), Some(token), clock.steady))
      && (given.Err? ==> after == r)
      && (given.Err? ==>
            given.denial ==
            if lease.build != c.build then RuntimeMismatch
            else if lease.instance != c.instance then InstanceMismatch else StaleAuthority)
  {}

  /** Asking for the authority reports a live session and clears any other. */
  lemma AuthorityIsReportedIff(c: Runtime, r: Registry, clock: Clock)
    ensures Observed(c, r, clock) == if IsLive(c, r, clock) then (r, r.session) else (NO_SESSION, None)
  {}

  /** A call by the holder of the capability, that names nothing. */
  predicate Heartbeat(call: Call, token: Token) {
    call.operation == Require(token, None, None, None)
  }

  /** The call comes before the lease expires and within the timeout of the contact before. */
  predicate InTime(c: Runtime, lease: Lease, last: real, call: Call) {
    call.clock.wall < lease.expiresAt && call.clock.steady > 0.0 && call.clock.steady - last <= c.timeout
  }

  function LastContact(start: real, calls: seq<Call>): real {
    if calls == [] then start else calls[|calls| - 1].clock.steady
  }

  /** A holder that keeps in contact keeps its session until the session expires. */
  lemma {:induction false} ContactKeepsTheSession(
    c: Runtime, lease: Lease, token: Token, start: real, calls: seq<Call>)
    requires start > 0.0
    requires forall i :: 0 <= i < |calls| ==>
      Heartbeat(calls[i], token) && InTime(c, lease, LastContact(start, calls[..i]), calls[i])
    ensures ApplyAll(c, Registry(Some(lease), Some(token), start), calls) ==
            Registry(Some(lease), Some(token), LastContact(start, calls))
    ensures LastContact(start, calls) > 0.0
  {
    if calls != [] {
      var n := |calls| - 1;
      forall i | 0 <= i < n ensures calls[..n][i] == calls[i] && calls[..n][..i] == calls[..i] {}
      ContactKeepsTheSession(c, lease, token, start, calls[..n]);
      assert Heartbeat(calls[n], token) && InTime(c, lease, LastContact(start, calls[..n]), calls[n]);
    }
  }

  // ---------------------------------------------------------------- texts

  predicate Blank(s: string) {
    forall k :: 0 <= k < |s| ==> IsSpace(s[k])
  }

  /** `t` is what is left of `s` without the white space around it. */
  ghost predicate IsTrimmed(s: string, t: string) {
    && (exists left, right :: Around(s, left, t, right))
    && (t != "" ==> !IsSpace(t[0]) && !IsSpace(t[|t| - 1]))
  }

  predicate Around(s: string, left: string, t: string, right: string) {
    s == left + t + right && Blank(left) && Blank(right)
  }

  lemma MoreOnTheLeft(s: string, t: string)
    requires s != "" && IsSpace(s[0]) && IsTrimmed(s[1..], t)
    ensures IsTrimmed(s, t)
  {
    var left, right :| Around(s[1..], left, t, right);
    assert s == ([s[0]] + left) + t + right;
    assert Around(s, [s[0]] + left, t, right);
  }

  lemma MoreOnTheRight(s: string, t: string)
    requires s != "" && IsSpace(s[|s| - 1]) && IsTrimmed(s[..|s| - 1], t)
    ensures IsTrimmed(s, t)
  {
    var left, right :| Around(s[..|s| - 1], left, t, right);
    assert s == left + t + (right + [s[|s| - 1]]);
    assert Around(s, left, t, right + [s[|s| - 1]]);
  }

  lemma {:induction false} StrippedIsTrimmed(s: string)
    ensures IsTrimmed(s, Stripped(s))
    decreases |s|
  {
    if s != "" && IsSpace(s[0]) {
      StrippedIsTrimmed(s[1..]);
      MoreOnTheLeft(s, Stripped(s[1..]));
    } else if s != "" && IsSpace(s[|s| - 1]) {
      StrippedIsTrimmed(s[..|s| - 1]);
      MoreOnTheRight(s, Stripped(s[..|s| - 1]));
    } else {
      assert Around(s, "", s, "");
    }
  }

  /** The first and the last character of `s` that are not white space, if it has any. */
  lemma InkOf(s: string, left: string, t: string, right: string)
    requires Around(s, left, t, right)
    ensures t == "" ==> Blank(s)
    ensures t != "" && !IsSpace(t[0]) ==> s[|left|] == t[0] && forall k :: 0 <= k < |left| ==> IsSpace(s[k])
    ensures t != "" && !IsSpace(t[|t| - 1]) ==>
      s[|left| + |t| - 1] == t[|t| - 1] && forall k :: |left| + |t| <= k < |s| ==> IsSpace(s[k])
  {
    forall k | |left| + |t| <= k < |s| ensures IsSpace(s[k]) {
      assert s[k] == right[k - |left| - |t|];
    }
  }

  lemma TrimmedIsUnique(s: string, a: string, b: string)
    requires IsTrimmed(s, a) && IsTrimmed(s, b)
    ensures a == b
  {
    var la, ra :| Around(s, la, a, ra);
    var lb, rb :| Around(s, lb, b, rb);
    InkOf(s, la, a, ra);
    InkOf(s, lb, b, rb);
    if a != "" && b != "" {
      assert |la| == |lb| && |la| + |a| == |lb| + |b|;
      assert a == s[|la|..|la| + |a|] == b;
    }
  }

  /** The text given, trimmed, if that leaves something no longer than the maximum. */
  ghost predicate Reads(given: Option<string>, maximum: nat, text: Option<string>) {
    match given
    case None => text == None
    case Some(s) =>
      exists t :: IsTrimmed(s, t) && text == if 0 < |t| <= maximum then Some(t) else None
  }

  lemma NormalizedReads(given: Option<string>, maximum: nat, text: Option<string>)
    ensures Reads(given, maximum, text) <==> text == Normalized(given, maximum)
  {
    if given.Some? {
      StrippedIsTrimmed(given.value);
      if t :| IsTrimmed(given.value, t) && text == if 0 < |t| <= maximum then Some(t) else None {
        TrimmedIsUnique(given.value, t, Stripped(given.value));
      }
    }
  }

  // ---------------------------------------------------------------- drafting a request

  /** What a request must say, as read: its scope, host, host session, host turn and prompt. */
  ghost predicate Says(
    payload: RequestPayload, scope: string, host: string, hostSession: string, hostTurn: string, prompt: string)
  {
    && Reads(payload.scope, 256, Some(scope)) && Reads(payload.host, 64, Some(host))
    && Reads(payload.hostSession, 256, Some(hostSession)) && Reads(payload.hostTurn, 256, Some(hostTurn))
    && Reads(payload.prompt, 32768, Some(prompt))
  }

  /** A session covers the scope of a host, spelled with a colon between them. */
  predicate CoversAt(lease: Lease, host: string, scope: string) {
    host != "" && ':' !in host && scope != "" && Covers(lease, host + ":" + scope)
  }

  lemma CoversAtIff(lease: Lease, host: string, scope: string)
    ensures CoversAt(lease, host, scope) <==>
      BoundScope(host, scope).Some? && Permits(lease, BoundScope(host, scope).value)
  {
    if BoundScope(host, scope).Some? { CoversIff(lease, BoundScope(host, scope).value); }
  }

  /** The session lets a request be drafted: it is live, and covers the scope for that host
      session and turn. */
  predicate Admits(
    c: Runtime, r: Registry, clock: Clock, scope: string, host: string, hostSession: string, hostTurn: string)
  {
    && IsLive(c, r, clock) && CoversAt(r.session.value, host, scope)
    && r.session.value.hostSession == hostSession && r.session.value.hostTurn == hostTurn
  }

  /** A request is drafted with what it says, for the manager session observed and for eight
      seconds, if the session held admits it. */
  lemma AdmittedIsDrafted(
    c: Runtime, r: Registry, payload: RequestPayload, reference: string, id: RequestId, clock: Clock,
    scope: string, host: string, hostSession: string, hostTurn: string, prompt: string)
    requires Says(payload, scope, host, hostSession, hostTurn, prompt)
    requires Admits(c, r, clock, scope, host, hostSession, hostTurn)
    ensures Drafted(c, r, payload, reference, id, clock) ==
      (r, Some(PendingContext(id, host, hostSession, hostTurn, scope, prompt, reference, clock.wall + 8000000, false,
        None)))
  {
    SaysIffNormalized(payload, scope, host, hostSession, hostTurn, prompt);
    CoversAtIff(r.session.value, host, scope);
  }

  lemma SaysIffNormalized(
    payload: RequestPayload, scope: string, host: string, hostSession: string, hostTurn: string, prompt: string)
    ensures Says(payload, scope, host, hostSession, hostTurn, prompt) <==>
      && Normalized(payload.scope, MAX_REFERENCE) == Some(scope) && Normalized(payload.host, MAX_HOST) == Some(host)
      && Normalized(payload.hostSession, MAX_REFERENCE) == Some(hostSession)
      && Normalized(payload.hostTurn, MAX_REFERENCE) == Some(hostTurn)
      && Normalized(payload.prompt, MAX_PROMPT_CHARACTERS) == Some(prompt)
  {
    NormalizedReads(payload.scope, 256, Some(scope));
    NormalizedReads(payload.host, 64, Some(host));
    NormalizedReads(payload.hostSession, 256, Some(hostSession));
    NormalizedReads(payload.hostTurn, 256, Some(hostTurn));
    NormalizedReads(payload.prompt, 32768, Some(prompt));
  }

  /** Nothing else is drafted. */
  lemma DraftedWasAdmitted(
    c: Runtime, r: Registry, payload: RequestPayload, reference: string, id: RequestId, clock: Clock)
    requires Drafted(c, r, payload, reference, id, clock).1.Some?
    ensures var x := Drafted(c, r, payload, reference, id, clock).1.value;
      && Says(payload, x.scope, x.host, x.hostSession, x.hostTurn, x.prompt)
      && Admits(c, r, clock, x.scope, x.host, x.hostSession, x.hostTurn)
  {
    var x := Drafted(c, r, payload, reference, id, clock).1.value;
    SaysIffNormalized(payload, x.scope, x.host, x.hostSession, x.hostTurn, x.prompt);
    CoversAtIff(r.session.value, x.host, x.scope);
  }

  /** At step `a` the thread asked for the authority and was shown a live manager session. */
  ghost predicate ObservedIn(c: Runtime, steps: seq<Step>, a: nat, t: Thread, reference: string) {
    && a < |steps| && steps[a].ObserveForRequest? && steps[a].thread == t
    && var r := After(c, steps[..a]).registry;
       IsLive(c, r, steps[a].clock) && r.session.value.reference == reference
  }

  /** At step `d` the thread drafted the request, admitted by the session held then. */
  ghost predicate DraftedIn(c: Runtime, steps: seq<Step>, d: nat, t: Thread, x: PendingContext) {
    && d < |steps| && steps[d].DraftRequest? && steps[d].thread == t
    && Says(steps[d].payload, x.scope, x.host, x.hostSession, x.hostTurn, x.prompt)
    && Admits(c, After(c, steps[..d]).registry, steps[d].clock, x.scope, x.host, x.hostSession, x.hostTurn)
    && x.expiresAt == steps[d].clock.wall + 8000000
  }

  lemma {:induction false} ObserverSawASession(c: Runtime, steps: seq<Step>, t: Thread) returns (a: nat)
    requires t in After(c, steps).threads && After(c, steps).threads[t].Observing?
    ensures ObservedIn(c, steps, a, t, After(c, steps).threads[t].reference)
  {
    var n := |steps| - 1;
    var before, local := After(c, steps[..n]), After(c, steps).threads[t];
    if t in before.threads && before.threads[t] == local {
      a := ObserverSawASession(c, steps[..n], t);
      assert steps[..n][..a] == steps[..a];
    } else {
      a := n;
      AuthorityIsReportedIff(c, before.registry, steps[n].clock);
    }
  }

  lemma {:induction false} DrafterWasAdmitted(c: Runtime, steps: seq<Step>, t: Thread) returns (a: nat, d: nat)
    requires t in After(c, steps).threads && After(c, steps).threads[t].Drafting?
    ensures var x := After(c, steps).threads[t].draft;
      a < d && ObservedIn(c, steps, a, t, x.manager) && DraftedIn(c, steps, d, t, x)
  {
    var n := |steps| - 1;
    var before, local := After(c, steps[..n]), After(c, steps).threads[t];
    if t in before.threads && before.threads[t] == local {
      a, d := DrafterWasAdmitted(c, steps[..n], t);
      assert steps[..n][..a] == steps[..a] && steps[..n][..d] == steps[..d];
    } else {
      d := n;
      NewDraftWasObserving(c, before, steps[n], t);
      a := ObserverSawASession(c, steps[..n], t);
      assert steps[..n][..a] == steps[..a];
      NewDraftWasAdmitted(c, steps, n, t);
    }
  }

  lemma NewDraftWasObserving(c: Runtime, s: State, step: Step, t: Thread)
    requires var after := Next(c, s, step).0;
      t in after.threads && after.threads[t].Drafting? && !(t in s.threads && s.threads[t] == after.threads[t])
    ensures step.DraftRequest? && step.thread == t && t in s.threads
    ensures s.threads[t] == Observing(Next(c, s, step).0.threads[t].draft.manager)
  {}

  lemma NewDraftWasAdmitted(c: Runtime, steps: seq<Step>, n: nat, t: Thread)
    requires n < |steps| && steps[n].DraftRequest? && steps[n].thread == t
    requires var before := After(c, steps[..n]);
      && t in before.threads && before.threads[t].Observing?
      && t in Next(c, before, steps[n]).0.threads
    ensures var after := Next(c, After(c, steps[..n]), steps[n]).0;
      after.threads[t].Drafting? && DraftedIn(c, steps, n, t, after.threads[t].draft)
  {
    var before := After(c, steps[..n]);
    DraftedWasAdmitted(c, before.registry, steps[n].payload, before.threads[t].reference, before.issued,
      steps[n].clock);
  }

  /** In every run each request that enters the queue was drafted with what its caller said, for
      eight seconds, under a session that admitted it, and names the manager session that the
      same caller was shown before. */
  lemma EveryRequestWasAdmitted(c: Runtime, steps: seq<Step>, p: nat) returns (a: nat, d: nat)
    requires p < |steps| && Outcomes(c, steps)[p].Enqueued?
    ensures var x := Outcomes(c, steps)[p].request;
      && a < d < p && steps[p].EnqueueRequest?
      && ObservedIn(c, steps, a, steps[p].thread, x.manager) && DraftedIn(c, steps, d, steps[p].thread, x)
  {
    OutcomeIsOfItsStep(c, steps, p);
    a, d := DrafterWasAdmitted(c, steps[..p], steps[p].thread);
    assert steps[..p][..a] == steps[..a] && steps[..p][..d] == steps[..d];
  }

  // ---------------------------------------------------------------- handing out

  /** The request is open to the holder of the lease: unexpired, not handed out yet, and of the
      lease's manager session, host session and turn. */
  predicate OpenTo(x: PendingContext, lease: Lease, now: Instant) {
    && now < x.expiresAt && !x.taken
    && x.manager == lease.reference && x.hostSession == lease.hostSession && x.hostTurn == lease.hostTurn
  }

  /** Where the unexpired requests stood before. */
  lemma {:induction false} PrunedPosition(pending: seq<PendingContext>, now: Instant, i: nat) returns (k: nat)
    requires i < |Pruned(pending, now)|
    ensures k < |pending| && pending[k] == Pruned(pending, now)[i] && pending[k].expiresAt > now
    ensures |Pruned(pending[..k], now)| == i
  {
    var n := |pending| - 1;
    if i < |Pruned(pending[..n], now)| {
      k := PrunedPosition(pending[..n], now, i);
      assert pending[..n][..k] == pending[..k];
    } else {
      k := n;
    }
  }

  lemma {:induction false} PrunedPrefix(pending: seq<PendingContext>, now: Instant, k: nat)
    requires k <= |pending|
    ensures Pruned(pending[..k], now) <= Pruned(pending, now)
  {
    if k < |pending| {
      var n := |pending| - 1;
      PrunedPrefix(pending[..n], now, k);
      assert pending[..n][..k] == pending[..k];
    } else {
      assert pending[..k] == pending;
    }
  }

  /** A poll hands a request out if and only if one is open to the lease. */
  lemma PollHandsOutIff(pending: seq<PendingContext>, lease: Lease, now: Instant)
    ensures Polled(pending, lease, now).1.Some? <==> exists k :: 0 <= k < |pending| && OpenTo(pending[k], lease, now)
  {
    var kept := Pruned(pending, now);
    FirstForIsFirst(kept, lease, 0);
    if Polled(pending, lease, now).1.Some? {
      var k := PrunedPosition(pending, now, FirstFor(kept, lease, 0).value);
      assert OpenTo(pending[k], lease, now);
    }
    if k :| 0 <= k < |pending| && OpenTo(pending[k], lease, now) {
      PrunedKeeps(pending, now, pending[k]);
      var i :| 0 <= i < |kept| && kept[i] == pending[k];
    }
  }

  /** It is the first of them in the queue, and it is marked as handed out. */
  lemma FirstOpenIsHandedOut(pending: seq<PendingContext>, lease: Lease, now: Instant) returns (k: nat)
    requires Polled(pending, lease, now).1.Some?
    ensures k < |pending| && OpenTo(pending[k], lease, now)
    ensures forall j :: 0 <= j < k ==> !OpenTo(pending[j], lease, now)
    ensures Polled(pending, lease, now).1.value == pending[k].(taken := true)
  {
    var kept := Pruned(pending, now);
    FirstForIsFirst(kept, lease, 0);
    var i := FirstFor(kept, lease, 0).value;
    k := PrunedPosition(pending, now, i);
    PrunedPrefix(pending, now, k);
    forall j | 0 <= j < k && now < pending[j].expiresAt ensures exists m :: 0 <= m < i && kept[m] == pending[j] {
      var m := EarlierIsKept(pending, now, k, j);
    }
  }

  lemma EarlierIsKept(pending: seq<PendingContext>, now: Instant, k: nat, j: nat) returns (m: nat)
    requires j < k <= |pending| && now < pending[j].expiresAt
    ensures m < |Pruned(pending[..k], now)| && Pruned(pending[..k], now)[m] == pending[j]
  {
    assert pending[j] in pending[..k];
    PrunedKeeps(pending[..k], now, pending[j]);
    m :| 0 <= m < |Pruned(pending[..k], now)| && Pruned(pending[..k], now)[m] == pending[j];
  }

  // ---------------------------------------------------------------- the order of the queue

  /** Where in the log the request was enqueued. */
  function EnqueuedAt(log: seq<Outcome>, id: RequestId): Option<nat> {
    TraceOf(log, id).enqueued
  }

  predicate Before(a: Option<nat>, b: Option<nat>) {
    a.Some? && b.Some? && a.value < b.value
  }

  /** The requests stand in the order in which they were enqueued. */
  ghost predicate InOrder(pending: seq<PendingContext>, log: seq<Outcome>) {
    forall i, j :: 0 <= i < j < |pending| ==> Before(EnqueuedAt(log, pending[i].id), EnqueuedAt(log, pending[j].id))
  }

  /** Two requests of the later queue stand in it as they did in the earlier one. */
  ghost predicate PairFollows(after: seq<PendingContext>, pending: seq<PendingContext>, i: nat, j: nat)
    requires i < j < |after|
  {
    exists k, l :: 0 <= k < l < |pending| && pending[k].id == after[i].id && pending[l].id == after[j].id
  }

  ghost predicate Follows(after: seq<PendingContext>, pending: seq<PendingContext>) {
    forall i, j :: 0 <= i < j < |after| ==> PairFollows(after, pending, i, j)
  }

  lemma PrunedFollows(pending: seq<PendingContext>, now: Instant)
    ensures Follows(Pruned(pending, now), pending)
  {
    var kept := Pruned(pending, now);
    forall i, j | 0 <= i < j < |kept| ensures PairFollows(kept, pending, i, j) {
      var k := PrunedPosition(pending, now, i);
      var l := PrunedPosition(pending, now, j);
      if l <= k {
        assert pending[..k][..l] == pending[..l];
        PrunedPrefix(pending[..k], now, l);
      }
    }
  }

  lemma ReplacedFollows(pending: seq<PendingContext>, i: nat, x: PendingContext)
    requires i < |pending| && x.id == pending[i].id
    ensures Follows(pending[i := x], pending)
  {
    var after := pending[i := x];
    forall a, b | 0 <= a < b < |after| ensures PairFollows(after, pending, a, b) {
      assert pending[a].id == after[a].id && pending[b].id == after[b].id;
    }
  }

  lemma FollowsTransitively(a: seq<PendingContext>, b: seq<PendingContext>, c: seq<PendingContext>)
    requires Follows(b, c) && |a| == |b| && forall i :: 0 <= i < |a| ==> a[i].id == b[i].id
    ensures Follows(a, c)
  {
    forall i, j | 0 <= i < j < |a| ensures PairFollows(a, c, i, j) {
      assert PairFollows(b, c, i, j);
    }
  }

  lemma PoppedFollows(pending: seq<PendingContext>, id: RequestId)
    ensures Follows(Popped(pending, id).0, pending)
  {
    var rest := Popped(pending, id).0;
    FindIsFirst(pending, id, 0);
    var at := Find(pending, id, 0);
    forall i, j | 0 <= i < j < |rest| ensures PairFollows(rest, pending, i, j) {
      var k := if at.Some? && i >= at.value then i + 1 else i;
      var l := if at.Some? && j >= at.value then j + 1 else j;
      assert pending[k] == rest[i] && pending[l] == rest[j];
    }
  }

  /** Whatever a step does to the queue, what remains keeps its order, and only an enqueued
      request is new, at the end. */
  ghost predicate KeepsTheOrder(pending: seq<PendingContext>, after: seq<PendingContext>, o: Outcome) {
    if o.Enqueued? then after != [] && after[|after| - 1] == o.request && Follows(after[..|after| - 1], pending)
    else Follows(after, pending)
  }

  lemma PolledFollows(pending: seq<PendingContext>, lease: Lease, now: Instant)
    ensures Follows(Polled(pending, lease, now).0, pending)
  {
    PrunedFollows(pending, now);
    FirstForIsFirst(Pruned(pending, now), lease, 0);
    FollowsTransitively(Polled(pending, lease, now).0, Pruned(pending, now), pending);
  }

  lemma CompletedFollows(
    c: Runtime, r: Registry, pending: seq<PendingContext>, token: Token, answer: CompletePayload, clock: Clock)
    ensures Follows(Completed(c, r, pending, token, answer, clock).1, pending)
  {
    if answer.id.Some? {
      var i := Find(pending, answer.id.value, 0);
      FindIsFirst(pending, answer.id.value, 0);
      if i.Some? {
        ReplacedFollows(pending, i.value,
          pending[i.value].(result := Normalized(answer.context, MAX_CONTEXT_CHARACTERS)));
      }
    }
    ReplacedNothing(pending);
  }

  lemma ReplacedNothing(pending: seq<PendingContext>)
    ensures Follows(pending, pending)
  {
    forall i, j | 0 <= i < j < |pending| ensures PairFollows(pending, pending, i, j) {
      var k, l := i, j;
      assert pending[k].id == pending[i].id && pending[l].id == pending[j].id;
    }
  }

  lemma StepKeepsTheOrder(c: Runtime, s: State, step: Step)
    ensures KeepsTheOrder(s.pending, Next(c, s, step).0.pending, Next(c, s, step).1)
  {
    ReplacedNothing(s.pending);
    match step
    case EnqueueRequest(t, clock) =>
      if t in s.threads && s.threads[t].Drafting? {
        PrunedFollows(s.pending, clock.wall);
        var after := Next(c, s, step).0.pending;
        assert after[..|after| - 1] == Pruned(s.pending, clock.wall);
      }
    case PollNext(t, clock) =>
      if t in s.threads && s.threads[t].Polling? { PolledFollows(s.pending, s.threads[t].lease, clock.wall); }
    case FinishRequest(t) => if t in s.threads && s.threads[t].Waiting? { PoppedFollows(s.pending, s.threads[t].id); }
    case CompleteRequest(token, answer, clock) => CompletedFollows(c, s.registry, s.pending, token, answer, clock);
    case _ =>
  }

  lemma OrderGoesOn(pending: seq<PendingContext>, after: seq<PendingContext>, log: seq<Outcome>, o: Outcome)
    requires InOrder(pending, log) && KeepsTheOrder(pending, after, o)
    requires o.Enqueued? ==> o.request.id !in Ids(pending)
    requires forall i :: 0 <= i < |pending| ==> Before(EnqueuedAt(log, pending[i].id), Some(|log|))
    requires o.Enqueued? ==> forall i :: 0 <= i < |after| - 1 ==> after[i].id in Ids(pending)
    ensures InOrder(after, log + [o])
  {
    assert (log + [o])[..|log|] == log;
    forall x: PendingContext | x in pending ensures EnqueuedAt(log + [o], x.id) == EnqueuedAt(log, x.id) {}
    var front := if o.Enqueued? then after[..|after| - 1] else after;
    forall i, j | 0 <= i < j < |after|
      ensures Before(EnqueuedAt(log + [o], after[i].id), EnqueuedAt(log + [o], after[j].id))
    {
      if j < |front| {
        assert PairFollows(front, pending, i, j);
        var k, l :| 0 <= k < l < |pending| && pending[k].id == front[i].id && pending[l].id == front[j].id;
        assert pending[k] in pending && pending[l] in pending;
      } else {
        var x :| x in pending && x.id == after[i].id;
        var k :| 0 <= k < |pending| && pending[k] == x;
        assert EnqueuedAt(log + [o], o.request.id) == Some(|log|);
      }
    }
  }

  lemma KeptIds(s: State, c: Runtime, step: Step)
    requires Next(c, s, step).1.Enqueued?
    ensures var after := Next(c, s, step).0.pending;
      forall i :: 0 <= i < |after| - 1 ==> after[i].id in Ids(s.pending)
  {
    var kept := Pruned(s.pending, step.clock.wall);
    forall i | 0 <= i < |kept| ensures kept[i].id in Ids(s.pending) {
      PrunedKeeps(s.pending, step.clock.wall, kept[i]);
    }
  }

  /** In every run the queue stands in the order in which its requests were enqueued. */
  lemma {:induction false} QueueIsInOrder(c: Runtime, steps: seq<Step>)
    ensures InOrder(After(c, steps).pending, Outcomes(c, steps))
  {
    if steps != [] {
      var n := |steps| - 1;
      var s, log := After(c, steps[..n]), Outcomes(c, steps[..n]);
      QueueIsInOrder(c, steps[..n]);
      QueueGoesOn(c, steps[..n], steps[n]);
    }
  }

  lemma QueueGoesOn(c: Runtime, steps: seq<Step>, step: Step)
    requires InOrder(After(c, steps).pending, Outcomes(c, steps))
    ensures var s := After(c, steps);
      InOrder(Next(c, s, step).0.pending, Outcomes(c, steps) + [Next(c, s, step).1])
  {
    var s, log := After(c, steps), Outcomes(c, steps);
    var (after, o) := Next(c, s, step);
    RunsAreDistinct(c, steps);
    StepShape(c, s, step);
    StepKeepsTheOrder(c, s, step);
    if o.Enqueued? { KeptIds(s, c, step); }
    forall i | 0 <= i < |s.pending| ensures Before(EnqueuedAt(log, s.pending[i].id), Some(|log|)) {
      EveryRunHasItsStories(c, steps, s.pending[i].id);
      assert Tells(log, TraceOf(log, s.pending[i].id), s.pending[i]);
    }
    OrderGoesOn(s.pending, after.pending, log, o);
  }

  /** In every run, the request handed out is the one enqueued first of all that are open to
      the lease. */
  lemma FirstEnqueuedIsHandedOut(c: Runtime, steps: seq<Step>, p: nat, y: PendingContext)
    requires p < |steps| && Outcomes(c, steps)[p].HandedOut? && steps[p].PollNext?
    requires y in After(c, steps[..p]).pending && OpenTo(y, Outcomes(c, steps)[p].lease, steps[p].clock.wall)
    ensures var o, log := Outcomes(c, steps)[p], Outcomes(c, steps[..p]);
      o.request.(taken := false) == y || Before(EnqueuedAt(log, o.request.id), EnqueuedAt(log, y.id))
  {
    OutcomeIsOfItsStep(c, steps, p);
    var s, lease := After(c, steps[..p]), Outcomes(c, steps)[p].lease;
    QueueIsInOrder(c, steps[..p]);
    var k := FirstOpenIsHandedOut(s.pending, lease, steps[p].clock.wall);
    var j :| 0 <= j < |s.pending| && s.pending[j] == y;
    assert s.pending[k].(taken := true).(taken := false) == s.pending[k];
  }

  // ---------------------------------------------------------------- supplying a context

  /** The answer repeats every binding of the request it names. */
  ghost predicate Repeats(answer: CompletePayload, x: PendingContext) {
    && answer.id == Some(x.id) && Reads(answer.scope, 256, Some(x.scope))
    && answer.host == Some(x.host) && answer.hostSession == Some(x.hostSession) && answer.hostTurn == Some(x.hostTurn)
  }

  /** A request takes a context if and only if it was handed out, is fresh and unanswered, the
      answer repeats its bindings and holds a text, and the caller holds the capability of a
      live session of the same manager session, host session and turn that covers its scope. */
  ghost predicate Takes(
    c: Runtime, r: Registry, x: PendingContext, token: Token, answer: CompletePayload, context: string, clock: Clock)
  {
    && x.taken && x.result.None? && clock.wall < x.expiresAt
    && Repeats(answer, x) && Reads(answer.context, 8000, Some(context))
    && r.capability == Some(token) && Admits(c, r, clock, x.scope, x.host, x.hostSession, x.hostTurn)
    && r.session.value.reference == x.manager
  }

  lemma TakenIsSupplied(
    c: Runtime, s: State, token: Token, answer: CompletePayload, clock: Clock, k: nat, context: string)
    requires Distinct(s) && k < |s.pending| && Takes(c, s.registry, s.pending[k], token, answer, context, clock)
    ensures var (after, o) := Next(c, s, CompleteRequest(token, answer, clock));
      && after.pending == s.pending[k := s.pending[k].(result := Some(context))]
      && o == Supplied(s.pending[k].(result := Some(context)), token, s.registry.session.value)
  {
    var x := s.pending[k];
    FindIsFirst(s.pending, x.id, 0);
    assert Find(s.pending, x.id, 0) == Some(k);
    TakesIffPassing(c, s.registry, x, token, answer, context, clock);
    TakenIsCompleted(c, s.registry, s.pending, token, answer, clock, k, context);
    FoundAgain(s.pending, x.id, k, x.(result := Some(context)));
  }

  /** What the checks of a completion come to. */
  predicate PassesChecks(
    c: Runtime, r: Registry, x: PendingContext, token: Token, answer: CompletePayload, context: string, clock: Clock)
  {
    var scope := Normalized(answer.scope, MAX_REFERENCE);
    && answer.id == Some(x.id) && x.result.None? && scope.Some? && BoundScope(x.host, scope.value).Some?
    && Normalized(answer.context, MAX_CONTEXT_CHARACTERS) == Some(context)
    && var granted :=
         Required(c, r, token, BoundScope(x.host, scope.value), Some(x.hostSession), Some(x.hostTurn), clock).1;
       granted.Ok? && granted.value == r.session.value && Bound(x, granted.value, answer, clock.wall)
  }

  lemma TakesIffPassing(
    c: Runtime, r: Registry, x: PendingContext, token: Token, answer: CompletePayload, context: string, clock: Clock)
    requires r.session.Some?
    ensures Takes(c, r, x, token, answer, context, clock) <==> PassesChecks(c, r, x, token, answer, context, clock)
  {
    NormalizedReads(answer.scope, 256, Some(x.scope));
    NormalizedReads(answer.context, 8000, Some(context));
    CoversAtIff(r.session.value, x.host, x.scope);
  }

  lemma TakenIsCompleted(
    c: Runtime, r: Registry, pending: seq<PendingContext>, token: Token, answer: CompletePayload, clock: Clock, k: nat,
    context: string)
    requires k < |pending| && Find(pending, pending[k].id, 0) == Some(k) && r.session.Some?
    requires PassesChecks(c, r, pending[k], token, answer, context, clock)
    ensures var (_, after, lease) := Completed(c, r, pending, token, answer, clock);
      after == pending[k := pending[k].(result := Some(context))] && lease == r.session
  {}

  /** And nothing else is supplied: a request that got a context was one that takes it. */
  lemma SuppliedWasTaken(c: Runtime, s: State, token: Token, answer: CompletePayload, clock: Clock)
    returns (k: nat, context: string)
    requires Distinct(s) && Next(c, s, CompleteRequest(token, answer, clock)).1.Supplied?
    ensures k < |s.pending| && Takes(c, s.registry, s.pending[k], token, answer, context, clock)
    ensures Next(c, s, CompleteRequest(token, answer, clock)).1.request == s.pending[k].(result := Some(context))
  {
    SuppliedByALiveHolder(c, s, token, answer, clock);
    FindIsFirst(s.pending, answer.id.value, 0);
    k := Find(s.pending, answer.id.value, 0).value;
    context := Normalized(answer.context, MAX_CONTEXT_CHARACTERS).value;
    var x := s.pending[k];
    FoundAgain(s.pending, answer.id.value, k, x.(result := Some(context)));
    TakesIffPassing(c, s.registry, x, token, answer, context, clock);
  }
}
