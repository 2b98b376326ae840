/** Verification of signed leases and the ledger of consumed capabilities
    (`managed_access/capability.py`).

    An HMAC is a constructor of the secret and the claims it covers. */
module LeaseVerification {
  import opened Schema
  import opened ManagedAuthority

  const LEASE_SCHEMA_VERSION := "managed-library-lease.v1"
  const LEASE_PURPOSE := "managed_library"
  const LEASE_ALGORITHM := "hmac-sha256"
  const MAX_LEASE := 300 * SECOND
  const MAX_FUTURE_SKEW := 30 * SECOND
  const MAX_REPLAY_ENTRIES := 4096

  /** Claims as decoded: `None` is a value of the wrong kind or a time that does not parse. */
  datatype LeaseClaims = LeaseClaims(
    schema: string, purpose: string, manager: Option<string>, hostSession: Option<string>, turn: Option<string>,
    scope: Option<string>, issuedAt: Option<Instant>, expiresAt: Option<Instant>, capabilityId: Option<string>,
    build: string, instance: string)

  datatype Signature = Hmac(secret: string, claims: LeaseClaims) | OtherText(text: string)

  datatype Assertion = Malformed | Envelope(claims: LeaseClaims, algorithm: string, signature: Signature)

  datatype Rejection =
    | InvalidEnvelope | InvalidAuthentication | PairingUnavailable | AuthenticationFailed
    | InvalidTime | InvalidOrdering
    | NotYetValid | LeaseExpired | LifetimeTooLong | UnsupportedSchema | InvalidPurpose
    | BuildMismatch | RuntimeInstanceMismatch
    | InvalidText | InvalidSession | Replayed | LedgerFull

  datatype Verdict = Accepted(lease: Lease) | Rejected(reason: Rejection)

  type Ledger = map<string, Instant>

  predicate ShortText(value: Option<string>, maximum: nat) {
    value.Some? && 0 < |value.value| <= maximum
  }

  predicate CapabilityCharacter(c: char) {
    'A' <= c <= 'Z' || 'a' <= c <= 'z' || '0' <= c <= '9' || c == '_' || c == '-'
  }

  predicate CapabilityName(s: string) {
    32 <= |s| <= 128 && forall i :: 0 <= i < |s| ==> CapabilityCharacter(s[i])
  }

  // ---------------------------------------------------------------- the ledger

  function Unexpired(entries: Ledger, now: Instant): Ledger {
    map id | id in entries && entries[id] > now :: entries[id]
  }

  /** `_LeaseReplayState.consume`: fails closed instead of evicting. */
  function Consumed(
    entries: Ledger, maximum: nat, id: string, expiresAt: Instant, now: Instant): (Ledger, Option<Rejection>) {
    var kept := Unexpired(entries, now);
    if id in kept then (kept, Some(Replayed))
    else if |kept| >= maximum then (kept, Some(LedgerFull))
    else (kept[id := expiresAt], None)
  }

  // ---------------------------------------------------------------- the checks before it

  /** The first failing check, in the order of `verify`. */
  function Objection(
    a: Assertion, build: string, instance: string, secret: Option<string>, now: Instant): Option<Rejection> {
    if a.Malformed? then Some(InvalidEnvelope)
    else if a.algorithm != LEASE_ALGORITHM then Some(InvalidAuthentication)
    else if secret.None? || |secret.value| < 32 then Some(PairingUnavailable)
    else if a.signature != Hmac(secret.value, a.claims) then Some(AuthenticationFailed)
    else
      var l := a.claims;
      if l.issuedAt.None? || l.expiresAt.None? then Some(InvalidTime)
      else if l.expiresAt.value <= l.issuedAt.value then Some(InvalidOrdering)
      else if l.issuedAt.value > now + MAX_FUTURE_SKEW then Some(NotYetValid)
      else if now >= l.expiresAt.value then Some(LeaseExpired)
      else if l.expiresAt.value - l.issuedAt.value > MAX_LEASE then Some(LifetimeTooLong)
      else if l.schema != LEASE_SCHEMA_VERSION then Some(UnsupportedSchema)
      else if l.purpose != LEASE_PURPOSE then Some(InvalidPurpose)
      else if l.build != build then Some(BuildMismatch)
      else if l.instance != instance then Some(RuntimeInstanceMismatch)
      else if !ShortText(l.capabilityId, 128) || !CapabilityName(l.capabilityId.value) then Some(InvalidText)
      else if !ShortText(l.manager, 256) || !ShortText(l.scope, 256) || !ShortText(l.hostSession, 256)
        || !ShortText(l.turn, 256)
      then Some(InvalidText)
      else if |build| != 64 || !ShortText(Some(instance), 256) then Some(InvalidSession)
      else None
  }

  function LeaseOf(l: LeaseClaims): Lease
    requires l.manager.Some? && l.scope.Some? && l.hostSession.Some? && l.turn.Some? && l.capabilityId.Some?
      && l.expiresAt.Some?
  {
    Lease(l.manager.value, l.build, l.instance, [l.scope.value], l.hostSession.value, l.turn.value,
      l.capabilityId.value, l.expiresAt.value)
  }

  function Verified(
    entries: Ledger, maximum: nat, a: Assertion, build: string, instance: string, secret: Option<string>, now: Instant)
    : (Ledger, Verdict)
  {
    var objection := Objection(a, build, instance, secret, now);
    if objection.Some? then (entries, Rejected(objection.value))
    else
      var (after, refusal) := Consumed(entries, maximum, a.claims.capabilityId.value, a.claims.expiresAt.value, now);
      (after, if refusal.Some? then Rejected(refusal.value) else Accepted(LeaseOf(a.claims)))
  }

  class AuthenticatedManagedAssertionVerifier {
    const instance: string
    const maximum: nat
    var entries: Ledger

    constructor (instance: string, maximum: nat)
      ensures this.instance == instance && this.maximum == maximum && entries == map[]
    {
      this.instance, this.maximum, entries := instance, maximum, map[];
    }

    /** `_LeaseReplayState.consume`. */
    method Consume(id: string, expiresAt: Instant, now: Instant) returns (refusal: Option<Rejection>)
      modifies this
      ensures (entries, refusal) == Consumed(old(entries), maximum, id, expiresAt, now)
    {
      var keys := entries.Keys;
      while keys != {}
        invariant forall k :: k in keys ==> k in old(entries)
        invariant forall k :: k in entries <==> k in old(entries) && (k in keys || old(entries)[k] > now)
        invariant forall k :: k in entries ==> entries[k] == old(entries)[k]
        decreases keys
      {
        var key :| key in keys;
        if key in entries && entries[key] <= now { entries := entries - {key}; }
        keys := keys - {key};
      }
      assert entries == Unexpired(old(entries), now);
      if id in entries { return Some(Replayed); }
      if |entries| >= maximum { return Some(LedgerFull); }
      entries := entries[id := expiresAt];
      refusal := None;
    }

    method Verify(a: Assertion, build: string, secret: Option<string>, now: Instant) returns (v: Verdict)
      modifies this
      ensures (entries, v) == Verified(old(entries), maximum, a, build, instance, secret, now)
    {
      if a.Malformed? { return Rejected(InvalidEnvelope); }
      if a.algorithm != LEASE_ALGORITHM { return Rejected(InvalidAuthentication); }
      if secret.None? || |secret.value| < 32 { return Rejected(PairingUnavailable); }
      var l := a.claims;
      if a.signature != Hmac(secret.value, l) { return Rejected(AuthenticationFailed); }
      if l.issuedAt.None? || l.expiresAt.None? { return Rejected(InvalidTime); }
      var issued, expires := l.issuedAt.value, l.expiresAt.value;
      if expires <= issued { return Rejected(InvalidOrdering); }
      if issued > now + MAX_FUTURE_SKEW { return Rejected(NotYetValid); }
      if now >= expires { return Rejected(LeaseExpired); }
      if expires - issued > MAX_LEASE { return Rejected(LifetimeTooLong); }
      if l.schema != LEASE_SCHEMA_VERSION { return Rejected(UnsupportedSchema); }
      if l.purpose != LEASE_PURPOSE { return Rejected(InvalidPurpose); }
      if l.build != build { return Rejected(BuildMismatch); }
      if l.instance != instance { return Rejected(RuntimeInstanceMismatch); }
      if !ShortText(l.capabilityId, 128) { return Rejected(InvalidText); }
      if !CapabilityName(l.capabilityId.value) { return Rejected(InvalidText); }
      if !ShortText(l.manager, 256) || !ShortText(l.scope, 256) { return Rejected(InvalidText); }
      if !ShortText(l.hostSession, 256) || !ShortText(l.turn, 256) { return Rejected(InvalidText); }
      if |build| != 64 || !ShortText(Some(instance), 256) { return Rejected(InvalidSession); }
      var refusal := Consume(l.capabilityId.value, expires, now);
      v := if refusal.Some? then Rejected(refusal.value) else Accepted(LeaseOf(l));
    }
  }

  // ---------------------------------------------------------------- runs

  datatype Presentation = Presentation(assertion: Assertion, build: string, secret: Option<string>, now: Instant)

  function LedgerAfter(instance: string, maximum: nat, calls: seq<Presentation>): Ledger {
    if calls == [] then map[]
    else
      var n := |calls| - 1;
      Verified(LedgerAfter(instance, maximum, calls[..n]), maximum, calls[n].assertion, calls[n].build, instance,
        calls[n].secret, calls[n].now).0
  }

  function VerdictAt(instance: string, maximum: nat, calls: seq<Presentation>, k: nat): Verdict
    requires k < |calls|
  {
    Verified(LedgerAfter(instance, maximum, calls[..k]), maximum, calls[k].assertion, calls[k].build, instance,
      calls[k].secret, calls[k].now).1
  }

  predicate Forward(calls: seq<Presentation>) {
    forall i, j :: 0 <= i < j < |calls| ==> calls[i].now <= calls[j].now
  }

  lemma UnexpiredIsNoLarger(entries: Ledger, now: Instant)
    ensures |Unexpired(entries, now)| <= |entries|
  {
    assert Unexpired(entries, now).Keys <= entries.Keys;
    SmallerSet(Unexpired(entries, now).Keys, entries.Keys);
  }

  lemma SmallerSet<T>(a: set<T>, b: set<T>)
    requires a <= b
    ensures |a| <= |b|
  {
    assert b == a + (b - a);
  }

  /** The ledger never holds more than its maximum. */
  lemma {:induction false} LedgerIsBounded(instance: string, maximum: nat, calls: seq<Presentation>)
    ensures |LedgerAfter(instance, maximum, calls)| <= maximum
  {
    if calls != [] {
      var n := |calls| - 1;
      LedgerIsBounded(instance, maximum, calls[..n]);
      UnexpiredIsNoLarger(LedgerAfter(instance, maximum, calls[..n]), calls[n].now);
    }
  }

  /** A consumed capability stays in the ledger until a call at or after its expiry. */
  lemma {:induction false} ConsumedStaysListed(
    instance: string, maximum: nat, calls: seq<Presentation>, i: nat, id: string, expiry: Instant)
    requires i < |calls| && VerdictAt(instance, maximum, calls, i).Accepted?
    requires calls[i].assertion.claims.capabilityId == Some(id) && calls[i].assertion.claims.expiresAt == Some(expiry)
    requires forall m :: i < m < |calls| ==> calls[m].now < expiry
    ensures var l := LedgerAfter(instance, maximum, calls); id in l && l[id] == expiry
  {
    var n := |calls| - 1;
    if i < n {
      assert calls[..n][..i] == calls[..i];
      ConsumedStaysListed(instance, maximum, calls[..n], i, id, expiry);
    }
  }

  /** With a clock that never goes back, a capability id is accepted again only after the
      lease that used it has expired. */
  lemma AcceptedAgainOnlyAfterExpiry(instance: string, maximum: nat, calls: seq<Presentation>, i: nat, j: nat)
    requires i < j < |calls| && Forward(calls)
    requires VerdictAt(instance, maximum, calls, i).Accepted? && VerdictAt(instance, maximum, calls, j).Accepted?
    requires VerdictAt(instance, maximum, calls, i).lease.capabilityId
      == VerdictAt(instance, maximum, calls, j).lease.capabilityId
    ensures calls[j].now >= VerdictAt(instance, maximum, calls, i).lease.expiresAt
  {
    var lease := VerdictAt(instance, maximum, calls, i).lease;
    if calls[j].now < lease.expiresAt {
      assert calls[..j][..i] == calls[..i];
      ConsumedStaysListed(instance, maximum, calls[..j], i, lease.capabilityId, lease.expiresAt);
      assert false;
    }
  }

  /** So one signed lease is accepted at most once, wherever it is presented. */
  lemma LeaseIsAcceptedOnce(instance: string, maximum: nat, calls: seq<Presentation>, i: nat, j: nat)
    requires i < j < |calls| && Forward(calls) && !calls[i].assertion.Malformed? && !calls[j].assertion.Malformed?
    requires calls[i].assertion.claims == calls[j].assertion.claims
    ensures !(VerdictAt(instance, maximum, calls, i).Accepted? && VerdictAt(instance, maximum, calls, j).Accepted?)
  {
    if VerdictAt(instance, maximum, calls, i).Accepted? && VerdictAt(instance, maximum, calls, j).Accepted? {
      AcceptedAgainOnlyAfterExpiry(instance, maximum, calls, i, j);
      assert false;
    }
  }

  /** Signed with the secret of the paired manager. */
  predicate Authentic(a: Assertion, secret: Option<string>) {
    && a.Envelope? && a.algorithm == LEASE_ALGORITHM
    && secret.Some? && |secret.value| >= 32 && a.signature == Hmac(secret.value, a.claims)
  }

  /** Issued at most the skew ahead of the clock, for at most the longest lifetime, and not
      expired. */
  predicate Timely(l: LeaseClaims, now: Instant) {
    && l.issuedAt.Some? && l.expiresAt.Some?
    && l.issuedAt.value < l.expiresAt.value <= l.issuedAt.value + MAX_LEASE
    && l.issuedAt.value - MAX_FUTURE_SKEW <= now < l.expiresAt.value
  }

  /** Made for this use, by its schema, and for this runtime. */
  predicate MadeFor(l: LeaseClaims, build: string, instance: string) {
    && l.schema == LEASE_SCHEMA_VERSION && l.purpose == LEASE_PURPOSE && l.build == build && l.instance == instance
    && |build| == 64 && 0 < |instance| <= 256
  }

  /** Every reference is a short text, and the capability id is spelled like one. */
  predicate Legible(l: LeaseClaims) {
    && l.capabilityId.Some? && CapabilityName(l.capabilityId.value)
    && ShortText(l.manager, 256) && ShortText(l.scope, 256) && ShortText(l.hostSession, 256) && ShortText(l.turn, 256)
  }

  /** A lease is accepted if and only if it is signed by the paired manager, timely, made for
      this runtime, legible, and new to the ledger, which has room. */
  lemma AcceptedIff(
    entries: Ledger, maximum: nat, a: Assertion, build: string, instance: string, secret: Option<string>, now: Instant)
    ensures Verified(entries, maximum, a, build, instance, secret, now).1.Accepted? <==>
            && Authentic(a, secret) && Timely(a.claims, now) && MadeFor(a.claims, build, instance) && Legible(a.claims)
            && (a.claims.capabilityId.value in entries ==> entries[a.claims.capabilityId.value] <= now)
            && |Unexpired(entries, now)| < maximum
  {
    UnobjectionableIff(a, build, instance, secret, now);
  }

  /** No check fails, in whatever order, exactly when all of that holds. */
  lemma UnobjectionableIff(a: Assertion, build: string, instance: string, secret: Option<string>, now: Instant)
    ensures Objection(a, build, instance, secret, now).None? <==>
            Authentic(a, secret) && Timely(a.claims, now) && MadeFor(a.claims, build, instance) && Legible(a.claims)
  {}

  /** An accepted lease carries the claims: the manager session, the one scope, the host session
      and turn, the capability and the expiry that were signed, for this build and instance. */
  lemma AcceptedLeaseCarries(
    entries: Ledger, maximum: nat, a: Assertion, build: string, instance: string, secret: Option<string>, now: Instant)
    requires Verified(entries, maximum, a, build, instance, secret, now).1.Accepted?
    ensures a.Envelope?
    ensures var lease, l := Verified(entries, maximum, a, build, instance, secret, now).1.lease, a.claims;
      && Some(lease.reference) == l.manager && |lease.scopes| == 1 && Some(lease.scopes[0]) == l.scope
      && Some(lease.hostSession) == l.hostSession && Some(lease.hostTurn) == l.turn
      && Some(lease.capabilityId) == l.capabilityId && Some(lease.expiresAt) == l.expiresAt
      && lease.build == build && lease.instance == instance
  {
    UnobjectionableIff(a, build, instance, secret, now);
  }

  /** The ledger is only looked at once nothing else is wrong.  It then loses what has expired,
      and gains exactly an accepted capability until its lease expires. */
  lemma LedgerFollows(
    entries: Ledger, maximum: nat, a: Assertion, build: string, instance: string, secret: Option<string>, now: Instant)
    ensures var (after, v) := Verified(entries, maximum, a, build, instance, secret, now);
      if !(Authentic(a, secret) && Timely(a.claims, now) && MadeFor(a.claims, build, instance) && Legible(a.claims))
      then after == entries
      else forall id ::
        (id in after <==> (id in entries && now < entries[id]) || (v.Accepted? && Some(id) == a.claims.capabilityId))
        && (id in after ==>
              after[id] == if v.Accepted? && Some(id) == a.claims.capabilityId then a.claims.expiresAt.value
                           else entries[id])
  {
    UnobjectionableIff(a, build, instance, secret, now);
  }

  /** A rejection names what is wrong: first the authentication, then the times, then the use and
      the runtime, then the texts, then a replay, then a full ledger. */
  lemma RejectionIsExplained(
    entries: Ledger, maximum: nat, a: Assertion, build: string, instance: string, secret: Option<string>, now: Instant)
    requires Verified(entries, maximum, a, build, instance, secret, now).1.Rejected?
    ensures var reason := Verified(entries, maximum, a, build, instance, secret, now).1.reason;
      if !Authentic(a, secret) then
        reason == if a.Malformed? then InvalidEnvelope
                  else if a.algorithm != LEASE_ALGORITHM then InvalidAuthentication
                  else if secret.None? || |secret.value| < 32 then PairingUnavailable else AuthenticationFailed
      else if !Timely(a.claims, now) then
        && (reason == InvalidTime <==> a.claims.issuedAt.None? || a.claims.expiresAt.None?)
        && (reason != InvalidTime ==>
              var issued, expires := a.claims.issuedAt.value, a.claims.expiresAt.value;
              reason == if expires <= issued then InvalidOrdering
                        else if now + MAX_FUTURE_SKEW < issued then NotYetValid
                        else if expires <= now then LeaseExpired else LifetimeTooLong)
      else if MadeFor(a.claims, build, instance) && Legible(a.claims) then
        reason == if a.claims.capabilityId.value in entries && now < entries[a.claims.capabilityId.value] then Replayed
                  else LedgerFull
      else
        reason == if a.claims.schema != LEASE_SCHEMA_VERSION then UnsupportedSchema
                  else if a.claims.purpose != LEASE_PURPOSE then InvalidPurpose
                  else if a.claims.build != build then BuildMismatch
                  else if a.claims.instance != instance then RuntimeInstanceMismatch
                  else if !Legible(a.claims) then InvalidText else InvalidSession
  {
    UnobjectionableIff(a, build, instance, secret, now);
  }

  /** The hypothesis on the clock is needed: when another lease is presented after the first
      has expired and the clock is then set back, the first is accepted again. */
  lemma ClockSetBackAcceptsTwice(
    instance: string, maximum: nat, build: string, secret: Option<string>, a: Assertion, b: Assertion, early: Instant,
    late: Instant)
    requires Objection(a, build, instance, secret, early).None? && Objection(b, build, instance, secret, late).None?
    requires a.claims.expiresAt.value <= late && a.claims.capabilityId != b.claims.capabilityId && maximum >= 2
    ensures var calls := [Presentation(a, build, secret, early), Presentation(b, build, secret, late),
      Presentation(a, build, secret, early)];
      VerdictAt(instance, maximum, calls, 0).Accepted? && VerdictAt(instance, maximum, calls, 2).Accepted?
  {
    var calls := [Presentation(a, build, secret, early), Presentation(b, build, secret, late),
      Presentation(a, build, secret, early)];
    assert calls[..2][..1] == calls[..1] && calls[..1][..0] == [];
    var x, y := a.claims.capabilityId.value, b.claims.capabilityId.value;
    FirstConsumed(map[], maximum, x, a.claims.expiresAt.value, early);
    assert LedgerAfter(instance, maximum, calls[..1]) == map[x := a.claims.expiresAt.value];
    FirstConsumed(map[x := a.claims.expiresAt.value], maximum, y, b.claims.expiresAt.value, late);
    assert LedgerAfter(instance, maximum, calls[..2]) == map[y := b.claims.expiresAt.value];
    assert |Unexpired(map[y := b.claims.expiresAt.value], early)| <= 1 by {
      UnexpiredIsNoLarger(map[y := b.claims.expiresAt.value], early);
    }
  }

  lemma FirstConsumed(entries: Ledger, maximum: nat, id: string, expiresAt: Instant, now: Instant)
    requires maximum > 0 && forall k :: k in entries ==> entries[k] <= now
    ensures Consumed(entries, maximum, id, expiresAt, now) == (map[id := expiresAt], None)
  {
    assert Unexpired(entries, now) == map[];
  }
}
