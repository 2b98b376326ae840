/** What governing the claims comes to, in terms of the evidence, the documents and the claims. */
module GovernanceEffects {
  import opened Enumeration
  import opened Schema
  import opened SemanticUnits
  import opened Claims
  import opened Governance

  // ---------------------------------------------------------------- which evidence is current

  /** Evidence of an older revision of a document that is still there. */
  predicate IsOld(w: World, e: Evidence) {
    e.source.kind == ElectedDocumentText && e.source.id in w.revisions && e.source.revision < w.revisions[e.source.id]
  }

  /** Evidence of a document that is gone. */
  predicate IsLost(w: World, e: Evidence) {
    e.source.kind == ElectedDocumentText && e.source.id !in w.revisions
  }

  /** The claim has evidence in a chat or in the newest revision of a document. */
  ghost predicate IsHeld(w: World, c: ClaimId) {
    && c in w.tables.claims
    && exists e :: e in w.tables.evidence && w.tables.evidence[e].claim == c
         && !IsOld(w, w.tables.evidence[e]) && !IsLost(w, w.tables.evidence[e])
  }

  lemma HeldIffCurrent(w: World, now: Instant, c: ClaimId)
    ensures c in CurrentClaims(w, TemporalStates(w, now)) <==> IsHeld(w, c)
  {
    var t := TemporalStates(w, now);
    forall e | e in w.tables.evidence
      ensures t[e].state == Current <==> !IsOld(w, w.tables.evidence[e]) && !IsLost(w, w.tables.evidence[e]) {}
  }

  // ---------------------------------------------------------------- which claims contradict

  /** The same statement about the same entities, once affirmed and once not. */
  predicate Opposed(l: Claim, r: Claim) {
    l.form == r.form && l.signature == r.signature && l.polarity != r.polarity
  }

  /** Both texts give a value, of one subject, and the values differ. */
  predicate ValuesDiffer(w: World, l: Claim, r: Claim) {
    match (w.subjectValue(l.text), w.subjectValue(r.text))
    case (Some((subject, value)), Some((subject', value'))) => subject == subject' && value != value'
    case _ => false
  }

  /** Two different held claims that are opposed or give different values. */
  ghost predicate InConflict(w: World, a: ClaimId, b: ClaimId) {
    && a != b && IsHeld(w, a) && IsHeld(w, b)
    && (Opposed(w.tables.claims[a], w.tables.claims[b]) || ValuesDiffer(w, w.tables.claims[a], w.tables.claims[b]))
  }

  ghost predicate InSomeConflict(w: World, c: ClaimId) {
    exists d :: InConflict(w, c, d)
  }

  /** A pair is recorded if and only if the claims are in conflict, in rank order: as opposing
      polarity when they are opposed, else as conflicting explicit value. */
  lemma PairIsRecordedIff(w: World, evaluated: Instant, marked: Instant, a: ClaimId, b: ClaimId)
    requires Lawful(w)
    ensures var relations := Governed(w, evaluated, marked).relations;
      && ((a, b) in relations <==> w.claimRank(a) < w.claimRank(b) && InConflict(w, a, b))
      && ((a, b) in relations ==>
            relations[(a, b)] ==
            if Opposed(w.tables.claims[a], w.tables.claims[b]) then OpposingPolarity else ConflictingExplicitValue)
  {
    var current := CurrentClaims(w, TemporalStates(w, evaluated));
    HeldIffCurrent(w, evaluated, a);
    HeldIffCurrent(w, evaluated, b);
    assert (a, b) in Relations(w, current) <==> Related(w, current, a, b);
  }

  /** Claims of one polarity whose texts give the same value are never recorded as a pair. */
  lemma AgreeingClaimsAreNoPair(w: World, evaluated: Instant, marked: Instant, a: ClaimId, b: ClaimId)
    requires Lawful(w) && a in w.tables.claims && b in w.tables.claims
    requires w.tables.claims[a].polarity == w.tables.claims[b].polarity
    requires w.subjectValue(w.tables.claims[a].text) == w.subjectValue(w.tables.claims[b].text)
    ensures (a, b) !in Governed(w, evaluated, marked).relations && (b, a) !in Governed(w, evaluated, marked).relations
  {
    PairIsRecordedIff(w, evaluated, marked, a, b);
    PairIsRecordedIff(w, evaluated, marked, b, a);
  }

  lemma DisputedIffInConflict(w: World, evaluated: Instant, marked: Instant, c: ClaimId)
    requires Lawful(w)
    ensures c in DisputedBy(Governed(w, evaluated, marked).relations) <==> InSomeConflict(w, c)
  {
    var relations := Governed(w, evaluated, marked).relations;
    if c in DisputedBy(relations) {
      var p :| p in relations && (p.0 == c || p.1 == c);
      PairIsRecordedIff(w, evaluated, marked, p.0, p.1);
      ConflictIsMutual(w, p.0, p.1);
      assert InConflict(w, c, if p.0 == c then p.1 else p.0);
    }
    if d :| InConflict(w, c, d) {
      ConflictIsMutual(w, c, d);
      PairIsRecordedIff(w, evaluated, marked, c, d);
      PairIsRecordedIff(w, evaluated, marked, d, c);
      assert (c, d) in relations || (d, c) in relations;
    }
  }

  lemma ConflictIsMutual(w: World, a: ClaimId, b: ClaimId)
    ensures InConflict(w, a, b) <==> InConflict(w, b, a)
  {}

  // ---------------------------------------------------------------- the state of the evidence

  /** Evidence of the revision the document has now. */
  predicate IsNewest(w: World, source: SourceKey, x: EvidenceId) {
    && source.id in w.revisions && x in w.tables.evidence
    && w.tables.evidence[x].source == SourceKey(source.kind, source.id, w.revisions[source.id])
  }

  /** The row of one piece of evidence after governing: superseded by the first evidence of the
      newest revision, until that revision came; unknown without its document; disputed while
      its claim is in conflict; else current. */
  ghost predicate RowFollows(w: World, e: Evidence, row: Temporal, evaluated: Instant, marked: Instant) {
    && row.observedAt == e.timestamp && row.validFrom == Some(e.timestamp)
    && row.state == (if IsOld(w, e) then Superseded else if IsLost(w, e) then Unknown
                     else if InSomeConflict(w, e.claim) then Disputed else Current)
    && row.updatedAt == (if row.state == Disputed then marked else evaluated)
    && row.validTo == (if IsOld(w, e) && (e.source.id, e.source.revision) in w.supersededAt
                       then Some(w.supersededAt[(e.source.id, e.source.revision)]) else None)
    && (if IsOld(w, e) && exists x :: IsNewest(w, e.source, x) then
          && row.supersededBy.Some? && IsNewest(w, e.source, row.supersededBy.value)
          && forall x :: IsNewest(w, e.source, x) ==> w.evidenceRank(row.supersededBy.value) <= w.evidenceRank(x)
        else row.supersededBy == None)
  }

  lemma EvaluatedRow(w: World, e: Evidence, now: Instant)
    ensures var row := TemporalOf(w, e, now);
      && row.observedAt == e.timestamp && row.validFrom == Some(e.timestamp) && row.updatedAt == now
      && row.state == (if IsOld(w, e) then Superseded else if IsLost(w, e) then Unknown else Current)
      && row.validTo == (if IsOld(w, e) && (e.source.id, e.source.revision) in w.supersededAt
                         then Some(w.supersededAt[(e.source.id, e.source.revision)]) else None)
  {}

  lemma EvaluatedSuperseder(w: World, e: Evidence, now: Instant)
    ensures var heir := TemporalOf(w, e, now).supersededBy;
      if IsOld(w, e) && exists x :: IsNewest(w, e.source, x) then
        && heir.Some? && IsNewest(w, e.source, heir.value)
        && forall x :: IsNewest(w, e.source, x) ==> w.evidenceRank(heir.value) <= w.evidenceRank(x)
      else heir == None
  {
    if IsOld(w, e) {
      forall x ensures x in AtCurrentRevision(w, e) <==> IsNewest(w, e.source, x) {}
      if SupersederOf(w, e).Some? {
        assert Smallest(AtCurrentRevision(w, e), w.evidenceRank, SupersederOf(w, e).value);
      }
    }
  }

  /** Governing evaluates every evidence row, and no other. */
  lemma EvidenceIsEvaluated(w: World, evaluated: Instant, marked: Instant)
    requires Lawful(w)
    ensures var temporal := Governed(w, evaluated, marked).temporal;
      && temporal.Keys == w.tables.evidence.Keys
      && forall e :: e in temporal ==> RowFollows(w, w.tables.evidence[e], temporal[e], evaluated, marked)
  {
    var temporal := Governed(w, evaluated, marked).temporal;
    forall e | e in w.tables.evidence
      ensures RowFollows(w, w.tables.evidence[e], temporal[e], evaluated, marked)
    {
      EvidenceRow(w, evaluated, marked, e);
    }
  }

  lemma EvidenceRow(w: World, evaluated: Instant, marked: Instant, e: EvidenceId)
    requires Lawful(w) && e in w.tables.evidence
    ensures RowFollows(w, w.tables.evidence[e], Governed(w, evaluated, marked).temporal[e], evaluated, marked)
  {
    var row := w.tables.evidence[e];
    EvaluatedRow(w, row, evaluated);
    EvaluatedSuperseder(w, row, evaluated);
    DisputedIffInConflict(w, evaluated, marked, row.claim);
  }

  // ---------------------------------------------------------------- the standing of the claims

  /** Evidence that speaks for the claim: of the newest revision of its document or of a chat. */
  predicate Supports(w: World, c: ClaimId, e: EvidenceId) {
    && e in w.tables.evidence && w.tables.evidence[e].claim == c && w.tables.evidence[e].unit in w.units
    && !IsOld(w, w.tables.evidence[e]) && !IsLost(w, w.tables.evidence[e])
  }

  /** The documents that support the claim. */
  function Documents(w: World, c: ClaimId): set<string> {
    set e | e in w.tables.evidence && Supports(w, c, e) && w.tables.evidence[e].source.kind == ElectedDocumentText
      :: w.tables.evidence[e].source.id
  }

  /** The chats that support the claim. */
  function Chats(w: World, c: ClaimId): set<string> {
    set e | e in w.tables.evidence && Supports(w, c, e) && w.tables.evidence[e].source.kind == ChatMessage
            && w.units[w.tables.evidence[e].unit].chat.Some?
      :: w.units[w.tables.evidence[e].unit].chat.value
  }

  lemma {:induction false} ImageSize<T, U>(a: set<T>, f: T -> U, b: set<U>)
    requires forall x, y :: x in a && y in a && f(x) == f(y) ==> x == y
    requires b == set x | x in a :: f(x)
    ensures |b| == |a|
  {
    if a == {} {
      assert b == {};
    } else {
      var x :| x in a;
      ImageSize(a - {x}, f, b - {f(x)});
    }
  }

  function Origins(documents: set<string>, chats: set<string>): set<Origin> {
    (set d | d in documents :: FromDocument(d)) + (set c | c in chats :: FromChat(c))
  }

  lemma OriginsSize(documents: set<string>, chats: set<string>)
    ensures |Origins(documents, chats)| == |documents| + |chats|
  {
    var left, right := set d | d in documents :: FromDocument(d), set c | c in chats :: FromChat(c);
    ImageSize(documents, d => FromDocument(d), left);
    ImageSize(chats, c => FromChat(c), right);
    assert left !! right;
    assert |left + right| == |left| + |right|;
  }

  lemma CountsIff(w: World, now: Instant, c: ClaimId, e: EvidenceId)
    ensures Counts(w, TemporalStates(w, now), c, e) <==>
      && Supports(w, c, e)
      && (w.tables.evidence[e].source.kind == ElectedDocumentText || w.units[w.tables.evidence[e].unit].chat.Some?)
  {}

  lemma OriginsAre(w: World, now: Instant, c: ClaimId)
    ensures OriginsOf(w, TemporalStates(w, now), c) == Origins(Documents(w, c), Chats(w, c))
  {
    var origins := OriginsOf(w, TemporalStates(w, now), c);
    forall e | e in w.tables.evidence
      ensures Counts(w, TemporalStates(w, now), c, e) <==>
        && Supports(w, c, e)
        && (w.tables.evidence[e].source.kind == ElectedDocumentText || w.units[w.tables.evidence[e].unit].chat.Some?)
    {
      CountsIff(w, now, c, e);
    }
    forall o | o in origins ensures o in Origins(Documents(w, c), Chats(w, c)) {
      var e := OriginHasRow(w, TemporalStates(w, now), c, o);
    }
    forall o | o in Origins(Documents(w, c), Chats(w, c)) ensures o in origins {
      OriginIsCounted(w, now, c, o);
    }
  }

  lemma OriginIsCounted(w: World, now: Instant, c: ClaimId, o: Origin)
    requires o in Origins(Documents(w, c), Chats(w, c))
    ensures o in OriginsOf(w, TemporalStates(w, now), c)
  {
    var e: EvidenceId;
    if o.FromDocument? {
      e :| e in w.tables.evidence && Supports(w, c, e) && w.tables.evidence[e].source.kind == ElectedDocumentText
        && w.tables.evidence[e].source.id == o.id;
    } else {
      e :| e in w.tables.evidence && Supports(w, c, e) && w.tables.evidence[e].source.kind == ChatMessage
        && w.units[w.tables.evidence[e].unit].chat == Some(o.id);
    }
    CountsIff(w, now, c, e);
  }

  /** Governing gives every claim its sources, counted by documents and chats, and its standing:
      disputed while in conflict, else corroborated by two sources, single with one. */
  lemma ClaimsAreVerified(w: World, evaluated: Instant, marked: Instant, c: ClaimId)
    requires Lawful(w)
    ensures var verification := Governed(w, evaluated, marked).verification;
      && (c in verification <==> c in w.tables.claims)
      && (c in verification ==>
            && verification[c].sources == |Documents(w, c)| + |Chats(w, c)|
            && verification[c].standing ==
               if InSomeConflict(w, c) then DisputedClaim
               else if verification[c].sources >= 2 then Corroborated
               else if verification[c].sources == 1 then SingleSource else Unverified)
  {
    var before := TemporalStates(w, evaluated);
    DisputedIffInConflict(w, evaluated, marked, c);
    MarkingKeepsOrigins(w, before, DisputedBy(Relations(w, CurrentClaims(w, before))), marked, c);
    OriginsAre(w, evaluated, c);
    OriginsSize(Documents(w, c), Chats(w, c));
  }
}
