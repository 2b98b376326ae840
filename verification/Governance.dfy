/** Temporal state, contradictions and verification of claims (`temporal/`,
    `contradictions/`, `verification/`).

    Identifiers are compared by the rank of their digests; reading a subject and a value out
    of a sentence is a deterministic function carried by the `World`. */
module Governance {
  import opened Enumeration
  import opened Schema
  import opened SemanticUnits
  import opened Claims

  datatype State = Current | Superseded | ExpiredOrInvalid | Disputed | Unknown

  datatype Temporal = Temporal(
    state: State, observedAt: Instant, validFrom: Option<Instant>, validTo: Option<Instant>,
    supersededBy: Option<EvidenceId>, updatedAt: Instant)

  type TemporalTable = map<EvidenceId, Temporal>

  datatype RuleName = OpposingPolarity | ConflictingExplicitValue

  datatype Contradiction = Contradiction(a: ClaimId, b: ClaimId, rule: RuleName)

  type RelationTable = map<(ClaimId, ClaimId), RuleName>

  datatype Standing = Unverified | SingleSource | Corroborated | DisputedClaim

  datatype Verification = Verification(standing: Standing, sources: nat)

  type VerificationTable = map<ClaimId, Verification>

  /** A document or a chat, as sources are told apart. */
  datatype Origin = FromDocument(id: string) | FromChat(id: string)

  /** The tables the governance projections read. */
  datatype World = World(
    tables: Tables, units: UnitTable, revisions: map<string, nat>, supersededAt: map<(string, nat), Instant>,
    claimRank: ClaimId -> nat, evidenceRank: EvidenceId -> nat, subjectValue: string -> Option<(string, string)>)

  /** Distinct identifiers have distinct ranks, and references resolve. */
  ghost predicate Lawful(w: World) {
    && (forall a, b :: w.claimRank(a) == w.claimRank(b) ==> a == b)
    && (forall a, b :: w.evidenceRank(a) == w.evidenceRank(b) ==> a == b)
    && (forall e :: e in w.tables.evidence ==> w.tables.evidence[e].claim in w.tables.claims)
    && (forall c :: c in w.tables.claims ==> w.tables.claims[c].id == c)
  }

  // ---------------------------------------------------------------- temporal state

  function CurrentRevision(w: World, e: Evidence): Option<nat> {
    if e.source.kind == ElectedDocumentText && e.source.id in w.revisions then Some(w.revisions[e.source.id]) else None
  }

  /** Evidence from the revision the document now has. */
  function AtCurrentRevision(w: World, e: Evidence): set<EvidenceId> {
    var current := CurrentRevision(w, e);
    if current.None? then {}
    else set x | x in w.tables.evidence && w.tables.evidence[x].source == e.source.(revision := current.value)
  }

  ghost function SupersederOf(w: World, e: Evidence): Option<EvidenceId> {
    var candidates := AtCurrentRevision(w, e);
    if candidates == {} then None
    else
      SmallestExists(candidates, w.evidenceRank);
      var x :| Smallest(candidates, w.evidenceRank, x);
      Some(x)
  }

  ghost function TemporalOf(w: World, e: Evidence, now: Instant): Temporal {
    var current := CurrentRevision(w, e);
    if e.source.kind == ChatMessage then Temporal(Current, e.timestamp, Some(e.timestamp), None, None, now)
    else if current.None? then Temporal(Unknown, e.timestamp, Some(e.timestamp), None, None, now)
    else if e.source.revision < current.value then
      var key := (e.source.id, e.source.revision);
      Temporal(Superseded, e.timestamp, Some(e.timestamp),
               if key in w.supersededAt then Some(w.supersededAt[key]) else None, SupersederOf(w, e), now)
    else Temporal(Current, e.timestamp, Some(e.timestamp), None, None, now)
  }

  ghost function TemporalStates(w: World, now: Instant): TemporalTable {
    map e | e in w.tables.evidence :: TemporalOf(w, w.tables.evidence[e], now)
  }

  /** What supersedes a row is current evidence of the same document, the first by rank. */
  lemma SupersederIsCurrent(w: World, e: EvidenceId, now: Instant)
    requires e in w.tables.evidence && TemporalStates(w, now)[e].supersededBy.Some?
    ensures var x := TemporalStates(w, now)[e].supersededBy.value;
      && x in w.tables.evidence && TemporalStates(w, now)[x].state == Current
      && w.tables.evidence[x].source.id == w.tables.evidence[e].source.id
      && w.tables.evidence[e].source.revision < w.tables.evidence[x].source.revision
      && (forall y :: y in w.tables.evidence && w.tables.evidence[y].source == w.tables.evidence[x].source
            ==> w.evidenceRank(x) <= w.evidenceRank(y))
  {
    var row := w.tables.evidence[e];
    var x := SupersederOf(w, row).value;
    assert Smallest(AtCurrentRevision(w, row), w.evidenceRank, x);
    forall y | y in w.tables.evidence && w.tables.evidence[y].source == w.tables.evidence[x].source
      ensures w.evidenceRank(x) <= w.evidenceRank(y)
    {
      assert y in AtCurrentRevision(w, row);
    }
  }

  // ---------------------------------------------------------------- contradictions

  /** Claims with current evidence. */
  function CurrentClaims(w: World, t: TemporalTable): set<ClaimId> {
    set e | e in w.tables.evidence && e in t && t[e].state == Current && w.tables.evidence[e].claim in w.tables.claims
      :: w.tables.evidence[e].claim
  }

  function RuleOf(w: World, l: Claim, r: Claim): Option<RuleName> {
    if l.form == r.form && l.signature == r.signature && l.polarity != r.polarity then Some(OpposingPolarity)
    else
      var a, b := w.subjectValue(l.text), w.subjectValue(r.text);
      if a.Some? && b.Some? && a.value.0 == b.value.0 && a.value.1 != b.value.1 then Some(ConflictingExplicitValue)
        else None
  }

  /** The rules read a pair the same way from either side. */
  lemma RuleIsSymmetric(w: World, l: Claim, r: Claim)
    ensures RuleOf(w, l, r) == RuleOf(w, r, l)
  {}

  predicate Related(w: World, claims: set<ClaimId>, a: ClaimId, b: ClaimId) {
    && a in claims && b in claims && a in w.tables.claims && b in w.tables.claims
    && w.claimRank(a) < w.claimRank(b) && RuleOf(w, w.tables.claims[a], w.tables.claims[b]).Some?
  }

  function Relations(w: World, claims: set<ClaimId>): RelationTable {
    map a, b | a in claims && b in claims && Related(w, claims, a, b)
      :: (a, b) := RuleOf(w, w.tables.claims[a], w.tables.claims[b]).value
  }

  function DisputedBy(r: RelationTable): set<ClaimId> {
    (set p | p in r :: p.0) + (set p | p in r :: p.1)
  }

  /** `mark_disputed`. */
  function Marked(w: World, t: TemporalTable, claims: set<ClaimId>, now: Instant): TemporalTable {
    map e | e in t :: if t[e].state == Current && e in w.tables.evidence && w.tables.evidence[e].claim in claims
                      then t[e].(state := Disputed, updatedAt := now) else t[e]
  }

  // ---------------------------------------------------------------- verification

  function OriginOf(w: World, e: Evidence): Option<Origin> {
    if e.source.kind == ElectedDocumentText then Some(FromDocument(e.source.id))
    else if e.unit in w.units && w.units[e.unit].chat.Some? then Some(FromChat(w.units[e.unit].chat.value))
    else None
  }

  predicate Counts(w: World, t: TemporalTable, c: ClaimId, e: EvidenceId) {
    && e in w.tables.evidence && w.tables.evidence[e].claim == c && w.tables.evidence[e].unit in w.units
    && e in t && (t[e].state == Current || t[e].state == Disputed) && OriginOf(w, w.tables.evidence[e]).Some?
  }

  function OriginsOf(w: World, t: TemporalTable, c: ClaimId): set<Origin> {
    set e | e in w.tables.evidence && Counts(w, t, c, e) :: OriginOf(w, w.tables.evidence[e]).value
  }

  function StandingOf(disputed: bool, sources: nat): Standing {
    if disputed then DisputedClaim else if sources >= 2 then Corroborated else if sources == 1 then SingleSource
      else Unverified
  }

  function VerificationOf(w: World, t: TemporalTable, disputed: set<ClaimId>, c: ClaimId): Verification {
    Verification(StandingOf(c in disputed, |OriginsOf(w, t, c)|), |OriginsOf(w, t, c)|)
  }

  function Verifications(w: World, t: TemporalTable, disputed: set<ClaimId>): VerificationTable {
    map c | c in w.tables.claims :: VerificationOf(w, t, disputed, c)
  }

  // ---------------------------------------------------------------- the whole projection

  datatype Projection = Projection(temporal: TemporalTable, relations: RelationTable, verification: VerificationTable)

  ghost function Governed(w: World, evaluated: Instant, marked: Instant): Projection {
    var before := TemporalStates(w, evaluated);
    var relations := Relations(w, CurrentClaims(w, before));
    var after := Marked(w, before, DisputedBy(relations), marked);
    Projection(after, relations, Verifications(w, after, DisputedBy(relations)))
  }

  /** A pair of claims is recorded once, in rank order, exactly when both have current
      evidence and contradict each other. */
  lemma EachPairOnce(w: World, evaluated: Instant, marked: Instant, a: ClaimId, b: ClaimId)
    requires Lawful(w) && a != b
    ensures var p := Governed(w, evaluated, marked); var current := CurrentClaims(w, TemporalStates(w, evaluated));
      && !((a, b) in p.relations && (b, a) in p.relations)
      && ((a, b) in p.relations || (b, a) in p.relations <==>
            a in current && b in current && RuleOf(w, w.tables.claims[a], w.tables.claims[b]).Some?)
  {
    var current := CurrentClaims(w, TemporalStates(w, evaluated));
    assert (a, b) in Relations(w, current) <==> Related(w, current, a, b);
    assert (b, a) in Relations(w, current) <==> Related(w, current, b, a);
    if a in current && b in current { RuleIsSymmetric(w, w.tables.claims[a], w.tables.claims[b]); }
  }

  lemma DisputedAreCurrent(w: World, t: TemporalTable, c: ClaimId) returns (e: EvidenceId)
    requires c in DisputedBy(Relations(w, CurrentClaims(w, t)))
    ensures e in w.tables.evidence && e in t && t[e].state == Current && w.tables.evidence[e].claim == c
      && c in w.tables.claims
  {
    var r := Relations(w, CurrentClaims(w, t));
    var p :| p in r && (p.0 == c || p.1 == c);
    assert Related(w, CurrentClaims(w, t), p.0, p.1);
    e :| e in w.tables.evidence && e in t && t[e].state == Current && w.tables.evidence[e].claim == c;
  }

  /** A claim is verified as disputed if and only if it has disputed evidence. */
  lemma DisputedIffItsEvidenceIs(w: World, evaluated: Instant, marked: Instant, c: ClaimId)
    requires c in w.tables.claims
    ensures var p := Governed(w, evaluated, marked);
      p.verification[c].standing == DisputedClaim <==>
      exists e :: e in w.tables.evidence && w.tables.evidence[e].claim == c && p.temporal[e].state == Disputed
  {
    var before, p := TemporalStates(w, evaluated), Governed(w, evaluated, marked);
    if c in DisputedBy(p.relations) {
      var e := DisputedAreCurrent(w, before, c);
      assert p.temporal[e].state == Disputed;
    }
  }

  lemma MarkedLeavesNoneCurrent(w: World, t: TemporalTable, claims: set<ClaimId>, now: Instant, e: EvidenceId)
    requires e in t && e in w.tables.evidence && w.tables.evidence[e].claim in claims
    ensures Marked(w, t, claims, now)[e].state != Current
  {}

  /** No disputed claim keeps current evidence. */
  lemma NoCurrentEvidenceInDispute(w: World, evaluated: Instant, marked: Instant, e: EvidenceId)
    requires e in w.tables.evidence && w.tables.evidence[e].claim in w.tables.claims
    requires Governed(w, evaluated, marked).verification[w.tables.evidence[e].claim].standing == DisputedClaim
    ensures Governed(w, evaluated, marked).temporal[e].state != Current
  {
    var before, c := TemporalStates(w, evaluated), w.tables.evidence[e].claim;
    var disputed := DisputedBy(Relations(w, CurrentClaims(w, before)));
    DisputedIsInDispute(w, Marked(w, before, disputed, marked), disputed, c);
    MarkedLeavesNoneCurrent(w, before, disputed, marked, e);
  }

  lemma DisputedIsInDispute(w: World, t: TemporalTable, disputed: set<ClaimId>, c: ClaimId)
    requires c in w.tables.claims
    ensures Verifications(w, t, disputed)[c].standing == DisputedClaim <==> c in disputed
  {}

  /** Marking turns exactly the current evidence of disputed claims; superseded and unknown
      evidence, and every other column, stay as evaluated. */
  lemma MarkingOnlyTurnsCurrent(w: World, evaluated: Instant, marked: Instant, e: EvidenceId)
    requires e in w.tables.evidence
    ensures var before, after := TemporalStates(w, evaluated)[e], Governed(w, evaluated, marked).temporal[e];
      && (before.state != Current ==> after == before)
      && (after.state != before.state <==>
         before.state == Current && w.tables.evidence[e].claim in DisputedBy(Governed(w, evaluated, marked).relations))
      && after.(state := before.state, updatedAt := before.updatedAt) == before
  {
    var before := TemporalStates(w, evaluated);
    MarkedRow(w, before, DisputedBy(Relations(w, CurrentClaims(w, before))), marked, e);
  }

  lemma MarkedRow(w: World, t: TemporalTable, claims: set<ClaimId>, now: Instant, e: EvidenceId)
    requires e in w.tables.evidence && e in t
    ensures var after := Marked(w, t, claims, now)[e];
      && (t[e].state != Current ==> after == t[e])
      && (after.state != t[e].state <==> t[e].state == Current && w.tables.evidence[e].claim in claims)
      && after.(state := t[e].state, updatedAt := t[e].updatedAt) == t[e]
  {}

  /** Marking leaves the sources of every claim as they were. */
  lemma MarkingKeepsOrigins(w: World, t: TemporalTable, claims: set<ClaimId>, now: Instant, c: ClaimId)
    ensures OriginsOf(w, Marked(w, t, claims, now), c) == OriginsOf(w, t, c)
  {
    var m := Marked(w, t, claims, now);
    forall e | e in w.tables.evidence ensures Counts(w, m, c, e) <==> Counts(w, t, c, e) {}
  }

  /** Two counted rows come from different documents or chats. */
  ghost predicate TwoSources(w: World, t: TemporalTable, c: ClaimId) {
    exists e, f :: CountedApart(w, t, c, e, f)
  }

  predicate CountedApart(w: World, t: TemporalTable, c: ClaimId, e: EvidenceId, f: EvidenceId) {
    && Counts(w, t, c, e) && Counts(w, t, c, f)
    && OriginOf(w, w.tables.evidence[e]) != OriginOf(w, w.tables.evidence[f])
  }

  lemma OriginHasRow(w: World, t: TemporalTable, c: ClaimId, o: Origin) returns (e: EvidenceId)
    requires o in OriginsOf(w, t, c)
    ensures Counts(w, t, c, e) && OriginOf(w, w.tables.evidence[e]) == Some(o)
  {
    e :| e in w.tables.evidence && Counts(w, t, c, e) && OriginOf(w, w.tables.evidence[e]).value == o;
  }

  lemma TwoSourcesIff(w: World, t: TemporalTable, c: ClaimId)
    ensures |OriginsOf(w, t, c)| >= 2 <==> TwoSources(w, t, c)
  {
    var origins := OriginsOf(w, t, c);
    if |origins| >= 2 {
      var x :| x in origins;
      assert |origins - {x}| == |origins| - 1;
      var y :| y in origins - {x};
      var e := OriginHasRow(w, t, c, x);
      var f := OriginHasRow(w, t, c, y);
      assert CountedApart(w, t, c, e, f);
    }
    if e, f :| CountedApart(w, t, c, e, f) {
      var x, y := OriginOf(w, w.tables.evidence[e]).value, OriginOf(w, w.tables.evidence[f]).value;
      assert origins == {x, y} + (origins - {x, y});
    }
  }

  /** Two independent sources corroborate: an undisputed claim is corroborated if and only if
      two of its current evidence rows come from different documents or chats. */
  lemma CorroboratedIff(w: World, evaluated: Instant, marked: Instant, c: ClaimId)
    requires c in w.tables.claims
    ensures var v := Governed(w, evaluated, marked).verification[c];
      v.standing == Corroborated <==> v.standing != DisputedClaim && TwoSources(w, TemporalStates(w, evaluated), c)
  {
    var before := TemporalStates(w, evaluated);
    var disputed := DisputedBy(Relations(w, CurrentClaims(w, before)));
    MarkingKeepsOrigins(w, before, disputed, marked, c);
    TwoSourcesIff(w, before, c);
    CorroboratedByCount(w, Marked(w, before, disputed, marked), disputed, c);
    DisputedIsInDispute(w, Marked(w, before, disputed, marked), disputed, c);
  }

  lemma CorroboratedByCount(w: World, t: TemporalTable, disputed: set<ClaimId>, c: ClaimId)
    requires c in w.tables.claims
    ensures Verifications(w, t, disputed)[c].standing == Corroborated <==> c !in disputed && |OriginsOf(w, t, c)| >= 2
  {}

  /** Evidence kept only in older revisions verifies nothing. */
  lemma SupersededClaimIsUnverified(w: World, evaluated: Instant, marked: Instant, c: ClaimId)
    requires c in w.tables.claims
    requires forall e :: e in w.tables.evidence && w.tables.evidence[e].claim == c ==>
      TemporalStates(w, evaluated)[e].state != Current
    ensures Governed(w, evaluated, marked).verification[c] == Verification(Unverified, 0)
  {
    var before := TemporalStates(w, evaluated);
    if c in DisputedBy(Relations(w, CurrentClaims(w, before))) {
      var e := DisputedAreCurrent(w, before, c);
      assert false;
    }
    MarkingKeepsOrigins(w, before, DisputedBy(Relations(w, CurrentClaims(w, before))), marked, c);
    assert OriginsOf(w, before, c) == {};
  }

  ghost predicate SameButTime(a: TemporalTable, b: TemporalTable) {
    a.Keys == b.Keys && forall e :: e in a ==> a[e].(updatedAt := 0) == b[e].(updatedAt := 0)
  }

  lemma OnlyStatesCount(w: World, a: TemporalTable, b: TemporalTable)
    requires SameButTime(a, b)
    ensures CurrentClaims(w, a) == CurrentClaims(w, b)
    ensures forall c :: OriginsOf(w, a, c) == OriginsOf(w, b, c)
  {
    forall e | e in a ensures a[e].state == b[e].state {
      assert a[e].(updatedAt := 0).state == b[e].(updatedAt := 0).state;
    }
    forall c ensures OriginsOf(w, a, c) == OriginsOf(w, b, c) {
      forall e | e in w.tables.evidence ensures Counts(w, a, c, e) <==> Counts(w, b, c, e) {}
    }
  }

  lemma MarkedAlike(w: World, a: TemporalTable, b: TemporalTable, claims: set<ClaimId>, m1: Instant, m2: Instant)
    requires SameButTime(a, b)
    ensures SameButTime(Marked(w, a, claims, m1), Marked(w, b, claims, m2))
  {
    forall e | e in a ensures Marked(w, a, claims, m1)[e].(updatedAt := 0)
      == Marked(w, b, claims, m2)[e].(updatedAt := 0) {
      assert a[e].(updatedAt := 0).state == b[e].(updatedAt := 0).state;
      assert a[e].(updatedAt := 0).(state := Disputed) == b[e].(updatedAt := 0).(state := Disputed);
    }
  }

  lemma VerifiedAlike(w: World, a: TemporalTable, b: TemporalTable, disputed: set<ClaimId>)
    requires SameButTime(a, b)
    ensures Verifications(w, a, disputed) == Verifications(w, b, disputed)
  {
    OnlyStatesCount(w, a, b);
  }

  lemma EvaluatedAlike(w: World, e1: Instant, e2: Instant)
    ensures SameButTime(TemporalStates(w, e1), TemporalStates(w, e2))
  {}

  /** Governing again over the same tables changes only the time of the last update. */
  lemma GoverningAgain(w: World, e1: Instant, m1: Instant, e2: Instant, m2: Instant)
    ensures Governed(w, e1, m1).relations == Governed(w, e2, m2).relations
    ensures Governed(w, e1, m1).verification == Governed(w, e2, m2).verification
    ensures SameButTime(Governed(w, e1, m1).temporal, Governed(w, e2, m2).temporal)
  {
    var b1, b2 := TemporalStates(w, e1), TemporalStates(w, e2);
    EvaluatedAlike(w, e1, e2);
    OnlyStatesCount(w, b1, b2);
    var disputed := DisputedBy(Relations(w, CurrentClaims(w, b1)));
    MarkedAlike(w, b1, b2, disputed, m1, m2);
    VerifiedAlike(w, Marked(w, b1, disputed, m1), Marked(w, b2, disputed, m2), disputed);
  }

  // ---------------------------------------------------------------- the repositories

  class GovernanceDatabase {
    var temporal: TemporalTable
    var relations: RelationTable
    var verification: VerificationTable

    constructor ()
      ensures View() == Projection(map[], map[], map[])
    {
      temporal, relations, verification := map[], map[], map[];
    }

    function View(): Projection
      reads this
    {
      Projection(temporal, relations, verification)
    }
  }

  method FirstAtCurrentRevision(w: World, e: Evidence) returns (first: Option<EvidenceId>)
    requires Lawful(w)
    ensures first == SupersederOf(w, e)
  {
    var candidates := AtCurrentRevision(w, e);
    var rows := Ordered(candidates, w.evidenceRank);
    if |rows| == 0 {
      assert candidates == {};
      return None;
    }
    first := Some(rows[0]);
    assert rows[0] in candidates;
    ghost var x := SupersederOf(w, e).value;
    assert Smallest(candidates, w.evidenceRank, x) && x in rows;
  }

  /** `TemporalEvaluator.evaluate`. */
  method EvaluateTemporal(w: World, now: Instant) returns (result: seq<(EvidenceId, Temporal)>)
    requires Lawful(w)
    ensures forall k :: 0 <= k < |result| ==>
              result[k].0 in w.tables.evidence && result[k].1 == TemporalOf(w, w.tables.evidence[result[k].0], now)
    ensures forall e :: e in w.tables.evidence ==> exists k :: 0 <= k < |result| && result[k].0 == e
  {
    var rows := Ordered(w.tables.evidence.Keys, w.evidenceRank);
    result := [];
    for i := 0 to |rows|
      invariant |result| == i && forall k :: 0 <= k < i ==>
                  result[k].0 == rows[k] && result[k].1 == TemporalOf(w, w.tables.evidence[rows[k]], now)
    {
      var row := w.tables.evidence[rows[i]];
      var state, validTo, supersededBy := Current, None, None;
      var current := CurrentRevision(w, row);
      if row.source.kind == ChatMessage {
        state := Current;
      } else if current.None? {
        state := Unknown;
      } else if row.source.revision < current.value {
        state := Superseded;
        var key := (row.source.id, row.source.revision);
        validTo := if key in w.supersededAt then Some(w.supersededAt[key]) else None;
        supersededBy := FirstAtCurrentRevision(w, row);
      }
      result := result + [(rows[i], Temporal(state, row.timestamp, Some(row.timestamp), validTo, supersededBy, now))];
    }
  }

  /** `TemporalRepository.rebuild`. */
  method RebuildTemporal(db: GovernanceDatabase, w: World, now: Instant)
    requires Lawful(w)
    modifies db`temporal
    ensures db.temporal == TemporalStates(w, now)
  {
    var expected := EvaluateTemporal(w, now);
    var ids: set<EvidenceId> := {};
    for i := 0 to |expected|
      invariant forall e :: e in ids <==> exists k :: 0 <= k < i && expected[k].0 == e
      invariant forall e :: e in ids ==> e in db.temporal && db.temporal[e] == TemporalOf(w, w.tables.evidence[e], now)
      invariant forall e :: e in ids ==> e in w.tables.evidence
    {
      db.temporal := db.temporal[expected[i].0 := expected[i].1];
      ids := ids + {expected[i].0};
    }
    db.temporal := map e | e in db.temporal && e in ids :: db.temporal[e];
  }

  method MarkDisputed(db: GovernanceDatabase, w: World, claims: set<ClaimId>, now: Instant)
    modifies db`temporal
    ensures db.temporal == Marked(w, old(db.temporal), claims, now)
  {
    if claims == {} { return; }
    db.temporal := map e | e in db.temporal ::
      if db.temporal[e].state == Current && e in w.tables.evidence && w.tables.evidence[e].claim in claims
      then db.temporal[e].(state := Disputed, updatedAt := now) else db.temporal[e];
  }

  // ---------------------------------------------------------------- detection

  function ReportOf(w: World, left: Claim, right: Claim): seq<Contradiction> {
    var rule := RuleOf(w, left, right);
    if rule.Some? then [Contradiction(left.id, right.id, rule.value)] else []
  }

  /** The reports of row `i` against the rows after it and before `j`. */
  function ReportsOfRow(w: World, rows: seq<Claim>, i: nat, j: nat): seq<Contradiction>
    requires i < |rows| && j <= |rows|
  {
    if j <= i + 1 then [] else ReportsOfRow(w, rows, i, j - 1) + ReportOf(w, rows[i], rows[j - 1])
  }

  function ReportsBefore(w: World, rows: seq<Claim>, i: nat): seq<Contradiction>
    requires i <= |rows|
  {
    if i == 0 then [] else ReportsBefore(w, rows, i - 1) + ReportsOfRow(w, rows, i - 1, |rows|)
  }

  /** One pair of the nested loops. */
  method ComparePair(w: World, left: Claim, right: Claim) returns (found: seq<Contradiction>)
    requires w.claimRank(left.id) < w.claimRank(right.id)
    ensures found == ReportOf(w, left, right)
  {
    var leftId, rightId := left.id, right.id;
    if w.claimRank(rightId) < w.claimRank(leftId) { leftId, rightId := rightId, leftId; }
    if left.form == right.form && left.signature == right.signature && left.polarity != right.polarity {
      return [Contradiction(leftId, rightId, OpposingPolarity)];
    }
    var leftValue, rightValue := w.subjectValue(left.text), w.subjectValue(right.text);
    if leftValue.Some? && rightValue.Some? && leftValue.value.0 == rightValue.value.0
      && leftValue.value.1 != rightValue.value.1 {
      return [Contradiction(leftId, rightId, ConflictingExplicitValue)];
    }
    found := [];
  }

  /** The inner loop of `detect`. */
  method DetectForRow(w: World, rows: seq<Claim>, i: nat) returns (found: seq<Contradiction>)
    requires InRankOrder(w, rows) && i < |rows|
    ensures found == ReportsOfRow(w, rows, i, |rows|)
  {
    found := [];
    for j := i + 1 to |rows|
      invariant found == ReportsOfRow(w, rows, i, j)
    {
      var reported := ComparePair(w, rows[i], rows[j]);
      found := found + reported;
    }
  }

  /** `ContradictionDetector.detect`, over the rows of its query. */
  method DetectContradictions(w: World, rows: seq<Claim>) returns (found: seq<Contradiction>)
    requires InRankOrder(w, rows)
    ensures found == ReportsBefore(w, rows, |rows|)
  {
    found := [];
    for i := 0 to |rows|
      invariant found == ReportsBefore(w, rows, i)
    {
      var reported := DetectForRow(w, rows, i);
      found := found + reported;
    }
  }

  predicate InRankOrder(w: World, rows: seq<Claim>) {
    forall i, j :: 0 <= i < j < |rows| ==> w.claimRank(rows[i].id) < w.claimRank(rows[j].id)
  }

  /** The claims its query selects, in rank order. */
  method CurrentRows(db: GovernanceDatabase, w: World) returns (rows: seq<Claim>)
    requires Lawful(w)
    ensures InRankOrder(w, rows)
    ensures forall i :: 0 <= i < |rows| ==>
      rows[i].id in CurrentClaims(w, db.temporal) && rows[i] == w.tables.claims[rows[i].id]
    ensures forall c :: c in CurrentClaims(w, db.temporal) ==> exists i :: 0 <= i < |rows| && rows[i].id == c
  {
    var ids := Ordered(CurrentClaims(w, db.temporal), w.claimRank);
    rows := seq(|ids|, i requires 0 <= i < |ids| => w.tables.claims[ids[i]]);
    forall c | c in CurrentClaims(w, db.temporal) ensures exists i :: 0 <= i < |rows| && rows[i].id == c {
      var i :| 0 <= i < |ids| && ids[i] == c;
      assert rows[i].id == c;
    }
  }

  predicate KeyedBy(c: Contradiction, p: (ClaimId, ClaimId)) {
    (c.a, c.b) == p
  }

  lemma OneMoreDisputed(r: RelationTable, key: (ClaimId, ClaimId), rule: RuleName)
    ensures DisputedBy(r[key := rule]) == DisputedBy(r) + {key.0, key.1}
  {
    assert r[key := rule].Keys == r.Keys + {key};
    forall c ensures c in DisputedBy(r[key := rule]) <==> c in DisputedBy(r) + {key.0, key.1} {
      if c == key.0 || c == key.1 { assert key in r[key := rule]; }
    }
  }

  function Inserted(found: seq<Contradiction>): RelationTable {
    if found == [] then map[]
    else
      var c := found[|found| - 1];
      Inserted(found[..|found| - 1])[(c.a, c.b) := c.rule]
  }

  predicate DistinctPairs(found: seq<Contradiction>) {
    forall k, l :: 0 <= k < l < |found| ==> !KeyedBy(found[k], (found[l].a, found[l].b))
  }

  lemma {:induction false} InsertedKeys(found: seq<Contradiction>)
    ensures forall p :: p in Inserted(found) <==> exists k :: 0 <= k < |found| && KeyedBy(found[k], p)
  {
    if found != [] {
      var n := |found| - 1;
      InsertedKeys(found[..n]);
      forall p ensures p in Inserted(found) <==> exists k :: 0 <= k < |found| && KeyedBy(found[k], p) {
        if p in Inserted(found[..n]) {
          var k :| 0 <= k < n && KeyedBy(found[..n][k], p);
          assert KeyedBy(found[k], p);
        } else if p == (found[n].a, found[n].b) {
          assert KeyedBy(found[n], p);
        }
        if k :| 0 <= k < |found| && KeyedBy(found[k], p) {
          assert k < n ==> KeyedBy(found[..n][k], p);
        }
      }
    }
  }

  lemma {:induction false} InsertedRules(found: seq<Contradiction>)
    requires DistinctPairs(found)
    ensures |Inserted(found)| == |found|
    ensures forall k :: 0 <= k < |found| ==>
      (found[k].a, found[k].b) in Inserted(found) && Inserted(found)[(found[k].a, found[k].b)] == found[k].rule
  {
    if found != [] {
      var n := |found| - 1;
      InsertedRules(found[..n]);
      InsertedKeys(found[..n]);
      forall k | 0 <= k < n ensures (found[k].a, found[k].b) != (found[n].a, found[n].b) {
        assert !KeyedBy(found[k], (found[n].a, found[n].b));
      }
    }
  }

  /** Refills the table; fails if an insert meets the primary key or the check on the order
      of the pair. */
  method StoreRelations(
    db: GovernanceDatabase, w: World, found: seq<Contradiction>)
    returns (ok: bool, disputed: set<ClaimId>)
    requires DistinctPairs(found)
    modifies db`relations
    ensures ok <==> forall k :: 0 <= k < |found| ==> w.claimRank(found[k].a) < w.claimRank(found[k].b)
    ensures db.relations == Inserted(found) && disputed == DisputedBy(db.relations)
  {
    ok, disputed := true, {};
    db.relations := map[];
    for i := 0 to |found|
      invariant ok <==> forall k :: 0 <= k < i ==> w.claimRank(found[k].a) < w.claimRank(found[k].b)
      invariant disputed == DisputedBy(db.relations) && db.relations == Inserted(found[..i])
    {
      var key := (found[i].a, found[i].b);
      assert found[..i + 1][..i] == found[..i];
      NewPair(found, i);
      OneMoreDisputed(db.relations, key, found[i].rule);
      ok := ok && key !in db.relations && w.claimRank(key.0) < w.claimRank(key.1);
      db.relations := db.relations[key := found[i].rule];
      disputed := disputed + {key.0, key.1};
    }
    assert found[..|found|] == found;
  }

  lemma NewPair(found: seq<Contradiction>, i: nat)
    requires DistinctPairs(found) && i < |found|
    ensures (found[i].a, found[i].b) !in Inserted(found[..i])
  {
    InsertedKeys(found[..i]);
  }

  /** Each related pair is found once, with its rule, and nothing else is. */
  ghost predicate Finds(w: World, claims: set<ClaimId>, found: seq<Contradiction>) {
    && DistinctPairs(found)
    && (forall k :: 0 <= k < |found| ==>
          Related(w, claims, found[k].a, found[k].b) && RuleOf(w, w.tables.claims[found[k].a],
            w.tables.claims[found[k].b]) == Some(found[k].rule))
    && (forall a, b :: Related(w, claims, a, b) ==> exists k :: 0 <= k < |found| && KeyedBy(found[k], (a, b)))
  }

  /** A report of row `i` against some row after it and before `j`. */
  ghost predicate Reports(w: World, rows: seq<Claim>, i: nat, j: nat, c: Contradiction)
    requires i < |rows| && j <= |rows|
  {
    exists q :: i < q < j && c.a == rows[i].id && c.b == rows[q].id && RuleOf(w, rows[i], rows[q]) == Some(c.rule)
  }

  predicate DistinctIds(rows: seq<Claim>) {
    forall i, j :: 0 <= i < j < |rows| ==> rows[i].id != rows[j].id
  }

  lemma {:induction false} RowReports(w: World, rows: seq<Claim>, i: nat, j: nat)
    requires i < |rows| && j <= |rows| && DistinctIds(rows)
    ensures forall c :: c in ReportsOfRow(w, rows, i, j) ==> Reports(w, rows, i, j, c)
    ensures forall q :: i < q < j && RuleOf(w, rows[i], rows[q]).Some? ==>
              Contradiction(rows[i].id, rows[q].id, RuleOf(w, rows[i], rows[q]).value) in ReportsOfRow(w, rows, i, j)
  {
    if j > i + 1 {
      RowReports(w, rows, i, j - 1);
      forall c | c in ReportsOfRow(w, rows, i, j - 1) ensures Reports(w, rows, i, j, c) {
        var q :| i < q < j - 1 && c.a == rows[i].id && c.b == rows[q].id && RuleOf(w, rows[i], rows[q]) == Some(c.rule);
      }
    }
  }

  lemma {:induction false} RowReportsOnce(w: World, rows: seq<Claim>, i: nat, j: nat)
    requires i < |rows| && j <= |rows| && DistinctIds(rows)
    ensures DistinctPairs(ReportsOfRow(w, rows, i, j))
  {
    if j > i + 1 {
      var before := ReportsOfRow(w, rows, i, j - 1);
      RowReportsOnce(w, rows, i, j - 1);
      forall k | 0 <= k < |before| ensures before[k].b != rows[j - 1].id {
        LaterRowDiffers(w, rows, i, j - 1, before[k]);
      }
    }
  }

  lemma LaterRowDiffers(w: World, rows: seq<Claim>, i: nat, j: nat, c: Contradiction)
    requires i < j < |rows| && DistinctIds(rows) && c in ReportsOfRow(w, rows, i, j)
    ensures c.b != rows[j].id
  {
    RowReports(w, rows, i, j);
    var q :| i < q < j && c.a == rows[i].id && c.b == rows[q].id;
    assert rows[q].id != rows[j].id;
  }

  lemma {:induction false} ReportComes(w: World, rows: seq<Claim>, i: nat, c: Contradiction) returns (p: nat)
    requires i <= |rows| && DistinctIds(rows) && c in ReportsBefore(w, rows, i)
    ensures p < i && Reports(w, rows, p, |rows|, c)
  {
    if c in ReportsBefore(w, rows, i - 1) {
      p := ReportComes(w, rows, i - 1, c);
    } else {
      RowReports(w, rows, i - 1, |rows|);
      p := i - 1;
    }
  }

  lemma InEither<T>(a: seq<T>, b: seq<T>, x: T)
    ensures x in a + b <==> x in a || x in b
  {}

  lemma {:induction false} PairIsReported(w: World, rows: seq<Claim>, i: nat, p: nat, q: nat)
    requires p < i <= |rows| && p < q < |rows| && DistinctIds(rows) && RuleOf(w, rows[p], rows[q]).Some?
    ensures Contradiction(rows[p].id, rows[q].id, RuleOf(w, rows[p], rows[q]).value) in ReportsBefore(w, rows, i)
  {
    var c := Contradiction(rows[p].id, rows[q].id, RuleOf(w, rows[p], rows[q]).value);
    if p < i - 1 {
      PairIsReported(w, rows, i - 1, p, q);
    } else {
      RowReports(w, rows, p, |rows|);
    }
    InEither(ReportsBefore(w, rows, i - 1), ReportsOfRow(w, rows, i - 1, |rows|), c);
  }

  lemma EarlierRowsDiffer(w: World, rows: seq<Claim>, i: nat, c: Contradiction, d: Contradiction)
    requires i < |rows| && DistinctIds(rows) && c in ReportsBefore(w, rows, i) && d in ReportsOfRow(w, rows, i, |rows|)
    ensures c.a != d.a
  {
    var p := ReportComes(w, rows, i, c);
    RowReports(w, rows, i, |rows|);
    assert rows[p].id != rows[i].id;
  }

  predicate NoCommonFirst(left: seq<Contradiction>, right: seq<Contradiction>) {
    forall k, l :: 0 <= k < |left| && 0 <= l < |right| ==> left[k].a != right[l].a
  }

  lemma NoSharedRow(w: World, rows: seq<Claim>, i: nat)
    requires i < |rows| && DistinctIds(rows)
    ensures NoCommonFirst(ReportsBefore(w, rows, i), ReportsOfRow(w, rows, i, |rows|))
  {
    var before, row := ReportsBefore(w, rows, i), ReportsOfRow(w, rows, i, |rows|);
    forall k, l | 0 <= k < |before| && 0 <= l < |row| ensures before[k].a != row[l].a {
      EarlierRowsDiffer(w, rows, i, before[k], row[l]);
    }
  }

  lemma {:induction false} NoPairTwice(w: World, rows: seq<Claim>, i: nat)
    requires i <= |rows| && DistinctIds(rows)
    ensures DistinctPairs(ReportsBefore(w, rows, i))
  {
    if i > 0 {
      NoPairTwice(w, rows, i - 1);
      RowReportsOnce(w, rows, i - 1, |rows|);
      NoSharedRow(w, rows, i - 1);
      var before, row := ReportsBefore(w, rows, i - 1), ReportsOfRow(w, rows, i - 1, |rows|);
      JoinedAreDistinct(before, row);
      assert ReportsBefore(w, rows, i) == before + row;
    }
  }

  lemma JoinedAreDistinct(left: seq<Contradiction>, right: seq<Contradiction>)
    requires DistinctPairs(left) && DistinctPairs(right) && NoCommonFirst(left, right)
    ensures DistinctPairs(left + right)
  {}

  /** The rows are the claims, each once, in rank order. */
  ghost predicate RowsOf(w: World, claims: set<ClaimId>, rows: seq<Claim>) {
    && InRankOrder(w, rows) && DistinctIds(rows)
    && (forall i :: 0 <= i < |rows| ==>
       rows[i].id in claims && rows[i].id in w.tables.claims && rows[i] == w.tables.claims[rows[i].id])
    && (forall c :: c in claims ==> exists i :: 0 <= i < |rows| && rows[i].id == c)
  }

  lemma ReportIsRelated(w: World, claims: set<ClaimId>, rows: seq<Claim>, c: Contradiction)
    requires RowsOf(w, claims, rows) && c in ReportsBefore(w, rows, |rows|)
    ensures Related(w, claims, c.a, c.b) && RuleOf(w, w.tables.claims[c.a], w.tables.claims[c.b]) == Some(c.rule)
  {
    var p := ReportComes(w, rows, |rows|, c);
    var q :| p < q < |rows| && c.a == rows[p].id && c.b == rows[q].id && RuleOf(w, rows[p], rows[q]) == Some(c.rule);
  }

  lemma RelatedIsReported(w: World, claims: set<ClaimId>, rows: seq<Claim>, a: ClaimId, b: ClaimId)
    requires RowsOf(w, claims, rows) && Related(w, claims, a, b)
    ensures exists k :: 0 <= k < |ReportsBefore(w, rows, |rows|)| && KeyedBy(ReportsBefore(w, rows, |rows|)[k], (a, b))
  {
    var i :| 0 <= i < |rows| && rows[i].id == a;
    var j :| 0 <= j < |rows| && rows[j].id == b;
    assert i < j;
    PairIsReported(w, rows, |rows|, i, j);
    var c := Contradiction(a, b, RuleOf(w, rows[i], rows[j]).value);
    assert c in ReportsBefore(w, rows, |rows|) && KeyedBy(c, (a, b));
  }

  /** What the detector reports is exactly the related pairs. */
  lemma ReportsFind(w: World, claims: set<ClaimId>, rows: seq<Claim>)
    requires RowsOf(w, claims, rows)
    ensures Finds(w, claims, ReportsBefore(w, rows, |rows|))
  {
    var found := ReportsBefore(w, rows, |rows|);
    NoPairTwice(w, rows, |rows|);
    forall k | 0 <= k < |found|
      ensures Related(w, claims, found[k].a, found[k].b)
        && RuleOf(w, w.tables.claims[found[k].a], w.tables.claims[found[k].b]) == Some(found[k].rule)
    {
      ReportIsRelated(w, claims, rows, found[k]);
    }
    forall a, b | Related(w, claims, a, b) ensures exists k :: 0 <= k < |found| && KeyedBy(found[k], (a, b)) {
      RelatedIsReported(w, claims, rows, a, b);
    }
  }

  method FindContradictions(db: GovernanceDatabase, w: World) returns (found: seq<Contradiction>)
    requires Lawful(w)
    ensures Finds(w, CurrentClaims(w, db.temporal), found)
  {
    var rows := CurrentRows(db, w);
    found := DetectContradictions(w, rows);
    forall i, j | 0 <= i < j < |rows| ensures rows[i].id != rows[j].id {
      assert w.claimRank(rows[i].id) < w.claimRank(rows[j].id);
    }
    ReportsFind(w, CurrentClaims(w, db.temporal), rows);
  }

  lemma StoredAreRelations(w: World, claims: set<ClaimId>, found: seq<Contradiction>)
    requires Finds(w, claims, found)
    ensures Inserted(found) == Relations(w, claims) && |Inserted(found)| == |found|
    ensures forall k :: 0 <= k < |found| ==> w.claimRank(found[k].a) < w.claimRank(found[k].b)
  {
    var stored := Inserted(found);
    InsertedKeys(found);
    InsertedRules(found);
    forall p: (ClaimId, ClaimId)
      ensures p in stored <==> Related(w, claims, p.0, p.1)
      ensures p in stored ==> Some(stored[p]) == RuleOf(w, w.tables.claims[p.0], w.tables.claims[p.1])
    {
      if p in stored {
        var k :| 0 <= k < |found| && KeyedBy(found[k], p);
      }
    }
  }

  /** `ContradictionRepository.rebuild`, which never fails. */
  method RebuildContradictions(db: GovernanceDatabase, w: World) returns (ok: bool, count: nat, disputed: set<ClaimId>)
    requires Lawful(w)
    modifies db`relations
    ensures ok && db.relations == Relations(w, CurrentClaims(w, db.temporal))
    ensures disputed == DisputedBy(db.relations) && count == |db.relations|
  {
    ghost var claims := CurrentClaims(w, db.temporal);
    var found := FindContradictions(db, w);
    StoredAreRelations(w, claims, found);
    ok, disputed := StoreRelations(db, w, found);
    count := |found|;
  }

  // ---------------------------------------------------------------- verification

  method CountOrigins(db: GovernanceDatabase, w: World, c: ClaimId) returns (sources: nat)
    ensures sources == |OriginsOf(w, db.temporal, c)|
  {
    var origins: set<Origin> := {};
    var rest := w.tables.evidence.Keys;
    while rest != {}
      invariant forall e :: e in rest ==> e in w.tables.evidence
      invariant forall o :: o in origins <==>
        exists e ::
          e in w.tables.evidence && e !in rest && Counts(w, db.temporal, c, e)
            && OriginOf(w, w.tables.evidence[e]).value == o
      decreases rest
    {
      var e :| e in rest;
      if Counts(w, db.temporal, c, e) { origins := origins + {OriginOf(w, w.tables.evidence[e]).value}; }
      rest := rest - {e};
    }
    assert origins == OriginsOf(w, db.temporal, c);
    sources := |origins|;
  }

  /** `VerificationEvaluator.evaluate` and `VerificationRepository.rebuild`. */
  method RebuildVerification(db: GovernanceDatabase, w: World)
    modifies db`verification
    ensures db.verification == Verifications(w, db.temporal, DisputedBy(db.relations))
  {
    var disputed := DisputedBy(db.relations);
    var rest := w.tables.claims.Keys;
    db.verification := map[];
    while rest != {}
      invariant forall c :: c in rest ==> c in w.tables.claims
      invariant forall c :: c in db.verification <==> c in w.tables.claims && c !in rest
      invariant forall c :: c in db.verification ==> db.verification[c] == VerificationOf(w, db.temporal, disputed, c)
      decreases rest
    {
      var c :| c in rest;
      var sources := CountOrigins(db, w, c);
      var standing := if c in disputed then DisputedClaim
                      else if sources >= 2 then Corroborated
                      else if sources == 1 then SingleSource
                      else Unverified;
      db.verification := db.verification[c := Verification(standing, sources)];
      rest := rest - {c};
    }
  }

  /** The governance part of one cycle, in its order. */
  method Govern(
    db: GovernanceDatabase, w: World, evaluated: Instant, marked: Instant)
    returns (ok: bool, contradictions: nat)
    requires Lawful(w)
    modifies db
    ensures ok && contradictions == |db.relations|
    ensures db.View() == Governed(w, evaluated, marked)
  {
    RebuildTemporal(db, w, evaluated);
    var disputed;
    ok, contradictions, disputed := RebuildContradictions(db, w);
    MarkDisputed(db, w, disputed, marked);
    RebuildVerification(db, w);
  }
}
