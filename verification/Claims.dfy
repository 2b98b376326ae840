/** Claims, their evidence and the equivalence decisions (`claims/repository.py`,
    `claims/deduplicator.py`).

    Extraction, canonicalisation, entity signatures and the similarity of two normalised
    forms are deterministic functions carried by a `Reader`. */
module Claims {
  import opened Schema
  import opened SemanticUnits

  const EQUIVALENCE_VERSION := "claim-equivalence-v1"
  const THRESHOLD: real := 0.94

  datatype Polarity = Positive | Negative | UnknownPolarity

  /** The digest of version, normalised form, entity signature and polarity. */
  datatype ClaimId = ClaimSha(version: string, form: string, signature: string, polarity: Polarity)

  datatype Claim = Claim(
    id: ClaimId, text: string, form: string, signature: string, polarity: Polarity, version: string)

  datatype Span = Span(start: nat, end: nat, content: string)

  datatype EvidenceId = EvidenceSha(unit: UnitId, start: nat, end: nat, extractor: string)

  datatype Evidence = Evidence(
    claim: ClaimId, unit: UnitId, source: SourceKey, start: nat, end: nat, content: string, digest: Digest,
    timestamp: Instant, extractor: string, equivalence: string)

  datatype Verdict = Exact | HighConfidenceSemantic | Separate

  datatype Decision = Decision(claim: ClaimId, verdict: Verdict, confidence: real)

  datatype Tables = Tables(
    claims: map<ClaimId, Claim>, evidence: map<EvidenceId, Evidence>, decisions: map<EvidenceId, Decision>)

  const EMPTY_TABLES := Tables(map[], map[], map[])

  datatype Reader = Reader(
    extract: string -> seq<Span>, extractor: string,
    normalize: string -> (string, Polarity), canonicalizer: string,
    signature: (UnitId, nat, nat) -> string,
    score: (string, string) -> real)

  /** One extracted span of one unit. */
  datatype Item = Item(unit: SemanticUnit, span: Span)

  // ---------------------------------------------------------------- deciding

  function IdOf(r: Reader, item: Item): ClaimId {
    var (form, polarity) := r.normalize(item.span.content);
    ClaimSha(r.canonicalizer, form, r.signature(item.unit.id, item.span.start, item.span.end), polarity)
  }

  /** `canonicalize`. */
  function Candidate(r: Reader, item: Item): Claim {
    var id := IdOf(r, item);
    Claim(id, item.span.content, id.form, id.signature, id.polarity, id.version)
  }

  predicate Comparable(c: ClaimId, k: ClaimId) {
    k.signature == c.signature && k.polarity == c.polarity
  }

  predicate SameIdentity(c: ClaimId, k: ClaimId) {
    k.form == c.form && Comparable(c, k)
  }

  /** The first comparable claim of the highest score. */
  function Best(r: Reader, c: ClaimId, known: seq<ClaimId>): Option<ClaimId> {
    if known == [] then None
    else
      var best, k := Best(r, c, known[..|known| - 1]), known[|known| - 1];
      if Comparable(c, k) && (best.None? || r.score(c.form, k.form) > r.score(c.form, best.value.form)) then Some(k)
        else best
  }

  predicate ExactlyKnown(c: ClaimId, known: seq<ClaimId>) {
    exists k :: k in known && SameIdentity(c, k)
  }

  /** `decide`, over claims of one canonicaliser. */
  function Decide(r: Reader, c: ClaimId, known: seq<ClaimId>): Decision {
    if ExactlyKnown(c, known) then Decision(c, Exact, 1.0)
    else if c.signature == "" then Decision(c, Separate, 0.0)
    else
      var best := Best(r, c, known);
      if best.None? then Decision(c, Separate, 0.0)
      else
        var score := r.score(c.form, best.value.form);
        if score >= THRESHOLD then Decision(best.value, HighConfidenceSemantic, score) else Decision(c, Separate, score)
  }

  lemma {:induction false} NoneIsBestIff(r: Reader, c: ClaimId, known: seq<ClaimId>)
    ensures Best(r, c, known).None? <==> forall k :: k in known ==> !Comparable(c, k)
  {
    if known != [] {
      var n := |known| - 1;
      assert known == known[..n] + [known[n]];
      NoneIsBestIff(r, c, known[..n]);
    }
  }

  lemma {:induction false} BestIndex(r: Reader, c: ClaimId, known: seq<ClaimId>) returns (i: nat)
    requires Best(r, c, known).Some?
    ensures i < |known| && known[i] == Best(r, c, known).value && IsFirstMaximum(r, c, known, i)
  {
    var front, k := known[..|known| - 1], known[|known| - 1];
    assert forall j :: 0 <= j < |front| ==> front[j] == known[j] && known[j] in known && front[j] in front;
    NoneIsBestIff(r, c, front);
    if Best(r, c, front).None? {
      i := |front|;
    } else {
      i := BestIndex(r, c, front);
      if Comparable(c, k) && r.score(c.form, k.form) > r.score(c.form, front[i].form) { i := |front|; }
    }
  }

  /** The loop keeps the first comparable claim of the highest score. */
  lemma BestIsTheFirstMaximum(r: Reader, c: ClaimId, known: seq<ClaimId>)
    ensures Best(r, c, known).None? <==> forall k :: k in known ==> !Comparable(c, k)
    ensures Best(r, c, known).Some? ==>
            exists i :: 0 <= i < |known| && known[i] == Best(r, c, known).value && IsFirstMaximum(r, c, known, i)
  {
    NoneIsBestIff(r, c, known);
    if Best(r, c, known).Some? { var i := BestIndex(r, c, known); }
  }

  ghost predicate IsFirstMaximum(r: Reader, c: ClaimId, known: seq<ClaimId>, i: nat)
    requires i < |known|
  {
    && Comparable(c, known[i])
    && (forall j :: 0 <= j < |known| && Comparable(c, known[j]) ==>
       r.score(c.form, known[j].form) <= r.score(c.form, known[i].form))
    && (forall j :: 0 <= j < i && Comparable(c, known[j]) ==>
       r.score(c.form, known[j].form) < r.score(c.form, known[i].form))
  }

  // ---------------------------------------------------------------- rebuilding

  /** The claims a rebuild knows after the items. */
  function Known(r: Reader, items: seq<Item>): seq<ClaimId> {
    if items == [] then []
    else
      var known, c := Known(r, items[..|items| - 1]), IdOf(r, items[|items| - 1]);
      if Decide(r, c, known).claim == c && c !in known then known + [c] else known
  }

  /** What the rebuild decides about one item, from the items before it. */
  function DecisionAt(r: Reader, items: seq<Item>, i: nat): Decision
    requires i < |items|
  {
    Decide(r, IdOf(r, items[i]), Known(r, items[..i]))
  }

  function EvidenceIdOf(r: Reader, item: Item): EvidenceId {
    EvidenceSha(item.unit.id, item.span.start, item.span.end, r.extractor)
  }

  function EvidenceOf(r: Reader, item: Item, claim: ClaimId): Evidence {
    Evidence(claim, item.unit.id, item.unit.source, item.span.start, item.span.end, item.span.content,
             Sha256(item.span.content), item.unit.updatedAt, r.extractor, EQUIVALENCE_VERSION)
  }

  /** Writes one item: a new claim keeps a row already stored under its identity. */
  function Write(r: Reader, t: Tables, item: Item, d: Decision): Tables {
    var claims := if d.claim == IdOf(r, item) && d.claim !in t.claims then t.claims[d.claim := Candidate(r, item)]
      else t.claims;
    Tables(claims, t.evidence[EvidenceIdOf(r, item) := EvidenceOf(r, item, d.claim)],
      t.decisions[EvidenceIdOf(r, item) := d])
  }

  function Decisions(r: Reader, items: seq<Item>): seq<Decision> {
    seq(|items|, i requires 0 <= i < |items| => DecisionAt(r, items, i))
  }

  function WrittenWith(r: Reader, t: Tables, items: seq<Item>, ds: seq<Decision>): Tables
    requires |ds| == |items|
  {
    if items == [] then t
    else
      var n := |items| - 1;
      Write(r, WrittenWith(r, t, items[..n], ds[..n]), items[n], ds[n])
  }

  function Written(r: Reader, t: Tables, items: seq<Item>): Tables {
    WrittenWith(r, t, items, Decisions(r, items))
  }

  predicate Evidenced(evidence: map<EvidenceId, Evidence>, c: ClaimId) {
    exists e :: e in evidence && evidence[e].claim == c
  }

  /** Removes unexpected evidence, then claims without evidence; decisions follow both. */
  function Pruned(t: Tables, expected: set<EvidenceId>): Tables {
    var gone := t.evidence.Keys - expected;
    var evidence := t.evidence - gone;
    var orphans := set c | c in t.claims && !Evidenced(evidence, c);
    Tables(
      t.claims - orphans,
      map e | e in evidence && evidence[e].claim !in orphans :: evidence[e],
      map e | e in t.decisions && e !in gone && t.decisions[e].claim !in orphans :: t.decisions[e])
  }

  function ExpectedIds(r: Reader, items: seq<Item>): set<EvidenceId> {
    set item | item in items :: EvidenceIdOf(r, item)
  }

  function Rebuilt(r: Reader, t: Tables, items: seq<Item>): Tables {
    Pruned(Written(r, t, items), ExpectedIds(r, items))
  }

  // ---------------------------------------------------------------- well-named tables

  predicate ClaimNamed(c: Claim) {
    c.id == ClaimSha(c.version, c.form, c.signature, c.polarity)
  }

  predicate EvidenceNamed(id: EvidenceId, e: Evidence) {
    id == EvidenceSha(e.unit, e.start, e.end, e.extractor)
  }

  /** Every row sits under the id of its identity, and every reference resolves. */
  ghost predicate WellNamed(t: Tables) {
    && (forall c :: c in t.claims ==> t.claims[c].id == c && ClaimNamed(t.claims[c]))
    && (forall e :: e in t.evidence ==> EvidenceNamed(e, t.evidence[e]) && t.evidence[e].claim in t.claims)
    && (forall e :: e in t.decisions ==> e in t.evidence && t.decisions[e].claim in t.claims)
  }

  ghost predicate DistinctItems(r: Reader, items: seq<Item>) {
    forall i, j :: 0 <= i < j < |items| ==> EvidenceIdOf(r, items[i]) != EvidenceIdOf(r, items[j])
  }

  lemma {:induction false} KnownGrows(r: Reader, items: seq<Item>, i: nat)
    requires i <= |items|
    ensures |Known(r, items[..i])| <= |Known(r, items)|
    ensures Known(r, items)[..|Known(r, items[..i])|] == Known(r, items[..i])
  {
    if i < |items| {
      var n := |items| - 1;
      KnownGrows(r, items[..n], i);
      assert items[..n][..i] == items[..i];
    } else {
      assert items[..i] == items;
    }
  }

  lemma {:induction false} KnownVersions(r: Reader, items: seq<Item>)
    ensures forall k :: k in Known(r, items) ==> k.version == r.canonicalizer
  {
    if items != [] { KnownVersions(r, items[..|items| - 1]); }
  }

  /** Whatever is decided about an item names a claim known from then on. */
  lemma DecidedIsKnown(r: Reader, items: seq<Item>, i: nat)
    requires i < |items|
    ensures Decisions(r, items)[i].claim in Known(r, items)
  {
    KnownVersions(r, items[..i]);
    DecidesAKnownOrItself(r, IdOf(r, items[i]), Known(r, items[..i]));
    assert items[..i + 1][..i] == items[..i];
    assert Decisions(r, items)[i].claim in Known(r, items[..i + 1]);
    KnownGrows(r, items, i + 1);
  }

  lemma KnownFacts(r: Reader, items: seq<Item>)
    ensures forall k :: k in Known(r, items) ==> k.version == r.canonicalizer
    ensures forall i :: 0 <= i < |items| ==> Decisions(r, items)[i].claim in Known(r, items)
  {
    KnownVersions(r, items);
    forall i | 0 <= i < |items| ensures Decisions(r, items)[i].claim in Known(r, items) {
      DecidedIsKnown(r, items, i);
    }
  }

  lemma DecisionsOfPrefix(r: Reader, items: seq<Item>, n: nat)
    requires n <= |items|
    ensures Decisions(r, items[..n]) == Decisions(r, items)[..n]
  {
    forall i | 0 <= i < n ensures Decisions(r, items[..n])[i] == Decisions(r, items)[i] {
      assert items[..n][..i] == items[..i];
    }
  }

  predicate Reaches(r: Reader, c: ClaimId, k: ClaimId) {
    Comparable(c, k) && r.score(c.form, k.form) >= THRESHOLD
  }

  ghost predicate IsFirstBest(r: Reader, c: ClaimId, known: seq<ClaimId>, d: Decision) {
    && d.confidence == r.score(c.form, d.claim.form)
    && exists i :: 0 <= i < |known| && known[i] == d.claim && IsFirstMaximum(r, c, known, i)
  }

  /** What a verdict means: `Exact` when the identity is known; `HighConfidenceSemantic` when
      a first best comparable claim reaches the threshold; `Separate` when it does not. */
  lemma DecidesAKnownOrItself(r: Reader, c: ClaimId, known: seq<ClaimId>)
    requires c.version == r.canonicalizer && forall k :: k in known ==> k.version == r.canonicalizer
    ensures Comparable(c, Decide(r, c, known).claim)
    ensures Decide(r, c, known).verdict.Exact? <==> c in known
    ensures Decide(r, c, known).verdict.HighConfidenceSemantic? <==>
            c !in known && c.signature != "" && exists k :: k in known && Reaches(r, c, k)
    ensures Decide(r, c, known).verdict.HighConfidenceSemantic? ==> IsFirstBest(r, c, known, Decide(r, c, known))
    ensures Decide(r, c, known).claim == c <==> !Decide(r, c, known).verdict.HighConfidenceSemantic?
    ensures Decide(r, c, known).claim == c || Decide(r, c, known).claim in known
  {
    BestIsTheFirstMaximum(r, c, known);
    assert c in known ==> SameIdentity(c, c);
    assert ExactlyKnown(c, known) <==> c in known;
    var best := Best(r, c, known);
    if best.Some? {
      var i :| 0 <= i < |known| && known[i] == best.value && IsFirstMaximum(r, c, known, i);
      assert known[i] in known && (Reaches(r, c, known[i]) <==> r.score(c.form, best.value.form) >= THRESHOLD);
      forall k | k in known && Reaches(r, c, k) ensures r.score(c.form, best.value.form) >= THRESHOLD {
        var j :| 0 <= j < |known| && known[j] == k;
      }
    }
  }

  // ---------------------------------------------------------------- what is written

  lemma {:induction false} WrittenClaims(r: Reader, t: Tables, items: seq<Item>, c: ClaimId)
    ensures c in Written(r, t, items).claims <==> c in t.claims || c in Known(r, items)
    ensures c in t.claims ==> Written(r, t, items).claims[c] == t.claims[c]
    ensures c !in t.claims && c in Known(r, items) ==> IsCandidate(r, items, Written(r, t, items).claims[c])
  {
    if items != [] {
      var n := |items| - 1;
      DecisionsOfPrefix(r, items, n);
      WrittenClaims(r, t, items[..n], c);
      WrittenClaims(r, t, items[..n], IdOf(r, items[n]));
      if c !in t.claims && c in Known(r, items) {
        if c in Known(r, items[..n]) {
          CandidateOfPrefix(r, items, n, Written(r, t, items[..n]).claims[c]);
        } else {
          assert items[n] in items;
        }
      }
    }
  }

  ghost predicate IsCandidate(r: Reader, items: seq<Item>, claim: Claim) {
    exists item :: item in items && claim == Candidate(r, item)
  }

  lemma CandidateOfPrefix(r: Reader, items: seq<Item>, n: nat, claim: Claim)
    requires n <= |items| && IsCandidate(r, items[..n], claim)
    ensures IsCandidate(r, items, claim)
  {
    var item :| item in items[..n] && claim == Candidate(r, item);
    assert item in items;
  }

  /** Items have distinct evidence ids, so no later item overwrites an earlier one. */
  lemma {:induction false} WrittenAt(r: Reader, t: Tables, items: seq<Item>, ds: seq<Decision>, i: nat)
    requires |ds| == |items| && DistinctItems(r, items) && i < |items|
    ensures RowsAt(r, items[i], ds[i], WrittenWith(r, t, items, ds))
  {
    var n := |items| - 1;
    if i < n {
      WrittenAt(r, t, items[..n], ds[..n], i);
      assert EvidenceIdOf(r, items[i]) != EvidenceIdOf(r, items[n]);
    }
  }

  lemma {:induction false} WrittenDecisions(r: Reader, t: Tables, items: seq<Item>, ds: seq<Decision>)
    requires |ds| == |items| && forall e :: e in t.decisions ==> e in t.evidence
    ensures forall e :: e in WrittenWith(r, t, items, ds).decisions ==> e in WrittenWith(r, t, items, ds).evidence
  {
    if items != [] { WrittenDecisions(r, t, items[..|items| - 1], ds[..|items| - 1]); }
  }

  lemma {:induction false} KnownWasIntroduced(r: Reader, items: seq<Item>, c: ClaimId) returns (i: nat)
    requires c in Known(r, items)
    ensures i < |items| && IdOf(r, items[i]) == c && Decisions(r, items)[i].claim == c
  {
    var n := |items| - 1;
    DecisionsOfPrefix(r, items, n);
    if c in Known(r, items[..n]) {
      i := KnownWasIntroduced(r, items[..n], c);
    } else {
      i := n;
    }
  }

  /** The evidence row and the decision of one item. */
  predicate RowsAt(r: Reader, item: Item, d: Decision, t: Tables) {
    var e := EvidenceIdOf(r, item);
    && e in t.evidence && t.evidence[e] == EvidenceOf(r, item, d.claim)
    && e in t.decisions && t.decisions[e] == d
  }

  /** The tables hold one evidence row and one decision for each item, and the known claims. */
  ghost predicate Mirrors(r: Reader, items: seq<Item>, ds: seq<Decision>, known: seq<ClaimId>, t: Tables)
    requires |ds| == |items|
  {
    && (forall i :: 0 <= i < |items| ==> RowsAt(r, items[i], ds[i], t))
    && (forall e :: e in t.evidence <==> e in ExpectedIds(r, items))
    && (forall e :: e in t.decisions <==> e in ExpectedIds(r, items))
    && (forall c :: c in t.claims <==> c in known)
  }

  lemma ExpectedItem(r: Reader, items: seq<Item>, e: EvidenceId) returns (i: nat)
    requires e in ExpectedIds(r, items)
    ensures i < |items| && EvidenceIdOf(r, items[i]) == e
  {
    var item :| item in items && EvidenceIdOf(r, item) == e;
    i :| 0 <= i < |items| && items[i] == item;
  }

  lemma ItemIsExpected(r: Reader, items: seq<Item>, i: nat)
    requires i < |items|
    ensures EvidenceIdOf(r, items[i]) in ExpectedIds(r, items)
  {}

  lemma RowsOfItems(r: Reader, items: seq<Item>, ds: seq<Decision>, known: seq<ClaimId>, w: Tables, e: EvidenceId)
    requires |ds| == |items| && e in ExpectedIds(r, items)
    requires forall i :: 0 <= i < |items| ==> RowsAt(r, items[i], ds[i], w) && ds[i].claim in known
    ensures e in w.evidence && e in w.decisions && w.evidence[e].claim in known && w.decisions[e].claim in known
  {
    var i := ExpectedItem(r, items, e);
    assert RowsAt(r, items[i], ds[i], w);
  }

  predicate Decided(ds: seq<Decision>, c: ClaimId) {
    exists i :: 0 <= i < |ds| && ds[i].claim == c
  }

  lemma DecidedIsEvidenced(
    r: Reader, items: seq<Item>, ds: seq<Decision>, evidence: map<EvidenceId, Evidence>, w: Tables, c: ClaimId)
    requires |ds| == |items| && Decided(ds, c)
    requires forall i :: 0 <= i < |items| ==> RowsAt(r, items[i], ds[i], w)
    requires forall e :: e in ExpectedIds(r, items) && e in w.evidence ==> e in evidence && evidence[e] == w.evidence[e]
    ensures Evidenced(evidence, c)
  {
    var i :| 0 <= i < |ds| && ds[i].claim == c;
    ItemIsExpected(r, items, i);
    assert RowsAt(r, items[i], ds[i], w);
    assert evidence[EvidenceIdOf(r, items[i])].claim == c;
  }

  /** Pruning keeps exactly the rows of the items and the claims they name. */
  lemma PrunedMirrors(r: Reader, items: seq<Item>, ds: seq<Decision>, known: seq<ClaimId>, w: Tables)
    requires |ds| == |items|
    requires forall i :: 0 <= i < |items| ==> RowsAt(r, items[i], ds[i], w) && ds[i].claim in known
    requires forall e :: e in w.decisions ==> e in w.evidence
    requires forall c :: c in known ==> c in w.claims && Decided(ds, c)
    ensures Mirrors(r, items, ds, known, Pruned(w, ExpectedIds(r, items)))
  {
    var expected := ExpectedIds(r, items);
    var evidence := w.evidence - (w.evidence.Keys - expected);
    forall e | e in expected ensures e in w.evidence && e in w.decisions && w.evidence[e].claim in known
      && w.decisions[e].claim in known {
      RowsOfItems(r, items, ds, known, w, e);
    }
    forall c ensures Evidenced(evidence, c) <==> c in known {
      if c in known { DecidedIsEvidenced(r, items, ds, evidence, w, c); }
    }
    PrunedByClaims(w, expected, known);
    forall i | 0 <= i < |items| ensures RowsAt(r, items[i], ds[i], Pruned(w, expected)) {
      ItemIsExpected(r, items, i);
      assert RowsAt(r, items[i], ds[i], w);
    }
  }

  /** When the expected evidence names exactly the claims `known`, pruning keeps it whole. */
  lemma PrunedByClaims(w: Tables, expected: set<EvidenceId>, known: seq<ClaimId>)
    requires forall c :: Evidenced(w.evidence - (w.evidence.Keys - expected), c) <==> c in known
    requires forall e :: e in expected ==>
      e in w.evidence && e in w.decisions && w.evidence[e].claim in known && w.decisions[e].claim in known
    requires forall e :: e in w.decisions ==> e in w.evidence
    requires forall c :: c in known ==> c in w.claims
    ensures var p := Pruned(w, expected);
      && (forall e :: e in p.evidence <==> e in expected)
      && (forall e :: e in p.decisions <==> e in expected)
      && (forall e :: e in expected ==> p.evidence[e] == w.evidence[e] && p.decisions[e] == w.decisions[e])
      && (forall c :: c in p.claims <==> c in known)
  {
    var gone := w.evidence.Keys - expected;
    var orphans := set c | c in w.claims && !Evidenced(w.evidence - gone, c);
    assert forall c :: c in orphans <==> c in w.claims && c !in known;
    assert forall e :: e in w.evidence - gone <==> e in expected;
  }

  ghost predicate Reflects(r: Reader, items: seq<Item>, t: Tables) {
    Mirrors(r, items, Decisions(r, items), Known(r, items), t)
  }

  /** A rebuild leaves exactly the rows of its items, whatever the tables held. */
  lemma RebuiltReflects(r: Reader, t: Tables, items: seq<Item>)
    requires DistinctItems(r, items) && forall e :: e in t.decisions ==> e in t.evidence
    ensures Reflects(r, items, Rebuilt(r, t, items))
  {
    var ds, known, w := Decisions(r, items), Known(r, items), Written(r, t, items);
    KnownFacts(r, items);
    WrittenDecisions(r, t, items, ds);
    forall i | 0 <= i < |items| ensures RowsAt(r, items[i], ds[i], w) {
      WrittenAt(r, t, items, ds, i);
    }
    forall c | c in known ensures c in w.claims && Decided(ds, c) {
      WrittenClaims(r, t, items, c);
      var i := KnownWasIntroduced(r, items, c);
    }
    PrunedMirrors(r, items, ds, known, w);
  }

  /** Surviving claims are rows as written. */
  lemma RebuiltClaim(r: Reader, t: Tables, items: seq<Item>, c: ClaimId)
    requires c in Rebuilt(r, t, items).claims
    ensures c in Written(r, t, items).claims && Rebuilt(r, t, items).claims[c] == Written(r, t, items).claims[c]
  {}

  // ---------------------------------------------------------------- what a rebuild promises

  lemma {:induction false} OneIdPerItem(r: Reader, items: seq<Item>)
    requires DistinctItems(r, items)
    ensures |ExpectedIds(r, items)| == |items|
  {
    if items != [] {
      var n := |items| - 1;
      OneIdPerItem(r, items[..n]);
      var e := EvidenceIdOf(r, items[n]);
      assert items == items[..n] + [items[n]];
      assert ExpectedIds(r, items) == ExpectedIds(r, items[..n]) + {e};
      if e in ExpectedIds(r, items[..n]) {
        var i := ExpectedItem(r, items[..n], e);
        assert false;
      }
    }
  }

  /** One evidence row and one decision per extracted span. */
  lemma OneRowPerSpan(r: Reader, t: Tables, items: seq<Item>)
    requires WellNamed(t) && DistinctItems(r, items)
    ensures |Rebuilt(r, t, items).evidence| == |Rebuilt(r, t, items).decisions| == |items|
  {
    RebuiltReflects(r, t, items);
    OneIdPerItem(r, items);
    assert Rebuilt(r, t, items).evidence.Keys == ExpectedIds(r, items) == Rebuilt(r, t, items).decisions.Keys;
  }

  lemma DecisionFits(r: Reader, items: seq<Item>, i: nat)
    requires i < |items|
    ensures var d := Decisions(r, items)[i];
      Comparable(IdOf(r, items[i]), d.claim) && (d.verdict.HighConfidenceSemantic? ==> d.confidence >= THRESHOLD)
  {
    KnownVersions(r, items[..i]);
    DecidesAKnownOrItself(r, IdOf(r, items[i]), Known(r, items[..i]));
  }

  /** Each evidence row and its decision name one stored claim, which has the entity signature
      and the polarity of the evidence's own sentence. */
  lemma EvidenceFitsItsClaim(r: Reader, t: Tables, items: seq<Item>, i: nat)
    requires WellNamed(t) && DistinctItems(r, items) && i < |items|
    ensures FitsItsClaim(r, items[i], Rebuilt(r, t, items))
  {
    var d, s := Decisions(r, items)[i], Rebuilt(r, t, items);
    RebuiltReflects(r, t, items);
    assert RowsAt(r, items[i], d, s);
    DecidedIsKnown(r, items, i);
    DecisionFits(r, items, i);
    RebuiltClaimIsNamed(r, t, items, d.claim);
  }

  predicate FitsItsClaim(r: Reader, item: Item, s: Tables) {
    var e := EvidenceIdOf(r, item);
    && e in s.evidence && e in s.decisions && s.evidence[e].claim == s.decisions[e].claim
    && s.evidence[e].claim in s.claims
    && s.claims[s.evidence[e].claim].signature == Candidate(r, item).signature
    && s.claims[s.evidence[e].claim].polarity == Candidate(r, item).polarity
    && (s.decisions[e].verdict.HighConfidenceSemantic? ==> s.decisions[e].confidence >= THRESHOLD)
  }

  /** Every stored claim has evidence whose own sentence canonicalises to it. */
  lemma NoClaimWithoutEvidence(r: Reader, t: Tables, items: seq<Item>, c: ClaimId) returns (i: nat)
    requires WellNamed(t) && DistinctItems(r, items) && c in Rebuilt(r, t, items).claims
    ensures i < |items| && IdOf(r, items[i]) == c
    ensures EvidenceIdOf(r, items[i]) in Rebuilt(r, t, items).evidence
    ensures Rebuilt(r, t, items).evidence[EvidenceIdOf(r, items[i])].claim == c
  {
    RebuiltReflects(r, t, items);
    i := KnownWasIntroduced(r, items, c);
    assert RowsAt(r, items[i], Decisions(r, items)[i], Rebuilt(r, t, items));
  }

  lemma MirrorsAgree(r: Reader, items: seq<Item>, ds: seq<Decision>, known: seq<ClaimId>, a: Tables, b: Tables)
    requires |ds| == |items| && Mirrors(r, items, ds, known, a) && Mirrors(r, items, ds, known, b)
    ensures a.evidence == b.evidence && a.decisions == b.decisions && a.claims.Keys == b.claims.Keys
  {
    forall e | e in ExpectedIds(r, items) ensures a.evidence[e] == b.evidence[e] && a.decisions[e] == b.decisions[e] {
      var i := ExpectedItem(r, items, e);
      assert RowsAt(r, items[i], ds[i], a) && RowsAt(r, items[i], ds[i], b);
    }
  }

  /** Rebuilding in place gives the evidence, the decisions and the claims of a rebuild from
      nothing. */
  lemma RebuildsAgree(r: Reader, a: Tables, b: Tables, items: seq<Item>)
    requires WellNamed(a) && WellNamed(b) && DistinctItems(r, items)
    ensures Rebuilt(r, a, items).evidence == Rebuilt(r, b, items).evidence
    ensures Rebuilt(r, a, items).decisions == Rebuilt(r, b, items).decisions
    ensures Rebuilt(r, a, items).claims.Keys == Rebuilt(r, b, items).claims.Keys
  {
    RebuiltReflects(r, a, items);
    RebuiltReflects(r, b, items);
    MirrorsAgree(r, items, Decisions(r, items), Known(r, items), Rebuilt(r, a, items), Rebuilt(r, b, items));
  }

  /** Only a claim's text can remember the past: a stored claim keeps its row, and any other
      is as a rebuild from nothing makes it. */
  lemma HistoryOnlyKeepsTexts(r: Reader, t: Tables, items: seq<Item>, c: ClaimId)
    requires WellNamed(t) && DistinctItems(r, items) && c in Rebuilt(r, t, items).claims
    ensures c in Rebuilt(r, EMPTY_TABLES, items).claims
    ensures c in t.claims ==> Rebuilt(r, t, items).claims[c] == t.claims[c]
    ensures c !in t.claims ==> Rebuilt(r, t, items).claims[c] == Rebuilt(r, EMPTY_TABLES, items).claims[c]
  {
    RebuildsAgree(r, t, EMPTY_TABLES, items);
    RebuiltReflects(r, t, items);
    RebuiltClaim(r, t, items, c);
    RebuiltClaim(r, EMPTY_TABLES, items, c);
    WrittenClaims(r, t, items, c);
    if c !in t.claims { WrittenFromNothing(r, t, items, c); }
  }

  lemma {:induction false} WrittenFromNothing(r: Reader, t: Tables, items: seq<Item>, c: ClaimId)
    requires c !in t.claims && c in Known(r, items)
    ensures c in Written(r, t, items).claims && c in Written(r, EMPTY_TABLES, items).claims
    ensures Written(r, t, items).claims[c] == Written(r, EMPTY_TABLES, items).claims[c]
  {
    var n := |items| - 1;
    DecisionsOfPrefix(r, items, n);
    WrittenClaims(r, t, items[..n], c);
    WrittenClaims(r, EMPTY_TABLES, items[..n], c);
    if c in Known(r, items[..n]) {
      WrittenFromNothing(r, t, items[..n], c);
    }
  }

  /** A second rebuild of the same units changes nothing. */
  lemma SecondRebuildIsQuiet(r: Reader, t: Tables, items: seq<Item>)
    requires WellNamed(t) && DistinctItems(r, items)
    ensures Rebuilt(r, Rebuilt(r, t, items), items) == Rebuilt(r, t, items)
  {
    var once := Rebuilt(r, t, items);
    RebuiltIsWellNamed(r, t, items);
    RebuildsAgree(r, once, t, items);
    forall c | c in once.claims ensures Rebuilt(r, once, items).claims[c] == once.claims[c] {
      HistoryOnlyKeepsTexts(r, once, items, c);
    }
  }

  lemma RebuiltIsWellNamed(r: Reader, t: Tables, items: seq<Item>)
    requires WellNamed(t) && DistinctItems(r, items)
    ensures WellNamed(Rebuilt(r, t, items))
  {
    var s, ds := Rebuilt(r, t, items), Decisions(r, items);
    RebuiltReflects(r, t, items);
    KnownFacts(r, items);
    forall e | e in s.evidence ensures EvidenceNamed(e, s.evidence[e]) && s.evidence[e].claim in s.claims
      && s.decisions[e].claim in s.claims {
      var i := ExpectedItem(r, items, e);
      assert RowsAt(r, items[i], ds[i], s);
    }
    forall c | c in s.claims ensures s.claims[c].id == c && ClaimNamed(s.claims[c]) {
      RebuiltClaimIsNamed(r, t, items, c);
    }
  }

  lemma {:induction false} RebuiltClaimIsNamed(r: Reader, t: Tables, items: seq<Item>, c: ClaimId)
    requires WellNamed(t) && c in Rebuilt(r, t, items).claims
    ensures Rebuilt(r, t, items).claims[c].id == c && ClaimNamed(Rebuilt(r, t, items).claims[c])
  {
    RebuiltClaim(r, t, items, c);
    WrittenIsNamed(r, t, items, Decisions(r, items), c);
  }

  lemma {:induction false} WrittenIsNamed(r: Reader, t: Tables, items: seq<Item>, ds: seq<Decision>, c: ClaimId)
    requires |ds| == |items| && c in WrittenWith(r, t, items, ds).claims
    requires c in t.claims ==> t.claims[c].id == c && ClaimNamed(t.claims[c])
    ensures WrittenWith(r, t, items, ds).claims[c].id == c && ClaimNamed(WrittenWith(r, t, items, ds).claims[c])
  {
    if items != [] {
      var n := |items| - 1;
      if c in WrittenWith(r, t, items[..n], ds[..n]).claims {
        WrittenIsNamed(r, t, items[..n], ds[..n], c);
      }
    }
  }

  // ---------------------------------------------------------------- how far merging goes

  /** Claims kept apart are apart: a later claim never reaches the threshold of an earlier
      comparable one, and no identity is stored twice. */
  lemma {:induction false} KnownAreApart(r: Reader, items: seq<Item>, i: nat, j: nat)
    requires i < j < |Known(r, items)|
    ensures var known := Known(r, items);
      known[i] != known[j] && (known[j].signature != "" ==> !Reaches(r, known[j], known[i]))
  {
    var n := |items| - 1;
    var before, c := Known(r, items[..n]), IdOf(r, items[n]);
    if j < |before| {
      KnownAreApart(r, items[..n], i, j);
    } else {
      KnownFacts(r, items[..n]);
      DecidesAKnownOrItself(r, c, before);
      assert before[i] in before;
    }
  }

  lemma MergedStaysMerged(r: Reader, c: ClaimId, known: seq<ClaimId>, more: seq<ClaimId>)
    requires c.version == r.canonicalizer && forall k :: k in known + more ==> k.version == r.canonicalizer
    requires Decide(r, c, known).verdict.HighConfidenceSemantic? && c !in more
    ensures c !in known && Decide(r, c, known + more).verdict.HighConfidenceSemantic?
  {
    DecidesAKnownOrItself(r, c, known);
    DecidesAKnownOrItself(r, c, known + more);
  }

  lemma KnownOrMerged(r: Reader, c: ClaimId, known: seq<ClaimId>)
    requires c.version == r.canonicalizer && forall k :: k in known ==> k.version == r.canonicalizer
    requires Decide(r, c, known).verdict.HighConfidenceSemantic?
    ensures c !in known && Decide(r, c, known).claim != c
  {
    DecidesAKnownOrItself(r, c, known);
  }

  lemma NextStaysMerged(r: Reader, items: seq<Item>, c: ClaimId)
    requires items != [] && c.version == r.canonicalizer
    requires Decide(r, c, Known(r, items[..|items| - 1])).verdict.HighConfidenceSemantic?
    ensures Decide(r, c, Known(r, items)).verdict.HighConfidenceSemantic?
  {
    var known, x := Known(r, items[..|items| - 1]), IdOf(r, items[|items| - 1]);
    KnownVersions(r, items[..|items| - 1]);
    KnownOrMerged(r, c, known);
    if Known(r, items) != known { MergedStaysMerged(r, c, known, [x]); }
  }

  /** Once an identity has reached a known claim it is never stored itself. */
  lemma {:induction false} MergedIsNeverStored(r: Reader, items: seq<Item>, i: nat, c: ClaimId)
    requires i <= |items| && c.version == r.canonicalizer
    requires Decide(r, c, Known(r, items[..i])).verdict.HighConfidenceSemantic?
    ensures Decide(r, c, Known(r, items)).verdict.HighConfidenceSemantic? && c !in Known(r, items)
  {
    if i < |items| {
      assert items[..|items| - 1][..i] == items[..i];
      MergedIsNeverStored(r, items[..|items| - 1], i, c);
      NextStaysMerged(r, items, c);
    } else {
      assert items[..i] == items;
    }
    KnownVersions(r, items);
    KnownOrMerged(r, c, Known(r, items));
  }

  // ---------------------------------------------------------------- equal sentences

  /** Some claim known later scores higher than the one first chosen. */
  ghost predicate Overtaken(r: Reader, c: ClaimId, before: seq<ClaimId>, after: seq<ClaimId>) {
    exists k :: k in after && Comparable(c, k) && r.score(c.form, k.form) > Decide(r, c, before).confidence
  }

  predicate Beats(r: Reader, c: ClaimId, k: ClaimId, b: ClaimId) {
    Comparable(c, k) && r.score(c.form, k.form) > r.score(c.form, b.form)
  }

  lemma BestIsUnbeaten(r: Reader, c: ClaimId, known: seq<ClaimId>, k: ClaimId)
    requires Best(r, c, known).Some? && k in known
    ensures !Beats(r, c, k, Best(r, c, known).value)
  {
    BestIsTheFirstMaximum(r, c, known);
    var i :| 0 <= i < |known| && known[i] == Best(r, c, known).value && IsFirstMaximum(r, c, known, i);
    var j :| 0 <= j < |known| && known[j] == k;
  }

  /** An earlier best stays the best until it is beaten. */
  lemma {:induction false} SameBestIff(r: Reader, c: ClaimId, known: seq<ClaimId>, more: seq<ClaimId>)
    requires Best(r, c, known).Some?
    requires forall k :: k in more ==> k !in known
    ensures Best(r, c, known + more).Some?
    ensures Best(r, c, known + more) == Best(r, c, known)
      || Beats(r, c, Best(r, c, known + more).value, Best(r, c, known).value)
    ensures Best(r, c, known + more).value in known + more
  {
    if more == [] {
      assert known + more == known;
      BestIsTheFirstMaximum(r, c, known);
    } else {
      var n := |more| - 1;
      assert (known + more)[..|known| + n] == known + more[..n];
      SameBestIff(r, c, known, more[..n]);
    }
  }

  lemma KnownAreDistinct(r: Reader, items: seq<Item>)
    ensures forall i, j :: 0 <= i < j < |Known(r, items)| ==> Known(r, items)[i] != Known(r, items)[j]
  {
    forall i, j | 0 <= i < j < |Known(r, items)| ensures Known(r, items)[i] != Known(r, items)[j] {
      KnownAreApart(r, items, i, j);
    }
  }

  lemma MergedAgreeIff(r: Reader, c: ClaimId, small: seq<ClaimId>, more: seq<ClaimId>)
    requires Decide(r, c, small).verdict.HighConfidenceSemantic?
      && Decide(r, c, small + more).verdict.HighConfidenceSemantic?
    requires forall k :: k in more ==> k !in small
    ensures Decide(r, c, small).claim == Decide(r, c, small + more).claim <==> !Overtaken(r, c, small, small + more)
  {
    SameBestIff(r, c, small, more);
    var b, b' := Best(r, c, small).value, Best(r, c, small + more).value;
    if b == b' {
      forall k | k in small + more ensures !Beats(r, c, k, b) {
        BestIsUnbeaten(r, c, small + more, k);
      }
    }
  }

  lemma LaterAreNew(r: Reader, items: seq<Item>, i: nat) returns (more: seq<ClaimId>)
    requires i <= |items|
    ensures Known(r, items) == Known(r, items[..i]) + more && forall k :: k in more ==> k !in Known(r, items[..i])
  {
    KnownGrows(r, items, i);
    KnownAreDistinct(r, items);
    more := Known(r, items)[|Known(r, items[..i])|..];
  }

  /** Two sentences of one identity name the same claim unless the first was merged and a
      better match was stored before the second. */
  lemma EqualSentencesAgreeIff(r: Reader, items: seq<Item>, i: nat, j: nat)
    requires i < j < |items| && IdOf(r, items[i]) == IdOf(r, items[j])
    ensures Decisions(r, items)[i].claim == Decisions(r, items)[j].claim <==>
            !(Decisions(r, items)[i].verdict.HighConfidenceSemantic?
              && Overtaken(r, IdOf(r, items[i]), Known(r, items[..i]), Known(r, items[..j])))
  {
    if Decisions(r, items)[i].verdict.HighConfidenceSemantic? {
      assert items[..j][..i] == items[..i];
      MergedIsNeverStored(r, items[..j], i, IdOf(r, items[i]));
      var more := LaterAreNew(r, items[..j], i);
      MergedAgreeIff(r, IdOf(r, items[i]), Known(r, items[..i]), more);
    } else {
      StoredIsFoundAgain(r, items, i, j);
    }
  }

  lemma StoredIsFoundAgain(r: Reader, items: seq<Item>, i: nat, j: nat)
    requires i < j < |items| && IdOf(r, items[i]) == IdOf(r, items[j])
    requires !Decisions(r, items)[i].verdict.HighConfidenceSemantic?
    ensures Decisions(r, items)[i].claim == Decisions(r, items)[j].claim == IdOf(r, items[i])
  {
    var c := IdOf(r, items[i]);
    KnownVersions(r, items[..i]);
    DecidesAKnownOrItself(r, c, Known(r, items[..i]));
    assert items[..j][..i] == items[..i] && items[..j][i] == items[i];
    DecidedIsKnown(r, items[..j], i);
    KnownVersions(r, items[..j]);
    DecidesAKnownOrItself(r, c, Known(r, items[..j]));
  }

  /** The normalised forms "a", "b" and "c" as normalised vectors of feature counts: "c" lies
      between the other two, nearer to "b". */
  function Vector(form: string): (v: (real, real))
    ensures v.0 * v.0 + v.1 * v.1 == 1.0
  {
    if form == "b" then (15.0 / 17.0, 8.0 / 17.0) else if form == "c" then (24.0 / 25.0, 7.0 / 25.0) else (1.0, 0.0)
  }

  /** The similarity of two forms is the dot product of their vectors. */
  function Similarity(a: string, b: string): real {
    Vector(a).0 * Vector(b).0 + Vector(a).1 * Vector(b).1
  }

  lemma Similarities()
    ensures Similarity("c", "a") == 24.0 / 25.0 && Similarity("b", "a") == 15.0 / 17.0
      && Similarity("c", "b") == 416.0 / 425.0
  {
    assert Vector("a") == (1.0, 0.0) && Vector("b") == (15.0 / 17.0, 8.0 / 17.0)
      && Vector("c") == (24.0 / 25.0, 7.0 / 25.0);
  }

  /** It happens: "c" joins "a", then "b" is stored apart from "a" and the next "c" joins "b". */
  lemma EqualSentencesCanPart(u: SemanticUnit)
    ensures
      var r := Reader(s => [], "v", s => (s, Positive), "v", (u, a, b) => "entity", Similarity);
      var items := [Item(u, Span(0, 1, "a")), Item(u, Span(1, 2, "c")), Item(u, Span(2, 3, "b")),
        Item(u, Span(3, 4, "c"))];
      IdOf(r, items[1]) == IdOf(r, items[3]) && Decisions(r, items)[1].claim != Decisions(r, items)[3].claim
  {
    var r := Reader(s => [], "v", s => (s, Positive), "v", (u, a, b) => "entity", Similarity);
    var items := [Item(u, Span(0, 1, "a")), Item(u, Span(1, 2, "c")), Item(u, Span(2, 3, "b")),
      Item(u, Span(3, 4, "c"))];
    var a, b, c := IdOf(r, items[0]), IdOf(r, items[2]), IdOf(r, items[1]);
    Similarities();
    assert items[..3][..2] == items[..2] && items[..2][..1] == items[..1] && items[..1][..0] == [];
    assert Known(r, items[..1]) == [a];
    assert [a][..0] == [];
    assert Best(r, c, [a]) == Some(a) && Best(r, b, [a]) == Some(a);
    assert Decide(r, c, [a]) == Decision(a, HighConfidenceSemantic, 24.0 / 25.0);
    assert Known(r, items[..2]) == [a];
    assert Decide(r, b, [a]) == Decision(b, Separate, 15.0 / 17.0);
    assert b in Known(r, items[..3]) && Comparable(c, b);
    EqualSentencesAgreeIff(r, items, 1, 3);
  }

  // ---------------------------------------------------------------- the repository

  class ClaimDatabase {
    var claims: map<ClaimId, Claim>
    var evidence: map<EvidenceId, Evidence>
    var decisions: map<EvidenceId, Decision>

    constructor ()
      ensures View() == EMPTY_TABLES
    {
      claims, evidence, decisions := map[], map[], map[];
    }

    function View(): Tables
      reads this
    {
      Tables(claims, evidence, decisions)
    }
  }

  function IdsOf(claims: seq<Claim>): seq<ClaimId> {
    seq(|claims|, i requires 0 <= i < |claims| => claims[i].id)
  }

  predicate AllNamed(r: Reader, claims: seq<Claim>) {
    forall i :: 0 <= i < |claims| ==> ClaimNamed(claims[i]) && claims[i].version == r.canonicalizer
  }

  /** `ConservativeClaimDeduplicator.decide`. */
  method DecideClaim(r: Reader, candidate: Claim, existing: seq<Claim>) returns (d: Decision)
    requires AllNamed(r, existing) && ClaimNamed(candidate) && candidate.version == r.canonicalizer
    ensures d == Decide(r, candidate.id, IdsOf(existing))
  {
    ghost var ids := IdsOf(existing);
    for i := 0 to |existing|
      invariant forall j :: 0 <= j < i ==> !SameIdentity(candidate.id, ids[j])
    {
      var claim := existing[i];
      if claim.form == candidate.form && claim.signature == candidate.signature
        && claim.polarity == candidate.polarity {
        assert SameIdentity(candidate.id, ids[i]) && ids[i] == candidate.id;
        return Decision(claim.id, Exact, 1.0);
      }
    }
    assert !ExactlyKnown(candidate.id, ids);
    if candidate.signature == "" { return Decision(candidate.id, Separate, 0.0); }
    var best: Option<(real, Claim)> := None;
    for i := 0 to |existing|
      invariant best.None? <==> Best(r, candidate.id, ids[..i]).None?
      invariant best.Some? ==> Best(r, candidate.id, ids[..i]) == Some(best.value.1.id) && ClaimNamed(best.value.1)
                               && best.value.0 == r.score(candidate.form, best.value.1.form)
    {
      var claim := existing[i];
      assert ids[..i + 1][..i] == ids[..i] && ids[..i + 1][i] == claim.id;
      if claim.signature == candidate.signature && claim.polarity == candidate.polarity {
        var score := r.score(candidate.form, claim.form);
        if best.None? || score > best.value.0 { best := Some((score, claim)); }
      }
    }
    assert ids[..|existing|] == ids;
    if best.Some? && best.value.0 >= THRESHOLD {
      return Decision(best.value.1.id, HighConfidenceSemantic, best.value.0);
    }
    d := Decision(candidate.id, Separate, if best.Some? then best.value.0 else 0.0);
  }

  predicate SameRow(a: Claim, b: Claim) {
    a.form == b.form && a.signature == b.signature && a.polarity == b.polarity && a.version == b.version
  }

  /** A stored row under the identity but not the id, or under the id but not the identity. */
  predicate Clashes(claims: map<ClaimId, Claim>, claim: Claim) {
    exists id :: id in claims && SameRow(claims[id], claim) != (id == claim.id)
  }

  /** `UNIQUE(normalized_form, entity_signature, polarity, canonicalizer_version)`. */
  ghost predicate UniqueRows(claims: map<ClaimId, Claim>) {
    forall a, b :: a in claims && b in claims && SameRow(claims[a], claims[b]) ==> a == b
  }

  /** `_get_or_create_claim`: fails exactly when a stored row clashes. */
  method GetOrCreateClaim(db: ClaimDatabase, claim: Claim) returns (ok: bool, stored: Claim)
    requires UniqueRows(db.claims)
    modifies db`claims
    ensures ok <==> !Clashes(old(db.claims), claim)
    ensures ok ==>
      db.claims == (if claim.id in old(db.claims) then old(db.claims) else old(db.claims)[claim.id := claim])
    ensures ok ==> claim.id in db.claims && stored == db.claims[claim.id]
  {
    var matching := set id | id in db.claims && SameRow(db.claims[id], claim);
    stored := claim;
    if matching == {} {
      ok := claim.id !in db.claims;
      assert forall id :: id in db.claims ==> id !in matching;
      if ok { db.claims := db.claims[claim.id := claim]; }
      return;
    }
    var id :| id in matching;
    ok := id == claim.id;
    assert forall other :: other in db.claims && SameRow(db.claims[other], claim) ==> other == id;
    if ok { stored := db.claims[id]; }
  }

  predicate SameSlot(a: Evidence, b: Evidence) {
    a.unit == b.unit && a.start == b.start && a.end == b.end && a.extractor == b.extractor
  }

  /** `_upsert_evidence`: fails exactly when the slot holds a row of another id. */
  method UpsertEvidence(db: ClaimDatabase, id: EvidenceId, row: Evidence) returns (ok: bool)
    requires id in db.evidence ==> SameSlot(db.evidence[id], row)
    modifies db`evidence
    ensures ok <==> forall e :: e in old(db.evidence) && SameSlot(old(db.evidence)[e], row) ==> e == id
    ensures db.evidence == if ok then old(db.evidence)[id := row] else old(db.evidence)
  {
    var prior := set e | e in db.evidence && SameSlot(db.evidence[e], row) && e != id;
    ok := prior == {};
    if ok {
      assert forall e :: e in db.evidence && SameSlot(db.evidence[e], row) ==> e !in prior;
      if id in db.evidence {
        db.evidence := db.evidence[id := db.evidence[id].(claim := row.claim, source := row.source,
          content := row.content,
          digest := row.digest, timestamp := row.timestamp, equivalence := row.equivalence)];
      } else {
        db.evidence := db.evidence[id := row];
      }
    } else {
      var e :| e in prior;
    }
  }

  lemma NamedRowsAreUnique(t: Tables, claim: Claim)
    requires WellNamed(t) && ClaimNamed(claim)
    ensures UniqueRows(t.claims) && !Clashes(t.claims, claim)
  {
    forall id | id in t.claims ensures SameRow(t.claims[id], claim) == (id == claim.id) {
      assert ClaimNamed(t.claims[id]);
    }
    forall a, b | a in t.claims && b in t.claims && SameRow(t.claims[a], t.claims[b]) ensures a == b {
      assert ClaimNamed(t.claims[a]) && ClaimNamed(t.claims[b]);
    }
  }

  lemma NamedSlots(t: Tables, id: EvidenceId, row: Evidence)
    requires WellNamed(t) && EvidenceNamed(id, row)
    ensures id in t.evidence ==> SameSlot(t.evidence[id], row)
    ensures forall e :: e in t.evidence && SameSlot(t.evidence[e], row) ==> e == id
  {
    forall e | e in t.evidence ensures SameSlot(t.evidence[e], row) <==> e == id {
      assert EvidenceNamed(e, t.evidence[e]);
    }
  }

  lemma WriteIsWellNamed(r: Reader, t: Tables, item: Item, d: Decision)
    requires WellNamed(t) && (d.claim in t.claims || d.claim == IdOf(r, item))
    ensures WellNamed(Write(r, t, item, d))
  {}

  /** Rows of the claims known so far, as stored. */
  ghost predicate Remembers(r: Reader, known: seq<Claim>, ids: seq<ClaimId>, t: Tables) {
    IdsOf(known) == ids && AllNamed(r, known) && forall i :: 0 <= i < |known| ==>
      known[i].id in t.claims && t.claims[known[i].id] == known[i]
  }

  method KnownOr(known: seq<Claim>, id: ClaimId, candidate: Claim) returns (claim: Claim)
    ensures (claim.id == id && claim in known) || (claim == candidate && forall i :: 0 <= i < |known| ==>
      known[i].id != id)
  {
    for i := 0 to |known|
      invariant forall j :: 0 <= j < i ==> known[j].id != id
    {
      if known[i].id == id { return known[i]; }
    }
    claim := candidate;
  }

  lemma DecidedIsStored(r: Reader, c: ClaimId, known: seq<Claim>, t: Tables)
    requires Remembers(r, known, IdsOf(known), t) && c.version == r.canonicalizer
    ensures var d := Decide(r, c, IdsOf(known)); d.claim == c || (d.claim in IdsOf(known) && d.claim in t.claims)
  {
    DecidesAKnownOrItself(r, c, IdsOf(known));
  }

  /** One extracted span of `rebuild`. */
  method Absorb(db: ClaimDatabase, r: Reader, item: Item, known: seq<Claim>) returns (ok: bool, next: seq<Claim>)
    requires WellNamed(db.View()) && Remembers(r, known, IdsOf(known), db.View())
    modifies db
    ensures ok && WellNamed(db.View())
    ensures var d := Decide(r, IdOf(r, item), IdsOf(known));
      && db.View() == Write(r, old(db.View()), item, d)
      && next == if d.claim == IdOf(r, item) && d.claim !in IdsOf(known) then known + [db.claims[d.claim]] else known
  {
    var candidate := Candidate(r, item);
    var d := DecideClaim(r, candidate, known);
    DecidedIsStored(r, candidate.id, known, db.View());
    WriteIsWellNamed(r, db.View(), item, d);
    var claim := KnownOr(known, d.claim, candidate);
    assert claim.id == d.claim;
    ok, next := true, known;
    if claim.id == candidate.id {
      ok, next := Remember(db, r, claim, known);
    }
    var id := EvidenceIdOf(r, item);
    NamedSlots(db.View(), id, EvidenceOf(r, item, d.claim));
    var placed := UpsertEvidence(db, id, EvidenceOf(r, item, claim.id));
    ok := ok && placed;
    db.decisions := db.decisions[id := d];
  }

  method Remember(db: ClaimDatabase, r: Reader, claim: Claim, known: seq<Claim>) returns (ok: bool, next: seq<Claim>)
    requires WellNamed(db.View()) && Remembers(r, known, IdsOf(known), db.View())
    requires ClaimNamed(claim) && claim.version == r.canonicalizer
    modifies db`claims
    ensures ok && WellNamed(db.View())
    ensures db.claims == if claim.id in old(db.claims) then old(db.claims) else old(db.claims)[claim.id := claim]
    ensures next == if claim.id in IdsOf(known) then known else known + [db.claims[claim.id]]
  {
    NamedRowsAreUnique(db.View(), claim);
    var stored;
    ok, stored := GetOrCreateClaim(db, claim);
    next := known;
    if forall i :: 0 <= i < |known| ==> known[i].id != claim.id {
      next := known + [stored];
      assert claim.id !in IdsOf(known);
    } else {
      var i :| 0 <= i < |known| && known[i].id == claim.id;
      assert IdsOf(known)[i] == claim.id;
    }
  }

  // ---------------------------------------------------------------- units and spans

  function ItemsOf(r: Reader, u: SemanticUnit): seq<Item> {
    var spans := r.extract(u.content);
    seq(|spans|, k requires 0 <= k < |spans| => Item(u, spans[k]))
  }

  function Items(r: Reader, units: seq<SemanticUnit>): seq<Item> {
    if units == [] then [] else Items(r, units[..|units| - 1]) + ItemsOf(r, units[|units| - 1])
  }

  /** The number of spans extracted from all units. */
  function SpanCount(r: Reader, units: seq<SemanticUnit>): nat {
    if units == [] then 0 else SpanCount(r, units[..|units| - 1]) + |r.extract(units[|units| - 1].content)|
  }

  lemma {:induction false} SpansCounted(r: Reader, units: seq<SemanticUnit>)
    ensures |Items(r, units)| == SpanCount(r, units)
  {
    if units != [] { SpansCounted(r, units[..|units| - 1]); }
  }

  /** Sentences of one text never overlap. */
  predicate Apart(spans: seq<Span>) {
    forall i, j :: 0 <= i < j < |spans| ==> spans[i].start < spans[i].end <= spans[j].start
  }

  lemma {:induction false} ItemComes(r: Reader, units: seq<SemanticUnit>, k: nat) returns (i: nat)
    requires k < |Items(r, units)|
    ensures i < |units| && Items(r, units)[k].unit == units[i]
  {
    var n := |units| - 1;
    if k < |Items(r, units[..n])| { i := ItemComes(r, units[..n], k); } else { i := n; }
  }

  lemma {:induction false} ItemsAreDistinct(r: Reader, units: seq<SemanticUnit>)
    requires DistinctUnits(units) && forall u :: u in units ==> Apart(r.extract(u.content))
    ensures DistinctItems(r, Items(r, units))
  {
    if units != [] {
      var n := |units| - 1;
      var before, all := Items(r, units[..n]), Items(r, units);
      ItemsAreDistinct(r, units[..n]);
      forall i, j | 0 <= i < j < |all| ensures EvidenceIdOf(r, all[i]) != EvidenceIdOf(r, all[j]) {
        if j < |before| {
          assert all[i] == before[i] && all[j] == before[j];
        } else if i < |before| {
          var k := ItemComes(r, units[..n], i);
          assert all[i] == before[i];
        } else {
          assert units[n] in units;
        }
      }
    }
  }

  lemma KnownStep(r: Reader, done: seq<Item>, item: Item)
    ensures var d := Decide(r, IdOf(r, item), Known(r, done));
      Known(r, done + [item]) == if d.claim == IdOf(r, item) && d.claim !in Known(r, done)
        then Known(r, done) + [d.claim] else Known(r, done)
  {
    assert (done + [item])[..|done|] == done;
  }

  lemma WrittenStep(r: Reader, t: Tables, done: seq<Item>, item: Item, d: Decision)
    requires d == Decide(r, IdOf(r, item), Known(r, done))
    ensures Written(r, t, done + [item]) == Write(r, Written(r, t, done), item, d)
  {
    var more := done + [item];
    assert more[..|done|] == done;
    DecisionsOfPrefix(r, more, |done|);
    assert Decisions(r, more)[|done|] == d;
  }

  lemma ExpectedStep(r: Reader, done: seq<Item>, item: Item)
    ensures ExpectedIds(r, done + [item]) == ExpectedIds(r, done) + {EvidenceIdOf(r, item)}
  {}

  /** Where the rebuild of `saved` stands after the items `done`. */
  ghost predicate Standing(
    r: Reader, saved: Tables, done: seq<Item>, known: seq<Claim>, expected: set<EvidenceId>, t: Tables) {
    && WellNamed(t) && t == Written(r, saved, done)
    && Remembers(r, known, Known(r, done), t) && expected == ExpectedIds(r, done)
  }

  lemma StandingStep(
    r: Reader, saved: Tables, done: seq<Item>, known: seq<Claim>, expected: set<EvidenceId>, t: Tables,
    item: Item, d: Decision, next: seq<Claim>, after: Tables)
    requires Standing(r, saved, done, known, expected, t) && WellNamed(after)
    requires d == Decide(r, IdOf(r, item), IdsOf(known)) && after == Write(r, t, item, d)
    requires Remembers(r, next, if d.claim == IdOf(r, item) && d.claim !in IdsOf(known) then IdsOf(known) + [d.claim]
      else IdsOf(known), after)
    ensures Standing(r, saved, done + [item], next, expected + {EvidenceIdOf(r, item)}, after)
  {
    WrittenStep(r, saved, done, item, d);
    KnownStep(r, done, item);
    ExpectedStep(r, done, item);
  }

  /** What the loops of `rebuild` carry. */
  datatype Progress = Progress(tables: Tables, known: seq<Claim>, expected: set<EvidenceId>)

  function Absorbed(r: Reader, p: Progress, item: Item): Progress {
    var d := Decide(r, IdOf(r, item), IdsOf(p.known));
    var tables := Write(r, p.tables, item, d);
    Progress(
      tables,
      if d.claim == IdOf(r, item) && d.claim !in IdsOf(p.known) then p.known + [tables.claims[d.claim]] else p.known,
      p.expected + {EvidenceIdOf(r, item)})
  }

  function ProgressAfter(r: Reader, saved: Tables, done: seq<Item>): Progress {
    if done == [] then Progress(saved, [], {})
    else Absorbed(r, ProgressAfter(r, saved, done[..|done| - 1]), done[|done| - 1])
  }

  lemma {:induction false} ProgressStands(r: Reader, saved: Tables, done: seq<Item>)
    requires WellNamed(saved)
    ensures var p := ProgressAfter(r, saved, done); Standing(r, saved, done, p.known, p.expected, p.tables)
  {
    if done != [] {
      var front, item := done[..|done| - 1], done[|done| - 1];
      assert done == front + [item];
      ProgressStands(r, saved, front);
      AbsorbedStands(r, saved, front, ProgressAfter(r, saved, front), item);
    }
  }

  lemma AbsorbedStands(r: Reader, saved: Tables, done: seq<Item>, p: Progress, item: Item)
    requires Standing(r, saved, done, p.known, p.expected, p.tables)
    ensures var q := Absorbed(r, p, item); Standing(r, saved, done + [item], q.known, q.expected, q.tables)
  {
    var d, q := Decide(r, IdOf(r, item), IdsOf(p.known)), Absorbed(r, p, item);
    DecidedIsStored(r, IdOf(r, item), p.known, p.tables);
    WriteIsWellNamed(r, p.tables, item, d);
    StillRemembers(r, p, item);
    StandingStep(r, saved, done, p.known, p.expected, p.tables, item, d, q.known, q.tables);
  }

  lemma StillRemembers(r: Reader, p: Progress, item: Item)
    requires Remembers(r, p.known, IdsOf(p.known), p.tables) && WellNamed(Absorbed(r, p, item).tables)
    ensures var d, q := Decide(r, IdOf(r, item), IdsOf(p.known)), Absorbed(r, p, item);
      Remembers(r, q.known, if d.claim == IdOf(r, item) && d.claim !in IdsOf(p.known) then IdsOf(p.known) + [d.claim]
        else IdsOf(p.known), q.tables)
  {
    var d, q := Decide(r, IdOf(r, item), IdsOf(p.known)), Absorbed(r, p, item);
    if q.known != p.known {
      assert ClaimNamed(q.tables.claims[d.claim]);
      assert IdsOf(q.known) == IdsOf(p.known) + [d.claim];
    }
  }

  /** One extracted span of `rebuild`, and its bookkeeping. */
  method AbsorbSpan(
    db: ClaimDatabase, r: Reader, item: Item, known: seq<Claim>, ids: set<EvidenceId>, ghost saved: Tables,
    ghost done: seq<Item>)
    returns (ok: bool, next: seq<Claim>, expected: set<EvidenceId>, ghost now: seq<Item>)
    requires WellNamed(saved) && Progress(db.View(), known, ids) == ProgressAfter(r, saved, done)
    modifies db
    ensures now == done + [item]
    ensures ok && Progress(db.View(), next, expected) == ProgressAfter(r, saved, now)
  {
    now := done + [item];
    ProgressStands(r, saved, done);
    assert now[..|done|] == done;
    ok, next := Absorb(db, r, item, known);
    expected := ids + {EvidenceIdOf(r, item)};
  }

  /** The inner loop of `rebuild`: the spans of one unit. */
  method AbsorbUnit(
    db: ClaimDatabase, r: Reader, u: SemanticUnit, known: seq<Claim>, ids: set<EvidenceId>, ghost saved: Tables,
    ghost done: seq<Item>)
    returns (ok: bool, next: seq<Claim>, expected: set<EvidenceId>, count: nat)
    requires WellNamed(saved) && Progress(db.View(), known, ids) == ProgressAfter(r, saved, done)
    modifies db
    ensures ok && Progress(db.View(), next, expected) == ProgressAfter(r, saved, done + ItemsOf(r, u))
    ensures count == |ItemsOf(r, u)|
  {
    var spans := r.extract(u.content);
    ghost var items := ItemsOf(r, u);
    ok, next, expected, count := true, known, ids, 0;
    ghost var now := done;
    for k := 0 to |spans|
      invariant now == done + items[..k] && count == k
      invariant ok && Progress(db.View(), next, expected) == ProgressAfter(r, saved, now)
    {
      var absorbed;
      absorbed, next, expected, now := AbsorbSpan(db, r, Item(u, spans[k]), next, expected, saved, now);
      ok, count := ok && absorbed, count + 1;
    }
    assert items[..|items|] == items;
  }

  /** `rebuild`: never fails on well-named tables, and returns the number of spans. */
  method RebuildClaims(db: ClaimDatabase, r: Reader, units: seq<SemanticUnit>) returns (ok: bool, count: nat)
    requires WellNamed(db.View())
    modifies db
    ensures ok && count == SpanCount(r, units)
    ensures db.View() == Rebuilt(r, old(db.View()), Items(r, units))
  {
    ghost var saved := db.View();
    var known: seq<Claim> := [];
    var expected: set<EvidenceId> := {};
    ok, count := true, 0;
    for i := 0 to |units|
      invariant ok && Progress(db.View(), known, expected) == ProgressAfter(r, saved, Items(r, units[..i]))
      invariant count == |Items(r, units[..i])|
    {
      assert units[..i + 1][..i] == units[..i];
      var absorbed, added;
      absorbed, known, expected, added := AbsorbUnit(db, r, units[i], known, expected, saved, Items(r, units[..i]));
      ok, count := ok && absorbed, count + added;
    }
    assert units[..|units|] == units;
    ProgressStands(r, saved, Items(r, units));
    SpansCounted(r, units);
    Prune(db, expected);
  }

  /** The two DELETE statements and the cascades they start. */
  method Prune(db: ClaimDatabase, expected: set<EvidenceId>)
    modifies db
    ensures db.View() == Pruned(old(db.View()), expected)
  {
    var gone := db.evidence.Keys - expected;
    db.evidence, db.decisions := db.evidence - gone, db.decisions - gone;
    var orphans := set c | c in db.claims && !Evidenced(db.evidence, c);
    db.claims := db.claims - orphans;
    db.evidence := map e | e in db.evidence && db.evidence[e].claim !in orphans :: db.evidence[e];
    db.decisions := map e | e in db.decisions && db.decisions[e].claim !in orphans :: db.decisions[e];
  }
}
