/** What a rebuild of the claims comes to, span by span, in terms of the units and the tables. */
module ClaimEffects {
  import opened Schema
  import opened SemanticUnits
  import opened Claims

  // ---------------------------------------------------------------- every span is read

  /** The spans are read unit by unit and in the order of the text: before span `k` of unit `i`
      come the spans of the units before it and `k` of its own. */
  lemma {:induction false} SpansInOrder(r: Reader, units: seq<SemanticUnit>, i: nat, k: nat)
    requires i < |units| && k < |r.extract(units[i].content)|
    ensures |Items(r, units)| == SpanCount(r, units)
    ensures SpanCount(r, units[..i]) + k < |Items(r, units)|
    ensures Items(r, units)[SpanCount(r, units[..i]) + k] == Item(units[i], r.extract(units[i].content)[k])
  {
    var n := |units| - 1;
    SpansCounted(r, units);
    SpansCounted(r, units[..n]);
    if i < n {
      SpansInOrder(r, units[..n], i, k);
      assert units[..n][..i] == units[..i];
    }
  }

  lemma {:induction false} SpanOfItem(r: Reader, units: seq<SemanticUnit>, j: nat) returns (i: nat, k: nat)
    requires j < |Items(r, units)|
    ensures i < |units| && k < |r.extract(units[i].content)|
    ensures Items(r, units)[j] == Item(units[i], r.extract(units[i].content)[k])
  {
    var n := |units| - 1;
    if j < |Items(r, units[..n])| {
      i, k := SpanOfItem(r, units[..n], j);
    } else {
      i, k := n, j - |Items(r, units[..n])|;
    }
  }

  // ---------------------------------------------------------------- every span is evidence

  /** Units with distinct ids, whose spans never overlap. */
  ghost predicate Separable(r: Reader, units: seq<SemanticUnit>) {
    DistinctUnits(units) && forall u :: u in units ==> Apart(r.extract(u.content))
  }

  /** The evidence row and the decision of one span: the row repeats unit and span, names a
      stored claim of the entity signature and polarity of the sentence, and its decision
      names the same claim. */
  ghost predicate IsEvidence(r: Reader, t: Tables, u: SemanticUnit, span: Span) {
    var id := EvidenceSha(u.id, span.start, span.end, r.extractor);
    && id in t.evidence && id in t.decisions
    && t.evidence[id].claim == t.decisions[id].claim && t.evidence[id].claim in t.claims
    && t.evidence[id] == Evidence(t.decisions[id].claim, u.id, u.source, span.start, span.end, span.content,
         Sha256(span.content), u.updatedAt, r.extractor, "claim-equivalence-v1")
    && var claim := t.claims[t.evidence[id].claim];
       && claim.id == ClaimSha(claim.version, claim.form, claim.signature, claim.polarity)
       && claim.version == r.canonicalizer
       && claim.signature == r.signature(u.id, span.start, span.end)
       && claim.polarity == r.normalize(span.content).1
       && (claim.form == r.normalize(span.content).0 || t.decisions[id].verdict == HighConfidenceSemantic)
  }

  ghost predicate EvidenceFrom(r: Reader, units: seq<SemanticUnit>, e: EvidenceId) {
    exists i, k :: 0 <= i < |units| && 0 <= k < |r.extract(units[i].content)|
      && e == EvidenceAt(r, units[i], r.extract(units[i].content)[k])
  }

  function EvidenceAt(r: Reader, u: SemanticUnit, span: Span): EvidenceId {
    EvidenceSha(u.id, span.start, span.end, r.extractor)
  }

  lemma ItemIsEvidence(r: Reader, t: Tables, items: seq<Item>, j: nat)
    requires Claims.WellNamed(t) && DistinctItems(r, items) && j < |items|
    ensures IsEvidence(r, Rebuilt(r, t, items), items[j].unit, items[j].span)
  {
    var s, d := Rebuilt(r, t, items), Decisions(r, items)[j];
    RebuiltReflects(r, t, items);
    assert RowsAt(r, items[j], d, s);
    DecidedIsKnown(r, items, j);
    KnownVersions(r, items);
    KnownVersions(r, items[..j]);
    DecidesAKnownOrItself(r, IdOf(r, items[j]), Known(r, items[..j]));
    RebuiltClaimIsNamed(r, t, items, d.claim);
  }

  /** Every span of every unit has its evidence row and its decision after a rebuild. */
  lemma SpanIsEvidence(r: Reader, t: Tables, units: seq<SemanticUnit>, i: nat, k: nat)
    requires Claims.WellNamed(t) && Separable(r, units)
    requires i < |units| && k < |r.extract(units[i].content)|
    ensures IsEvidence(r, Rebuilt(r, t, Items(r, units)), units[i], r.extract(units[i].content)[k])
  {
    var u, span := units[i], r.extract(units[i].content)[k];
    var j := SpanIsAnItem(r, units, i, k);
    ItemsAreDistinct(r, units);
    ItemAtIsEvidence(r, t, Items(r, units), j, u, span);
  }

  lemma SpanIsAnItem(r: Reader, units: seq<SemanticUnit>, i: nat, k: nat) returns (j: nat)
    requires i < |units| && k < |r.extract(units[i].content)|
    ensures j < |Items(r, units)| && Items(r, units)[j] == Item(units[i], r.extract(units[i].content)[k])
  {
    j := SpanCount(r, units[..i]) + k;
    SpansInOrder(r, units, i, k);
  }

  lemma ItemAtIsEvidence(r: Reader, t: Tables, items: seq<Item>, j: nat, u: SemanticUnit, span: Span)
    requires Claims.WellNamed(t) && DistinctItems(r, items) && j < |items| && items[j] == Item(u, span)
    ensures IsEvidence(r, Rebuilt(r, t, items), u, span)
  {
    ItemIsEvidence(r, t, items, j);
  }

  /** There is no evidence but that of the spans, and no decision without evidence; the rows
      are as many as the spans. */
  lemma EvidenceComesFromSpans(r: Reader, t: Tables, units: seq<SemanticUnit>)
    requires Claims.WellNamed(t) && Separable(r, units)
    ensures var s := Rebuilt(r, t, Items(r, units));
      && (forall e :: e in s.evidence ==> EvidenceFrom(r, units, e))
      && (forall e :: e in s.decisions <==> e in s.evidence)
      && |s.evidence| == SpanCount(r, units)
  {
    var items := Items(r, units);
    ItemsAreDistinct(r, units);
    RebuiltReflects(r, t, items);
    forall e | e in ExpectedIds(r, items) ensures EvidenceFrom(r, units, e) {
      var j := ExpectedItem(r, items, e);
      var i, k := SpanOfItem(r, units, j);
    }
    OneRowPerSpan(r, t, items);
    SpansCounted(r, units);
  }

  // ---------------------------------------------------------------- every decision is explained

  /** The identity of a sentence: its normal form, its entities and its polarity. */
  function IdentityOf(r: Reader, item: Item): ClaimId {
    ClaimSha(r.canonicalizer, r.normalize(item.span.content).0,
      r.signature(item.unit.id, item.span.start, item.span.end), r.normalize(item.span.content).1)
  }

  /** The decision stored for a span. */
  function StoredDecision(r: Reader, s: Tables, item: Item): Decision
    requires EvidenceAt(r, item.unit, item.span) in s.decisions
  {
    s.decisions[EvidenceAt(r, item.unit, item.span)]
  }

  ghost predicate AllStored(r: Reader, s: Tables, items: seq<Item>) {
    forall i :: 0 <= i < |items| ==> EvidenceAt(r, items[i].unit, items[i].span) in s.decisions
  }

  /** A sentence before the `i`th was decided to be the claim. */
  ghost predicate NamedBefore(r: Reader, s: Tables, items: seq<Item>, i: nat, c: ClaimId)
    requires i <= |items| && AllStored(r, s, items)
  {
    exists j :: 0 <= j < i && StoredDecision(r, s, items[j]).claim == c
  }

  /** A claim named before that speaks of the same entities with the same polarity. */
  ghost predicate Rival(r: Reader, s: Tables, items: seq<Item>, i: nat, c: ClaimId, k: ClaimId)
    requires i <= |items| && AllStored(r, s, items)
  {
    NamedBefore(r, s, items, i, k) && k.signature == c.signature && k.polarity == c.polarity
  }

  /** Of all rivals `k` is most similar to the sentence, and the first named among equals. */
  ghost predicate MostSimilar(r: Reader, s: Tables, items: seq<Item>, i: nat, c: ClaimId, k: ClaimId)
    requires i <= |items| && AllStored(r, s, items)
  {
    && Rival(r, s, items, i, c, k)
    && (forall x :: Rival(r, s, items, i, c, x) ==> r.score(c.form, x.form) <= r.score(c.form, k.form))
    && exists j :: 0 <= j < i && StoredDecision(r, s, items[j]).claim == k
         && forall x :: Rival(r, s, items, j, c, x) ==> r.score(c.form, x.form) < r.score(c.form, k.form)
  }

  /** Why a sentence was decided as it was.  Its identity was named before; or, when it has
      entities, the most similar rival reaches 0.94; or it stands for itself, at the similarity
      of that rival. */
  ghost predicate IsExplained(r: Reader, s: Tables, items: seq<Item>, i: nat)
    requires i < |items| && AllStored(r, s, items)
  {
    var c, d := IdentityOf(r, items[i]), StoredDecision(r, s, items[i]);
    if NamedBefore(r, s, items, i, c) then d == Decision(c, Exact, 1.0)
    else if c.signature == "" || forall k :: !Rival(r, s, items, i, c, k) then d == Decision(c, Separate, 0.0)
    else exists k :: MostSimilar(r, s, items, i, c, k) && var score := r.score(c.form, k.form);
         d == if score >= 0.94 then Decision(k, HighConfidenceSemantic, score) else Decision(c, Separate, score)
  }

  /** The tables hold the decisions that the items get in their order. */
  ghost predicate HoldsDecisions(r: Reader, s: Tables, items: seq<Item>) {
    && AllStored(r, s, items)
    && forall i :: 0 <= i < |items| ==> StoredDecision(r, s, items[i]) == Decisions(r, items)[i]
  }

  lemma DecisionsAreStored(r: Reader, t: Tables, items: seq<Item>)
    requires Claims.WellNamed(t) && DistinctItems(r, items)
    ensures HoldsDecisions(r, Rebuilt(r, t, items), items)
  {
    RebuiltReflects(r, t, items);
    forall i | 0 <= i < |items| ensures RowsAt(r, items[i], Decisions(r, items)[i], Rebuilt(r, t, items)) {}
  }

  /** The claims known before an item are the claims named before it. */
  lemma {:induction false} KnownIffNamed(r: Reader, s: Tables, items: seq<Item>, i: nat, c: ClaimId)
    requires i <= |items| && HoldsDecisions(r, s, items)
    ensures c in Known(r, items[..i]) <==> NamedBefore(r, s, items, i, c)
  {
    DecisionsOfPrefix(r, items, i);
    if c in Known(r, items[..i]) {
      var j := KnownWasIntroduced(r, items[..i], c);
      assert StoredDecision(r, s, items[j]).claim == c;
    }
    if j :| 0 <= j < i && StoredDecision(r, s, items[j]).claim == c {
      DecidedIsKnown(r, items[..i], j);
    }
  }

  /** The position at which a known claim was first named. */
  lemma {:induction false} IntroducedAt(r: Reader, items: seq<Item>, m: nat) returns (j: nat)
    requires m < |Known(r, items)|
    ensures j < |items| && Decisions(r, items)[j].claim == Known(r, items)[m] && |Known(r, items[..j])| == m
    ensures Known(r, items)[..m] == Known(r, items[..j])
  {
    var n := |items| - 1;
    DecisionsOfPrefix(r, items, n);
    if m < |Known(r, items[..n])| {
      j := IntroducedAt(r, items[..n], m);
      assert items[..n][..j] == items[..j];
      assert Known(r, items[..n]) <= Known(r, items);
    } else {
      j := n;
    }
  }

  lemma BestIsMostSimilar(r: Reader, s: Tables, items: seq<Item>, i: nat, c: ClaimId)
    requires i <= |items| && HoldsDecisions(r, s, items)
    requires Best(r, c, Known(r, items[..i])).Some?
    ensures MostSimilar(r, s, items, i, c, Best(r, c, Known(r, items[..i])).value)
  {
    var known := Known(r, items[..i]);
    var m := BestIndex(r, c, known);
    var j := IntroducedAt(r, items[..i], m);
    DecisionsOfPrefix(r, items, i);
    assert items[..i][..j] == items[..j];
    RivalsAreKnown(r, s, items, i, c);
    RivalsAreKnown(r, s, items, j, c);
    forall x | Rival(r, s, items, j, c, x) ensures r.score(c.form, x.form) < r.score(c.form, known[m].form) {
      assert x in known[..m];
    }
    assert StoredDecision(r, s, items[j]).claim == known[m];
    assert known[m] in known;
  }

  lemma RivalsAreKnown(r: Reader, s: Tables, items: seq<Item>, i: nat, c: ClaimId)
    requires i <= |items| && HoldsDecisions(r, s, items)
    ensures forall x :: Rival(r, s, items, i, c, x) <==> x in Known(r, items[..i]) && Comparable(c, x)
  {
    forall x ensures Rival(r, s, items, i, c, x) <==> x in Known(r, items[..i]) && Comparable(c, x) {
      KnownIffNamed(r, s, items, i, x);
    }
  }

  lemma DecisionIsExplained(r: Reader, s: Tables, items: seq<Item>, i: nat)
    requires i < |items| && HoldsDecisions(r, s, items)
    ensures IsExplained(r, s, items, i)
  {
    var c, known := IdentityOf(r, items[i]), Known(r, items[..i]);
    assert c == IdOf(r, items[i]) && StoredDecision(r, s, items[i]) == Decide(r, c, known);
    KnownVersions(r, items[..i]);
    KnownIffNamed(r, s, items, i, c);
    DecidesAKnownOrItself(r, c, known);
    if c !in known && c.signature != "" {
      RivalsAreKnown(r, s, items, i, c);
      NoneIsBestIff(r, c, known);
      if Best(r, c, known).Some? { BestIsMostSimilar(r, s, items, i, c); }
    }
  }

  /** After a rebuild every stored decision is the one its sentence gets from the decisions
      stored for the sentences before it. */
  lemma EveryDecisionIsExplained(r: Reader, t: Tables, units: seq<SemanticUnit>, i: nat)
    requires Claims.WellNamed(t) && Separable(r, units)
    requires i < |Items(r, units)|
    ensures var s, items := Rebuilt(r, t, Items(r, units)), Items(r, units);
      AllStored(r, s, items) && IsExplained(r, s, items, i)
  {
    ItemsAreDistinct(r, units);
    DecisionsAreStored(r, t, Items(r, units));
    DecisionIsExplained(r, Rebuilt(r, t, Items(r, units)), Items(r, units), i);
  }

  // ---------------------------------------------------------------- every claim has its text

  lemma {:induction false} TextOfWritten(r: Reader, t: Tables, items: seq<Item>, c: ClaimId) returns (j: nat)
    requires c !in t.claims && c in Known(r, items)
    ensures j < |items| && IdOf(r, items[j]) == c && c !in Known(r, items[..j])
    ensures c in Written(r, t, items).claims && Written(r, t, items).claims[c] == Candidate(r, items[j])
  {
    var n := |items| - 1;
    DecisionsOfPrefix(r, items, n);
    WrittenClaims(r, t, items[..n], c);
    if c in Known(r, items[..n]) {
      j := TextOfWritten(r, t, items[..n], c);
      assert items[..n][..j] == items[..j];
    } else {
      j := n;
    }
  }

  /** A claim that was stored before keeps its row; a new one has the text of the first
      sentence with its identity. */
  lemma TextIsOfTheFirst(r: Reader, t: Tables, items: seq<Item>, c: ClaimId)
    requires Claims.WellNamed(t) && DistinctItems(r, items) && c in Rebuilt(r, t, items).claims
    ensures c in t.claims ==> Rebuilt(r, t, items).claims[c] == t.claims[c]
    ensures c !in t.claims ==>
      exists j :: 0 <= j < |items| && IdentityOf(r, items[j]) == c
        && Rebuilt(r, t, items).claims[c] == Claim(c, items[j].span.content, c.form, c.signature, c.polarity, c.version)
        && forall i :: 0 <= i < j ==> IdentityOf(r, items[i]) != c
  {
    RebuiltReflects(r, t, items);
    RebuiltClaim(r, t, items, c);
    WrittenClaims(r, t, items, c);
    if c !in t.claims {
      var j := TextOfWritten(r, t, items, c);
      forall i | 0 <= i < j ensures IdentityOf(r, items[i]) != c {
        if IdentityOf(r, items[i]) == c { EarlierWasMerged(r, items, i, j, c); }
      }
    }
  }

  lemma EarlierWasMerged(r: Reader, items: seq<Item>, i: nat, j: nat, c: ClaimId)
    requires i < j <= |items| && IdOf(r, items[i]) == c && c !in Known(r, items[..j])
    ensures c !in Known(r, items)
  {
    EarlierIsUnknown(r, items, i, j, c);
    KnownVersions(r, items[..i]);
    DecidesAKnownOrItself(r, c, Known(r, items[..i]));
    MergedIsNeverStored(r, items, i, c);
  }

  lemma EarlierIsUnknown(r: Reader, items: seq<Item>, i: nat, j: nat, c: ClaimId)
    requires i < j <= |items| && IdOf(r, items[i]) == c && c !in Known(r, items[..j])
    ensures c !in Known(r, items[..i]) && Decide(r, c, Known(r, items[..i])).claim != c
  {
    if c in Known(r, items[..i]) { KnownIsMonotone(r, items, i, j, c); }
    if c in Known(r, items[..i + 1]) { KnownIsMonotone(r, items, i + 1, j, c); }
    assert items[..i + 1] == items[..i] + [items[i]];
    KnownStep(r, items[..i], items[i]);
  }

  lemma KnownIsMonotone(r: Reader, items: seq<Item>, i: nat, j: nat, c: ClaimId)
    requires i <= j <= |items| && c in Known(r, items[..i])
    ensures c in Known(r, items[..j])
  {
    KnownGrows(r, items[..j], i);
    assert items[..j][..i] == items[..i];
  }
}
