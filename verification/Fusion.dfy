/** Reciprocal rank fusion (`retrieval/rrf.py`), over exact reals.  An evidence id is the place
    of its text in the ordering of texts. */
module Fusion {
  import opened Schema

  type EvidenceId = nat

  datatype RankedEvidence = RankedEvidence(
    id: EvidenceId, about: string, lexicalRank: Option<nat>, lexicalScore: Option<real>,
    vectorRank: Option<nat>, vectorSimilarity: Option<real>, fusedScore: real)

  // ---------------------------------------------------------------- scores

  function Weight(k: nat, rank: nat): real
    requires k + rank > 0
  {
    1.0 / (k + rank) as real
  }

  /** What a list contributes to an id. */
  function Contribution(k: nat, list: seq<RankedEvidence>, id: EvidenceId): real
    requires k > 0
  {
    if list == [] then 0.0
    else
      var n := |list| - 1;
      Contribution(k, list[..n], id) + if list[n].id == id then Weight(k, n + 1) else 0.0
  }

  function Score(k: nat, lexical: seq<RankedEvidence>, vector: seq<RankedEvidence>, id: EvidenceId): real
    requires k > 0
  {
    Contribution(k, lexical, id) + Contribution(k, vector, id)
  }

  predicate Occurs(list: seq<RankedEvidence>, id: EvidenceId) {
    exists i :: 0 <= i < |list| && list[i].id == id
  }

  // ---------------------------------------------------------------- records

  /** Python's `or`: an absent or zero rank gives way. */
  function FirstRank(a: Option<nat>, b: Option<nat>): Option<nat> {
    if a.Some? && a.value != 0 then a else b
  }

  function FirstOf<T>(a: Option<T>, b: Option<T>): Option<T> {
    if a.Some? then a else b
  }

  function Joined(prior: RankedEvidence, c: RankedEvidence): RankedEvidence {
    prior.(lexicalRank := FirstRank(prior.lexicalRank, c.lexicalRank),
           lexicalScore := FirstOf(prior.lexicalScore, c.lexicalScore),
           vectorRank := FirstRank(prior.vectorRank, c.vectorRank),
           vectorSimilarity := FirstOf(prior.vectorSimilarity, c.vectorSimilarity))
  }

  /** The record kept for an id after the list. */
  function Combined(prior: Option<RankedEvidence>, list: seq<RankedEvidence>, id: EvidenceId): Option<RankedEvidence> {
    if list == [] then prior
    else
      var before, c := Combined(prior, list[..|list| - 1], id), list[|list| - 1];
      if c.id != id then before else if before.None? then Some(c) else Some(Joined(before.value, c))
  }

  function Record(lexical: seq<RankedEvidence>, vector: seq<RankedEvidence>, id: EvidenceId): Option<RankedEvidence> {
    Combined(Combined(None, lexical, id), vector, id)
  }

  // ---------------------------------------------------------------- the result

  /** Higher scores first, then smaller ids. */
  predicate Precedes(a: RankedEvidence, b: RankedEvidence) {
    a.fusedScore > b.fusedScore || (a.fusedScore == b.fusedScore && a.id < b.id)
  }

  predicate InOrder(result: seq<RankedEvidence>) {
    forall i, j :: 0 <= i < j < |result| ==> Precedes(result[i], result[j])
  }

  /** Every id of either list once, with its score and its record, in order. */
  ghost predicate IsFused(
    k: nat, lexical: seq<RankedEvidence>, vector: seq<RankedEvidence>, result: seq<RankedEvidence>)
    requires k > 0
  {
    && InOrder(result)
    && (forall id :: Occurs(result, id) <==> Occurs(lexical, id) || Occurs(vector, id))
    && (forall i :: 0 <= i < |result| ==>
          && result[i].fusedScore == Score(k, lexical, vector, result[i].id)
          && Some(result[i]) == WithScore(Record(lexical, vector, result[i].id), result[i].fusedScore))
  }

  function WithScore(record: Option<RankedEvidence>, score: real): Option<RankedEvidence> {
    if record.None? then None else Some(record.value.(fusedScore := score))
  }

  type Records = map<EvidenceId, RankedEvidence>
  type Scores = map<EvidenceId, real>

  // ---------------------------------------------------------------- reading a list

  function ScoreIn(scores: Scores, id: EvidenceId): real {
    if id in scores then scores[id] else 0.0
  }

  function RecordIn(combined: Records, id: EvidenceId): Option<RankedEvidence> {
    if id in combined then Some(combined[id]) else None
  }

  ghost predicate ReadOnto(
    k: nat, family: seq<RankedEvidence>, scores: Scores, combined: Records, s: Scores, c: Records)
    requires k > 0
  {
    && (forall id :: id in s <==> id in scores || Occurs(family, id))
    && (forall id :: ScoreIn(s, id) == ScoreIn(scores, id) + Contribution(k, family, id))
    && (forall id :: RecordIn(c, id) == Combined(RecordIn(combined, id), family, id))
  }

  lemma OccursOneMore(list: seq<RankedEvidence>, c: RankedEvidence, id: EvidenceId)
    ensures Occurs(list + [c], id) <==> Occurs(list, id) || c.id == id
  {
    if Occurs(list, id) {
      var i :| 0 <= i < |list| && list[i].id == id;
      assert (list + [c])[i].id == id;
    }
    assert (list + [c])[|list|] == c;
  }

  lemma ReadOneMore(
    k: nat, family: seq<RankedEvidence>, x: RankedEvidence, scores: Scores, combined: Records, s: Scores, c: Records,
    s': Scores, c': Records)
    requires k > 0 && ReadOnto(k, family, scores, combined, s, c)
    requires s' == s[x.id := ScoreIn(s, x.id) + Weight(k, |family| + 1)]
    requires c' == c[x.id := if x.id in c then Joined(c[x.id], x) else x]
    ensures ReadOnto(k, family + [x], scores, combined, s', c')
  {
    var more := family + [x];
    assert more[..|family|] == family;
    forall id ensures Occurs(more, id) <==> Occurs(family, id) || x.id == id { OccursOneMore(family, x, id); }
    forall id ensures RecordIn(c', id) == Combined(RecordIn(combined, id), more, id) {
      assert RecordIn(c, id) == Combined(RecordIn(combined, id), family, id);
    }
  }

  /** The inner loop of `fuse`. */
  method ReadFamily(
    k: nat, family: seq<RankedEvidence>, scores: Scores, combined: Records)
    returns (s: Scores, c: Records)
    requires k > 0
    ensures ReadOnto(k, family, scores, combined, s, c)
  {
    s, c := scores, combined;
    for i := 0 to |family|
      invariant ReadOnto(k, family[..i], scores, combined, s, c)
    {
      var x := family[i];
      ghost var s0, c0 := s, c;
      s := s[x.id := ScoreIn(s, x.id) + Weight(k, i + 1)];
      c := c[x.id := if x.id in c then Joined(c[x.id], x) else x];
      ReadOneMore(k, family[..i], x, scores, combined, s0, c0, s, c);
      assert family[..i] + [x] == family[..i + 1];
    }
    assert family[..|family|] == family;
  }

  // ---------------------------------------------------------------- sorting

  predicate KeyPrecedes(scores: Scores, a: EvidenceId, b: EvidenceId)
    requires a in scores && b in scores
  {
    scores[a] > scores[b] || (scores[a] == scores[b] && a < b)
  }

  ghost predicate IsFirst(scores: Scores, rest: set<EvidenceId>, a: EvidenceId) {
    rest <= scores.Keys && a in rest && forall b :: b in rest && b != a ==> KeyPrecedes(scores, a, b)
  }

  lemma {:induction false} FirstExists(scores: Scores, rest: set<EvidenceId>)
    requires rest != {} && rest <= scores.Keys
    ensures exists a :: IsFirst(scores, rest, a)
    decreases |rest|
  {
    var x :| x in rest;
    if rest == {x} {
      assert IsFirst(scores, rest, x);
    } else {
      FirstExists(scores, rest - {x});
      var y :| IsFirst(scores, rest - {x}, y);
      var best := if KeyPrecedes(scores, y, x) then y else x;
      forall b | b in rest && b != best ensures KeyPrecedes(scores, best, b) {
        assert b == x || b == y || KeyPrecedes(scores, y, b);
      }
      assert IsFirst(scores, rest, best);
    }
  }

  /** `sorted` by descending score, then id. */
  method SortedIds(scores: Scores) returns (ids: seq<EvidenceId>)
    ensures forall id :: id in ids <==> id in scores
    ensures forall i :: 0 <= i < |ids| ==> ids[i] in scores
    ensures forall i, j :: 0 <= i < j < |ids| ==> KeyPrecedes(scores, ids[i], ids[j])
  {
    ids := [];
    var rest := scores.Keys;
    while rest != {}
      invariant rest <= scores.Keys && forall id :: id in scores <==> id in ids || id in rest
      invariant forall i :: 0 <= i < |ids| ==> ids[i] in scores
      invariant forall i, j :: 0 <= i < j < |ids| ==> KeyPrecedes(scores, ids[i], ids[j])
      invariant forall i, b :: 0 <= i < |ids| && b in rest ==> KeyPrecedes(scores, ids[i], b)
      decreases |rest|
    {
      FirstExists(scores, rest);
      var a :| a in rest && forall b :: b in rest && b != a ==> KeyPrecedes(scores, a, b);
      ids, rest := ids + [a], rest - {a};
    }
  }

  lemma {:induction false} RecordFacts(prior: Option<RankedEvidence>, list: seq<RankedEvidence>, id: EvidenceId)
    requires prior.Some? ==> prior.value.id == id
    ensures Combined(prior, list, id).Some? <==> prior.Some? || Occurs(list, id)
    ensures Combined(prior, list, id).Some? ==> Combined(prior, list, id).value.id == id
  {
    if list != [] {
      var n := |list| - 1;
      RecordFacts(prior, list[..n], id);
      OccursOneMore(list[..n], list[n], id);
      assert list == list[..n] + [list[n]];
    }
  }

  lemma ReadBoth(
    k: nat, lexical: seq<RankedEvidence>, vector: seq<RankedEvidence>, s0: Scores, c0: Records, s: Scores, c: Records,
    id: EvidenceId)
    requires k > 0 && ReadOnto(k, lexical, map[], map[], s0, c0) && ReadOnto(k, vector, s0, c0, s, c)
    ensures ScoreIn(s, id) == Score(k, lexical, vector, id) && RecordIn(c, id) == Record(lexical, vector, id)
    ensures id in s <==> Occurs(lexical, id) || Occurs(vector, id)
    ensures id in s ==> id in c && c[id].id == id
  {
    assert ScoreIn(s0, id) == 0.0 + Contribution(k, lexical, id);
    assert RecordIn(c0, id) == Combined(None, lexical, id);
    RecordFacts(None, lexical, id);
    RecordFacts(Combined(None, lexical, id), vector, id);
  }

  /** Scores and records of both lists, id by id. */
  ghost predicate ReadOf(k: nat, lexical: seq<RankedEvidence>, vector: seq<RankedEvidence>, s: Scores, c: Records)
    requires k > 0
  {
    && (forall id :: ScoreIn(s, id) == Score(k, lexical, vector, id))
    && (forall id :: RecordIn(c, id) == Record(lexical, vector, id))
    && (forall id :: id in s <==> Occurs(lexical, id) || Occurs(vector, id))
    && (forall id :: id in s ==> id in c && c[id].id == id)
  }

  lemma SortedIsFused(
    k: nat, lexical: seq<RankedEvidence>, vector: seq<RankedEvidence>, s: Scores, c: Records, ids: seq<EvidenceId>,
    result: seq<RankedEvidence>)
    requires k > 0 && ReadOf(k, lexical, vector, s, c)
    requires forall id :: id in ids <==> id in s
    requires forall i, j :: 0 <= i < j < |ids| ==> ids[i] in s && ids[j] in s && KeyPrecedes(s, ids[i], ids[j])
    requires |result| == |ids|
    requires forall i :: 0 <= i < |ids| ==> ids[i] in s && result[i] == c[ids[i]].(fusedScore := s[ids[i]])
    ensures IsFused(k, lexical, vector, result)
  {
    forall id ensures Occurs(result, id) <==> id in s {
      if id in s {
        var i :| 0 <= i < |ids| && ids[i] == id;
        assert result[i].id == id;
      }
    }
    forall i | 0 <= i < |result|
      ensures result[i].fusedScore == Score(k, lexical, vector, result[i].id)
      ensures Some(result[i]) == WithScore(Record(lexical, vector, result[i].id), result[i].fusedScore)
    {
      assert ScoreIn(s, ids[i]) == s[ids[i]] && RecordIn(c, ids[i]) == Some(c[ids[i]]);
    }
  }

  /** `RRFFuser.fuse`. */
  method Fuse(k: nat, lexical: seq<RankedEvidence>, vector: seq<RankedEvidence>) returns (result: seq<RankedEvidence>)
    requires 1 <= k <= 1000
    ensures IsFused(k, lexical, vector, result)
  {
    var scores, combined := ReadFamily(k, lexical, map[], map[]);
    ghost var s0, c0 := scores, combined;
    scores, combined := ReadFamily(k, vector, scores, combined);
    assert ReadOf(k, lexical, vector, scores, combined) by {
      forall id
        ensures ScoreIn(scores, id) == Score(k, lexical, vector, id)
          && RecordIn(combined, id) == Record(lexical, vector, id)
        ensures id in scores <==> Occurs(lexical, id) || Occurs(vector, id)
        ensures id in scores ==> id in combined && combined[id].id == id
      {
        ReadBoth(k, lexical, vector, s0, c0, scores, combined, id);
      }
    }
    var ids := SortedIds(scores);
    result := seq(|ids|, i requires 0 <= i < |ids| => combined[ids[i]].(fusedScore := scores[ids[i]]));
    SortedIsFused(k, lexical, vector, scores, combined, ids, result);
  }

  // ---------------------------------------------------------------- what fusion promises

  predicate OncePerId(list: seq<RankedEvidence>) {
    forall i, j :: 0 <= i < j < |list| ==> list[i].id != list[j].id
  }

  /** An order in which distinct ids are always comparable lists a set in one way only. */
  lemma {:induction false} OrderIsUnique(a: seq<RankedEvidence>, b: seq<RankedEvidence>)
    requires InOrder(a) && InOrder(b) && forall x :: x in a <==> x in b
    ensures a == b
  {
    assert (a != [] ==> a[0] in b) && (b != [] ==> b[0] in a);
    if a != [] {
      var x, y := a[0], b[0];
      assert x in b && y in a;
      var i :| 0 <= i < |b| && b[i] == x;
      var j :| 0 <= j < |a| && a[j] == y;
      assert x == y;
      forall z ensures z in a[1..] <==> z in b[1..] {
        if z in a[1..] {
          var m :| 0 <= m < |a[1..]| && a[1..][m] == z;
          assert Precedes(a[0], a[m + 1]) && z in a && z in b;
          var n :| 0 <= n < |b| && b[n] == z;
          assert b[1..][n - 1] == z;
        }
        if z in b[1..] {
          var m :| 0 <= m < |b[1..]| && b[1..][m] == z;
          assert Precedes(b[0], b[m + 1]) && z in b && z in a;
          var n :| 0 <= n < |a| && a[n] == z;
          assert a[1..][n - 1] == z;
        }
      }
      OrderIsUnique(a[1..], b[1..]);
    }
  }

  /** The contract of `fuse` determines its result. */
  lemma FusionIsDetermined(
    k: nat, lexical: seq<RankedEvidence>, vector: seq<RankedEvidence>, a: seq<RankedEvidence>, b: seq<RankedEvidence>)
    requires k > 0 && IsFused(k, lexical, vector, a) && IsFused(k, lexical, vector, b)
    ensures a == b
  {
    forall x ensures x in a <==> x in b {
      if x in a { FusedHas(k, lexical, vector, a, b, x); }
      if x in b { FusedHas(k, lexical, vector, b, a, x); }
    }
    OrderIsUnique(a, b);
  }

  lemma FusedHas(
    k: nat, lexical: seq<RankedEvidence>, vector: seq<RankedEvidence>, a: seq<RankedEvidence>, b: seq<RankedEvidence>,
    x: RankedEvidence)
    requires k > 0 && IsFused(k, lexical, vector, a) && IsFused(k, lexical, vector, b) && x in a
    ensures x in b
  {
    var i :| 0 <= i < |a| && a[i] == x;
    assert Occurs(a, x.id);
    assert Occurs(b, x.id);
    var j :| 0 <= j < |b| && b[j].id == x.id;
    assert Some(b[j]) == Some(a[i]);
  }

  /** The lists come from different retrievers: each fills its own columns, once per id, and
      they agree on what the evidence is. */
  ghost predicate Complementary(lexical: seq<RankedEvidence>, vector: seq<RankedEvidence>) {
    && OncePerId(lexical) && OncePerId(vector)
    && (forall c :: c in lexical ==> c.vectorRank.None? && c.vectorSimilarity.None? && c.fusedScore == 0.0)
    && (forall c :: c in vector ==> c.lexicalRank.None? && c.lexicalScore.None? && c.fusedScore == 0.0)
    && (forall c, d :: c in lexical && d in vector && c.id == d.id ==> c.about == d.about)
    && (forall c :: c in lexical ==> c.lexicalRank != Some(0))
    && (forall c :: c in vector ==> c.vectorRank != Some(0))
  }

  lemma {:induction false} RecordOfOne(prior: Option<RankedEvidence>, list: seq<RankedEvidence>, id: EvidenceId, i: nat)
    requires OncePerId(list) && i < |list| && list[i].id == id
    ensures Combined(prior, list, id) == Some(if prior.None? then list[i] else Joined(prior.value, list[i]))
  {
    var n := |list| - 1;
    if i < n {
      RecordOfOne(prior, list[..n], id, i);
      assert list[n].id != id;
    } else {
      forall j | 0 <= j < n ensures list[..n][j].id != id { assert list[j].id != list[n].id; }
      NothingContributed(1, list[..n], id);
    }
  }

  lemma {:induction false} NothingContributed(k: nat, list: seq<RankedEvidence>, id: EvidenceId)
    requires k > 0 && !Occurs(list, id)
    ensures Contribution(k, list, id) == 0.0
    ensures forall prior: Option<RankedEvidence> :: Combined(prior, list, id) == prior
  {
    if list != [] {
      var n := |list| - 1;
      assert list[n].id != id;
      forall i | 0 <= i < n ensures list[..n][i].id != id { assert list[i].id != id; }
      NothingContributed(k, list[..n], id);
    }
  }

  lemma SwappedRecord(lexical: seq<RankedEvidence>, vector: seq<RankedEvidence>, id: EvidenceId)
    requires Complementary(lexical, vector)
    ensures Record(lexical, vector, id) == Record(vector, lexical, id)
  {
    if Occurs(lexical, id) {
      var i :| 0 <= i < |lexical| && lexical[i].id == id;
      RecordOfOne(None, lexical, id, i);
      if Occurs(vector, id) {
        var j :| 0 <= j < |vector| && vector[j].id == id;
        RecordOfOne(None, vector, id, j);
        RecordOfOne(Some(lexical[i]), vector, id, j);
        RecordOfOne(Some(vector[j]), lexical, id, i);
        assert lexical[i] in lexical && vector[j] in vector;
      } else {
        NothingContributed(1, vector, id);
      }
    } else {
      NothingContributed(1, lexical, id);
    }
  }

  /** Swapping the lists changes nothing: same order, same scores, same records. */
  lemma SwappingIsNeutral(
    k: nat, lexical: seq<RankedEvidence>, vector: seq<RankedEvidence>, result: seq<RankedEvidence>)
    requires k > 0 && Complementary(lexical, vector)
    ensures IsFused(k, lexical, vector, result) <==> IsFused(k, vector, lexical, result)
  {
    forall id ensures Record(lexical, vector, id) == Record(vector, lexical, id) { SwappedRecord(lexical, vector, id); }
  }

  /** What the order of a result depends on. */
  function Ranking(result: seq<RankedEvidence>): seq<RankedEvidence> {
    seq(|result|, i requires 0 <= i < |result| => RankedEvidence(result[i].id, "", None, None, None, None,
      result[i].fusedScore))
  }

  /** Swapping any two lists keeps the ids, their order and their scores. */
  lemma SwappingKeepsTheRanking(
    k: nat, lexical: seq<RankedEvidence>, vector: seq<RankedEvidence>, a: seq<RankedEvidence>, b: seq<RankedEvidence>)
    requires k > 0 && IsFused(k, lexical, vector, a) && IsFused(k, vector, lexical, b)
    ensures |a| == |b| && forall i :: 0 <= i < |a| ==> a[i].id == b[i].id && a[i].fusedScore == b[i].fusedScore
  {
    forall x ensures x in Ranking(a) <==> x in Ranking(b) {
      if x in Ranking(a) { RankedInBoth(k, lexical, vector, a, b, x); }
      if x in Ranking(b) { RankedInBoth(k, vector, lexical, b, a, x); }
    }
    OrderIsUnique(Ranking(a), Ranking(b));
    assert |Ranking(a)| == |a| && |Ranking(b)| == |b|;
    forall i | 0 <= i < |a| ensures a[i].id == b[i].id && a[i].fusedScore == b[i].fusedScore {
      assert Ranking(a)[i] == Ranking(b)[i];
    }
  }

  lemma RankedInBoth(
    k: nat, lexical: seq<RankedEvidence>, vector: seq<RankedEvidence>, a: seq<RankedEvidence>, b: seq<RankedEvidence>,
    x: RankedEvidence)
    requires k > 0 && IsFused(k, lexical, vector, a) && IsFused(k, vector, lexical, b) && x in Ranking(a)
    ensures x in Ranking(b)
  {
    var i :| 0 <= i < |a| && Ranking(a)[i] == x;
    assert Occurs(a, a[i].id);
    assert Occurs(b, a[i].id);
    var j :| 0 <= j < |b| && b[j].id == a[i].id;
    assert Ranking(b)[j] == x;
  }

  // ---------------------------------------------------------------- the bound

  lemma {:induction false} ContributionAtRank(k: nat, list: seq<RankedEvidence>, id: EvidenceId, i: nat)
    requires k > 0 && OncePerId(list) && i < |list| && list[i].id == id
    ensures Contribution(k, list, id) == Weight(k, i + 1)
  {
    var n := |list| - 1;
    if i < n {
      ContributionAtRank(k, list[..n], id, i);
      assert list[n].id != id;
    } else {
      forall j | 0 <= j < n ensures list[..n][j].id != id { assert list[j].id != list[n].id; }
      NothingContributed(k, list[..n], id);
    }
  }

  lemma WeightFalls(k: nat, a: nat, b: nat)
    requires k > 0 && a <= b
    ensures Weight(k, b) <= Weight(k, a)
    ensures a < b ==> Weight(k, b) < Weight(k, a)
  {
    var x, y := (k + a) as real, (k + b) as real;
    assert 1.0 / x - 1.0 / y == (y - x) / (x * y);
  }

  lemma PositiveFactor(x: real, y: real)
    requires y > 0.0 && x * y > 0.0
    ensures x > 0.0
  {}

  lemma TwiceTheLimit(k: nat)
    requires k > 0
    ensures Weight(k, k + 1) + Weight(k, k + 1) > Weight(k, 1)
    ensures Weight(k, k + 2) + Weight(k, k + 2) == Weight(k, 1)
  {
    var u, v := (k + (k + 1)) as real, (k + 1) as real;
    var p, q := Weight(k, k + 1), Weight(k, 1);
    assert p * u == 1.0 && q * v == 1.0 && 2.0 * v == u + 1.0;
    assert (2.0 * p - q) * (u * v) == 2.0 * (p * u) * v - (q * v) * u;
    PositiveFactor(2.0 * p - q, u * v);
    assert (k + (k + 2)) as real == 2.0 * v;
  }

  /** An id ranked at most k + 1 in both lists precedes every id that is in only one. */
  lemma BothBeatOne(
    k: nat, lexical: seq<RankedEvidence>, vector: seq<RankedEvidence>, result: seq<RankedEvidence>,
    i: nat, j: nat, x: RankedEvidence, y: RankedEvidence)
    requires k > 0 && OncePerId(lexical) && OncePerId(vector) && IsFused(k, lexical, vector, result)
    requires i < |lexical| && j < |vector| && lexical[i].id == vector[j].id == x.id && i <= k && j <= k
    requires x in result && y in result && !(Occurs(lexical, y.id) && Occurs(vector, y.id))
    ensures Precedes(x, y)
  {
    ContributionAtRank(k, lexical, x.id, i);
    ContributionAtRank(k, vector, x.id, j);
    WeightFalls(k, i + 1, k + 1);
    WeightFalls(k, j + 1, k + 1);
    TwiceTheLimit(k);
    SingleIsAtMostFirst(k, lexical, vector, y.id);
    var m :| 0 <= m < |result| && result[m] == x;
    var n :| 0 <= n < |result| && result[n] == y;
  }

  lemma SingleIsAtMostFirst(k: nat, lexical: seq<RankedEvidence>, vector: seq<RankedEvidence>, id: EvidenceId)
    requires k > 0 && OncePerId(lexical) && OncePerId(vector) && !(Occurs(lexical, id) && Occurs(vector, id))
    ensures Score(k, lexical, vector, id) <= Weight(k, 1)
  {
    if Occurs(lexical, id) {
      var i :| 0 <= i < |lexical| && lexical[i].id == id;
      ContributionAtRank(k, lexical, id, i);
      NothingContributed(k, vector, id);
      WeightFalls(k, 1, i + 1);
    } else {
      NothingContributed(k, lexical, id);
      if Occurs(vector, id) {
        var j :| 0 <= j < |vector| && vector[j].id == id;
        ContributionAtRank(k, vector, id, j);
        WeightFalls(k, 1, j + 1);
      } else {
        NothingContributed(k, vector, id);
      }
    }
  }

  /** The bound is tight: at rank k + 2 in both lists an id only ties with the first of one
      list, and the smaller id precedes. */
  lemma OneRankMoreTies(
    k: nat, lexical: seq<RankedEvidence>, vector: seq<RankedEvidence>, result: seq<RankedEvidence>, x: RankedEvidence,
    y: RankedEvidence)
    requires k > 0 && OncePerId(lexical) && OncePerId(vector) && IsFused(k, lexical, vector, result)
    requires k + 1 < |lexical| && k + 1 < |vector| && lexical[k + 1].id == vector[k + 1].id == x.id
    requires lexical[0].id == y.id && !Occurs(vector, y.id) && x in result && y in result
    ensures x.fusedScore == y.fusedScore
    ensures Precedes(y, x) <==> y.id < x.id
  {
    ContributionAtRank(k, lexical, x.id, k + 1);
    ContributionAtRank(k, vector, x.id, k + 1);
    ContributionAtRank(k, lexical, y.id, 0);
    NothingContributed(k, vector, y.id);
    TwiceTheLimit(k);
    var m :| 0 <= m < |result| && result[m] == x;
    var n :| 0 <= n < |result| && result[n] == y;
  }

  // ---------------------------------------------------------------- the columns of a result

  predicate Filled(rank: Option<nat>) {
    rank.Some? && rank.value != 0
  }

  /** A record of both lists: what it is about and every column of the first list that is
      filled, and the columns of the second for the rest. */
  predicate CompletedBy(first: RankedEvidence, second: RankedEvidence, x: RankedEvidence) {
    && x.id == first.id && x.about == first.about
    && x.lexicalRank == (if Filled(first.lexicalRank) then first.lexicalRank else second.lexicalRank)
    && x.vectorRank == (if Filled(first.vectorRank) then first.vectorRank else second.vectorRank)
    && x.lexicalScore == (if first.lexicalScore.Some? then first.lexicalScore else second.lexicalScore)
    && x.vectorSimilarity ==
       (if first.vectorSimilarity.Some? then first.vectorSimilarity else second.vectorSimilarity)
  }

  lemma ResultOf(
    k: nat, lexical: seq<RankedEvidence>, vector: seq<RankedEvidence>, result: seq<RankedEvidence>, x: RankedEvidence)
    requires k > 0 && IsFused(k, lexical, vector, result) && x in result
    ensures x.fusedScore == Score(k, lexical, vector, x.id)
    ensures Some(x) == WithScore(Record(lexical, vector, x.id), x.fusedScore)
  {
    var m :| 0 <= m < |result| && result[m] == x;
  }

  /** An id at place `i` of the lexical list and `j` of the vector list, counted from 0, is in the
      result with the sum of both reciprocal ranks and the columns of both. */
  lemma FoundByBoth(
    k: nat, lexical: seq<RankedEvidence>, vector: seq<RankedEvidence>, result: seq<RankedEvidence>, i: nat, j: nat,
    x: RankedEvidence)
    requires k > 0 && OncePerId(lexical) && OncePerId(vector) && IsFused(k, lexical, vector, result)
    requires i < |lexical| && j < |vector| && lexical[i].id == vector[j].id == x.id && x in result
    ensures x.fusedScore == 1.0 / (k + i + 1) as real + 1.0 / (k + j + 1) as real
    ensures CompletedBy(lexical[i], vector[j], x)
  {
    ResultOf(k, lexical, vector, result, x);
    ContributionAtRank(k, lexical, x.id, i);
    ContributionAtRank(k, vector, x.id, j);
    RecordOfOne(None, lexical, x.id, i);
    RecordOfOne(Some(lexical[i]), vector, x.id, j);
  }

  /** An id of one list alone is in the result with its reciprocal rank and its own record. */
  lemma FoundByOne(
    k: nat, lexical: seq<RankedEvidence>, vector: seq<RankedEvidence>, result: seq<RankedEvidence>, i: nat,
    x: RankedEvidence)
    requires k > 0 && OncePerId(lexical) && OncePerId(vector) && IsFused(k, lexical, vector, result) && x in result
    ensures i < |lexical| && lexical[i].id == x.id && !Occurs(vector, x.id) ==>
      x == lexical[i].(fusedScore := 1.0 / (k + i + 1) as real)
    ensures i < |vector| && vector[i].id == x.id && !Occurs(lexical, x.id) ==>
      x == vector[i].(fusedScore := 1.0 / (k + i + 1) as real)
  {
    ResultOf(k, lexical, vector, result, x);
    if i < |lexical| && lexical[i].id == x.id && !Occurs(vector, x.id) {
      ContributionAtRank(k, lexical, x.id, i);
      NothingContributed(k, vector, x.id);
      RecordOfOne(None, lexical, x.id, i);
    }
    if i < |vector| && vector[i].id == x.id && !Occurs(lexical, x.id) {
      ContributionAtRank(k, vector, x.id, i);
      NothingContributed(k, lexical, x.id);
      RecordOfOne(None, vector, x.id, i);
    }
  }
}
