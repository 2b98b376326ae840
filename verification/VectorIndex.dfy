/** Versioned vectors of semantic units (`semantic/vector_index.py`). */
module VectorIndex {
  import opened Schema
  import opened SemanticUnits

  datatype Backend = Backend(version: string, model: string, dimension: nat)

  datatype Fingerprint = Fingerprint(version: string, model: string, digest: Digest)

  /** A vector as little-endian floats. */
  datatype Payload = Packed(values: seq<real>)

  datatype RecordState = Indexed | Unchanged | Failed | Invalidated

  datatype Record = Record(
    state: RecordState, version: string, model: string, dimension: nat, fingerprint: Fingerprint,
    vector: Option<Payload>, errorClass: Option<string>, updatedAt: Instant)

  type RecordTable = map<UnitId, Record>

  /** A model version embeds deterministically. */
  type Embedder = (string, string, string) -> seq<real>

  /** One indexing pass: the backend, what it computes, and the contents on which a call
      raises this time, with the error's class. */
  datatype Pass = Pass(backend: Backend, embed: Embedder, outage: string -> Option<string>, now: Instant)

  function FingerprintOf(b: Backend, digest: Digest): Fingerprint {
    Fingerprint(b.version, b.model, digest)
  }

  function Embedding(p: Pass, content: string): seq<real> {
    p.embed(p.backend.version, p.backend.model, content)
  }

  predicate Fails(p: Pass, content: string) {
    p.outage(content).Some? || |Embedding(p, content)| != p.backend.dimension
  }

  /** An indexed record with the expected fingerprint is not computed again. */
  predicate UpToDate(r: Record, f: Fingerprint) {
    r.fingerprint == f && r.state == Indexed && r.vector.Some?
  }

  predicate Kept(records: RecordTable, u: SemanticUnit, b: Backend) {
    u.id in records && UpToDate(records[u.id], FingerprintOf(b, u.digest))
  }

  function NextRecord(records: RecordTable, u: SemanticUnit, p: Pass): Record {
    var b := p.backend;
    if Kept(records, u, b) then records[u.id]
    else if Fails(p, u.content) then
      var class_ := if p.outage(u.content).Some? then p.outage(u.content).value else "ValueError";
      Record(Failed, b.version, b.model, b.dimension, FingerprintOf(b, u.digest), None, Some(class_), p.now)
    else
      Record(Indexed, b.version, b.model, b.dimension, FingerprintOf(b, u.digest),
        Some(Packed(Embedding(p, u.content))), None, p.now)
  }

  /** `decode_vector` raises when a kept vector does not have its recorded dimension. */
  predicate Decodes(r: Record) {
    r.vector.Some? && |r.vector.value.values| == r.dimension
  }

  predicate Aborts(records: RecordTable, want: UnitTable, b: Backend) {
    exists id :: id in want && Kept(records, want[id], b) && !Decodes(records[want[id].id])
  }

  function Reindexed(records: RecordTable, want: UnitTable, p: Pass): RecordTable {
    map id | id in want :: NextRecord(records, want[id], p)
  }

  datatype Tally = Tally(indexed: nat, same: nat, failed: nat, invalidated: nat)

  function TallyOf(records: RecordTable, units: seq<SemanticUnit>, p: Pass): Tally {
    if units == [] then Tally(0, 0, 0, 0)
    else
      var t := TallyOf(records, units[..|units| - 1], p);
      var u := units[|units| - 1];
      if Kept(records, u, p.backend) then t.(same := t.same + 1)
      else if Fails(p, u.content) then t.(failed := t.failed + 1)
      else t.(indexed := t.indexed + 1)
  }

  predicate Served(records: RecordTable, u: SemanticUnit, p: Pass) {
    Kept(records, u, p.backend) || !Fails(p, u.content)
  }

  /** The failures counted are the units neither kept nor embedded; every unit is counted
      once. */
  lemma {:induction false} NoFailureIff(records: RecordTable, units: seq<SemanticUnit>, p: Pass)
    ensures TallyOf(records, units, p).failed == 0 <==> forall u :: u in units ==> Served(records, u, p)
    ensures var t := TallyOf(records, units, p); t.indexed + t.same + t.failed == |units|
  {
    if units != [] {
      var front, last := units[..|units| - 1], units[|units| - 1];
      NoFailureIff(records, front, p);
      assert units == front + [last];
      assert TallyOf(records, units, p).failed == TallyOf(records, front, p).failed + if Served(records, last, p)
        then 0 else 1;
      if forall u :: u in units ==> Served(records, u, p) {
        assert forall u :: u in front ==> u in units;
      }
    }
  }

  // ---------------------------------------------------------------- soundness of the table

  /** A record's columns repeat its fingerprint, and an indexed record holds the encoding of
      embedding the text its fingerprint names. */
  predicate Faithful(id: UnitId, r: Record, embed: Embedder) {
    && r.version == r.fingerprint.version && r.model == r.fingerprint.model && r.fingerprint.digest == id.digest
    && (r.state == Indexed ==>
          && r.vector == Some(Packed(embed(r.version, r.model, id.digest.material)))
          && |embed(r.version, r.model, id.digest.material)| == r.dimension)
    && (r.state == Failed ==> r.vector == None)
  }

  ghost predicate AllFaithful(records: RecordTable, embed: Embedder) {
    forall id :: id in records ==> Faithful(id, records[id], embed)
  }

  lemma NextIsFaithful(records: RecordTable, u: SemanticUnit, p: Pass)
    requires AllFaithful(records, p.embed) && WellNamed(u)
    ensures Faithful(u.id, NextRecord(records, u, p), p.embed)
  {
    if u.id in records { assert Faithful(u.id, records[u.id], p.embed); }
  }

  lemma ReindexedIsFaithful(records: RecordTable, want: UnitTable, p: Pass)
    requires AllFaithful(records, p.embed) && RowsWellNamed(want)
    ensures AllFaithful(Reindexed(records, want, p), p.embed)
    ensures !Aborts(records, want, p.backend)
  {
    forall id | id in want
      ensures Faithful(id, NextRecord(records, want[id], p), p.embed)
      ensures Kept(records, want[id], p.backend) ==> Decodes(records[want[id].id])
    {
      assert WellNamed(want[id]);
      NextIsFaithful(records, want[id], p);
      assert id in records ==> Faithful(id, records[id], p.embed);
    }
  }

  /** A unit's record satisfies the detector after the pass exactly when it was kept or its
      embedding succeeded. */
  predicate Good(r: Record, u: SemanticUnit, b: Backend) {
    && r.state == Indexed && r.version == b.version && r.model == b.model
    && r.fingerprint == FingerprintOf(b, u.digest) && r.vector.Some?
  }

  lemma GoodAfterPassIff(records: RecordTable, u: SemanticUnit, p: Pass)
    requires AllFaithful(records, p.embed)
    ensures Good(NextRecord(records, u, p), u, p.backend) <==> Served(records, u, p)
  {
    if u.id in records { assert Faithful(u.id, records[u.id], p.embed); }
  }

  lemma GoodMeansEmbedded(id: UnitId, r: Record, u: SemanticUnit, b: Backend, embed: Embedder)
    requires Faithful(id, r, embed) && Good(r, u, b) && u.id == id && WellNamed(u)
    ensures r.vector == Some(Packed(embed(b.version, b.model, u.content)))
  {}
}
