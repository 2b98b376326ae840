/** The browser's windows over recent keys and over streaming answers
    (`browser_extension/core/dedupe.js`). */
module Dedupe {
  import opened Schema

  function LastOf<T>(keys: seq<T>, limit: nat): seq<T> {
    if |keys| > limit then keys[|keys| - limit..] else keys
  }

  /** The keys held after offering one more. */
  function Offered<T(==)>(order: seq<T>, limit: nat, key: T): seq<T> {
    if key in order then order else LastOf(order + [key], limit)
  }

  class DedupeWindow<T(!new, ==)> {
    const limit: nat
    var values: set<T>
    var order: seq<T>

    ghost predicate Valid()
      reads this
    {
      && (forall key :: key in values <==> key in order)
      && (forall i, j :: 0 <= i < j < |order| ==> order[i] != order[j])
    }

    constructor (limit: nat)
      ensures Valid() && this.limit == limit && order == []
    {
      this.limit, values, order := limit, {}, [];
    }

    method First(key: T) returns (first: bool)
      requires Valid()
      modifies this
      ensures Valid()
      ensures first <==> key !in old(order)
      ensures order == Offered(old(order), limit, key)
    {
      if key in values { return false; }
      values, order := values + {key}, order + [key];
      ghost var full := order;
      while |order| > limit
        invariant Valid() && LastOf(order, limit) == LastOf(full, limit)
        decreases |order|
      {
        values, order := values - {order[0]}, order[1..];
      }
      first := true;
    }
  }

  // ---------------------------------------------------------------- runs of a window

  function OrderAfter<T(==)>(limit: nat, keys: seq<T>): seq<T> {
    if keys == [] then [] else Offered(OrderAfter(limit, keys[..|keys| - 1]), limit, keys[|keys| - 1])
  }

  /** The keys that were first, in order, whatever was evicted since. */
  function Firsts<T(==)>(limit: nat, keys: seq<T>): seq<T> {
    if keys == [] then []
    else
      var n := |keys| - 1;
      var before := Firsts(limit, keys[..n]);
      if keys[n] in OrderAfter(limit, keys[..n]) then before else before + [keys[n]]
  }

  lemma LastOfMore<T>(keys: seq<T>, limit: nat, key: T)
    ensures LastOf(LastOf(keys, limit) + [key], limit) == LastOf(keys + [key], limit)
  {}

  lemma RecentIsLast<T>(keys: seq<T>, limit: nat, p: nat)
    requires p < |keys| && |keys| - p <= limit
    ensures keys[p] in LastOf(keys, limit)
  {
    assert LastOf(keys, limit)[p - (|keys| - |LastOf(keys, limit)|)] == keys[p];
  }

  /** A key counts as first if and only if it is not one of the last `limit` that did. */
  lemma {:induction false} WindowIsLastFirsts<T>(limit: nat, keys: seq<T>)
    ensures OrderAfter(limit, keys) == LastOf(Firsts(limit, keys), limit)
  {
    if keys != [] {
      var n := |keys| - 1;
      WindowIsLastFirsts(limit, keys[..n]);
      LastOfMore(Firsts(limit, keys[..n]), limit, keys[n]);
    }
  }

  // ---------------------------------------------------------------- streaming answers

  datatype AssistantMessage = AssistantMessage(reference: string, content: string, visible: bool, streaming: bool)

  datatype SeenState = SeenState(content: string, firstSeenAt: int)

  type SeenTable = map<string, SeenState>

  predicate Observable(m: AssistantMessage) {
    m.visible && !m.streaming && m.content != ""
  }

  predicate Settled(states: SeenTable, stable: int, m: AssistantMessage, now: int) {
    && Observable(m) && m.reference in states && states[m.reference].content == m.content
    && now - states[m.reference].firstSeenAt >= stable
  }

  function StatesAfter(states: SeenTable, m: AssistantMessage, now: int): SeenTable {
    if Observable(m) && (m.reference !in states || states[m.reference].content != m.content)
    then states[m.reference := SeenState(m.content, now)] else states
  }

  class StableAssistantTracker {
    const stableMilliseconds: int
    const emitted: DedupeWindow<(string, string)>
    var states: SeenTable

    ghost predicate Valid()
      reads this, emitted
    {
      emitted.Valid()
    }

    constructor (stableMilliseconds: int)
      ensures Valid() && fresh(emitted) && states == map[] && this.stableMilliseconds == stableMilliseconds
      ensures emitted.order == [] && emitted.limit == 2000
    {
      this.stableMilliseconds, states := stableMilliseconds, map[];
      emitted := new DedupeWindow(2000);
    }

    method Observe(m: AssistantMessage, now: int) returns (ready: bool)
      requires Valid()
      modifies this, emitted
      ensures Valid()
      ensures states == StatesAfter(old(states), m, now)
      ensures ready <==>
        Settled(old(states), stableMilliseconds, m, now) && (m.reference, m.content) !in old(emitted.order)
      ensures emitted.order == if Settled(old(states), stableMilliseconds, m, now)
                               then Offered(old(emitted.order), emitted.limit, (m.reference, m.content))
                                 else old(emitted.order)
    {
      if !m.visible || m.streaming || m.content == "" { return false; }
      if m.reference !in states || states[m.reference].content != m.content {
        states := states[m.reference := SeenState(m.content, now)];
        return false;
      }
      if now - states[m.reference].firstSeenAt < stableMilliseconds { return false; }
      ready := emitted.First((m.reference, m.content));
    }

    method Reset()
      modifies this
      ensures states == map[]
    {
      states := map[];
    }
  }

  datatype Sighting = Sighting(message: AssistantMessage, now: int) | Forgotten

  function StatesOf(sightings: seq<Sighting>): SeenTable {
    if sightings == [] then map[]
    else
      var s := sightings[|sightings| - 1];
      if s.Forgotten? then map[] else StatesAfter(StatesOf(sightings[..|sightings| - 1]), s.message, s.now)
  }

  /** The sighting that started the present content of a reference. */
  ghost predicate StartedAt(sightings: seq<Sighting>, reference: string, seen: SeenState, i: nat) {
    && i < |sightings| && sightings[i].Sighting? && sightings[i].now == seen.firstSeenAt
    && sightings[i].message.reference == reference && sightings[i].message.content == seen.content
       && Observable(sightings[i].message)
    && forall j :: i < j < |sightings| ==>
         sightings[j].Sighting?
         && (Observable(sightings[j].message) && sightings[j].message.reference == reference ==>
            sightings[j].message.content == seen.content)
  }

  lemma {:induction false} StateHasStart(sightings: seq<Sighting>, reference: string) returns (i: nat)
    requires reference in StatesOf(sightings)
    ensures StartedAt(sightings, reference, StatesOf(sightings)[reference], i)
  {
    var n := |sightings| - 1;
    var before, m := StatesOf(sightings[..n]), sightings[n].message;
    if reference in before && before[reference] == StatesOf(sightings)[reference]
       && !(Observable(m) && m.reference == reference && m.content != before[reference].content) {
      i := StateHasStart(sightings[..n], reference);
      forall j | i < j < n ensures sightings[..n][j] == sightings[j] {}
    } else {
      i := n;
    }
  }

  /** An answer is ready only when the same content has been seen since at least the stable
      time, with no other content and no reset in between. */
  lemma ReadyMeansStable(sightings: seq<Sighting>, stable: int, m: AssistantMessage, now: int) returns (i: nat)
    requires Settled(StatesOf(sightings), stable, m, now)
    ensures StartedAt(sightings, m.reference, SeenState(m.content, StatesOf(sightings)[m.reference].firstSeenAt), i)
    ensures now - sightings[i].now >= stable
  {
    i := StateHasStart(sightings, m.reference);
  }
}
