/** Planning of hook settings, the same for Codex and Claude (`runtime/codex_integration.py`,
    `runtime/claude_integration.py`).

    A hook is the text of its JSON value.  Who owns a hook is decided by a classifier whose
    one property is that the installed hook is our own. */
module HookPlanning {
  import opened Schema

  type Hook = string
  type Event = string

  datatype Ownership = Unrelated | CurrentAtomizer | Ambiguous

  datatype Nested = Missing | NotAList | Hooks(hooks: seq<Hook>)

  /** An entry of an event: not an object, or an object with its other keys and its hooks. */
  datatype Entry = Opaque(text: string) | Group(extra: string, nested: Nested)

  datatype EventValue = NotEntries(text: string) | Entries(entries: seq<Entry>)

  type EventTable = map<Event, EventValue>

  datatype Settings = Settings(hooks: EventTable, rest: string)

  datatype Planner = Planner(events: seq<Event>, classify: (Event, Hook) -> Ownership, own: Hook)

  datatype Refusal = MalformedSettings | OwnershipConflict(events: set<Event>)

  datatype Plan = Planned(desired: Settings) | Refused(refusal: Refusal)

  /** In a supported event the installed hook classifies as our own. */
  predicate Recognizes(p: Planner) {
    forall event :: event in p.events ==> p.classify(event, p.own) == CurrentAtomizer
  }

  function EntriesOf(hooks: EventTable, event: Event): Option<seq<Entry>> {
    if event !in hooks then Some([])
    else if hooks[event].NotEntries? then None
    else Some(hooks[event].entries)
  }

  function HooksOf(e: Entry): seq<Hook> {
    if e.Group? && e.nested.Hooks? then e.nested.hooks else []
  }

  // ---------------------------------------------------------------- filtering

  function Others(p: Planner, event: Event, hooks: seq<Hook>): seq<Hook> {
    if hooks == [] then []
    else
      var front, last := Others(p, event, hooks[..|hooks| - 1]), hooks[|hooks| - 1];
      if p.classify(event, last) == CurrentAtomizer then front else front + [last]
  }

  /** What remains of one entry: nothing when all its hooks were our own. */
  function Kept(p: Planner, event: Event, e: Entry): seq<Entry> {
    var others := Others(p, event, HooksOf(e));
    if e.Opaque? || |others| == |HooksOf(e)| then [e]
    else if others != [] then [e.(nested := Hooks(others))]
    else []
  }

  function Retained(p: Planner, event: Event, entries: seq<Entry>): seq<Entry> {
    if entries == [] then [] else Retained(p, event, entries[..|entries| - 1]) + Kept(p, event, entries[|entries| - 1])
  }

  function OwnGroup(p: Planner): Entry {
    Group("{}", Hooks([p.own]))
  }

  function Rebuilt(p: Planner, event: Event, entries: seq<Entry>, enabled: bool): seq<Entry> {
    Retained(p, event, entries) + if enabled then [OwnGroup(p)] else []
  }

  // ---------------------------------------------------------------- refusing

  predicate WellFormedEvent(hooks: EventTable, event: Event) {
    var entries := EntriesOf(hooks, event);
    entries.Some? && forall e :: e in entries.value && e.Group? ==> !e.nested.NotAList?
  }

  predicate AmbiguousEvent(p: Planner, hooks: EventTable, event: Event) {
    var entries := EntriesOf(hooks, event);
    entries.Some? && exists e :: e in entries.value && exists h :: h in HooksOf(e) && p.classify(event, h) == Ambiguous
  }

  function AmbiguousEvents(p: Planner, hooks: EventTable): set<Event> {
    set event | event in p.events && AmbiguousEvent(p, hooks, event)
  }

  /** The desired table, event by event and independently of their order. */
  function Desired(p: Planner, hooks: EventTable, enabled: bool): EventTable {
    map event | event in hooks.Keys + (set e | e in p.events) && Stays(p, hooks, event, enabled)
      :: if event in p.events && EntriesOf(hooks, event).Some?
        then Entries(Rebuilt(p, event, EntriesOf(hooks, event).value, enabled))
         else if event in hooks then hooks[event] else Entries([])
  }

  predicate Stays(p: Planner, hooks: EventTable, event: Event, enabled: bool) {
    if event in p.events && EntriesOf(hooks, event).Some?
      then Rebuilt(p, event, EntriesOf(hooks, event).value, enabled) != []
    else event in hooks
  }

  function PlanOf(p: Planner, s: Settings, enabled: bool): Plan {
    if exists event :: event in p.events && !WellFormedEvent(s.hooks, event) then Refused(MalformedSettings)
    else if AmbiguousEvents(p, s.hooks) != {} then Refused(OwnershipConflict(AmbiguousEvents(p, s.hooks)))
    else Planned(s.(hooks := Desired(p, s.hooks, enabled)))
  }

  // ---------------------------------------------------------------- the planner

  /** The ambiguous events, or `None` when a supported event is malformed. */
  method FindAmbiguousEvents(p: Planner, hooks: EventTable) returns (ambiguous: Option<set<Event>>)
    ensures ambiguous.None? <==> exists event :: event in p.events && !WellFormedEvent(hooks, event)
    ensures ambiguous.Some? ==> ambiguous.value == AmbiguousEvents(p, hooks)
  {
    var found: set<Event> := {};
    for i := 0 to |p.events|
      invariant forall j :: 0 <= j < i ==> WellFormedEvent(hooks, p.events[j])
      invariant forall event :: event in found <==> event in p.events[..i] && AmbiguousEvent(p, hooks, event)
    {
      var event := p.events[i];
      var entries := EntriesOf(hooks, event);
      if entries.None? {
        assert !WellFormedEvent(hooks, event);
        return None;
      }
      for k := 0 to |entries.value|
        invariant forall j :: 0 <= j < k && entries.value[j].Group? ==> !entries.value[j].nested.NotAList?
      {
        if entries.value[k].Group? && entries.value[k].nested.NotAList? {
          assert entries.value[k] in entries.value;
          return None;
        }
      }
      if AmbiguousEvent(p, hooks, event) { found := found + {event}; }
    }
    assert p.events[..|p.events|] == p.events;
    ambiguous := Some(found);
  }

  /** The loop over the entries of one event. */
  method RetainEntries(p: Planner, event: Event, entries: seq<Entry>) returns (retained: seq<Entry>)
    ensures retained == Retained(p, event, entries)
  {
    retained := [];
    for i := 0 to |entries|
      invariant retained == Retained(p, event, entries[..i])
    {
      var entry := entries[i];
      assert entries[..i + 1][..i] == entries[..i];
      if entry.Opaque? {
        retained := retained + [entry];
      } else {
        var nested := HooksOf(entry);
        var filtered := FilterOwn(p, event, nested);
        if |filtered| == |nested| {
          retained := retained + [entry];
        } else if filtered != [] {
          retained := retained + [entry.(nested := Hooks(filtered))];
        }
      }
    }
    assert entries[..|entries|] == entries;
  }

  method FilterOwn(p: Planner, event: Event, hooks: seq<Hook>) returns (filtered: seq<Hook>)
    ensures filtered == Others(p, event, hooks)
  {
    filtered := [];
    for i := 0 to |hooks|
      invariant filtered == Others(p, event, hooks[..i])
    {
      assert hooks[..i + 1][..i] == hooks[..i];
      if p.classify(event, hooks[i]) != CurrentAtomizer { filtered := filtered + [hooks[i]]; }
    }
    assert hooks[..|hooks|] == hooks;
  }

  /** One event replaced, or dropped when nothing is left of it. */
  function Updated(p: Planner, hooks: EventTable, event: Event, enabled: bool): EventTable
    requires EntriesOf(hooks, event).Some?
  {
    var entries := Rebuilt(p, event, EntriesOf(hooks, event).value, enabled);
    if entries != [] then hooks[event := Entries(entries)] else hooks - {event}
  }

  method UpdateEvent(p: Planner, hooks: EventTable, event: Event, enabled: bool) returns (updated: EventTable)
    requires EntriesOf(hooks, event).Some?
    ensures updated == Updated(p, hooks, event, enabled)
  {
    var retained := RetainEntries(p, event, EntriesOf(hooks, event).value);
    if enabled { retained := retained + [OwnGroup(p)]; }
    updated := if retained != [] then hooks[event := Entries(retained)] else hooks - {event};
    assert retained == Rebuilt(p, event, EntriesOf(hooks, event).value, enabled);
  }

  /** The table after the first `n` events of the loop. */
  predicate UpdatedUpTo(p: Planner, original: EventTable, hooks: EventTable, n: nat, enabled: bool)
    requires n <= |p.events|
  {
    forall event :: event in original.Keys + hooks.Keys + (set e | e in p.events) ==>
      if event in p.events[..n] then UpdatedAt(p, original, hooks, event, enabled) else SameAt(original, hooks, event)
  }

  predicate SameAt(a: EventTable, b: EventTable, event: Event) {
    (event in a <==> event in b) && (event in a ==> a[event] == b[event])
  }

  predicate UpdatedAt(p: Planner, original: EventTable, hooks: EventTable, event: Event, enabled: bool) {
    SameAt(Desired(p, original, enabled), hooks, event)
  }

  lemma UpdateStep(p: Planner, original: EventTable, hooks: EventTable, i: nat, enabled: bool)
    requires i < |p.events| && p.events[i] !in p.events[..i]
    requires UpdatedUpTo(p, original, hooks, i, enabled) && EntriesOf(original, p.events[i]).Some?
    ensures EntriesOf(hooks, p.events[i]).Some?
    ensures UpdatedUpTo(p, original, Updated(p, hooks, p.events[i], enabled), i + 1, enabled)
  {
    var event := p.events[i];
    assert SameAt(original, hooks, event);
    var after := Updated(p, hooks, event, enabled);
    assert UpdatedAt(p, original, after, event, enabled);
    forall e | e in original.Keys + after.Keys + (set e | e in p.events)
      ensures if e in p.events[..i + 1] then UpdatedAt(p, original, after, e, enabled) else SameAt(original, after, e)
    {
      if e != event {
        assert e in p.events[..i + 1] <==> e in p.events[..i];
        assert SameAt(hooks, after, e);
      }
    }
  }

  /** `_plan_codex_hooks` and `_desired_settings`. */
  method PlanHooks(p: Planner, s: Settings, enabled: bool) returns (plan: Plan)
    requires forall i, j :: 0 <= i < j < |p.events| ==> p.events[i] != p.events[j]
    ensures plan == PlanOf(p, s, enabled)
  {
    var ambiguous := FindAmbiguousEvents(p, s.hooks);
    if ambiguous.None? { return Refused(MalformedSettings); }
    if ambiguous.value != {} { return Refused(OwnershipConflict(ambiguous.value)); }
    var hooks := s.hooks;
    for i := 0 to |p.events|
      invariant UpdatedUpTo(p, s.hooks, hooks, i, enabled)
    {
      assert WellFormedEvent(s.hooks, p.events[i]);
      UpdateStep(p, s.hooks, hooks, i, enabled);
      hooks := UpdateEvent(p, hooks, p.events[i], enabled);
    }
    assert p.events[..|p.events|] == p.events;
    UpdatedIsDesired(p, s.hooks, hooks, enabled);
    plan := Planned(s.(hooks := hooks));
  }

  lemma UpdatedIsDesired(p: Planner, original: EventTable, hooks: EventTable, enabled: bool)
    requires UpdatedUpTo(p, original, hooks, |p.events|, enabled)
    ensures hooks == Desired(p, original, enabled)
  {
    assert p.events[..|p.events|] == p.events;
    forall event | event in original.Keys + hooks.Keys + (set e | e in p.events)
      ensures SameAt(Desired(p, original, enabled), hooks, event) {
      if event in p.events {
        assert UpdatedAt(p, original, hooks, event, enabled);
      } else {
        assert SameAt(original, hooks, event);
      }
    }
    forall event ensures event in hooks <==> event in Desired(p, original, enabled) {
      assert event in hooks || event in Desired(p, original, enabled) ==>
        SameAt(Desired(p, original, enabled), hooks, event);
    }
  }

  // ---------------------------------------------------------------- filtering is a projection

  predicate NoOwnHook(p: Planner, event: Event, hooks: seq<Hook>) {
    forall h :: h in hooks ==> p.classify(event, h) != CurrentAtomizer
  }

  predicate NoOwn(p: Planner, event: Event, entries: seq<Entry>) {
    forall e :: e in entries ==> NoOwnHook(p, event, HooksOf(e))
  }

  lemma {:induction false} OthersAreNotOurs(p: Planner, event: Event, hooks: seq<Hook>)
    ensures NoOwnHook(p, event, Others(p, event, hooks))
    ensures |Others(p, event, hooks)| <= |hooks|
    ensures |Others(p, event, hooks)| == |hooks| <==> NoOwnHook(p, event, hooks)
    ensures |Others(p, event, hooks)| == |hooks| ==> Others(p, event, hooks) == hooks
    ensures forall h :: h in Others(p, event, hooks) ==> h in hooks
  {
    if hooks != [] {
      var n := |hooks| - 1;
      OthersAreNotOurs(p, event, hooks[..n]);
      assert hooks == hooks[..n] + [hooks[n]];
    }
  }

  lemma KeptFacts(p: Planner, event: Event, e: Entry)
    ensures NoOwn(p, event, Kept(p, event, e))
    ensures Kept(p, event, e) == [e] <==> NoOwnHook(p, event, HooksOf(e))
  {
    OthersAreNotOurs(p, event, HooksOf(e));
  }

  lemma {:induction false} RetainedHasNoOwn(p: Planner, event: Event, entries: seq<Entry>)
    ensures NoOwn(p, event, Retained(p, event, entries))
  {
    if entries != [] {
      RetainedHasNoOwn(p, event, entries[..|entries| - 1]);
      KeptFacts(p, event, entries[|entries| - 1]);
    }
  }

  lemma {:induction false} NoOwnIsRetained(p: Planner, event: Event, entries: seq<Entry>)
    requires NoOwn(p, event, entries)
    ensures Retained(p, event, entries) == entries
  {
    if entries != [] {
      var n := |entries| - 1;
      assert entries == entries[..n] + [entries[n]];
      NoOwnIsRetained(p, event, entries[..n]);
      KeptFacts(p, event, entries[n]);
    }
  }

  lemma RetainedOfRebuilt(p: Planner, event: Event, entries: seq<Entry>, enabled: bool)
    requires Recognizes(p) && event in p.events
    ensures Retained(p, event, Rebuilt(p, event, entries, enabled)) == Retained(p, event, entries)
  {
    var kept := Retained(p, event, entries);
    RetainedHasNoOwn(p, event, entries);
    NoOwnIsRetained(p, event, kept);
    if enabled {
      var all := kept + [OwnGroup(p)];
      assert all[..|all| - 1] == kept && all[|all| - 1] == OwnGroup(p);
      OwnGroupIsDropped(p, event);
      assert Rebuilt(p, event, entries, enabled) == all;
    } else {
      assert Rebuilt(p, event, entries, enabled) == kept;
    }
  }

  lemma OwnGroupIsDropped(p: Planner, event: Event)
    requires Recognizes(p) && event in p.events
    ensures Kept(p, event, OwnGroup(p)) == []
  {
    var own := [p.own];
    assert own[..0] == [] && own[0] == p.own;
    assert Others(p, event, own) == [];
  }

  // ---------------------------------------------------------------- what planning promises

  predicate WellFormed(p: Planner, hooks: EventTable) {
    forall event :: event in p.events ==> WellFormedEvent(hooks, event)
  }

  lemma DesiredEntries(p: Planner, hooks: EventTable, event: Event, enabled: bool)
    requires WellFormed(p, hooks) && event in p.events
    ensures EntriesOf(Desired(p, hooks, enabled), event)
      == Some(Rebuilt(p, event, EntriesOf(hooks, event).value, enabled))
  {
    assert WellFormedEvent(hooks, event);
  }

  /** Events that are not supported, and the rest of the file, are untouched. */
  lemma UnsupportedEventsAreUntouched(p: Planner, s: Settings, enabled: bool, event: Event)
    requires PlanOf(p, s, enabled).Planned? && event !in p.events
    ensures var d := PlanOf(p, s, enabled).desired;
      && d.rest == s.rest && (event in d.hooks <==> event in s.hooks) && (event in s.hooks ==>
         d.hooks[event] == s.hooks[event])
  {}

  /** Planning again after any plan gives what planning the original would have given:
      enabling twice is enabling once, and disabling after enabling is disabling. */
  lemma LastPlanWins(p: Planner, hooks: EventTable, first: bool, second: bool)
    requires WellFormed(p, hooks) && WellFormed(p, Desired(p, hooks, first)) && Recognizes(p)
    ensures Desired(p, Desired(p, hooks, first), second) == Desired(p, hooks, second)
  {
    var once := Desired(p, hooks, first);
    forall event | event in p.events
      ensures Rebuilt(p, event, EntriesOf(once, event).value, second)
        == Rebuilt(p, event, EntriesOf(hooks, event).value, second)
    {
      DesiredEntries(p, hooks, event, first);
      RetainedOfRebuilt(p, event, EntriesOf(hooks, event).value, first);
    }
    SameRebuilt(p, once, hooks, second);
  }

  lemma SameRebuilt(p: Planner, a: EventTable, b: EventTable, enabled: bool)
    requires WellFormed(p, a) && WellFormed(p, b)
    requires forall event :: event in p.events ==>
               Rebuilt(p, event, EntriesOf(a, event).value, enabled)
                 == Rebuilt(p, event, EntriesOf(b, event).value, enabled)
    requires forall event :: event !in p.events ==>
             (event in a <==> event in b) && (event in a ==> a[event] == b[event])
    ensures Desired(p, a, enabled) == Desired(p, b, enabled)
  {
    forall event
      ensures Stays(p, a, event, enabled) <==> Stays(p, b, event, enabled)
      ensures event in Desired(p, a, enabled) ==> Desired(p, a, enabled)[event] == Desired(p, b, enabled)[event]
    {
      if event in p.events { assert WellFormedEvent(a, event) && WellFormedEvent(b, event); }
    }
  }

  lemma {:induction false} RetainedIsWellFormed(p: Planner, event: Event, entries: seq<Entry>)
    requires forall e :: e in entries && e.Group? ==> !e.nested.NotAList?
    ensures forall e :: e in Retained(p, event, entries) && e.Group? ==> !e.nested.NotAList?
    ensures forall e, h :: e in Retained(p, event, entries) && h in HooksOf(e) ==>
      exists f :: f in entries && h in HooksOf(f)
  {
    if entries != [] {
      var n := |entries| - 1;
      assert entries == entries[..n] + [entries[n]];
      RetainedIsWellFormed(p, event, entries[..n]);
      OthersAreNotOurs(p, event, HooksOf(entries[n]));
    }
  }

  /** A planned result is never refused: it stays well formed and nothing in it is ambiguous. */
  lemma PlannedStaysPlannable(p: Planner, s: Settings, first: bool, second: bool)
    requires PlanOf(p, s, first).Planned? && Recognizes(p)
    ensures PlanOf(p, PlanOf(p, s, first).desired, second) == PlanOf(p, s, second)
  {
    var once := Desired(p, s.hooks, first);
    forall event | event in p.events ensures WellFormedEvent(once, event) && !AmbiguousEvent(p, once, event) {
      assert event !in AmbiguousEvents(p, s.hooks);
      PlannedEvent(p, s.hooks, event, first);
    }
    assert AmbiguousEvents(p, once) == {};
    LastPlanWins(p, s.hooks, first, second);
  }

  lemma PlannedEvent(p: Planner, hooks: EventTable, event: Event, enabled: bool)
    requires WellFormed(p, hooks) && event in p.events && !AmbiguousEvent(p, hooks, event) && Recognizes(p)
    ensures WellFormedEvent(Desired(p, hooks, enabled), event) && !AmbiguousEvent(p, Desired(p, hooks, enabled), event)
  {
    assert WellFormedEvent(hooks, event);
    var entries := EntriesOf(hooks, event).value;
    DesiredEntries(p, hooks, event, enabled);
    RetainedIsWellFormed(p, event, entries);
    var after := Rebuilt(p, event, entries, enabled);
    forall e | e in after ensures (e.Group? ==> !e.nested.NotAList?) && forall h :: h in HooksOf(e) ==>
      p.classify(event, h) != Ambiguous {
      forall h | h in HooksOf(e) ensures p.classify(event, h) != Ambiguous {
        if e in Retained(p, event, entries) {
          var f :| f in entries && h in HooksOf(f);
        } else {
          assert e == OwnGroup(p) && h == p.own;
        }
      }
    }
  }

  // ---------------------------------------------------------------- what is kept

  /** What in an event is not ours, in order: opaque entries, groups without hooks, and the
      other hooks with the keys of their group. */
  datatype Item = Whole(entry: Entry) | Within(extra: string, hook: Hook)

  function ResidueOf(p: Planner, event: Event, e: Entry): seq<Item> {
    if HooksOf(e) == [] then [Whole(e)] else Tagged(e.extra, Others(p, event, e.nested.hooks))
  }

  function Residue(p: Planner, event: Event, entries: seq<Entry>): seq<Item> {
    if entries == [] then []
    else Residue(p, event, entries[..|entries| - 1]) + ResidueOf(p, event, entries[|entries| - 1])
  }

  function Tagged(extra: string, hooks: seq<Hook>): seq<Item> {
    seq(|hooks|, i requires 0 <= i < |hooks| => Within(extra, hooks[i]))
  }

  lemma ResidueOfMore(p: Planner, event: Event, entries: seq<Entry>, e: Entry)
    ensures Residue(p, event, entries + [e]) == Residue(p, event, entries) + ResidueOf(p, event, e)
  {
    assert (entries + [e])[..|entries|] == entries;
  }

  lemma OthersAgain(p: Planner, event: Event, hooks: seq<Hook>)
    ensures Others(p, event, Others(p, event, hooks)) == Others(p, event, hooks)
  {
    OthersAreNotOurs(p, event, hooks);
    OthersAreNotOurs(p, event, Others(p, event, hooks));
  }

  lemma KeptKeepsResidue(p: Planner, event: Event, e: Entry)
    ensures Kept(p, event, e) == [] ==> ResidueOf(p, event, e) == []
    ensures Kept(p, event, e) != [] ==>
      |Kept(p, event, e)| == 1 && ResidueOf(p, event, Kept(p, event, e)[0]) == ResidueOf(p, event, e)
  {
    OthersAreNotOurs(p, event, HooksOf(e));
    OthersAgain(p, event, HooksOf(e));
  }

  /** Filtering keeps everything that is not ours, with its content and its order. */
  lemma {:induction false} RetainedKeepsResidue(p: Planner, event: Event, entries: seq<Entry>)
    ensures Residue(p, event, Retained(p, event, entries)) == Residue(p, event, entries)
  {
    if entries != [] {
      var n := |entries| - 1;
      var front, kept := Retained(p, event, entries[..n]), Kept(p, event, entries[n]);
      RetainedKeepsResidue(p, event, entries[..n]);
      KeptKeepsResidue(p, event, entries[n]);
      if kept == [] {
        assert front + kept == front;
      } else {
        assert kept == [kept[0]];
        ResidueOfMore(p, event, front, kept[0]);
      }
    }
  }

  lemma RebuiltKeepsResidue(p: Planner, event: Event, entries: seq<Entry>, enabled: bool)
    requires Recognizes(p) && event in p.events
    ensures Residue(p, event, Rebuilt(p, event, entries, enabled)) == Residue(p, event, entries)
  {
    RetainedKeepsResidue(p, event, entries);
    if enabled {
      ResidueOfMore(p, event, Retained(p, event, entries), OwnGroup(p));
      OwnGroupHasNoResidue(p, event);
    } else {
      assert Rebuilt(p, event, entries, enabled) == Retained(p, event, entries);
    }
  }

  lemma OwnGroupHasNoResidue(p: Planner, event: Event)
    requires Recognizes(p) && event in p.events
    ensures ResidueOf(p, event, OwnGroup(p)) == []
  {
    var own := [p.own];
    assert own[..0] == [] && own[0] == p.own;
    assert Others(p, event, own) == [];
  }

  /** Planning keeps everything that is not ours in a supported event, with its content and
      its order. */
  lemma OthersSurvive(p: Planner, s: Settings, enabled: bool, event: Event)
    requires PlanOf(p, s, enabled).Planned? && event in p.events && Recognizes(p)
    ensures EntriesOf(PlanOf(p, s, enabled).desired.hooks, event).Some? && EntriesOf(s.hooks, event).Some?
    ensures Residue(p, event, EntriesOf(PlanOf(p, s, enabled).desired.hooks, event).value)
            == Residue(p, event, EntriesOf(s.hooks, event).value)
  {
    assert WellFormedEvent(s.hooks, event);
    DesiredEntries(p, s.hooks, event, enabled);
    RebuiltKeepsResidue(p, event, EntriesOf(s.hooks, event).value, enabled);
  }

  // ---------------------------------------------------------------- our own hooks

  function OwnHooks(p: Planner, event: Event, hooks: seq<Hook>): nat {
    if hooks == [] then 0
    else OwnHooks(p, event, hooks[..|hooks| - 1]) + if p.classify(event, hooks[|hooks| - 1]) == CurrentAtomizer then 1
      else 0
  }

  function OwnCount(p: Planner, event: Event, entries: seq<Entry>): nat {
    if entries == [] then 0
    else OwnCount(p, event, entries[..|entries| - 1]) + OwnHooks(p, event, HooksOf(entries[|entries| - 1]))
  }

  lemma {:induction false} NoOwnHookIsZero(p: Planner, event: Event, hooks: seq<Hook>)
    ensures OwnHooks(p, event, hooks) == 0 <==> NoOwnHook(p, event, hooks)
  {
    if hooks != [] {
      var n := |hooks| - 1;
      assert hooks == hooks[..n] + [hooks[n]];
      NoOwnHookIsZero(p, event, hooks[..n]);
    }
  }

  lemma {:induction false} NoOwnIsZero(p: Planner, event: Event, entries: seq<Entry>)
    ensures OwnCount(p, event, entries) == 0 <==> NoOwn(p, event, entries)
  {
    if entries != [] {
      var n := |entries| - 1;
      assert entries == entries[..n] + [entries[n]];
      NoOwnIsZero(p, event, entries[..n]);
      NoOwnHookIsZero(p, event, HooksOf(entries[n]));
    }
  }

  /** Enabling leaves exactly one own hook in every supported event, disabling leaves none. */
  lemma OwnHooksAfterPlanning(p: Planner, s: Settings, enabled: bool, event: Event)
    requires PlanOf(p, s, enabled).Planned? && event in p.events && Recognizes(p)
    ensures EntriesOf(PlanOf(p, s, enabled).desired.hooks, event).Some?
    ensures OwnCount(p, event, EntriesOf(PlanOf(p, s, enabled).desired.hooks, event).value) == if enabled then 1 else 0
  {
    assert WellFormedEvent(s.hooks, event);
    DesiredEntries(p, s.hooks, event, enabled);
    OwnCountOfRebuilt(p, event, EntriesOf(s.hooks, event).value, enabled);
  }

  lemma OwnCountOfRebuilt(p: Planner, event: Event, entries: seq<Entry>, enabled: bool)
    requires Recognizes(p) && event in p.events
    ensures OwnCount(p, event, Rebuilt(p, event, entries, enabled)) == if enabled then 1 else 0
  {
    var kept := Retained(p, event, entries);
    RetainedHasNoOwn(p, event, entries);
    NoOwnIsZero(p, event, kept);
    if enabled {
      var all, own := kept + [OwnGroup(p)], [p.own];
      assert all[..|all| - 1] == kept && own[..0] == [];
      assert OwnHooks(p, event, own) == 1;
    } else {
      assert Rebuilt(p, event, entries, enabled) == kept;
    }
  }

  /** Disabling changes nothing if and only if no supported event holds an own hook or an
      empty list. */
  lemma DisablingIsQuietIff(p: Planner, hooks: EventTable)
    requires WellFormed(p, hooks)
    ensures Desired(p, hooks, false) == hooks <==>
            forall event :: event in p.events && event in hooks ==>
              hooks[event] != Entries([]) && NoOwn(p, event, EntriesOf(hooks, event).value)
  {
    if Desired(p, hooks, false) == hooks {
      forall event | event in p.events && event in hooks
        ensures hooks[event] != Entries([]) && NoOwn(p, event, EntriesOf(hooks, event).value) {
        DesiredEntries(p, hooks, event, false);
        RetainedHasNoOwn(p, event, EntriesOf(hooks, event).value);
        assert event in Desired(p, hooks, false);
      }
    }
    if forall event :: event in p.events && event in hooks ==>
      hooks[event] != Entries([]) && NoOwn(p, event, EntriesOf(hooks, event).value) {
      forall event | event in p.events ensures Rebuilt(p, event, EntriesOf(hooks, event).value, false)
        == EntriesOf(hooks, event).value {
        assert WellFormedEvent(hooks, event);
        NoOwnIsRetained(p, event, EntriesOf(hooks, event).value);
      }
      assert Desired(p, hooks, false).Keys == hooks.Keys;
    }
  }

  // ---------------------------------------------------------------- the shape of a plan

  /** The event is no list of entries, or one of its groups has hooks that are no list. */
  predicate Broken(value: EventValue) {
    value.NotEntries?
    || exists i :: 0 <= i < |value.entries| && value.entries[i].Group? && value.entries[i].nested.NotAList?
  }

  /** Some hook of the event may or may not be our own. */
  predicate Doubtful(p: Planner, event: Event, value: EventValue) {
    && value.Entries?
    && exists i, k :: 0 <= i < |value.entries| && value.entries[i].Group? && value.entries[i].nested.Hooks?
         && 0 <= k < |value.entries[i].nested.hooks|
         && p.classify(event, value.entries[i].nested.hooks[k]) == Ambiguous
  }

  lemma BrokenIff(hooks: EventTable, event: Event)
    ensures WellFormedEvent(hooks, event) <==> event in hooks ==> !Broken(hooks[event])
  {}

  lemma DoubtfulIff(p: Planner, hooks: EventTable, event: Event)
    ensures AmbiguousEvent(p, hooks, event) <==> event in hooks && Doubtful(p, event, hooks[event])
  {
    if AmbiguousEvent(p, hooks, event) {
      var e :| e in hooks[event].entries && exists h :: h in HooksOf(e) && p.classify(event, h) == Ambiguous;
      var h :| h in HooksOf(e) && p.classify(event, h) == Ambiguous;
      var i :| 0 <= i < |hooks[event].entries| && hooks[event].entries[i] == e;
      var k :| 0 <= k < |e.nested.hooks| && e.nested.hooks[k] == h;
    }
    if event in hooks && Doubtful(p, event, hooks[event]) {
      var i, k :| 0 <= i < |hooks[event].entries| && hooks[event].entries[i].Group?
        && hooks[event].entries[i].nested.Hooks? && 0 <= k < |hooks[event].entries[i].nested.hooks|
        && p.classify(event, hooks[event].entries[i].nested.hooks[k]) == Ambiguous;
      assert hooks[event].entries[i].nested.hooks[k] in HooksOf(hooks[event].entries[i]);
    }
  }

  /** Settings are refused as malformed if and only if a supported event is broken; else, as a
      conflict over exactly the supported events in doubt, if there are any. */
  lemma PlanIsRefusedIff(p: Planner, s: Settings, enabled: bool)
    ensures var broken := exists event :: event in p.events && event in s.hooks && Broken(s.hooks[event]);
      var doubtful := set event | event in p.events && event in s.hooks && Doubtful(p, event, s.hooks[event]);
      && (PlanOf(p, s, enabled) == Refused(MalformedSettings) <==> broken)
      && (!broken && doubtful != {} ==> PlanOf(p, s, enabled) == Refused(OwnershipConflict(doubtful)))
      && (PlanOf(p, s, enabled).Planned? <==> !broken && doubtful == {})
  {
    forall event | event in p.events
      ensures WellFormedEvent(s.hooks, event) <==> event in s.hooks ==> !Broken(s.hooks[event])
      ensures AmbiguousEvent(p, s.hooks, event) <==> event in s.hooks && Doubtful(p, event, s.hooks[event])
    {
      BrokenIff(s.hooks, event);
      DoubtfulIff(p, s.hooks, event);
    }
    var doubtful := set event | event in p.events && event in s.hooks && Doubtful(p, event, s.hooks[event]);
    assert AmbiguousEvents(p, s.hooks) == doubtful;
  }

  /** An entry without own hooks is kept as it is; a group of nothing but own hooks goes; any
      other group keeps its keys and its other hooks. */
  lemma EntryIsKeptAs(p: Planner, event: Event, e: Entry)
    ensures NoOwnHook(p, event, HooksOf(e)) ==> Kept(p, event, e) == [e]
    ensures !NoOwnHook(p, event, HooksOf(e)) ==>
      if forall h :: h in HooksOf(e) ==> p.classify(event, h) == CurrentAtomizer then Kept(p, event, e) == []
      else Kept(p, event, e) == [Group(e.extra, Hooks(Others(p, event, HooksOf(e))))]
  {
    var others := Others(p, event, HooksOf(e));
    OthersAreNotOurs(p, event, HooksOf(e));
    OthersAreKept(p, event, HooksOf(e));
    if others != [] { assert others[0] in others; }
    forall h | h in HooksOf(e) && p.classify(event, h) != CurrentAtomizer ensures others != [] {
      assert h in others;
    }
  }

  lemma {:induction false} OthersAreKept(p: Planner, event: Event, hooks: seq<Hook>)
    ensures forall h :: h in hooks && p.classify(event, h) != CurrentAtomizer ==> h in Others(p, event, hooks)
  {
    if hooks != [] {
      var n := |hooks| - 1;
      OthersAreKept(p, event, hooks[..n]);
      assert hooks == hooks[..n] + [hooks[n]];
    }
  }

  lemma {:induction false} ResidueIsEmptyIff(p: Planner, event: Event, entries: seq<Entry>)
    ensures Residue(p, event, entries) == [] <==> Retained(p, event, entries) == []
  {
    if entries != [] {
      var n := |entries| - 1;
      ResidueIsEmptyIff(p, event, entries[..n]);
      OthersAreNotOurs(p, event, HooksOf(entries[n]));
    }
  }

  /** A supported event stays in the settings if and only if it is enabled or holds something
      that is not ours.  Enabled, it ends with one group that holds nothing but our hook, and
      no own hook comes before it. */
  lemma OwnHookComesLast(p: Planner, s: Settings, enabled: bool, event: Event)
    requires PlanOf(p, s, enabled).Planned? && event in p.events
    ensures EntriesOf(s.hooks, event).Some?
    ensures var hooks := PlanOf(p, s, enabled).desired.hooks;
      && (event in hooks <==> enabled || Residue(p, event, EntriesOf(s.hooks, event).value) != [])
      && (event in hooks ==> hooks[event].Entries? && hooks[event].entries != [])
      && (enabled ==>
            && hooks[event].entries[|hooks[event].entries| - 1] == Group("{}", Hooks([p.own]))
            && NoOwn(p, event, hooks[event].entries[..|hooks[event].entries| - 1]))
  {
    assert WellFormedEvent(s.hooks, event);
    var entries := EntriesOf(s.hooks, event).value;
    DesiredEntries(p, s.hooks, event, enabled);
    RetainedHasNoOwn(p, event, entries);
    ResidueIsEmptyIff(p, event, entries);
    var kept := Retained(p, event, entries);
    assert (kept + [OwnGroup(p)])[..|kept|] == kept;
  }
}
