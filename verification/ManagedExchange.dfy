/** Every interleaving of the managed-context protocol: threads calling the registry and the
    broker, one locked section at a time. */
module ManagedExchange {
  import opened Schema
  import opened ManagedAuthority
  import opened ManagedContext

  type Thread = nat

  /** What a thread keeps between two locked sections. */
  datatype Local =
    | Observing(reference: string)
    | Drafting(draft: PendingContext)
    | Waiting(id: RequestId)
    | Polling(lease: Lease)

  datatype State = State(registry: Registry, pending: seq<PendingContext>, threads: map<Thread, Local>,
    issued: RequestId)

  datatype Step =
    | OnRegistry(call: Call)
    | ObserveForRequest(thread: Thread, clock: Clock)
    | DraftRequest(thread: Thread, payload: RequestPayload, clock: Clock)
    | EnqueueRequest(thread: Thread, clock: Clock)
    | FinishRequest(thread: Thread)
    | RequireForNext(thread: Thread, token: Token, clock: Clock)
    | PollNext(thread: Thread, clock: Clock)
    | GiveUp(thread: Thread)
    | CompleteRequest(token: Token, answer: CompletePayload, clock: Clock)
    | RevokeBroker

  /** What a step shows to the outside. */
  datatype Outcome =
    | Nothing
    | Enqueued(request: PendingContext)
    | HandedOut(request: PendingContext, lease: Lease)
    | Supplied(request: PendingContext, token: Token, lease: Lease)
    | Returned(request: PendingContext)
    | Revoked

  predicate Is(s: State, t: Thread, kind: Local -> bool) {
    t in s.threads && kind(s.threads[t])
  }

  function Next(c: Runtime, s: State, step: Step): (State, Outcome) {
    match step
    case OnRegistry(call) => (s.(registry := Apply(c, s.registry, call)), Nothing)
    case ObserveForRequest(t, clock) =>
      var (r, lease) := Observed(c, s.registry, clock);
      if t in s.threads || lease.None? then (s.(registry := r), Nothing)
      else (s.(registry := r, threads := s.threads[t := Observing(lease.value.reference)]), Nothing)
    case DraftRequest(t, payload, clock) =>
      if !Is(s, t, (l: Local) => l.Observing?) then (s, Nothing)
      else
        var (r, draft) := Drafted(c, s.registry, payload, s.threads[t].reference, s.issued, clock);
        if draft.None? then (s.(registry := r, threads := s.threads - {t}), Nothing)
        else (s.(registry := r, threads := s.threads[t := Drafting(draft.value)], issued := s.issued + 1), Nothing)
    case EnqueueRequest(t, clock) =>
      if !Is(s, t, (l: Local) => l.Drafting?) then (s, Nothing)
      else
        var draft := s.threads[t].draft;
        (s.(pending := Pruned(s.pending, clock.wall) + [draft], threads := s.threads[t := Waiting(draft.id)]),
          Enqueued(draft))
    case FinishRequest(t) =>
      if !Is(s, t, (l: Local) => l.Waiting?) then (s, Nothing)
      else
        var (rest, x) := Popped(s.pending, s.threads[t].id);
        (s.(pending := rest, threads := s.threads - {t}), if x.Some? && x.value.result.Some? then Returned(x.value)
          else Nothing)
    case RequireForNext(t, token, clock) =>
      var (r, lease) := Required(c, s.registry, token, None, None, None, clock);
      if t in s.threads || lease.Err? then (s.(registry := r), Nothing)
      else (s.(registry := r, threads := s.threads[t := Polling(lease.value)]), Nothing)
    case PollNext(t, clock) =>
      if !Is(s, t, (l: Local) => l.Polling?) then (s, Nothing)
      else
        var (after, x) := Polled(s.pending, s.threads[t].lease, clock.wall);
        if x.None? then (s.(pending := after), Nothing)
        else (s.(pending := after, threads := s.threads - {t}), HandedOut(x.value, s.threads[t].lease))
    case GiveUp(t) =>
      if Is(s, t, (l: Local) => l.Polling?) then (s.(threads := s.threads - {t}), Nothing) else (s, Nothing)
    case CompleteRequest(token, payload, clock) =>
      var (r, after, lease) := Completed(c, s.registry, s.pending, token, payload, clock);
      (s.(registry := r, pending := after), if lease.Some? then Supplied(Target(after, payload), token, lease.value)
        else Nothing)
    case RevokeBroker => (s.(pending := []), Revoked)
  }

  const NO_REQUEST := PendingContext(0, "", "", "", "", "", "", 0, false, None)

  /** The request a completion names. */
  function Target(pending: seq<PendingContext>, payload: CompletePayload): PendingContext {
    if payload.id.None? then NO_REQUEST
    else
      var i := Find(pending, payload.id.value, 0);
      FindIsFirst(pending, payload.id.value, 0);
      if i.None? then NO_REQUEST else pending[i.value]
  }

  const STARTED := State(REVOKED, [], map[], 0)

  function After(c: Runtime, steps: seq<Step>): State {
    if steps == [] then STARTED else Next(c, After(c, steps[..|steps| - 1]), steps[|steps| - 1]).0
  }

  /** The outcome of step `k`. */
  function At(c: Runtime, steps: seq<Step>, k: nat): Outcome
    requires k < |steps|
  {
    Next(c, After(c, steps[..k]), steps[k]).1
  }

  // ---------------------------------------------------------------- distinct requests

  function Ids(pending: seq<PendingContext>): set<RequestId> {
    set x | x in pending :: x.id
  }

  predicate DistinctIds(pending: seq<PendingContext>) {
    forall i, j :: 0 <= i < j < |pending| ==> pending[i].id != pending[j].id
  }

  predicate FreshDraft(s: State, draft: PendingContext) {
    draft.id < s.issued && !draft.taken && draft.result.None? && draft.id !in Ids(s.pending)
  }

  /** Request ids are distinct: among the pending requests, and among the drafts. */
  ghost predicate Distinct(s: State) {
    && DistinctIds(s.pending)
    && (forall id :: id in Ids(s.pending) ==> id < s.issued)
    && (forall t :: t in s.threads && s.threads[t].Drafting? ==> FreshDraft(s, s.threads[t].draft))
    && (forall t, u :: t in s.threads && u in s.threads && t != u && s.threads[t].Drafting? && s.threads[u].Drafting?
          ==> s.threads[t].draft.id != s.threads[u].draft.id)
  }

  lemma {:induction false} PrunedIds(pending: seq<PendingContext>, now: Instant)
    requires DistinctIds(pending)
    ensures DistinctIds(Pruned(pending, now)) && Ids(Pruned(pending, now)) <= Ids(pending)
  {
    if pending != [] {
      var n := |pending| - 1;
      PrunedIds(pending[..n], now);
      assert pending[n] in pending && forall x :: x in pending[..n] ==> x in pending;
      assert pending[n].id !in Ids(pending[..n]);
      OneMoreDistinct(Pruned(pending[..n], now), pending[n]);
    }
  }

  lemma OneMoreDistinct(pending: seq<PendingContext>, x: PendingContext)
    requires DistinctIds(pending) && x.id !in Ids(pending)
    ensures DistinctIds(pending + [x]) && Ids(pending + [x]) == Ids(pending) + {x.id}
  {
    forall i | 0 <= i < |pending| ensures pending[i].id != x.id { assert pending[i] in pending; }
  }

  lemma ReplacedIds(pending: seq<PendingContext>, i: nat, x: PendingContext)
    requires i < |pending| && x.id == pending[i].id && DistinctIds(pending)
    ensures DistinctIds(pending[i := x]) && Ids(pending[i := x]) <= Ids(pending)
  {
    forall y | y in pending[i := x] ensures y.id in Ids(pending) {
      var j :| 0 <= j < |pending| && pending[i := x][j] == y;
      assert pending[j] in pending;
    }
  }

  lemma PoppedIds(pending: seq<PendingContext>, id: RequestId)
    requires DistinctIds(pending)
    ensures DistinctIds(Popped(pending, id).0) && Ids(Popped(pending, id).0) <= Ids(pending)
      && id !in Ids(Popped(pending, id).0)
  {
    FindIsFirst(pending, id, 0);
    var rest := Popped(pending, id).0;
    forall y | y in rest ensures y.id in Ids(pending) && y.id != id {
      assert y in pending;
    }
  }

  lemma PolledIds(pending: seq<PendingContext>, lease: Lease, now: Instant)
    requires DistinctIds(pending)
    ensures DistinctIds(Polled(pending, lease, now).0) && Ids(Polled(pending, lease, now).0) <= Ids(pending)
  {
    var kept := Pruned(pending, now);
    PrunedIds(pending, now);
    FirstForIsFirst(kept, lease, 0);
    var i := FirstFor(kept, lease, 0);
    if i.Some? { ReplacedIds(kept, i.value, kept[i.value].(taken := true)); }
  }

  lemma CompletedIds(
    c: Runtime, r: Registry, pending: seq<PendingContext>, token: Token, answer: CompletePayload, clock: Clock)
    requires DistinctIds(pending)
    ensures var after := Completed(c, r, pending, token, answer, clock).1;
      DistinctIds(after) && Ids(after) <= Ids(pending)
  {
    if answer.id.Some? {
      var i := Find(pending, answer.id.value, 0);
      FindIsFirst(pending, answer.id.value, 0);
      if i.Some? {
        ReplacedIds(pending, i.value, pending[i.value].(result := Normalized(answer.context, MAX_CONTEXT_CHARACTERS)));
      }
    }
  }

  lemma FewerIdsStayDistinct(s: State, after: State)
    requires Distinct(s) && DistinctIds(after.pending) && Ids(after.pending) <= Ids(s.pending)
      && s.issued == after.issued
    requires forall t :: t in after.threads && after.threads[t].Drafting? ==>
      t in s.threads && s.threads[t] == after.threads[t]
    ensures Distinct(after)
  {}

  lemma DraftKeepsDistinct(c: Runtime, s: State, t: Thread, payload: RequestPayload, clock: Clock)
    requires Distinct(s)
    ensures Distinct(Next(c, s, DraftRequest(t, payload, clock)).0)
  {}

  lemma EnqueueKeepsDistinct(c: Runtime, s: State, t: Thread, clock: Clock)
    requires Distinct(s)
    ensures Distinct(Next(c, s, EnqueueRequest(t, clock)).0)
  {
    PrunedIds(s.pending, clock.wall);
    if t in s.threads && s.threads[t].Drafting? { OneMoreDistinct(Pruned(s.pending, clock.wall), s.threads[t].draft); }
  }

  lemma StepKeepsDistinct(c: Runtime, s: State, step: Step)
    requires Distinct(s)
    ensures Distinct(Next(c, s, step).0)
  {
    var after := Next(c, s, step).0;
    match step
    case DraftRequest(t, payload, clock) => DraftKeepsDistinct(c, s, t, payload, clock);
    case EnqueueRequest(t, clock) => EnqueueKeepsDistinct(c, s, t, clock);
    case PollNext(t, clock) =>
      if t in s.threads && s.threads[t].Polling? { PolledIds(s.pending, s.threads[t].lease, clock.wall); }
      FewerIdsStayDistinct(s, after);
    case FinishRequest(t) =>
      if t in s.threads && s.threads[t].Waiting? { PoppedIds(s.pending, s.threads[t].id); }
      FewerIdsStayDistinct(s, after);
    case CompleteRequest(token, answer, clock) =>
      CompletedIds(c, s.registry, s.pending, token, answer, clock);
      FewerIdsStayDistinct(s, after);
    case _ =>
      FewerIdsStayDistinct(s, after);
  }

  lemma {:induction false} RunsAreDistinct(c: Runtime, steps: seq<Step>)
    ensures Distinct(After(c, steps))
  {
    if steps != [] {
      var n := |steps| - 1;
      RunsAreDistinct(c, steps[..n]);
      StepKeepsDistinct(c, After(c, steps[..n]), steps[n]);
    }
  }

  // ---------------------------------------------------------------- what a step can do to a request

  /** How the pending requests and the drafts follow from one outcome. */
  ghost predicate Shape(s: State, after: State, o: Outcome) {
    && (forall x :: x in after.pending ==> x in s.pending || (!o.Revoked? && !o.Nothing? && x == o.request))
    && s.issued <= after.issued
    && (forall t :: t in after.threads && after.threads[t].Drafting? ==>
          (t in s.threads && s.threads[t] == after.threads[t]) || after.threads[t].draft.id == s.issued < after.issued)
    && match o
       case Nothing => true
       case Enqueued(x) =>
         && x.id < s.issued && !x.taken && x.result.None? && x.id !in Ids(s.pending)
         && (exists t :: t in s.threads && s.threads[t] == Drafting(x))
         && (forall t :: t in after.threads ==> after.threads[t] != Drafting(x))
       case HandedOut(x, lease) =>
         && x.taken && x.(taken := false) in s.pending && Matches(x, lease)
         && forall y :: y in after.pending && y.id == x.id ==> y == x
       case Supplied(x, _, lease) =>
         && x.taken && x.result.Some? && x.(result := None) in s.pending && Matches(x, lease)
         && forall y :: y in after.pending && y.id == x.id ==> y == x
       case Returned(x) => x in s.pending && x.result.Some? && x.id !in Ids(after.pending)
       case Revoked => after.pending == []
  }

  lemma EnqueueShape(c: Runtime, s: State, t: Thread, clock: Clock)
    requires Distinct(s)
    ensures var (after, o) := Next(c, s, EnqueueRequest(t, clock)); Shape(s, after, o)
  {
    PrunedIds(s.pending, clock.wall);
    forall x ensures x in Pruned(s.pending, clock.wall) ==> x in s.pending { PrunedKeeps(s.pending, clock.wall, x); }
  }

  lemma PollShape(c: Runtime, s: State, t: Thread, clock: Clock)
    requires Distinct(s)
    ensures var (after, o) := Next(c, s, PollNext(t, clock)); Shape(s, after, o)
  {
    var kept := Pruned(s.pending, clock.wall);
    PrunedIds(s.pending, clock.wall);
    forall x ensures x in kept ==> x in s.pending { PrunedKeeps(s.pending, clock.wall, x); }
    if t in s.threads && s.threads[t].Polling? {
      FirstForIsFirst(kept, s.threads[t].lease, 0);
      var i := FirstFor(kept, s.threads[t].lease, 0);
      if i.Some? {
        assert kept[i.value].(taken := true).(taken := false) == kept[i.value];
        ReplacedMembers(kept, i.value, kept[i.value].(taken := true));
      }
    }
  }

  lemma ReplacedMembers(pending: seq<PendingContext>, i: nat, x: PendingContext)
    requires i < |pending| && x.id == pending[i].id && DistinctIds(pending)
    ensures forall y :: y in pending[i := x] ==> y in pending || y == x
    ensures forall y :: y in pending[i := x] && y.id == x.id ==> y == x
  {
    forall y | y in pending[i := x] ensures (y in pending || y == x) && (y.id == x.id ==> y == x) {
      var j :| 0 <= j < |pending| && pending[i := x][j] == y;
    }
  }

  /** A context is supplied only through a live lease held under the token given, that covers
      the request's scope, before the request expires. */
  lemma SuppliedByALiveHolder(c: Runtime, s: State, token: Token, answer: CompletePayload, clock: Clock)
    requires Next(c, s, CompleteRequest(token, answer, clock)).1.Supplied?
    ensures var (after, o) := Next(c, s, CompleteRequest(token, answer, clock)); var x := o.request;
      && Live(c, s.registry, clock) && s.registry.session == Some(o.lease)
         && s.registry.capability == Some(token) == Some(o.token)
      && Matches(x, o.lease) && x.taken && clock.wall < x.expiresAt
      && BoundScope(x.host, x.scope).Some? && Permits(o.lease, BoundScope(x.host, x.scope).value)
      && x.(result := None) in s.pending && x.result == Normalized(answer.context, MAX_CONTEXT_CHARACTERS)
         && x.result.Some?
  {
    var i := Find(s.pending, answer.id.value, 0);
    FindIsFirst(s.pending, answer.id.value, 0);
    var x := s.pending[i.value].(result := Normalized(answer.context, MAX_CONTEXT_CHARACTERS));
    FoundAgain(s.pending, answer.id.value, i.value, x);
    assert s.pending[i.value] == x.(result := None);
  }

  lemma FoundAgain(pending: seq<PendingContext>, id: RequestId, i: nat, x: PendingContext)
    requires i < |pending| && Find(pending, id, 0) == Some(i) && x.id == id
    ensures Find(pending[i := x], id, 0) == Some(i)
  {
    FindIsFirst(pending, id, 0);
    FindIsFirst(pending[i := x], id, 0);
    assert pending[i := x][i].id == id;
  }

  lemma CompleteShape(c: Runtime, s: State, token: Token, answer: CompletePayload, clock: Clock)
    requires Distinct(s)
    ensures var (after, o) := Next(c, s, CompleteRequest(token, answer, clock)); Shape(s, after, o)
  {
    var (after, o) := Next(c, s, CompleteRequest(token, answer, clock));
    if o.Supplied? {
      SuppliedByALiveHolder(c, s, token, answer, clock);
      var i := Find(s.pending, answer.id.value, 0);
      FindIsFirst(s.pending, answer.id.value, 0);
      var x := s.pending[i.value].(result := Normalized(answer.context, MAX_CONTEXT_CHARACTERS));
      FoundAgain(s.pending, answer.id.value, i.value, x);
      ReplacedMembers(s.pending, i.value, x);
    }
  }

  lemma FinishShape(c: Runtime, s: State, t: Thread)
    requires Distinct(s)
    ensures var (after, o) := Next(c, s, FinishRequest(t)); Shape(s, after, o)
  {
    if t in s.threads && s.threads[t].Waiting? {
      PoppedIds(s.pending, s.threads[t].id);
      FindIsFirst(s.pending, s.threads[t].id, 0);
    }
  }

  lemma StepShape(c: Runtime, s: State, step: Step)
    requires Distinct(s)
    ensures var (after, o) := Next(c, s, step); Shape(s, after, o)
  {
    match step
    case EnqueueRequest(t, clock) => EnqueueShape(c, s, t, clock);
    case PollNext(t, clock) => PollShape(c, s, t, clock);
    case FinishRequest(t) => FinishShape(c, s, t);
    case CompleteRequest(token, answer, clock) => CompleteShape(c, s, token, answer, clock);
    case _ =>
  }

  // ---------------------------------------------------------------- the life of a request

  function Outcomes(c: Runtime, steps: seq<Step>): (log: seq<Outcome>)
    ensures |log| == |steps|
  {
    if steps == [] then []
    else
      var n := |steps| - 1;
      Outcomes(c, steps[..n]) + [Next(c, After(c, steps[..n]), steps[n]).1]
  }

  lemma {:induction false} OutcomeIsOfItsStep(c: Runtime, steps: seq<Step>, k: nat)
    requires k < |steps|
    ensures Outcomes(c, steps)[k] == At(c, steps, k)
  {
    var n := |steps| - 1;
    if k < n {
      OutcomeIsOfItsStep(c, steps[..n], k);
      assert steps[..n][..k] == steps[..k];
    }
  }

  /** Where in the log a request was enqueued, handed out, supplied and returned. */
  datatype Trace = Trace(enqueued: Option<nat>, handed: Option<nat>, supplied: Option<nat>, returned: Option<nat>)

  const UNTRACED := Trace(None, None, None, None)

  predicate Concerns(o: Outcome, id: RequestId) {
    !o.Nothing? && !o.Revoked? && o.request.id == id
  }

  function TraceOf(log: seq<Outcome>, id: RequestId): Trace {
    if log == [] then UNTRACED
    else
      var k := |log| - 1;
      var t, o := TraceOf(log[..k], id), log[k];
      if !Concerns(o, id) then t
      else match o
        case Enqueued(_) => t.(enqueued := Some(k))
        case HandedOut(_, _) => t.(handed := Some(k))
        case Supplied(_, _, _) => t.(supplied := Some(k))
        case Returned(_) => t.(returned := Some(k))
        case _ => t
  }

  /** The trace is the story of request `x` so far. */
  ghost predicate Tells(log: seq<Outcome>, t: Trace, x: PendingContext) {
    && t.enqueued.Some? && t.enqueued.value < |log|
       && log[t.enqueued.value] == Enqueued(x.(taken := false, result := None))
    && (x.taken <==> t.handed.Some?) && (x.result.Some? <==> t.supplied.Some?)
    && (t.handed.Some? ==> t.enqueued.value < t.handed.value < |log| && HandedFor(log[t.handed.value], x))
    && (t.supplied.Some? ==>
       t.handed.Some? && t.handed.value < t.supplied.value < |log| && SuppliedFor(log[t.supplied.value], x))
    && (forall k :: t.enqueued.value < k < |log| ==> !log[k].Revoked?)
  }

  predicate HandedFor(o: Outcome, x: PendingContext) {
    o.HandedOut? && o.request == x.(taken := true, result := None) && Matches(x, o.lease)
  }

  predicate SuppliedFor(o: Outcome, x: PendingContext) {
    o.Supplied? && o.request == x && Matches(x, o.lease)
  }

  /** Each kind of outcome names the request at most once. */
  ghost predicate OnlyOnce(log: seq<Outcome>, id: RequestId, t: Trace) {
    forall k :: 0 <= k < |log| && Concerns(log[k], id) ==>
      && (log[k].Enqueued? ==> t.enqueued == Some(k))
      && (log[k].HandedOut? ==> t.handed == Some(k))
      && (log[k].Supplied? ==> t.supplied == Some(k))
      && (log[k].Returned? ==> t.returned == Some(k))
  }

  predicate NotYetEnqueued(s: State, id: RequestId) {
    id >= s.issued || exists t :: t in s.threads && s.threads[t].Drafting? && s.threads[t].draft.id == id
  }

  /** A returned context has a whole story that ends before its return. */
  ghost predicate Accounted(log: seq<Outcome>, t: Trace, p: nat) {
    && p < |log| && log[p].Returned? && log[p].request.result.Some?
    && Tells(log[..p], t, log[p].request)
  }

  ghost predicate Story(s: State, log: seq<Outcome>, id: RequestId) {
    var t := TraceOf(log, id);
    && OnlyOnce(log, id, t)
    && (NotYetEnqueued(s, id) ==> t == UNTRACED)
    && (forall x :: x in s.pending && x.id == id ==> t.returned.None? && Tells(log, t, x))
    && (t.returned.Some? ==> Accounted(log, t, t.returned.value))
  }

  lemma OtherStoryGoesOn(s: State, after: State, o: Outcome, log: seq<Outcome>, id: RequestId)
    requires Distinct(s) && Shape(s, after, o) && Story(s, log, id) && !Concerns(o, id)
    ensures Story(after, log + [o], id)
  {
    assert (log + [o])[..|log|] == log;
  }

  lemma OwnStoryGoesOn(s: State, after: State, o: Outcome, log: seq<Outcome>, id: RequestId)
    requires Distinct(s) && Shape(s, after, o) && Story(s, log, id) && Concerns(o, id)
    ensures Story(after, log + [o], id)
  {
    assert (log + [o])[..|log|] == log;
  }

  lemma StoryGoesOn(s: State, after: State, o: Outcome, log: seq<Outcome>, id: RequestId)
    requires Distinct(s) && Shape(s, after, o) && Story(s, log, id)
    ensures Story(after, log + [o], id)
  {
    if Concerns(o, id) { OwnStoryGoesOn(s, after, o, log, id); } else { OtherStoryGoesOn(s, after, o, log, id); }
  }

  lemma {:induction false} EveryRunHasItsStories(c: Runtime, steps: seq<Step>, id: RequestId)
    ensures Story(After(c, steps), Outcomes(c, steps), id)
  {
    if steps != [] {
      var n := |steps| - 1;
      var s := After(c, steps[..n]);
      RunsAreDistinct(c, steps[..n]);
      EveryRunHasItsStories(c, steps[..n], id);
      StepShape(c, s, steps[n]);
      StoryGoesOn(s, After(c, steps), Next(c, s, steps[n]).1, Outcomes(c, steps[..n]), id);
    }
  }

  /** The story of a returned context, read in the log. */
  lemma AccountedInLog(s: State, log: seq<Outcome>, p: nat) returns (e: nat, h: nat, q: nat)
    requires p < |log| && log[p].Returned? && Story(s, log, log[p].request.id)
    ensures e < h < q < p
    ensures log[e] == Enqueued(log[p].request.(taken := false, result := None))
    ensures HandedFor(log[h], log[p].request) && SuppliedFor(log[q], log[p].request)
    ensures forall k :: e < k < p ==> !log[k].Revoked?
    ensures forall k :: 0 <= k < |log| && Concerns(log[k], log[p].request.id) ==> k == e || k == h || k == q || k == p
  {
    var x := log[p].request;
    var t := TraceOf(log, x.id);
    assert Concerns(log[p], x.id) && t.returned == Some(p);
    assert Tells(log[..p], t, x);
    e, h, q := t.enqueued.value, t.handed.value, t.supplied.value;
    assert forall k :: 0 <= k < p ==> log[..p][k] == log[k];
  }

  /** Every context a request returns was supplied by the one completion of that request,
      after its one hand-out, each by a lease of the same manager session, host session and
      turn; the broker was not revoked in between, and nothing about the request happens
      twice. */
  lemma EveryContextIsAccountedFor(c: Runtime, steps: seq<Step>, p: nat) returns (e: nat, h: nat, q: nat)
    requires p < |steps| && Outcomes(c, steps)[p].Returned?
    ensures e < h < q < p
    ensures var log := Outcomes(c, steps); var x := log[p].request;
      && log[e] == Enqueued(x.(taken := false, result := None)) && HandedFor(log[h], x) && SuppliedFor(log[q], x)
      && (forall k :: e < k < p ==> !log[k].Revoked?)
      && (forall k :: 0 <= k < |log| && Concerns(log[k], x.id) ==> k == e || k == h || k == q || k == p)
  {
    EveryRunHasItsStories(c, steps, Outcomes(c, steps)[p].request.id);
    e, h, q := AccountedInLog(After(c, steps), Outcomes(c, steps), p);
  }

  lemma SuppliedIsACompletion(c: Runtime, s: State, step: Step)
    requires Next(c, s, step).1.Supplied?
    ensures step.CompleteRequest?
  {}

  /** The completion was made by the holder of the live capability, within its scope and
      before the request expired. */
  lemma EveryContextWasAuthorized(c: Runtime, steps: seq<Step>, p: nat) returns (q: nat)
    requires p < |steps| && Outcomes(c, steps)[p].Returned?
    ensures q < p && steps[q].CompleteRequest? && SuppliedFor(Outcomes(c, steps)[q], Outcomes(c, steps)[p].request)
    ensures var x, r, clock := Outcomes(c, steps)[p].request, After(c, steps[..q]).registry, steps[q].clock;
      && Live(c, r, clock) && r.capability == Some(steps[q].token) && Matches(x, r.session.value)
      && BoundScope(x.host, x.scope).Some? && Permits(r.session.value, BoundScope(x.host, x.scope).value)
      && clock.wall < x.expiresAt && x.result == Normalized(steps[q].answer.context, MAX_CONTEXT_CHARACTERS)
  {
    var e, h;
    e, h, q := EveryContextIsAccountedFor(c, steps, p);
    OutcomeIsOfItsStep(c, steps, q);
    SuppliedIsACompletion(c, After(c, steps[..q]), steps[q]);
    SuppliedByALiveHolder(c, After(c, steps[..q]), steps[q].token, steps[q].answer, steps[q].clock);
  }

  lemma OutcomesOfPrefix(c: Runtime, steps: seq<Step>, k: nat)
    requires k <= |steps|
    ensures Outcomes(c, steps[..k]) == Outcomes(c, steps)[..k]
  {
    forall i | 0 <= i < k ensures Outcomes(c, steps[..k])[i] == Outcomes(c, steps)[i] {
      OutcomeIsOfItsStep(c, steps[..k], i);
      OutcomeIsOfItsStep(c, steps, i);
      assert steps[..k][..i] == steps[..i];
    }
  }

  lemma PendingWasEnqueued(c: Runtime, steps: seq<Step>, y: PendingContext) returns (i: nat)
    requires y in After(c, steps).pending
    ensures i < |steps| && Outcomes(c, steps)[i].Enqueued? && Concerns(Outcomes(c, steps)[i], y.id)
  {
    EveryRunHasItsStories(c, steps, y.id);
    i := TraceOf(Outcomes(c, steps), y.id).enqueued.value;
  }

  /** No request pending when the broker is revoked ever returns a context. */
  lemma NothingReturnsAcrossARevoke(c: Runtime, steps: seq<Step>, k: nat, p: nat, y: PendingContext)
    requires k < p < |steps| && Outcomes(c, steps)[k].Revoked? && y in After(c, steps[..k]).pending
    requires Outcomes(c, steps)[p].Returned?
    ensures Outcomes(c, steps)[p].request.id != y.id
  {
    var log := Outcomes(c, steps);
    var i := PendingWasEnqueued(c, steps[..k], y);
    OutcomesOfPrefix(c, steps, k);
    assert log[i] == log[..k][i];
    var e, h, q := EveryContextIsAccountedFor(c, steps, p);
  }

  /** `next` hands out the oldest unexpired request of its session and turn. */
  lemma OldestIsHandedOut(c: Runtime, s: State, t: Thread, clock: Clock) returns (i: nat)
    requires Next(c, s, PollNext(t, clock)).1.HandedOut?
    ensures var kept, o := Pruned(s.pending, clock.wall), Next(c, s, PollNext(t, clock)).1;
      && i < |kept| && kept[i] == o.request.(taken := false) && Matches(kept[i], o.lease)
      && forall j :: 0 <= j < i ==> kept[j].taken || !Matches(kept[j], o.lease)
  {
    var kept, lease := Pruned(s.pending, clock.wall), s.threads[t].lease;
    FirstForIsFirst(kept, lease, 0);
    i := FirstFor(kept, lease, 0).value;
    assert kept[i].(taken := true).(taken := false) == kept[i];
  }

  /** At step `g` thread `t` was granted the lease: it was live and held under the token. */
  ghost predicate GrantedAt(c: Runtime, steps: seq<Step>, g: nat, t: Thread, lease: Lease) {
    && g < |steps| && steps[g].RequireForNext? && steps[g].thread == t
    && var r := After(c, steps[..g]).registry;
       Live(c, r, steps[g].clock) && r.session == Some(lease) && r.capability == Some(steps[g].token)
  }

  /** Whoever polls was granted its lease, by the capability that was live then. */
  lemma {:induction false} PollerWasGranted(c: Runtime, steps: seq<Step>, t: Thread) returns (g: nat)
    requires t in After(c, steps).threads && After(c, steps).threads[t].Polling?
    ensures GrantedAt(c, steps, g, t, After(c, steps).threads[t].lease)
  {
    var n := |steps| - 1;
    var before, lease := After(c, steps[..n]), After(c, steps).threads[t].lease;
    if t in before.threads && before.threads[t] == Polling(lease) {
      g := PollerWasGranted(c, steps[..n], t);
      assert steps[..n][..g] == steps[..g];
    } else {
      g := n;
    }
  }

  /** Every request is handed out to a thread that presented the live capability of the lease
      before, a lease of the request's manager session, host session and turn. */
  lemma EveryHandOutWasGranted(c: Runtime, steps: seq<Step>, p: nat) returns (g: nat)
    requires p < |steps| && Outcomes(c, steps)[p].HandedOut?
    ensures var o := Outcomes(c, steps)[p];
      g < p && steps[p].PollNext? && GrantedAt(c, steps, g, steps[p].thread, o.lease) && Matches(o.request, o.lease)
  {
    OutcomeIsOfItsStep(c, steps, p);
    var t := steps[p].thread;
    g := PollerWasGranted(c, steps[..p], t);
    assert steps[..p][..g] == steps[..g];
    RunsAreDistinct(c, steps[..p]);
    StepShape(c, After(c, steps[..p]), steps[p]);
  }

  lemma {:induction false} FirstIgnoresScopes(
    pending: seq<PendingContext>, lease: Lease, scopes: seq<string>, from: nat)
    requires from <= |pending|
    ensures FirstFor(pending, lease.(scopes := scopes), from) == FirstFor(pending, lease, from)
    decreases |pending| - from
  {
    if from < |pending| { FirstIgnoresScopes(pending, lease, scopes, from + 1); }
  }

  /** Handing out does not look at scopes: a later lease of the same manager session, host
      session and turn is shown a request whose scope it does not cover.  Only answering it
      needs the scope. */
  lemma HandOutIgnoresScopes(pending: seq<PendingContext>, lease: Lease, scopes: seq<string>, now: Instant)
    ensures Polled(pending, lease.(scopes := scopes), now) == Polled(pending, lease, now)
  {
    FirstIgnoresScopes(Pruned(pending, now), lease, scopes, 0);
  }
}
