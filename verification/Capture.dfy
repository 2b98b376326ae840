/** The browser capture of one page (`browser_extension/core/capture.js`).

    Routes, composer texts, messages and times are inputs.  The hash of an event is a
    constructor of its material, and a provisional reference one of the turn it is made
    for. */
module Capture {
  import opened Schema
  import opened Texts
  import opened Dedupe

  const EVENT_WINDOW := 2000
  const RESUBMISSION := 1000

  datatype Route = Route(
    chat: string, project: Option<string>, projectName: Option<string>, chatName: Option<string>,
    stable: bool, home: bool, newChat: bool)

  datatype Turn = Submission(at: int, sequence: nat) | HostMessage(reference: string)

  datatype ChatReference = Named(text: string) | Provisional(turn: Turn)

  datatype CaptureEvent = CaptureEvent(
    project: Option<string>, chat: ChatReference, turn: Turn, role: Role, content: string, capturedAt: int,
    projectName: Option<string>, chatName: Option<string>, rebindFrom: Option<ChatReference>)

  datatype EventId = EventHash(chat: ChatReference, turn: Turn, role: Role, content: string)

  function IdOf(e: CaptureEvent): EventId {
    EventHash(e.chat, e.turn, e.role, e.content)
  }

  datatype Recent = Recent(chat: string, content: string, at: int, turn: Turn)

  datatype PendingChat = PendingChat(
    event: CaptureEvent, project: Option<string>, projectName: Option<string>, ignored: set<string>,
    assistantCaptured: bool)

  datatype StableRoute = StableRoute(route: Route, project: Option<string>, ignored: set<string>, expiresAt: int)

  datatype Settings = Settings(pollLimit: int, routeLifetime: int, stable: int)

  /** Every event emitted, the ids of the dedupe window, what was sent, and the deliveries
      waiting behind the one in flight. */
  datatype Traffic = Traffic(
    emitted: seq<CaptureEvent>, window: seq<EventId>, sent: seq<CaptureEvent>, queue: seq<CaptureEvent>, inFlight: bool)

  datatype Page = Page(
    sequence: nat, recent: Option<Recent>, pending: Option<PendingChat>, polling: bool, pollsLeft: int,
    stableRoute: Option<StableRoute>, trusted: Option<(string, string)>,
    states: SeenTable, answered: seq<(string, string)>, traffic: Traffic)

  const OPENED := Page(0, None, None, false, 0, None, None, map[], [], Traffic([], [], [], [], false))

  // ---------------------------------------------------------------- events

  /** `makeChatEvent`, or `None` for its errors. */
  function MakeEvent(
    route: Route, chat: ChatReference, role: Role, content: string, turn: Turn, at: int,
    rebindFrom: Option<ChatReference>)
    : Option<CaptureEvent>
  {
    if (chat.Named? && Stripped(chat.text) == "") || Stripped(content) == "" then None
    else Some(CaptureEvent(route.project, if chat.Named? then Named(Stripped(chat.text))
      else chat, turn, role, Stripped(content), at,
                           route.projectName, route.chatName, rebindFrom))
  }

  /** `emit`: a repeated id is dropped; otherwise the event is sent, now or after the
      deliveries before it.  `promised` says whether sending returns a promise. */
  function Emit(t: Traffic, e: CaptureEvent, promised: bool): (Traffic, bool) {
    if IdOf(e) in t.window then (t, false)
    else
      var seen := t.(emitted := t.emitted + [e], window := Offered(t.window, EVENT_WINDOW, IdOf(e)));
      if t.inFlight then (seen.(queue := t.queue + [e]), true)
        else (seen.(sent := t.sent + [e], inFlight := promised), true)
  }

  /** The delivery in flight settles and the next one starts. */
  function Delivered(t: Traffic): Traffic {
    if !t.inFlight then t
    else if t.queue == [] then t.(inFlight := false)
    else t.(sent := t.sent + [t.queue[0]], queue := t.queue[1..])
  }

  function Emitted(s: Page, e: CaptureEvent, promised: bool): (Page, bool) {
    var (traffic, emitted) := Emit(s.traffic, e, promised);
    (s.(traffic := traffic), emitted)
  }

  // ---------------------------------------------------------------- routes

  function ObservedHome(s: Page, route: Option<Route>): Page {
    if route.None? then s
    else
      var r := route.value;
      if r.home then
        s.(trusted := if r.project.Some? && r.projectName.Some? then Some((r.project.value, r.projectName.value))
          else None)
      else if s.trusted.Some? && r.project != Some(s.trusted.value.0) then s.(trusted := None)
      else s
  }

  function WithTrustedHome(s: Page, r: Route): Route {
    if r.projectName.Some? || s.trusted.None? || r.project != Some(s.trusted.value.0) then r
    else r.(projectName := Some(s.trusted.value.1))
  }

  function OutsideCleared(s: Page, route: Option<Route>): Page {
    if s.stableRoute.None? || route.None? then s
    else if route.value.project != s.stableRoute.value.project then s.(stableRoute := None)
    else if route.value.stable && route.value.chat != s.stableRoute.value.route.chat then s.(stableRoute := None)
    else s
  }

  // ---------------------------------------------------------------- submitting

  predicate Resubmitted(s: Page, r: Route, content: string, now: int) {
    s.recent.Some? && s.recent.value.chat == r.chat && s.recent.value.content == content
      && now - s.recent.value.at < RESUBMISSION
  }

  /** The turn of a submission; one repeated within a second keeps its turn. */
  function TurnOf(s: Page, r: Route, content: string, now: int): (Page, Turn) {
    if Resubmitted(s, r, content, now) then (s, s.recent.value.turn)
    else
      var turn := Submission(now, s.sequence + 1);
      (s.(sequence := s.sequence + 1, recent := Some(Recent(r.chat, content, now, turn))), turn)
  }

  function PollScheduled(s: Page): Page {
    if s.pending.None? || s.polling || s.pollsLeft <= 0 then s else s.(polling := true)
  }

  function UserEvent(r: Route, content: string, turn: Turn, now: int): Option<CaptureEvent> {
    if r.newChat then MakeEvent(r.(chatName := None), Provisional(turn), User, content, turn, now, None)
    else MakeEvent(r, Named(r.chat), User, content, turn, now, None)
  }

  /** `captureUserSubmit` up to its emission: the page, and the event unless making it failed.
      `listed` are the answers on the page. */
  function Armed(
    c: Settings, s: Page, composer: string, route: Route, listed: set<string>, now: int): (Page, Option<CaptureEvent>) {
    var observed := ObservedHome(s, Some(route));
    var r := WithTrustedHome(observed, route);
    var atHome := if r.home then observed.(stableRoute := None) else observed;
    var (turned, turn) := TurnOf(atHome, r, composer, now);
    var e := UserEvent(r, composer, turn, now);
    if e.None? || !r.newChat then (turned, e)
    else
      var ignored := if r.home then listed else {};
      (turned.(pending := Some(PendingChat(e.value, e.value.project, e.value.projectName, ignored, false)),
        pollsLeft := c.pollLimit), e)
  }

  /** `captureUserSubmit`. */
  function Submitted(
    c: Settings, s: Page, composer: string, route: Option<Route>, listed: set<string>, now: int,
    promised: bool): (Page, bool) {
    if composer == "" || route.None? then (s, false)
    else
      var (armed, e) := Armed(c, s, composer, route.value, listed, now);
      if e.None? then (armed, false)
      else
        var (after, emitted) := Emitted(armed, e.value, promised);
        var untrusted := if emitted && e.value.projectName.Some? then after.(trusted := None) else after;
        (if emitted && route.value.newChat then PollScheduled(untrusted) else untrusted, emitted)
  }

  // ---------------------------------------------------------------- rebinding

  function ReboundEvent(p: PendingChat, r: Route): Option<CaptureEvent> {
    var named := if p.projectName.Some? then r.(projectName := p.projectName) else r;
    MakeEvent(named, Named(r.chat), p.event.role, p.event.content, p.event.turn, p.event.capturedAt, Some(p.event.chat))
  }

  datatype Rebinding = Rebound | NotYet | Raised

  /** `reconcilePendingNewChat`; it raises when the event cannot be made. */
  function Reconciled(c: Settings, s: Page, route: Option<Route>, now: int, promised: bool): (Page, Rebinding) {
    if s.pending.None? || route.None? || !route.value.stable || route.value.project != s.pending.value.project
      then (s, NotYet)
    else
      var p, r := s.pending.value, route.value;
      var e := ReboundEvent(p, r);
      if e.None? then (s, Raised)
      else
        var (after, emitted) := Emitted(s, e.value, promised);
        if !emitted then (after, NotYet)
        else
          var named := if p.projectName.Some? then r.(projectName := p.projectName) else r;
          (after.(stableRoute := if p.project.Some? && !p.assistantCaptured
                                 then Some(StableRoute(named, p.project, p.ignored, now + c.routeLifetime)) else None,
                  pending := None, pollsLeft := 0), Rebound)
  }

  /** The callback of `schedulePendingRoutePoll`. */
  function Polled(c: Settings, s: Page, route: Option<Route>, now: int, promised: bool): Page {
    if !s.polling then s
    else
      var fired := s.(polling := false);
      if fired.pending.None? then fired
      else
        var (after, rebinding) := Reconciled(c, fired.(pollsLeft := fired.pollsLeft - 1), route, now, promised);
        if rebinding == NotYet then PollScheduled(after) else after
  }

  // ---------------------------------------------------------------- answers

  datatype Association = Association(route: Route, chat: ChatReference, ignored: set<string>, pending: bool)

  /** `assistantAssociation`: where the answers on the page belong. */
  function Associated(s: Page, route: Option<Route>, now: int): (Page, Option<Association>) {
    if route.None? then (s, None)
    else
      var r := route.value;
      if !r.home then (s, Some(Association(r, Named(r.chat), {}, false)))
      else if s.pending.Some? && s.pending.value.project == r.project then
        (s, Some(Association(r.(projectName := s.pending.value.projectName, chatName := None),
          s.pending.value.event.chat, s.pending.value.ignored, true)))
      else if s.stableRoute.None? then (s, None)
      else if s.stableRoute.value.expiresAt < now then (s.(stableRoute := None), None)
      else if s.stableRoute.value.project != r.project then (s, None)
      else
        var kept := s.stableRoute.value;
        (s, Some(Association(kept.route, Named(kept.route.chat), kept.ignored, false)))
  }

  /** One answer of the scan; the flag says whether the scan goes on. */
  function Answered(c: Settings, s: Page, a: Association, m: AssistantMessage, now: int, promised: bool): (Page, bool) {
    if m.reference in a.ignored then (s, true)
    else
      var key := (m.reference, m.content);
      var ready := Settled(s.states, c.stable, m, now) && key !in s.answered;
      var seen := s.(states := StatesAfter(s.states, m, now),
                     answered := if Settled(s.states, c.stable, m, now) then Offered(s.answered, EVENT_WINDOW, key)
                       else s.answered);
      if !ready then (seen, true)
      else
        var e := if Stripped(m.reference) == "" then None
                 else MakeEvent(a.route, a.chat, Assistant, m.content, HostMessage(Stripped(m.reference)), now, None);
        if e.None? then (seen, false)
        else
          var (after, emitted) := Emitted(seen, e.value, promised);
          var noted := if emitted && a.pending && after.pending.Some?
                       then after.(pending := Some(after.pending.value.(assistantCaptured := true))) else after;
          (if emitted && noted.stableRoute.Some? && a.chat == Named(noted.stableRoute.value.route.chat)
           then noted.(stableRoute := None) else noted, true)
  }

  function AnsweredAll(
    c: Settings, s: Page, a: Association, messages: seq<AssistantMessage>, now: int, promised: bool): (Page, bool) {
    if messages == [] then (s, true)
    else
      var (before, on) := AnsweredAll(c, s, a, messages[..|messages| - 1], now, promised);
      if on then Answered(c, before, a, messages[|messages| - 1], now, promised) else (before, false)
  }

  /** `scanVisibleAssistantMessages`. */
  function Scanned(
    c: Settings, s: Page, route: Option<Route>, messages: seq<AssistantMessage>, now: int, promised: bool): Page {
    var (reconciled, rebinding) := Reconciled(c, OutsideCleared(ObservedHome(s, route), route), route, now, promised);
    if rebinding == Raised then reconciled
    else
      var (associated, a) := Associated(reconciled, route, now);
      if a.None? then associated else AnsweredAll(c, associated, a.value, messages, now, promised).0
  }

  /** `routeChanged`. */
  function Rerouted(c: Settings, s: Page, route: Option<Route>, now: int, promised: bool): Page {
    Reconciled(c, OutsideCleared(ObservedHome(s.(states := map[]), route), route), route, now, promised).0
  }

  // ---------------------------------------------------------------- runs

  datatype Step =
    | Intend(route: Option<Route>)
    | Submit(composer: string, route: Option<Route>, listed: set<string>, now: int, promised: bool)
    | Scan(route: Option<Route>, messages: seq<AssistantMessage>, now: int, promised: bool)
    | Reroute(route: Option<Route>, now: int, promised: bool)
    | Poll(route: Option<Route>, now: int, promised: bool)
    | Deliver

  function Next(c: Settings, s: Page, step: Step): Page {
    match step
    case Intend(route) => ObservedHome(s.(trusted := None), if route.Some? && route.value.home then route else None)
    case Submit(composer, route, listed, now, promised) => Submitted(c, s, composer, route, listed, now, promised).0
    case Scan(route, messages, now, promised) => Scanned(c, s, route, messages, now, promised)
    case Reroute(route, now, promised) => Rerouted(c, s, route, now, promised)
    case Poll(route, now, promised) => Polled(c, s, route, now, promised)
    case Deliver => s.(traffic := Delivered(s.traffic))
  }

  function After(c: Settings, steps: seq<Step>): Page {
    if steps == [] then OPENED else Next(c, After(c, steps[..|steps| - 1]), steps[|steps| - 1])
  }

  // ---------------------------------------------------------------- the moves of a page

  /** What the properties of a page depend on; the pending submission without its flags. */
  datatype Core = Core(
    sequence: nat, recent: Option<Recent>, pending: Option<(CaptureEvent, Option<string>)>, traffic: Traffic)

  function CoreOf(s: Page): Core {
    Core(s.sequence, s.recent, if s.pending.None? then None
      else Some((s.pending.value.event, s.pending.value.project)), s.traffic)
  }

  function Sent(a: Core, e: CaptureEvent, promised: bool): Core {
    a.(traffic := Emit(a.traffic, e, promised).0)
  }

  /** The same text on the same page within a second. */
  predicate Again(a: Core, r: Route, composer: string, now: int) {
    a.recent.Some? && a.recent.value.chat == r.chat && a.recent.value.content == composer
      && now - a.recent.value.at < RESUBMISSION
  }

  /** A submission up to its emission: its turn and its arming on a new-chat route. */
  function ArmCore(a: Core, r: Route, composer: string, now: int): (Core, Option<CaptureEvent>) {
    var again := Again(a, r, composer, now);
    var turn := if again then a.recent.value.turn else Submission(now, a.sequence + 1);
    var turned := if again then a else a.(sequence := a.sequence + 1,
      recent := Some(Recent(r.chat, composer, now, turn)));
    var e := UserEvent(r, composer, turn, now);
    (if e.Some? && r.newChat then turned.(pending := Some((e.value, e.value.project))) else turned, e)
  }

  function SubmitCore(a: Core, r: Route, composer: string, now: int, promised: bool): Core {
    var (armed, e) := ArmCore(a, r, composer, now);
    if e.None? then armed else Sent(armed, e.value, promised)
  }

  predicate RebindMove(a: Core, b: Core, e: CaptureEvent, promised: bool) {
    && a.pending.Some?
    && var p := a.pending.value.0;
    && e.rebindFrom == Some(p.chat) && e.turn == p.turn && e.role == p.role && e.content == Stripped(p.content)
    && e.chat.Named? && e.project == a.pending.value.1 && IdOf(e) !in a.traffic.window
    && b == Sent(a, e, promised).(pending := None)
  }

  predicate AnswerMove(a: Core, b: Core, e: CaptureEvent, promised: bool) {
    && e.role == Assistant && e.rebindFrom.None?
    && (e.chat.Named? || (a.pending.Some? && e.chat == a.pending.value.0.chat))
    && b == Sent(a, e, promised)
  }

  /** `may` restricts the submissions considered. */
  ghost predicate Move(a: Core, b: Core, may: (Core, Route, string, int) -> bool) {
    || a == b
    || b == a.(traffic := Delivered(a.traffic))
    || (exists e, promised :: RebindMove(a, b, e, promised))
    || (exists e, promised :: AnswerMove(a, b, e, promised))
    || (exists r, composer, now, promised :: may(a, r, composer, now) && b == SubmitCore(a, r, composer, now, promised))
  }

  ghost predicate KeptByMoves(keeps: Core -> bool, may: (Core, Route, string, int) -> bool) {
    forall a, b :: keeps(a) && Move(a, b, may) ==> keeps(b)
  }

  lemma ReconcilingMoves(
    c: Settings, s: Page, route: Option<Route>, now: int, promised: bool, keeps: Core -> bool,
    may: (Core, Route, string, int) -> bool)
    requires keeps(CoreOf(s)) && KeptByMoves(keeps, may)
    ensures keeps(CoreOf(Reconciled(c, s, route, now, promised).0))
  {
    var after := Reconciled(c, s, route, now, promised).0;
    if CoreOf(after) != CoreOf(s) {
      var e := ReboundEvent(s.pending.value, route.value).value;
      assert RebindMove(CoreOf(s), CoreOf(after), e, promised);
    }
    assert Move(CoreOf(s), CoreOf(after), may);
  }

  lemma AnswerMoves(
    c: Settings, s: Page, a: Association, m: AssistantMessage, now: int, promised: bool, keeps: Core -> bool,
    may: (Core, Route, string, int) -> bool)
    requires keeps(CoreOf(s)) && KeptByMoves(keeps, may)
    requires a.chat.Named? || (s.pending.Some? && a.chat == s.pending.value.event.chat)
    ensures keeps(CoreOf(Answered(c, s, a, m, now, promised).0))
    ensures CoreOf(Answered(c, s, a, m, now, promised).0).pending == CoreOf(s).pending
  {
    var after := Answered(c, s, a, m, now, promised).0;
    if CoreOf(after) != CoreOf(s) {
      var e := MakeEvent(a.route, a.chat, Assistant, m.content, HostMessage(Stripped(m.reference)), now, None).value;
      assert AnswerMove(CoreOf(s), CoreOf(after), e, promised);
    }
    assert Move(CoreOf(s), CoreOf(after), may);
  }

  lemma {:induction false} AnswersMove(
    c: Settings, s: Page, a: Association, messages: seq<AssistantMessage>, now: int, promised: bool,
    keeps: Core -> bool,
    may: (Core, Route, string, int) -> bool)
    requires keeps(CoreOf(s)) && KeptByMoves(keeps, may)
    requires a.chat.Named? || (s.pending.Some? && a.chat == s.pending.value.event.chat)
    ensures keeps(CoreOf(AnsweredAll(c, s, a, messages, now, promised).0))
    ensures CoreOf(AnsweredAll(c, s, a, messages, now, promised).0).pending == CoreOf(s).pending
  {
    if messages != [] {
      var n := |messages| - 1;
      AnswersMove(c, s, a, messages[..n], now, promised, keeps, may);
      var before := AnsweredAll(c, s, a, messages[..n], now, promised).0;
      assert CoreOf(before).pending.Some? ==>
        before.pending.Some? && before.pending.value.event == CoreOf(before).pending.value.0;
      AnswerMoves(c, before, a, messages[n], now, promised, keeps, may);
    }
  }

  lemma ArmingIsCore(c: Settings, s: Page, composer: string, route: Route, listed: set<string>, now: int)
    ensures var r := WithTrustedHome(ObservedHome(s, Some(route)), route);
      var (armed, e) := Armed(c, s, composer, route, listed, now);
      (CoreOf(armed), e) == ArmCore(CoreOf(s), r, composer, now)
  {}

  lemma EmissionIsCore(s: Page, e: CaptureEvent, promised: bool)
    ensures CoreOf(Emitted(s, e, promised).0) == Sent(CoreOf(s), e, promised)
  {}

  lemma SubmissionIsCore(
    c: Settings, s: Page, composer: string, route: Route, listed: set<string>, now: int, promised: bool)
    requires composer != ""
    ensures CoreOf(Submitted(c, s, composer, Some(route), listed, now, promised).0)
            == SubmitCore(CoreOf(s), WithTrustedHome(ObservedHome(s, Some(route)), route), composer, now, promised)
  {
    ArmingIsCore(c, s, composer, route, listed, now);
    var (armed, e) := Armed(c, s, composer, route, listed, now);
    if e.Some? {
      EmissionIsCore(armed, e.value, promised);
      var after := Submitted(c, s, composer, Some(route), listed, now, promised).0;
      assert CoreOf(after) == CoreOf(Emitted(armed, e.value, promised).0);
    }
  }

  lemma SubmissionMoves(
    c: Settings, s: Page, composer: string, route: Option<Route>, listed: set<string>, now: int, promised: bool,
    keeps: Core -> bool, may: (Core, Route, string, int) -> bool)
    requires keeps(CoreOf(s)) && KeptByMoves(keeps, may)
    requires composer != "" && route.Some? ==>
      may(CoreOf(s), WithTrustedHome(ObservedHome(s, route), route.value), composer, now)
    ensures keeps(CoreOf(Submitted(c, s, composer, route, listed, now, promised).0))
  {
    var after := CoreOf(Submitted(c, s, composer, route, listed, now, promised).0);
    if composer != "" && route.Some? {
      SubmissionIsCore(c, s, composer, route.value, listed, now, promised);
      var r := WithTrustedHome(ObservedHome(s, route), route.value);
      assert may(CoreOf(s), r, composer, now) && after == SubmitCore(CoreOf(s), r, composer, now, promised);
    }
    assert Move(CoreOf(s), after, may);
  }

  lemma ObservingIsQuiet(s: Page, route: Option<Route>)
    ensures CoreOf(ObservedHome(s, route)) == CoreOf(s) && CoreOf(OutsideCleared(s, route)) == CoreOf(s)
  {}

  lemma ScanMoves(
    c: Settings, s: Page, route: Option<Route>, messages: seq<AssistantMessage>, now: int, promised: bool,
    keeps: Core -> bool,
    may: (Core, Route, string, int) -> bool)
    requires keeps(CoreOf(s)) && KeptByMoves(keeps, may)
    ensures keeps(CoreOf(Scanned(c, s, route, messages, now, promised)))
  {
    ObservingIsQuiet(s, route);
    ObservingIsQuiet(ObservedHome(s, route), route);
    var cleared := OutsideCleared(ObservedHome(s, route), route);
    ReconcilingMoves(c, cleared, route, now, promised, keeps, may);
    var (reconciled, rebinding) := Reconciled(c, cleared, route, now, promised);
    var (associated, a) := Associated(reconciled, route, now);
    assert CoreOf(associated) == CoreOf(reconciled);
    if a.Some? { AnswersMove(c, associated, a.value, messages, now, promised, keeps, may); }
  }

  /** Whatever every move keeps, every step of the page keeps. */
  lemma StepMoves(c: Settings, s: Page, step: Step, keeps: Core -> bool, may: (Core, Route, string, int) -> bool)
    requires keeps(CoreOf(s)) && KeptByMoves(keeps, may) && Allowed(s, step, may)
    ensures keeps(CoreOf(Next(c, s, step)))
  {
    match step
    case Intend(route) =>
      ObservingIsQuiet(s.(trusted := None), if route.Some? && route.value.home then route else None);
    case Submit(composer, route, listed, now, promised) =>
      SubmissionMoves(c, s, composer, route, listed, now, promised, keeps, may);
    case Scan(route, messages, now, promised) => ScanMoves(c, s, route, messages, now, promised, keeps, may);
    case Reroute(route, now, promised) =>
      var reset := s.(states := map[]);
      ObservingIsQuiet(reset, route);
      ObservingIsQuiet(ObservedHome(reset, route), route);
      ReconcilingMoves(c, OutsideCleared(ObservedHome(reset, route), route), route, now, promised, keeps, may);
    case Poll(route, now, promised) =>
      var counted := s.(polling := false, pollsLeft := s.pollsLeft - 1);
      assert CoreOf(counted) == CoreOf(s);
      ReconcilingMoves(c, counted, route, now, promised, keeps, may);
      var after := Reconciled(c, counted, route, now, promised).0;
      assert CoreOf(PollScheduled(after)) == CoreOf(after);
    case Deliver =>
      assert Move(CoreOf(s), CoreOf(Next(c, s, step)), may);
  }

  predicate Allowed(s: Page, step: Step, may: (Core, Route, string, int) -> bool) {
    step.Submit? && step.composer != "" && step.route.Some? ==>
      may(CoreOf(s), WithTrustedHome(ObservedHome(s, step.route), step.route.value), step.composer, step.now)
  }

  ghost predicate AllAllowed(c: Settings, steps: seq<Step>, may: (Core, Route, string, int) -> bool) {
    forall i :: 0 <= i < |steps| ==> Allowed(After(c, steps[..i]), steps[i], may)
  }

  lemma {:induction false} RunsKeep(
    c: Settings, steps: seq<Step>, keeps: Core -> bool, may: (Core, Route, string, int) -> bool)
    requires keeps(CoreOf(OPENED)) && KeptByMoves(keeps, may) && AllAllowed(c, steps, may)
    ensures keeps(CoreOf(After(c, steps)))
  {
    if steps != [] {
      var n := |steps| - 1;
      forall i | 0 <= i < n ensures Allowed(After(c, steps[..n][..i]), steps[..n][i], may) {
        assert steps[..n][..i] == steps[..i];
      }
      RunsKeep(c, steps[..n], keeps, may);
      assert Allowed(After(c, steps[..n]), steps[n], may);
      StepMoves(c, After(c, steps[..n]), steps[n], keeps, may);
    }
  }

  // ---------------------------------------------------------------- deliveries and repeats

  function IdsOf(events: seq<CaptureEvent>): seq<EventId> {
    seq(|events|, i requires 0 <= i < |events| => IdOf(events[i]))
  }

  /** Deliveries keep the order of emission, and the window is the last ids emitted. */
  ghost predicate Orderly(t: Traffic) {
    && t.sent + t.queue == t.emitted && (!t.inFlight ==> t.queue == [])
    && t.window == LastOf(IdsOf(t.emitted), EVENT_WINDOW)
    && (forall p, q :: 0 <= p < q < |t.emitted| && IdOf(t.emitted[p]) == IdOf(t.emitted[q]) ==> q - p > EVENT_WINDOW)
  }

  lemma EmissionIsOrderly(t: Traffic, e: CaptureEvent, promised: bool)
    requires Orderly(t)
    ensures Orderly(Emit(t, e, promised).0)
  {
    if IdOf(e) !in t.window {
      var ids, more := IdsOf(t.emitted), t.emitted + [e];
      LastOfMore(ids, EVENT_WINDOW, IdOf(e));
      assert IdsOf(more) == ids + [IdOf(e)];
      forall p | 0 <= p < |t.emitted| && IdOf(more[p]) == IdOf(e) ensures |t.emitted| - p > EVENT_WINDOW {
        assert ids[p] == IdOf(e);
        if |t.emitted| - p <= EVENT_WINDOW { RecentIsLast(ids, EVENT_WINDOW, p); }
      }
    }
  }

  lemma DeliveryIsOrderly(t: Traffic)
    requires Orderly(t)
    ensures Orderly(Delivered(t))
  {
    if t.inFlight && t.queue != [] {
      assert t.sent + [t.queue[0]] + t.queue[1..] == t.sent + t.queue;
    }
  }

  lemma MovesAreOrderly(a: Core, b: Core, may: (Core, Route, string, int) -> bool)
    requires Orderly(a.traffic) && Move(a, b, may)
    ensures Orderly(b.traffic)
  {
    if e, promised :| RebindMove(a, b, e, promised) {
      EmissionIsOrderly(a.traffic, e, promised);
    } else if e, promised :| AnswerMove(a, b, e, promised) {
      EmissionIsOrderly(a.traffic, e, promised);
    } else if r, composer, now, promised :| may(a, r, composer, now) && b == SubmitCore(a, r, composer, now, promised) {
      var (armed, e) := ArmCore(a, r, composer, now);
      if e.Some? { EmissionIsOrderly(armed.traffic, e.value, promised); }
    } else {
      DeliveryIsOrderly(a.traffic);
    }
  }

  /** In every run events are sent in the order they were emitted, none is lost or sent
      twice, and an id is emitted again only after more than the window of others. */
  lemma RunsAreOrderly(c: Settings, steps: seq<Step>)
    ensures Orderly(After(c, steps).traffic)
  {
    var keeps, may := (a: Core) => Orderly(a.traffic), (a: Core, r: Route, composer: string, now: int) => true;
    forall a, b | keeps(a) && Move(a, b, may) ensures keeps(b) { MovesAreOrderly(a, b, may); }
    RunsKeep(c, steps, keeps, may);
  }

  // ---------------------------------------------------------------- every rebind has its submission

  predicate IsSubmission(e: CaptureEvent, chat: ChatReference) {
    e.rebindFrom.None? && e.role == User && e.chat == chat
  }

  predicate IsSubmissionOf(e: CaptureEvent, chat: ChatReference, turn: Turn, content: string) {
    IsSubmission(e, chat) && e.turn == turn && e.content == content
  }

  ghost predicate SubmittedBefore(log: seq<CaptureEvent>, n: nat, chat: ChatReference, turn: Turn, content: string) {
    exists q :: 0 <= q < n && q < |log| && IsSubmissionOf(log[q], chat, turn, content)
  }

  /** A rebind repeats the turn and the content of an earlier submission under the provisional
      reference of that turn; an answer under a provisional reference follows one. */
  ghost predicate Explained(log: seq<CaptureEvent>, n: nat)
    requires n < |log|
  {
    var e := log[n];
    && (e.rebindFrom.Some? ==>
          e.chat.Named? && e.role == User && e.rebindFrom == Some(Provisional(e.turn))
          && SubmittedBefore(log, n, Provisional(e.turn), e.turn, e.content))
    && (e.role == Assistant && e.chat.Provisional? ==> exists q :: 0 <= q < n && IsSubmission(log[q], e.chat))
  }

  predicate WellPended(p: CaptureEvent) {
    p.chat == Provisional(p.turn) && p.rebindFrom.None? && p.role == User && Stripped(p.content) == p.content
  }

  ghost predicate Told(a: Core) {
    && Orderly(a.traffic)
    && (forall n :: 0 <= n < |a.traffic.emitted| ==> Explained(a.traffic.emitted, n))
    && (a.pending.Some? ==>
          var p := a.pending.value.0;
          WellPended(p) && SubmittedBefore(a.traffic.emitted, |a.traffic.emitted|, p.chat, p.turn, p.content))
  }

  lemma ExplainedStays(log: seq<CaptureEvent>, e: CaptureEvent)
    requires forall n :: 0 <= n < |log| ==> Explained(log, n)
    ensures forall n :: 0 <= n < |log| ==> Explained(log + [e], n)
  {
    forall n | 0 <= n < |log| ensures Explained(log + [e], n) {
      assert Explained(log, n);
      var x := log[n];
      if x.rebindFrom.Some? {
        var q :| 0 <= q < n && IsSubmissionOf(log[q], Provisional(x.turn), x.turn, x.content);
        assert IsSubmissionOf((log + [e])[q], Provisional(x.turn), x.turn, x.content);
      }
      if x.role == Assistant && x.chat.Provisional? {
        var q :| 0 <= q < n && IsSubmission(log[q], x.chat);
        assert IsSubmission((log + [e])[q], x.chat);
      }
    }
  }

  lemma SubmittedStays(log: seq<CaptureEvent>, e: CaptureEvent, chat: ChatReference, turn: Turn, content: string)
    requires SubmittedBefore(log, |log|, chat, turn, content)
    ensures SubmittedBefore(log + [e], |log|, chat, turn, content)
      && SubmittedBefore(log + [e], |log| + 1, chat, turn, content)
    ensures exists q :: 0 <= q < |log| && IsSubmission((log + [e])[q], chat)
  {
    var q :| 0 <= q < |log| && IsSubmissionOf(log[q], chat, turn, content);
    assert IsSubmissionOf((log + [e])[q], chat, turn, content);
  }

  lemma RebindIsTold(a: Core, b: Core, e: CaptureEvent, promised: bool)
    requires Told(a) && RebindMove(a, b, e, promised)
    ensures Told(b)
  {
    var log, p := a.traffic.emitted, a.pending.value.0;
    EmissionIsOrderly(a.traffic, e, promised);
    ExplainedStays(log, e);
    SubmittedStays(log, e, p.chat, p.turn, p.content);
    assert b.traffic.emitted == log + [e];
    assert Explained(log + [e], |log|);
  }

  lemma AnswerIsTold(a: Core, b: Core, e: CaptureEvent, promised: bool)
    requires Told(a) && AnswerMove(a, b, e, promised)
    ensures Told(b)
  {
    var log := a.traffic.emitted;
    EmissionIsOrderly(a.traffic, e, promised);
    ExplainedStays(log, e);
    if a.pending.Some? {
      SubmittedStays(log, e, a.pending.value.0.chat, a.pending.value.0.turn, a.pending.value.0.content);
    }
    if b.traffic.emitted != log { assert Explained(log + [e], |log|); }
  }

  lemma RepeatedWasSubmitted(t: Traffic, e: CaptureEvent)
    requires Orderly(t) && forall n :: 0 <= n < |t.emitted| ==> Explained(t.emitted, n)
    requires IdOf(e) in t.window && e.chat.Provisional? && e.role == User
    ensures SubmittedBefore(t.emitted, |t.emitted|, e.chat, e.turn, e.content)
  {
    var ids := IdsOf(t.emitted);
    var i :| 0 <= i < |t.window| && t.window[i] == IdOf(e);
    var q := i + |ids| - |t.window|;
    assert ids[q] == IdOf(e);
    assert Explained(t.emitted, q) && IsSubmissionOf(t.emitted[q], e.chat, e.turn, e.content);
  }

  lemma SubmissionIsTold(a: Core, r: Route, composer: string, now: int, promised: bool)
    requires Told(a)
    ensures Told(SubmitCore(a, r, composer, now, promised))
  {
    var log := a.traffic.emitted;
    var (armed, e) := ArmCore(a, r, composer, now);
    if e.Some? {
      EmissionIsOrderly(a.traffic, e.value, promised);
      ExplainedStays(log, e.value);
      StrippedIsStripped(composer);
      if IdOf(e.value) in a.traffic.window {
        if r.newChat { RepeatedWasSubmitted(a.traffic, e.value); }
      } else {
        assert Explained(log + [e.value], |log|);
        if r.newChat {
          assert IsSubmissionOf((log + [e.value])[|log|], e.value.chat, e.value.turn, e.value.content);
        } else if a.pending.Some? {
          SubmittedStays(log, e.value, a.pending.value.0.chat, a.pending.value.0.turn, a.pending.value.0.content);
        }
      }
    }
  }

  lemma MovesAreTold(a: Core, b: Core, may: (Core, Route, string, int) -> bool)
    requires Told(a) && Move(a, b, may)
    ensures Told(b)
  {
    if e, promised :| RebindMove(a, b, e, promised) {
      RebindIsTold(a, b, e, promised);
    } else if e, promised :| AnswerMove(a, b, e, promised) {
      AnswerIsTold(a, b, e, promised);
    } else if r, composer, now, promised :| may(a, r, composer, now) && b == SubmitCore(a, r, composer, now, promised) {
      SubmissionIsTold(a, r, composer, now, promised);
    } else {
      DeliveryIsOrderly(a.traffic);
    }
  }

  /** In every run each rebind follows the emitted submission it rebinds, with its turn and
      content, and each answer under a provisional reference follows a submission there. */
  lemma EveryRebindFollowsItsSubmission(c: Settings, steps: seq<Step>)
    ensures forall n :: 0 <= n < |After(c, steps).traffic.emitted| ==> Explained(After(c, steps).traffic.emitted, n)
  {
    var keeps, may := (a: Core) => Told(a), (a: Core, r: Route, composer: string, now: int) => true;
    forall a, b | keeps(a) && Move(a, b, may) ensures keeps(b) { MovesAreTold(a, b, may); }
    RunsKeep(c, steps, keeps, may);
  }

  // ---------------------------------------------------------------- and its project

  predicate KnownTurn(turn: Turn, sequence: nat) {
    turn.Submission? && turn.sequence <= sequence
  }

  /** A submission under a provisional reference is of a known turn. */
  predicate Placed(a: Core, e: CaptureEvent) {
    IsSubmission(e, e.chat) && e.chat.Provisional? ==> e.chat == Provisional(e.turn) && KnownTurn(e.turn, a.sequence)
  }

  ghost predicate SameProject(log: seq<CaptureEvent>, n: nat, chat: ChatReference, project: Option<string>) {
    forall q :: 0 <= q < n && q < |log| && IsSubmission(log[q], chat) ==> log[q].project == project
  }

  /** The pending submission and every rebind are in the project of the submissions emitted
      under their provisional reference. */
  ghost predicate Projected(a: Core) {
    var log := a.traffic.emitted;
    && (a.recent.Some? ==> KnownTurn(a.recent.value.turn, a.sequence))
    && (forall n :: 0 <= n < |log| ==> Placed(a, log[n]))
    && (a.pending.Some? ==>
          && a.pending.value.0.chat.Provisional? && SameProject(log, |log|, a.pending.value.0.chat, a.pending.value.1))
    && (forall n :: 0 <= n < |log| && log[n].rebindFrom.Some? ==>
       SameProject(log, n, log[n].rebindFrom.value, log[n].project))
  }

  /** A submission that takes up the turn of the last one on a new-chat page is in the project
      that turn was emitted in. */
  ghost predicate ResumedInPlace(a: Core, r: Route, composer: string, now: int) {
    r.newChat && Again(a, r, composer, now) ==>
      SameProject(a.traffic.emitted, |a.traffic.emitted|, Provisional(a.recent.value.turn), r.project)
  }

  lemma SameProjectStays(log: seq<CaptureEvent>, e: CaptureEvent, n: nat, chat: ChatReference, project: Option<string>)
    requires n <= |log| && SameProject(log, n, chat, project)
    ensures SameProject(log + [e], n, chat, project)
    ensures n == |log| && (IsSubmission(e, chat) ==> e.project == project) ==>
      SameProject(log + [e], n + 1, chat, project)
  {
    assert forall q :: 0 <= q < |log| ==> (log + [e])[q] == log[q];
  }

  /** An event is placed, and what is pending and rebound agrees with it. */
  lemma EventIsProjected(a: Core, b: Core, e: CaptureEvent)
    requires Projected(a) && Placed(a, e)
    requires b.sequence == a.sequence && b.recent == a.recent && (b.pending == a.pending || b.pending.None?)
    requires b.traffic.emitted == a.traffic.emitted + [e]
    requires e.rebindFrom.Some? ==> SameProject(a.traffic.emitted, |a.traffic.emitted|, e.rebindFrom.value, e.project)
    requires b.pending.Some? && IsSubmission(e, b.pending.value.0.chat) ==> e.project == b.pending.value.1
    ensures Projected(b)
  {
    var log, more := a.traffic.emitted, b.traffic.emitted;
    forall n | 0 <= n < |more| ensures Placed(b, more[n]) {
      if n < |log| { assert Placed(a, log[n]) && more[n] == log[n]; }
    }
    forall n | 0 <= n < |more| && more[n].rebindFrom.Some?
      ensures SameProject(more, n, more[n].rebindFrom.value, more[n].project) {
      if n < |log| {
        SameProjectStays(log, e, n, log[n].rebindFrom.value, log[n].project);
      } else {
        SameProjectStays(log, e, |log|, e.rebindFrom.value, e.project);
      }
    }
    if b.pending.Some? { SameProjectStays(log, e, |log|, b.pending.value.0.chat, b.pending.value.1); }
  }

  /** Nothing was placed under a new turn, and a resumed one is in place. */
  lemma ArmingIsProjected(a: Core, r: Route, composer: string, now: int)
    requires Projected(a) && ResumedInPlace(a, r, composer, now)
    ensures Projected(ArmCore(a, r, composer, now).0)
  {
    var (armed, e) := ArmCore(a, r, composer, now);
    var log := a.traffic.emitted;
    forall n | 0 <= n < |log| ensures Placed(armed, log[n]) { assert Placed(a, log[n]); }
    if e.Some? && r.newChat {
      forall q | 0 <= q < |log| && IsSubmission(log[q], e.value.chat) ensures log[q].project == e.value.project {
        assert Placed(a, log[q]);
      }
    }
  }

  lemma SubmissionIsProjected(a: Core, r: Route, composer: string, now: int, promised: bool)
    requires Projected(a) && ResumedInPlace(a, r, composer, now)
    ensures Projected(SubmitCore(a, r, composer, now, promised))
  {
    ArmingIsProjected(a, r, composer, now);
    var (armed, e) := ArmCore(a, r, composer, now);
    var b := SubmitCore(a, r, composer, now, promised);
    if e.Some? && IdOf(e.value) !in armed.traffic.window {
      EventIsProjected(armed, b, e.value);
    }
  }

  /** A submission keeps submissions and rebinds in one project if and only if it does not
      resume a turn that was emitted in another. */
  lemma SubmissionIsProjectedIff(a: Core, r: Route, composer: string, now: int, promised: bool)
    requires Projected(a) && Stripped(composer) != ""
    ensures Projected(SubmitCore(a, r, composer, now, promised)) <==> ResumedInPlace(a, r, composer, now)
  {
    if ResumedInPlace(a, r, composer, now) {
      SubmissionIsProjected(a, r, composer, now, promised);
    } else {
      var log, b := a.traffic.emitted, SubmitCore(a, r, composer, now, promised);
      var chat := Provisional(a.recent.value.turn);
      var q :| 0 <= q < |log| && IsSubmission(log[q], chat) && log[q].project != r.project;
      assert b.traffic.emitted[q] == log[q] && b.pending.value.0.chat == chat && b.pending.value.1 == r.project;
    }
  }

  lemma MovesAreProjected(a: Core, b: Core, may: (Core, Route, string, int) -> bool)
    requires Projected(a) && Move(a, b, may)
    requires forall r, composer, now :: may(a, r, composer, now) ==> ResumedInPlace(a, r, composer, now)
    ensures Projected(b)
  {
    if e, promised :| RebindMove(a, b, e, promised) {
      EventIsProjected(a, b, e);
    } else if e, promised :| AnswerMove(a, b, e, promised) {
      if b.traffic.emitted != a.traffic.emitted { EventIsProjected(a, b, e); }
    } else if r, composer, now, promised :| may(a, r, composer, now) && b == SubmitCore(a, r, composer, now, promised) {
      SubmissionIsProjected(a, r, composer, now, promised);
    } else {
      assert b.traffic.emitted == a.traffic.emitted;
    }
  }

  ghost function ResumingInPlace(): (Core, Route, string, int) -> bool {
    (a: Core, r: Route, composer: string, now: int) => ResumedInPlace(a, r, composer, now)
  }

  /** When no submission resumes a turn that was emitted in another project, every rebind is in
      the project of every submission it follows. */
  lemma EveryRebindKeepsItsProject(c: Settings, steps: seq<Step>, n: nat, q: nat)
    requires AllAllowed(c, steps, ResumingInPlace())
    requires q < n < |After(c, steps).traffic.emitted| && After(c, steps).traffic.emitted[n].rebindFrom.Some?
    requires IsSubmission(After(c, steps).traffic.emitted[q], After(c, steps).traffic.emitted[n].rebindFrom.value)
    ensures After(c, steps).traffic.emitted[q].project == After(c, steps).traffic.emitted[n].project
  {
    var keeps := (a: Core) => Projected(a);
    var may := ResumingInPlace();
    forall a, b | keeps(a) && Move(a, b, may) ensures keeps(b) { MovesAreProjected(a, b, may); }
    RunsKeep(c, steps, keeps, may);
    var log := After(c, steps).traffic.emitted;
    assert SameProject(log, n, log[n].rebindFrom.value, log[n].project);
  }

  // ---------------------------------------------------------------- rebound once

  /** No two rebinds leave the same provisional reference, and the pending one has not been
      left yet. */
  ghost predicate Single(a: Core) {
    var log := a.traffic.emitted;
    && (a.recent.Some? ==> KnownTurn(a.recent.value.turn, a.sequence))
    && (a.pending.Some? ==>
          var p := a.pending.value.0;
          p.chat == Provisional(p.turn) && KnownTurn(p.turn, a.sequence) && NotRebound(log, p.turn))
    && (forall n :: 0 <= n < |log| && log[n].rebindFrom.Some? ==>
          log[n].rebindFrom.value.Provisional? && KnownTurn(log[n].rebindFrom.value.turn, a.sequence))
    && (forall m, n :: 0 <= m < n < |log| && log[m].rebindFrom.Some? ==> log[m].rebindFrom != log[n].rebindFrom)
  }

  ghost predicate NotRebound(log: seq<CaptureEvent>, turn: Turn) {
    forall n :: 0 <= n < |log| ==> log[n].rebindFrom != Some(Provisional(turn))
  }

  /** A submission to a new-chat page does not take up a turn that was rebound already. */
  ghost predicate ResumedUnbound(a: Core, r: Route, composer: string, now: int) {
    r.newChat && Again(a, r, composer, now) ==> NotRebound(a.traffic.emitted, a.recent.value.turn)
  }

  lemma OtherEventIsSingle(a: Core, b: Core, e: CaptureEvent)
    requires Single(a) && e.rebindFrom.None?
    requires b.traffic.emitted == a.traffic.emitted + [e] && b.sequence == a.sequence && b.pending == a.pending
      && b.recent == a.recent
    ensures Single(b)
  {
    var log, more := a.traffic.emitted, b.traffic.emitted;
    forall n | 0 <= n < |more| && more[n].rebindFrom.Some? ensures n < |log| && more[n] == log[n] {}
  }

  lemma RebindIsSingle(a: Core, b: Core, e: CaptureEvent, promised: bool)
    requires Single(a) && RebindMove(a, b, e, promised)
    ensures Single(b)
  {
    var log, more := a.traffic.emitted, b.traffic.emitted;
    assert more == log + [e];
    forall m, n | 0 <= m < n < |more| && more[m].rebindFrom.Some? ensures more[m].rebindFrom != more[n].rebindFrom {
      if n == |log| { assert log[m].rebindFrom != Some(a.pending.value.0.chat); }
    }
  }

  lemma SubmissionIsSingle(a: Core, r: Route, composer: string, now: int, promised: bool)
    requires Single(a) && ResumedUnbound(a, r, composer, now)
    ensures Single(SubmitCore(a, r, composer, now, promised))
  {
    var (armed, e) := ArmCore(a, r, composer, now);
    var log := a.traffic.emitted;
    if e.Some? && r.newChat && !Again(a, r, composer, now) {
      forall n | 0 <= n < |log| ensures log[n].rebindFrom != Some(e.value.chat) {
        if log[n].rebindFrom.Some? { assert KnownTurn(log[n].rebindFrom.value.turn, a.sequence); }
      }
    }
    assert Single(armed);
    if e.Some? && IdOf(e.value) !in armed.traffic.window {
      OtherEventIsSingle(armed, SubmitCore(a, r, composer, now, promised), e.value);
    }
  }

  /** A submission leaves a reference that can be rebound once more than it was if and only if
      it takes up a turn that was rebound already. */
  lemma SubmissionIsSingleIff(a: Core, r: Route, composer: string, now: int, promised: bool)
    requires Single(a) && Stripped(composer) != ""
    ensures Single(SubmitCore(a, r, composer, now, promised)) <==> ResumedUnbound(a, r, composer, now)
  {
    if ResumedUnbound(a, r, composer, now) {
      SubmissionIsSingle(a, r, composer, now, promised);
    } else {
      var log, b := a.traffic.emitted, SubmitCore(a, r, composer, now, promised);
      var n :| 0 <= n < |log| && log[n].rebindFrom == Some(Provisional(a.recent.value.turn));
      assert b.traffic.emitted[n] == log[n] && b.pending.value.0.turn == a.recent.value.turn;
    }
  }

  lemma MovesAreSingle(a: Core, b: Core, may: (Core, Route, string, int) -> bool)
    requires Single(a) && Move(a, b, may) && forall r, composer, now :: may(a, r, composer, now) ==>
      ResumedUnbound(a, r, composer, now)
    ensures Single(b)
  {
    if e, promised :| RebindMove(a, b, e, promised) {
      RebindIsSingle(a, b, e, promised);
    } else if e, promised :| AnswerMove(a, b, e, promised) {
      if b.traffic.emitted != a.traffic.emitted { OtherEventIsSingle(a, b, e); }
    } else if r, composer, now, promised :| may(a, r, composer, now) && b == SubmitCore(a, r, composer, now, promised) {
      SubmissionIsSingle(a, r, composer, now, promised);
    } else {
      assert b.traffic.emitted == a.traffic.emitted;
    }
  }

  ghost function ResumingUnbound(): (Core, Route, string, int) -> bool {
    (a: Core, r: Route, composer: string, now: int) => ResumedUnbound(a, r, composer, now)
  }

  /** When no submission takes up a turn that was rebound already, each provisional reference
      is rebound at most once. */
  lemma EachSubmissionIsReboundOnce(c: Settings, steps: seq<Step>, m: nat, n: nat)
    requires AllAllowed(c, steps, ResumingUnbound())
    requires m < n < |After(c, steps).traffic.emitted| && After(c, steps).traffic.emitted[m].rebindFrom.Some?
    ensures After(c, steps).traffic.emitted[m].rebindFrom != After(c, steps).traffic.emitted[n].rebindFrom
  {
    var keeps := (a: Core) => Single(a);
    var may := ResumingUnbound();
    forall a, b | keeps(a) && Move(a, b, may) ensures keeps(b) { MovesAreSingle(a, b, may); }
    RunsKeep(c, steps, keeps, may);
  }

  /** A rebind leaves nothing pending, so another needs another submission. */
  lemma RebindingDisarms(c: Settings, s: Page, route: Option<Route>, now: int, promised: bool)
    ensures Reconciled(c, s, route, now, promised).1 == Rebound ==>
      Reconciled(c, s, route, now, promised).0.pending.None?
    ensures Reconciled(c, s, route, now, promised).1 != Rebound ==> Reconciled(c, s, route, now, promised).0 == s
  {}

  function NewPage(project: Option<string>): Route {
    Route("route:/", project, None, None, false, false, true)
  }

  function ChatPage(project: Option<string>, chat: string): Route {
    Route(chat, project, None, None, true, false, false)
  }

  /** A scan of a chat without answers only rebinds. */
  lemma ScanRebinds(c: Settings, s: Page, r: Route, e: CaptureEvent, now: int)
    requires r.stable && !r.home && s.pending.Some? && r.project == s.pending.value.project
    requires ReboundEvent(s.pending.value, r) == Some(e) && IdOf(e) !in s.traffic.window
    ensures CoreOf(Scanned(c, s, Some(r), [], now, false)) == Sent(CoreOf(s), e, false).(pending := None)
  {
    ObservingIsQuiet(s, Some(r));
    ObservingIsQuiet(ObservedHome(s, Some(r)), Some(r));
    var cleared := OutsideCleared(ObservedHome(s, Some(r)), Some(r));
    assert cleared.pending == s.pending && cleared.traffic == s.traffic;
    EmissionIsCore(cleared, e, false);
    var reconciled := Reconciled(c, cleared, Some(r), now, false).0;
    assert CoreOf(reconciled) == Sent(CoreOf(s), e, false).(pending := None);
  }

  const FIRST_TURN := Submission(0, 1)

  function Hello(project: Option<string>, at: int): CaptureEvent {
    CaptureEvent(project, Provisional(FIRST_TURN), FIRST_TURN, User, "hi", at, None, None, None)
  }

  function HelloIn(project: Option<string>, chat: string, at: int): CaptureEvent {
    CaptureEvent(project, Named(chat), FIRST_TURN, User, "hi", at, None, None, Some(Provisional(FIRST_TURN)))
  }

  predicate HelloPending(s: Page, project: Option<string>, at: int) {
    && s.trusted.None? && s.pending.Some? && s.pending.value.event == Hello(project, at)
    && s.pending.value.project == project && s.pending.value.projectName.None?
  }

  predicate HelloRecent(s: Page) {
    s.recent == Some(Recent("route:/", "hi", 0, FIRST_TURN))
  }

  lemma HelloIsRebound(c: Settings, s: Page, project: Option<string>, chat: string, at: int, now: int)
    requires HelloPending(s, project, at) && Stripped(chat) == chat != ""
      && IdOf(HelloIn(project, chat, at)) !in s.traffic.window
    ensures CoreOf(Next(c, s, Scan(Some(ChatPage(project, chat)), [], now, false)))
            == Sent(CoreOf(s), HelloIn(project, chat, at), false).(pending := None)
    ensures Next(c, s, Scan(Some(ChatPage(project, chat)), [], now, false)).trusted.None?
  {
    assert Stripped("hi") == "hi";
    ScanRebinds(c, s, ChatPage(project, chat), HelloIn(project, chat, at), now);
  }

  lemma HelloIsSubmitted(c: Settings, s: Page, project: Option<string>, now: int)
    requires s.trusted.None?
    requires if s.recent.None? then now == 0 && s.sequence == 0 else HelloRecent(s) && now < RESUBMISSION
    ensures var after := Next(c, s, Submit("hi", Some(NewPage(project)), {}, now, false));
      HelloPending(after, project, now) && HelloRecent(after)
        && after.traffic == Emit(s.traffic, Hello(project, now), false).0
  {
    var page := NewPage(project);
    SubmissionIsCore(c, s, "hi", page, {}, now, false);
    assert WithTrustedHome(ObservedHome(s, Some(page)), page) == page;
    assert Stripped("hi") == "hi";
  }

  const HELLO := Submit("hi", Some(NewPage(None)), {}, 0, false)
  const ROUTE_A := Scan(Some(ChatPage(None, "a")), [], 100, false)
  const HELLO_AGAIN := Submit("hi", Some(NewPage(None)), {}, 500, false)
  const ROUTE_B := Scan(Some(ChatPage(None, "b")), [], 600, false)
  const HELLO_ELSEWHERE := Submit("hi", Some(NewPage(Some("p"))), {}, 500, false)
  const ROUTE_ELSEWHERE := Scan(Some(ChatPage(Some("p"), "b")), [], 600, false)

  lemma AfterOneMore(c: Settings, steps: seq<Step>, step: Step)
    ensures After(c, steps + [step]) == Next(c, After(c, steps), step)
  {
    assert (steps + [step])[..|steps|] == steps;
  }

  lemma AfterHello(c: Settings)
    ensures var s, hello := After(c, [HELLO]), Hello(None, 0);
      HelloPending(s, None, 0) && HelloRecent(s) && s.traffic == Traffic([hello], [IdOf(hello)], [hello], [], false)
  {
    AfterOneMore(c, [], HELLO);
    assert [] + [HELLO] == [HELLO];
    HelloIsSubmitted(c, OPENED, None, 0);
  }

  lemma AfterRouteA(c: Settings)
    ensures var s := After(c, [HELLO, ROUTE_A]);
      && s.trusted.None? && HelloRecent(s) && s.traffic.emitted == [Hello(None, 0), HelloIn(None, "a", 0)]
      && s.traffic.window == [IdOf(Hello(None, 0)), IdOf(HelloIn(None, "a", 0))]
  {
    AfterHello(c);
    AfterOneMore(c, [HELLO], ROUTE_A);
    assert [HELLO] + [ROUTE_A] == [HELLO, ROUTE_A] && Stripped("a") == "a";
    var before, after := After(c, [HELLO]), After(c, [HELLO, ROUTE_A]);
    HelloIsRebound(c, before, None, "a", 0, 100);
    assert CoreOf(after).traffic == after.traffic && CoreOf(after).recent == after.recent;
  }

  lemma AfterHelloAgain(c: Settings)
    ensures var s := After(c, [HELLO, ROUTE_A, HELLO_AGAIN]);
      && HelloPending(s, None, 500) && s.traffic.emitted == [Hello(None, 0), HelloIn(None, "a", 0)]
      && s.traffic.window == [IdOf(Hello(None, 0)), IdOf(HelloIn(None, "a", 0))]
  {
    AfterRouteA(c);
    AfterOneMore(c, [HELLO, ROUTE_A], HELLO_AGAIN);
    assert [HELLO, ROUTE_A] + [HELLO_AGAIN] == [HELLO, ROUTE_A, HELLO_AGAIN];
    HelloIsSubmitted(c, After(c, [HELLO, ROUTE_A]), None, 500);
    assert IdOf(Hello(None, 500)) == IdOf(Hello(None, 0));
  }

  /** Submitting twice within a second around a rebind uses the reference twice: the same
      provisional chat is rebound to two chats. */
  lemma DoubleSubmissionReboundTwice(c: Settings)
    ensures After(c, [HELLO, ROUTE_A, HELLO_AGAIN, ROUTE_B]).traffic.emitted
      == [Hello(None, 0), HelloIn(None, "a", 0), HelloIn(None, "b", 500)]
    ensures HelloIn(None, "a", 0).rebindFrom == HelloIn(None, "b", 500).rebindFrom
      && HelloIn(None, "a", 0).chat != HelloIn(None, "b", 500).chat
  {
    AfterHelloAgain(c);
    var steps := [HELLO, ROUTE_A, HELLO_AGAIN];
    AfterOneMore(c, steps, ROUTE_B);
    assert steps + [ROUTE_B] == [HELLO, ROUTE_A, HELLO_AGAIN, ROUTE_B] && Stripped("b") == "b";
    HelloIsRebound(c, After(c, steps), None, "b", 500, 600);
    var after := After(c, [HELLO, ROUTE_A, HELLO_AGAIN, ROUTE_B]);
    assert CoreOf(after).traffic == after.traffic;
    assert "a"[0] != "b"[0];
  }

  lemma AfterHelloElsewhere(c: Settings)
    ensures var s := After(c, [HELLO, HELLO_ELSEWHERE]);
      && HelloPending(s, Some("p"), 500) && s.traffic.emitted == [Hello(None, 0)]
         && s.traffic.window == [IdOf(Hello(None, 0))]
  {
    AfterHello(c);
    AfterOneMore(c, [HELLO], HELLO_ELSEWHERE);
    assert [HELLO] + [HELLO_ELSEWHERE] == [HELLO, HELLO_ELSEWHERE];
    HelloIsSubmitted(c, After(c, [HELLO]), Some("p"), 500);
    assert IdOf(Hello(Some("p"), 500)) == IdOf(Hello(None, 0));
  }

  /** Submitting again within a second in another project keeps the turn, and the event with
      its id was already emitted: the rebind is in a project its submission is not in. */
  lemma ResubmissionChangesProject(c: Settings)
    ensures After(c, [HELLO, HELLO_ELSEWHERE, ROUTE_ELSEWHERE]).traffic.emitted
      == [Hello(None, 0), HelloIn(Some("p"), "b", 500)]
    ensures HelloIn(Some("p"), "b", 500).rebindFrom == Some(Hello(None, 0).chat)
      && HelloIn(Some("p"), "b", 500).project != Hello(None, 0).project
  {
    AfterHelloElsewhere(c);
    var steps := [HELLO, HELLO_ELSEWHERE];
    AfterOneMore(c, steps, ROUTE_ELSEWHERE);
    assert steps + [ROUTE_ELSEWHERE] == [HELLO, HELLO_ELSEWHERE, ROUTE_ELSEWHERE] && Stripped("b") == "b";
    HelloIsRebound(c, After(c, steps), Some("p"), "b", 500, 600);
    var after := After(c, [HELLO, HELLO_ELSEWHERE, ROUTE_ELSEWHERE]);
    assert CoreOf(after).traffic == after.traffic;
  }

  // ---------------------------------------------------------------- polling

  predicate Arms(c: Settings, s: Page, step: Step) {
    && step.Submit? && step.composer != "" && step.route.Some? && step.route.value.newChat
    && Armed(c, s, step.composer, step.route.value, step.listed, step.now).1.Some?
  }

  /** Polls that looked at the route since the last submission to a new chat. */
  function PollsSinceArmed(c: Settings, steps: seq<Step>): nat {
    if steps == [] then 0
    else
      var n := |steps| - 1;
      Counted(c, After(c, steps[..n]), steps[n], PollsSinceArmed(c, steps[..n]))
  }

  predicate PollsCounted(c: Settings, s: Page, polls: nat) {
    polls <= c.pollLimit && (s.pending.Some? ==> polls + s.pollsLeft == c.pollLimit && (s.polling ==> s.pollsLeft > 0))
  }

  predicate SamePolling(s: Page, t: Page) {
    s.polling == t.polling && ((s.pollsLeft == t.pollsLeft && s.pending.Some? == t.pending.Some?) || t.pending.None?)
  }

  lemma {:induction false} AnswersPollNothing(
    c: Settings, s: Page, a: Association, messages: seq<AssistantMessage>, now: int, promised: bool)
    ensures SamePolling(s, AnsweredAll(c, s, a, messages, now, promised).0)
  {
    if messages != [] { AnswersPollNothing(c, s, a, messages[..|messages| - 1], now, promised); }
  }

  lemma ReconcilingPollsNothing(c: Settings, s: Page, route: Option<Route>, now: int, promised: bool)
    ensures SamePolling(s, Reconciled(c, s, route, now, promised).0)
  {}

  lemma SubmissionPolls(
    c: Settings, s: Page, composer: string, route: Option<Route>, listed: set<string>, now: int, promised: bool,
    polls: nat)
    requires c.pollLimit > 0 && PollsCounted(c, s, polls)
    ensures var step := Submit(composer, route, listed, now, promised);
      PollsCounted(c, Submitted(c, s, composer, route, listed, now, promised).0, if Arms(c, s, step) then 0 else polls)
  {
    if composer != "" && route.Some? {
      var (armed, e) := Armed(c, s, composer, route.value, listed, now);
      assert PollsCounted(c, armed, if Arms(c, s, Submit(composer, route, listed, now, promised)) then 0 else polls);
    }
  }

  lemma ScanPolls(c: Settings, s: Page, route: Option<Route>, messages: seq<AssistantMessage>, now: int, promised: bool)
    ensures SamePolling(s, Scanned(c, s, route, messages, now, promised))
  {
    var cleared := OutsideCleared(ObservedHome(s, route), route);
    assert SamePolling(s, cleared);
    ReconcilingPollsNothing(c, cleared, route, now, promised);
    var reconciled := Reconciled(c, cleared, route, now, promised).0;
    var (associated, a) := Associated(reconciled, route, now);
    assert SamePolling(reconciled, associated);
    if a.Some? { AnswersPollNothing(c, associated, a.value, messages, now, promised); }
  }

  lemma PollPolls(c: Settings, s: Page, route: Option<Route>, now: int, promised: bool, polls: nat)
    requires c.pollLimit > 0 && PollsCounted(c, s, polls)
    ensures PollsCounted(c, Polled(c, s, route, now, promised), if s.polling && s.pending.Some? then polls + 1
      else polls)
  {
    ReconcilingPollsNothing(c, s.(polling := false, pollsLeft := s.pollsLeft - 1), route, now, promised);
  }

  lemma SamePollingIsCounted(c: Settings, s: Page, t: Page, polls: nat)
    requires PollsCounted(c, s, polls) && SamePolling(s, t)
    ensures PollsCounted(c, t, polls)
  {}

  /** One submission is polled for at most the limit. */
  lemma {:induction false} PollingIsBounded(c: Settings, steps: seq<Step>)
    requires c.pollLimit > 0
    ensures PollsCounted(c, After(c, steps), PollsSinceArmed(c, steps))
  {
    if steps != [] {
      var n := |steps| - 1;
      PollingIsBounded(c, steps[..n]);
      StepIsCounted(c, After(c, steps[..n]), steps[n], PollsSinceArmed(c, steps[..n]));
    }
  }

  function Counted(c: Settings, s: Page, step: Step, polls: nat): nat {
    if Arms(c, s, step) then 0 else if step.Poll? && s.polling && s.pending.Some? then polls + 1 else polls
  }

  lemma StepIsCounted(c: Settings, s: Page, step: Step, polls: nat)
    requires c.pollLimit > 0 && PollsCounted(c, s, polls)
    ensures PollsCounted(c, Next(c, s, step), Counted(c, s, step, polls))
  {
    match step
    case Submit(composer, route, listed, now, promised) =>
      SubmissionPolls(c, s, composer, route, listed, now, promised, polls);
    case Scan(route, messages, now, promised) =>
      ScanPolls(c, s, route, messages, now, promised);
      SamePollingIsCounted(c, s, Next(c, s, step), polls);
    case Reroute(route, now, promised) =>
      var cleared := OutsideCleared(ObservedHome(s.(states := map[]), route), route);
      assert SamePolling(s, cleared);
      ReconcilingPollsNothing(c, cleared, route, now, promised);
      SamePollingIsCounted(c, s, Next(c, s, step), polls);
    case Poll(route, now, promised) => PollPolls(c, s, route, now, promised, polls);
    case _ => SamePollingIsCounted(c, s, Next(c, s, step), polls);
  }
}
