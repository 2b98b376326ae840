/** Which events the capture of a page emits, and what it remembers, in terms of routes, texts
    and what was emitted before. */
module CaptureEffects {
  import opened Schema
  import opened Texts
  import opened Dedupe
  import opened Capture

  // ---------------------------------------------------------------- repeats

  /** The same turn, role and content in the same chat. */
  predicate SameObservation(a: CaptureEvent, b: CaptureEvent) {
    a.chat == b.chat && a.turn == b.turn && a.role == b.role && a.content == b.content
  }

  /** One of the last 2000 events emitted is the same observation. */
  ghost predicate Repeats(log: seq<CaptureEvent>, e: CaptureEvent) {
    exists i :: 0 <= i < |log| && |log| - i <= 2000 && SameObservation(log[i], e)
  }

  lemma WindowHasIff(t: Traffic, e: CaptureEvent)
    requires Orderly(t)
    ensures IdOf(e) in t.window <==> Repeats(t.emitted, e)
  {
    var ids := IdsOf(t.emitted);
    if IdOf(e) in t.window {
      var k :| 0 <= k < |t.window| && t.window[k] == IdOf(e);
      var i := k + |ids| - |t.window|;
      assert ids[i] == IdOf(e);
      assert SameObservation(t.emitted[i], e);
    }
    if i :| 0 <= i < |t.emitted| && |t.emitted| - i <= 2000 && SameObservation(t.emitted[i], e) {
      assert ids[i] == IdOf(e);
      RecentIsLast(ids, EVENT_WINDOW, i);
    }
  }

  /** What emitting an event does: nothing if it repeats, else it is logged, and sent at once
      unless a delivery is in flight. */
  ghost predicate Logs(t: Traffic, u: Traffic, e: CaptureEvent, promised: bool) {
    if Repeats(t.emitted, e) then u == t
    else
      && u.emitted == t.emitted + [e]
      && (if t.inFlight then u.sent == t.sent && u.queue == t.queue + [e] && u.inFlight
          else u.sent == t.sent + [e] && u.queue == t.queue && u.inFlight == promised)
  }

  lemma EmittingLogs(t: Traffic, e: CaptureEvent, promised: bool)
    requires Orderly(t)
    ensures Logs(t, Emit(t, e, promised).0, e, promised)
    ensures Emit(t, e, promised).1 <==> !Repeats(t.emitted, e)
  {
    WindowHasIff(t, e);
  }

  /** In every run, a settled delivery is followed by the next event emitted but not sent, and
      with all sent the page is idle. */
  lemma DeliverySendsTheNext(c: Settings, steps: seq<Step>)
    requires After(c, steps).traffic.inFlight
    ensures var t, u := After(c, steps).traffic, Next(c, After(c, steps), Deliver).traffic;
      && u.emitted == t.emitted && |t.sent| <= |t.emitted|
      && (if |t.sent| < |t.emitted| then u.sent == t.sent + [t.emitted[|t.sent|]] && u.inFlight
          else u.sent == t.sent && !u.inFlight)
  {
    RunsAreOrderly(c, steps);
    var t := After(c, steps).traffic;
    if t.queue != [] { assert t.emitted[|t.sent|] == t.queue[0]; }
  }

  // ---------------------------------------------------------------- submitting

  /** The name of the project of a route: its own, else that of the project's home page if the
      page was seen last. */
  function NameOf(trusted: Option<(string, string)>, r: Route): Option<string> {
    if r.projectName.Some? then r.projectName
    else if !r.home && trusted.Some? && r.project == Some(trusted.value.0) then Some(trusted.value.1)
    else None
  }

  /** The same text was submitted on the same page less than a second before. */
  predicate Doubled(s: Page, r: Route, composer: string, now: int) {
    && s.recent.Some? && s.recent.value.chat == r.chat && s.recent.value.content == composer
    && now - s.recent.value.at < 1000
  }

  /** The turn of a submission: a doubled one keeps its turn, any other gets a new one. */
  function TurnFor(s: Page, r: Route, composer: string, now: int): Turn {
    if Doubled(s, r, composer, now) then s.recent.value.turn else Submission(now, s.sequence + 1)
  }

  predicate Readable(r: Route, composer: string) {
    Stripped(composer) != "" && (r.newChat || Stripped(r.chat) != "")
  }

  /** The event of a submission: in the chat of the page, or in a provisional one made for its
      turn on a new-chat page. */
  function SubmissionEvent(s: Page, r: Route, composer: string, now: int): CaptureEvent {
    var turn := TurnFor(s, r, composer, now);
    CaptureEvent(r.project, if r.newChat then Provisional(turn) else Named(Stripped(r.chat)), turn, User,
      Stripped(composer), now, NameOf(s.trusted, r), if r.newChat then None else r.chatName, None)
  }

  /** A submission up to its emission: a new-chat page arms a pending chat with the answers to
      ignore there, and a project's home page forgets the last stable route. */
  ghost predicate Arming(c: Settings, s: Page, armed: Page, composer: string, r: Route, listed: set<string>, now: int) {
    var e := SubmissionEvent(s, r, composer, now);
    && armed.pending == (if Readable(r, composer) && r.newChat
                         then Some(PendingChat(e, r.project, e.projectName, if r.home then listed else {}, false))
                         else s.pending)
    && armed.pollsLeft == (if Readable(r, composer) && r.newChat then c.pollLimit else s.pollsLeft)
    && armed.stableRoute == (if r.home then None else s.stableRoute)
    && armed.traffic == s.traffic && armed.states == s.states && armed.answered == s.answered
    && armed.polling == s.polling
  }

  lemma SubmissionArms(c: Settings, s: Page, composer: string, r: Route, listed: set<string>, now: int)
    ensures var (armed, event) := Armed(c, s, composer, r, listed, now);
      && event == (if Readable(r, composer) then Some(SubmissionEvent(s, r, composer, now)) else None)
      && Arming(c, s, armed, composer, r, listed, now)
  {
    var named := WithTrustedHome(ObservedHome(s, Some(r)), r);
    assert named == r.(projectName := NameOf(s.trusted, r));
    EventOfSubmission(s, r, composer, now);
  }

  lemma EventOfSubmission(s: Page, r: Route, composer: string, now: int)
    ensures UserEvent(r.(projectName := NameOf(s.trusted, r)), composer, TurnFor(s, r, composer, now), now) ==
      if Readable(r, composer) then Some(SubmissionEvent(s, r, composer, now)) else None
  {}

  /** A new turn is remembered with its page and its text; a doubled submission changes nothing. */
  lemma SubmissionIsRemembered(c: Settings, s: Page, composer: string, r: Route, listed: set<string>, now: int)
    ensures var armed := Armed(c, s, composer, r, listed, now).0;
      if Doubled(s, r, composer, now) then armed.recent == s.recent && armed.sequence == s.sequence
      else
        && armed.sequence == s.sequence + 1
        && armed.recent == Some(Recent(r.chat, composer, now, Submission(now, s.sequence + 1)))
  {}

  /** A submission emits its event, unless it repeats one or cannot be read; only then is the
      page polled for the route of a new chat, and the name of the home page used up. */
  lemma SubmissionEmits(
    c: Settings, s: Page, composer: string, r: Route, listed: set<string>, now: int, promised: bool)
    requires composer != "" && Orderly(s.traffic)
    ensures var (after, done) := Submitted(c, s, composer, Some(r), listed, now, promised);
      var e := SubmissionEvent(s, r, composer, now);
      && (done <==> Readable(r, composer) && !Repeats(s.traffic.emitted, e))
      && (if Readable(r, composer) then Logs(s.traffic, after.traffic, e, promised) else after.traffic == s.traffic)
      && after.polling == (s.polling || (done && r.newChat && 0 < c.pollLimit))
      && (done && e.projectName.Some? ==> after.trusted.None?)
  {
    SubmissionArms(c, s, composer, r, listed, now);
    EmittingLogs(s.traffic, SubmissionEvent(s, r, composer, now), promised);
  }

  // ---------------------------------------------------------------- rebinding

  /** The rebind of a pending chat to a route: its submission again, in the chat of the route,
      under the project name of the submission if it had one. */
  function RebindEvent(p: PendingChat, r: Route): CaptureEvent {
    CaptureEvent(r.project, Named(Stripped(r.chat)), p.event.turn, p.event.role, Stripped(p.event.content),
      p.event.capturedAt, if p.projectName.Some? then p.projectName else r.projectName, r.chatName, Some(p.event.chat))
  }

  /** The route is one the pending chat can be rebound to. */
  predicate Settles(s: Page, route: Option<Route>) {
    && s.pending.Some? && route.Some? && route.value.stable && route.value.project == s.pending.value.project
  }

  /** The page after a rebind: nothing pending, and in a project without an answer so far the
      route is kept for answers that are still shown on the home page. */
  ghost predicate AfterRebind(c: Settings, s: Page, after: Page, r: Route, now: int)
    requires s.pending.Some?
  {
    var p := s.pending.value;
    after == s.(pending := None, pollsLeft := 0, traffic := after.traffic, stableRoute :=
      if p.project.Some? && !p.assistantCaptured
      then Some(StableRoute(if p.projectName.Some? then r.(projectName := p.projectName) else r, p.project, p.ignored,
        now + c.routeLifetime))
      else None)
  }

  /** A pending chat is rebound if and only if the page shows a stable route of its project,
      and the event can be made and repeats none. */
  lemma PendingIsReboundIff(c: Settings, s: Page, route: Option<Route>, now: int, promised: bool)
    requires Orderly(s.traffic)
    ensures var (after, outcome) := Reconciled(c, s, route, now, promised);
      if !Settles(s, route) then outcome == NotYet && after == s
      else
        var p, r := s.pending.value, route.value;
        if Stripped(r.chat) == "" || Stripped(p.event.content) == "" then outcome == Raised && after == s
        else if Repeats(s.traffic.emitted, RebindEvent(p, r)) then outcome == NotYet && after == s
        else
          outcome == Rebound && Logs(s.traffic, after.traffic, RebindEvent(p, r), promised)
            && AfterRebind(c, s, after, r, now)
  {
    if Settles(s, route) {
      var p, r := s.pending.value, route.value;
      if Stripped(r.chat) != "" && Stripped(p.event.content) != "" {
        EmittingLogs(s.traffic, RebindEvent(p, r), promised);
        assert ReboundEvent(p, r) == Some(RebindEvent(p, r));
      }
    }
  }

  // ---------------------------------------------------------------- answers

  /** Where an answer on the page belongs: on a chat page to that chat; on a project's home page
      to the chat pending there, else to the chat last rebound there until that expires. */
  predicate Belongs(s: Page, r: Route, now: int, a: Association) {
    if !r.home then a == Association(r, Named(r.chat), {}, false)
    else if s.pending.Some? && s.pending.value.project == r.project then
      a == Association(r.(projectName := s.pending.value.projectName, chatName := None), s.pending.value.event.chat,
        s.pending.value.ignored, true)
    else
      && s.stableRoute.Some? && now <= s.stableRoute.value.expiresAt && s.stableRoute.value.project == r.project
      && a == Association(s.stableRoute.value.route, Named(s.stableRoute.value.route.chat),
           s.stableRoute.value.ignored, false)
  }

  /** Answers are associated as they belong, and only an expired route is forgotten for it. */
  lemma AnswersBelongIff(s: Page, route: Option<Route>, now: int, a: Association)
    ensures Associated(s, route, now).1 == Some(a) <==> route.Some? && Belongs(s, route.value, now, a)
    ensures Associated(s, route, now).0 == s
      || (s.stableRoute.Some? && s.stableRoute.value.expiresAt < now
          && Associated(s, route, now).0 == s.(stableRoute := None))
  {}

  /** The event of an answer. */
  function AnswerEvent(a: Association, m: AssistantMessage, now: int): CaptureEvent {
    CaptureEvent(a.route.project, if a.chat.Named? then Named(Stripped(a.chat.text)) else a.chat,
      HostMessage(Stripped(m.reference)), Assistant, Stripped(m.content), now, a.route.projectName, a.route.chatName,
      None)
  }

  /** The answer is shown, finished, and has had this text for the stable time. */
  predicate Finished(c: Settings, s: Page, m: AssistantMessage, now: int) {
    && m.visible && !m.streaming && m.content != "" && m.reference in s.states
    && s.states[m.reference].content == m.content && c.stable <= now - s.states[m.reference].firstSeenAt
  }

  /** The answer is due: not there before the submission, finished, and not among those
      captured lately. */
  predicate IsDue(c: Settings, s: Page, a: Association, m: AssistantMessage, now: int) {
    m.reference !in a.ignored && Finished(c, s, m, now) && (m.reference, m.content) !in s.answered
  }

  predicate CanBeTold(a: Association, m: AssistantMessage) {
    Stripped(m.reference) != "" && Stripped(m.content) != "" && (a.chat.Named? ==> Stripped(a.chat.text) != "")
  }

  /** An answer is emitted if and only if it is due, can be made an event, and repeats none.
      One that cannot be made an event ends the scan. */
  lemma AnswerIsEmittedIff(c: Settings, s: Page, a: Association, m: AssistantMessage, now: int, promised: bool)
    requires Orderly(s.traffic)
    ensures var (after, on) := Answered(c, s, a, m, now, promised);
      && (if IsDue(c, s, a, m, now) && CanBeTold(a, m)
          then Logs(s.traffic, after.traffic, AnswerEvent(a, m, now), promised) else after.traffic == s.traffic)
      && (on <==> !IsDue(c, s, a, m, now) || CanBeTold(a, m))
  {
    if IsDue(c, s, a, m, now) && CanBeTold(a, m) { EmittingLogs(s.traffic, AnswerEvent(a, m, now), promised); }
  }

  lemma EmittingShows(t: Traffic, e: CaptureEvent, promised: bool)
    ensures Emit(t, e, promised).1 <==> Emit(t, e, promised).0.emitted != t.emitted
  {
    assert |t.emitted + [e]| != |t.emitted|;
  }

  /** What an answer changes besides: one emitted to the pending chat is noted there, and one
      emitted to the last stable route makes that route forgotten. */
  ghost predicate Noted(s: Page, after: Page, a: Association) {
    var emitted := after.traffic.emitted != s.traffic.emitted;
    && after.sequence == s.sequence && after.recent == s.recent && after.trusted == s.trusted
    && after.polling == s.polling && after.pollsLeft == s.pollsLeft
    && after.pending == (if emitted && a.pending && s.pending.Some?
                         then Some(s.pending.value.(assistantCaptured := true)) else s.pending)
    && after.stableRoute == (if emitted && s.stableRoute.Some? && a.chat == Named(s.stableRoute.value.route.chat)
                             then None else s.stableRoute)
  }

  lemma AnswerIsNoted(c: Settings, s: Page, a: Association, m: AssistantMessage, now: int, promised: bool)
    ensures Noted(s, Answered(c, s, a, m, now, promised).0, a)
  {
    var after := Answered(c, s, a, m, now, promised).0;
    if IsDue(c, s, a, m, now) && CanBeTold(a, m) {
      var e := AnswerEvent(a, m, now);
      EmittingShows(s.traffic, e, promised);
      assert MakeEvent(a.route, a.chat, Assistant, m.content, HostMessage(Stripped(m.reference)), now, None) == Some(e);
      assert after.traffic == Emit(s.traffic, e, promised).0;
    } else {
      NothingIsNoted(c, s, a, m, now, promised);
    }
  }

  lemma NothingIsNoted(c: Settings, s: Page, a: Association, m: AssistantMessage, now: int, promised: bool)
    requires !(IsDue(c, s, a, m, now) && CanBeTold(a, m))
    ensures var after := Answered(c, s, a, m, now, promised).0;
      after == s.(states := after.states, answered := after.answered)
  {}

  /** The keys remembered when one more is: the last 2000. */
  function Remembering(keys: seq<(string, string)>, key: (string, string)): seq<(string, string)> {
    (keys + [key])[if |keys| < 2000 then 0 else |keys| + 1 - 2000..]
  }

  /** The text of an answer is remembered from its first sight, and a finished answer as
      captured. */
  lemma AnswerIsRemembered(c: Settings, s: Page, a: Association, m: AssistantMessage, now: int, promised: bool)
    ensures var after := Answered(c, s, a, m, now, promised).0;
      && after.states ==
         (if m.reference !in a.ignored && m.visible && !m.streaming && m.content != ""
             && (m.reference in s.states ==> s.states[m.reference].content != m.content)
          then s.states[m.reference := SeenState(m.content, now)] else s.states)
      && after.answered ==
         if IsDue(c, s, a, m, now) then Remembering(s.answered, (m.reference, m.content)) else s.answered
  {
    var after := Answered(c, s, a, m, now, promised).0;
    if m.reference !in a.ignored {
      var key := (m.reference, m.content);
      assert after.answered == if Finished(c, s, m, now) then Offered(s.answered, EVENT_WINDOW, key) else s.answered;
    }
  }

  // ---------------------------------------------------------------- what is forgotten

  /** The page trusts and keeps only what fits the route it shows: the home page's name while on
      its project, and the last stable route while in its project and not in another chat. */
  predicate Fits(s: Page, r: Route) {
    && (s.trusted.Some? ==> r.project == Some(s.trusted.value.0))
    && (s.stableRoute.Some? ==>
          && s.stableRoute.value.project == r.project
          && (r.stable ==> s.stableRoute.value.route.chat == r.chat))
  }

  /** The name trusted once a route is seen: that of the project's home page, or still the one
      of the home page seen before in the same project. */
  function TrustedOn(trusted: Option<(string, string)>, r: Route): Option<(string, string)> {
    if r.home then
      match (r.project, r.projectName)
      case (Some(project), Some(name)) => Some((project, name))
      case _ => None
    else if trusted.Some? && r.project == Some(trusted.value.0) then trusted
    else None
  }

  /** The last stable route, unless the page shows another project or another chat. */
  function KeptOn(stableRoute: Option<StableRoute>, r: Route): Option<StableRoute> {
    match stableRoute
    case Some(kept) =>
      if kept.project != r.project || (r.stable && kept.route.chat != r.chat) then None else stableRoute
    case None => None
  }

  /** Seeing a route changes exactly what is trusted and what is kept. */
  lemma SeeingARoute(s: Page, r: Route)
    ensures OutsideCleared(ObservedHome(s, Some(r)), Some(r)) ==
      s.(trusted := TrustedOn(s.trusted, r), stableRoute := KeptOn(s.stableRoute, r))
  {}

  /** The moment of submission trusts only the home page it is made on. */
  lemma IntentTrustsOnlyTheHomePage(c: Settings, s: Page, route: Option<Route>)
    ensures Next(c, s, Intend(route)) ==
      s.(trusted := if route.Some? && route.value.home then TrustedOn(None, route.value) else None)
  {}

  lemma ObservedFits(s: Page, r: Route)
    ensures Fits(OutsideCleared(ObservedHome(s, Some(r)), Some(r)), r)
  {
    SeeingARoute(s, r);
  }

  lemma ReconcilingFits(c: Settings, s: Page, r: Route, now: int, promised: bool)
    requires Fits(s, r)
    ensures Fits(Reconciled(c, s, Some(r), now, promised).0, r)
  {}

  lemma {:induction false} AnswersFit(
    c: Settings, s: Page, a: Association, messages: seq<AssistantMessage>, now: int, promised: bool, r: Route)
    requires Fits(s, r)
    ensures Fits(AnsweredAll(c, s, a, messages, now, promised).0, r)
  {
    if messages != [] {
      var n := |messages| - 1;
      AnswersFit(c, s, a, messages[..n], now, promised, r);
      AnswerIsNoted(c, AnsweredAll(c, s, a, messages[..n], now, promised).0, a, messages[n], now, promised);
    }
  }

  lemma AssociatingFits(s: Page, r: Route, now: int)
    requires Fits(s, r)
    ensures Fits(Associated(s, Some(r), now).0, r)
  {}

  /** After every scan and every route change the page remembers only what fits its route, and a
      route change forgets the answers seen. */
  lemma WhatDoesNotFitIsForgotten(
    c: Settings, s: Page, r: Route, messages: seq<AssistantMessage>, now: int, promised: bool)
    ensures Fits(Scanned(c, s, Some(r), messages, now, promised), r)
    ensures Fits(Rerouted(c, s, Some(r), now, promised), r)
    ensures Rerouted(c, s, Some(r), now, promised).states == map[]
  {
    ScanFits(c, s, r, messages, now, promised);
    var reset := s.(states := map[]);
    var cleared := OutsideCleared(ObservedHome(reset, Some(r)), Some(r));
    ObservedFits(reset, r);
    ReconcilingFits(c, cleared, r, now, promised);
    ReconcilingForgetsNoAnswer(c, cleared, r, now, promised);
  }

  lemma ReconcilingForgetsNoAnswer(c: Settings, s: Page, r: Route, now: int, promised: bool)
    ensures Reconciled(c, s, Some(r), now, promised).0.states == s.states
  {}

  lemma ScanFits(c: Settings, s: Page, r: Route, messages: seq<AssistantMessage>, now: int, promised: bool)
    ensures Fits(Scanned(c, s, Some(r), messages, now, promised), r)
  {
    var cleared := OutsideCleared(ObservedHome(s, Some(r)), Some(r));
    ObservedFits(s, r);
    ReconcilingFits(c, cleared, r, now, promised);
    var reconciled := Reconciled(c, cleared, Some(r), now, promised).0;
    AssociatingFits(reconciled, r, now);
    var (associated, a) := Associated(reconciled, Some(r), now);
    if a.Some? { AnswersFit(c, associated, a.value, messages, now, promised, r); }
  }

  // ---------------------------------------------------------------- whole scans

  /** The page shows a route to which its pending chat can be rebound right away. */
  ghost predicate Rebindable(s: Page, r: Route) {
    && Settles(s, Some(r)) && Stripped(r.chat) != "" && Stripped(s.pending.value.event.content) != ""
    && !Repeats(s.traffic.emitted, RebindEvent(s.pending.value, r))
  }

  lemma RebindableIsRebound(c: Settings, s: Page, r: Route, now: int, promised: bool)
    requires Orderly(s.traffic) && Rebindable(s, r)
    ensures var after := Reconciled(c, s, Some(r), now, promised);
      after.1 == Rebound && after.0.traffic.emitted == s.traffic.emitted + [RebindEvent(s.pending.value, r)]
  {
    PendingIsReboundIff(c, s, Some(r), now, promised);
  }

  lemma ClearingLeavesThePending(s: Page, r: Route)
    ensures var cleared := OutsideCleared(ObservedHome(s, Some(r)), Some(r));
      cleared.pending == s.pending && cleared.traffic == s.traffic
  {}

  /** A scan rebinds a pending chat as soon as the page shows a stable route of its project; its
      answers come after that. */
  lemma ScanRebindsFirst(c: Settings, s: Page, r: Route, messages: seq<AssistantMessage>, now: int, promised: bool)
    requires Orderly(s.traffic) && Rebindable(s, r)
    ensures s.traffic.emitted + [RebindEvent(s.pending.value, r)]
      <= Next(c, s, Scan(Some(r), messages, now, promised)).traffic.emitted
  {
    var cleared := OutsideCleared(ObservedHome(s, Some(r)), Some(r));
    ClearingLeavesThePending(s, r);
    RebindableIsRebound(c, cleared, r, now, promised);
    var reconciled := Reconciled(c, cleared, Some(r), now, promised).0;
    var (associated, a) := Associated(reconciled, Some(r), now);
    assert associated.traffic == reconciled.traffic;
    if a.Some? { AnswersOnlyAdd(c, associated, a.value, messages, now, promised); }
  }

  /** So does a change of route. */
  lemma RerouteRebinds(c: Settings, s: Page, r: Route, now: int, promised: bool)
    requires Orderly(s.traffic) && Rebindable(s, r)
    ensures Next(c, s, Reroute(Some(r), now, promised)).traffic.emitted ==
      s.traffic.emitted + [RebindEvent(s.pending.value, r)]
  {
    var reset := s.(states := map[]);
    ClearingLeavesThePending(reset, r);
    RebindableIsRebound(c, OutsideCleared(ObservedHome(reset, Some(r)), Some(r)), r, now, promised);
  }

  /** And a poll. */
  lemma PollRebinds(c: Settings, s: Page, r: Route, now: int, promised: bool)
    requires Orderly(s.traffic) && Rebindable(s, r) && s.polling
    ensures Next(c, s, Poll(Some(r), now, promised)).traffic.emitted ==
      s.traffic.emitted + [RebindEvent(s.pending.value, r)]
  {
    RebindableIsRebound(c, s.(polling := false, pollsLeft := s.pollsLeft - 1), r, now, promised);
  }

  /** A poll that finds no route to rebind to uses itself up and goes on while any are left; one
      that rebinds is the last. */
  lemma PollGoesOnIff(c: Settings, s: Page, route: Option<Route>, now: int, promised: bool)
    requires Orderly(s.traffic)
    ensures var after := Next(c, s, Poll(route, now, promised));
      && (!s.polling ==> after == s)
      && (s.polling && s.pending.None? ==> after == s.(polling := false))
      && (s.polling && s.pending.Some? && !Settles(s, route) ==>
            after == s.(polling := s.pollsLeft > 1, pollsLeft := s.pollsLeft - 1))
      && (s.polling && route.Some? && Rebindable(s, route.value) ==>
            !after.polling && after.pollsLeft == 0 && after.pending.None?)
  {
    var fired := s.(polling := false, pollsLeft := s.pollsLeft - 1);
    PendingIsReboundIff(c, fired, route, now, promised);
  }

  lemma AnswerOnlyAdds(c: Settings, s: Page, a: Association, m: AssistantMessage, now: int, promised: bool)
    ensures s.traffic.emitted <= Answered(c, s, a, m, now, promised).0.traffic.emitted
  {}

  lemma {:induction false} AnswersOnlyAdd(
    c: Settings, s: Page, a: Association, messages: seq<AssistantMessage>, now: int, promised: bool)
    ensures s.traffic.emitted <= AnsweredAll(c, s, a, messages, now, promised).0.traffic.emitted
  {
    if messages != [] {
      var n := |messages| - 1;
      AnswersOnlyAdd(c, s, a, messages[..n], now, promised);
      AnswerOnlyAdds(c, AnsweredAll(c, s, a, messages[..n], now, promised).0, a, messages[n], now, promised);
    }
  }

  /** A scan that has nothing to rebind goes through the answers, associated as they belong, in
      the order of the page. */
  lemma ScanTellsTheAnswers(
    c: Settings, s: Page, r: Route, messages: seq<AssistantMessage>, now: int, promised: bool, a: Association)
    requires !Settles(s, Some(r))
    requires Belongs(s.(trusted := TrustedOn(s.trusted, r), stableRoute := KeptOn(s.stableRoute, r)), r, now, a)
    ensures Next(c, s, Scan(Some(r), messages, now, promised)) ==
      AnsweredAll(c, s.(trusted := TrustedOn(s.trusted, r), stableRoute := KeptOn(s.stableRoute, r)), a, messages, now,
        promised).0
  {
    var cleared := s.(trusted := TrustedOn(s.trusted, r), stableRoute := KeptOn(s.stableRoute, r));
    SeeingARoute(s, r);
    AnswersBelongIff(cleared, Some(r), now, a);
  }
}
