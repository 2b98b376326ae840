/** The capture object of a page, method by method (`browser_extension/core/capture.js`). */
module CaptureAgent {
  import opened Schema
  import opened Texts
  import opened Dedupe
  import opened Capture

  class ChatGPTCapture {
    const settings: Settings
    const assistantTracker: StableAssistantTracker
    const eventDedupe: DedupeWindow<EventId>
    var submitSequence: nat
    var recentSubmission: Option<Recent>
    var pendingNewChat: Option<PendingChat>
    var pendingRoutePollScheduled: bool
    var pendingRoutePollRemaining: int
    var recentProjectStableRoute: Option<StableRoute>
    var trustedProjectHome: Option<(string, string)>
    var sent: seq<CaptureEvent>
    var queue: seq<CaptureEvent>
    var inFlight: bool
    ghost var emitted: seq<CaptureEvent>

    ghost predicate Valid()
      reads this, assistantTracker, assistantTracker.emitted, eventDedupe
    {
      && assistantTracker.Valid() && assistantTracker.emitted.limit == EVENT_WINDOW
      && assistantTracker.stableMilliseconds == settings.stable
      && eventDedupe.Valid() && eventDedupe.limit == EVENT_WINDOW
      && (eventDedupe as object) != assistantTracker.emitted
    }

    ghost function View(): Page
      reads this, assistantTracker, assistantTracker.emitted, eventDedupe
    {
      Page(submitSequence, recentSubmission, pendingNewChat, pendingRoutePollScheduled, pendingRoutePollRemaining,
           recentProjectStableRoute, trustedProjectHome, assistantTracker.states, assistantTracker.emitted.order,
           Traffic(emitted, eventDedupe.order, sent, queue, inFlight))
    }

    constructor (settings: Settings)
      ensures Valid() && View() == OPENED && this.settings == settings
      ensures fresh(assistantTracker) && fresh(assistantTracker.emitted) && fresh(eventDedupe)
    {
      this.settings := settings;
      assistantTracker := new StableAssistantTracker(settings.stable);
      eventDedupe := new DedupeWindow(EVENT_WINDOW);
      submitSequence, recentSubmission, pendingNewChat := 0, None, None;
      pendingRoutePollScheduled, pendingRoutePollRemaining := false, 0;
      recentProjectStableRoute, trustedProjectHome := None, None;
      sent, queue, inFlight, emitted := [], [], false, [];
    }

    method EmitEvent(e: CaptureEvent, promised: bool) returns (done: bool)
      requires Valid()
      modifies `sent, `queue, `inFlight, `emitted, eventDedupe
      ensures Valid() && (View(), done) == Emitted(old(View()), e, promised)
    {
      done := eventDedupe.First(IdOf(e));
      if !done { return; }
      emitted := emitted + [e];
      if inFlight {
        queue := queue + [e];
      } else {
        sent, inFlight := sent + [e], promised;
      }
    }

    /** The delivery in flight settles. */
    method Deliver()
      requires Valid()
      modifies `sent, `queue, `inFlight
      ensures Valid() && View() == old(View()).(traffic := Delivered(old(View()).traffic))
    {
      if !inFlight { return; }
      if queue == [] {
        inFlight := false;
      } else {
        sent, queue := sent + [queue[0]], queue[1..];
      }
    }

    method ObserveTrustedProjectHome(route: Option<Route>)
      requires Valid()
      modifies `trustedProjectHome
      ensures Valid() && View() == ObservedHome(old(View()), route)
    {
      if route.None? { return; }
      var r := route.value;
      if r.home {
        trustedProjectHome := if r.project.Some? && r.projectName.Some?
          then Some((r.project.value, r.projectName.value)) else None;
        return;
      }
      if trustedProjectHome.Some? && r.project != Some(trustedProjectHome.value.0) { trustedProjectHome := None; }
    }

    method RouteWithTrustedProjectHome(route: Route) returns (r: Route)
      requires Valid()
      ensures r == WithTrustedHome(View(), route)
    {
      if route.projectName.Some? || trustedProjectHome.None? || route.project != Some(trustedProjectHome.value.0) {
        return route;
      }
      r := route.(projectName := Some(trustedProjectHome.value.1));
    }

    method ClearRecentProjectRouteOutside(route: Option<Route>)
      requires Valid()
      modifies `recentProjectStableRoute
      ensures Valid() && View() == OutsideCleared(old(View()), route)
    {
      if recentProjectStableRoute.None? || route.None? { return; }
      var recent := recentProjectStableRoute.value;
      if route.value.project != recent.project {
        recentProjectStableRoute := None;
        return;
      }
      if route.value.stable && route.value.chat != recent.route.chat { recentProjectStableRoute := None; }
    }

    method SchedulePendingRoutePoll()
      requires Valid()
      modifies `pendingRoutePollScheduled
      ensures Valid() && View() == PollScheduled(old(View()))
    {
      if pendingNewChat.None? || pendingRoutePollScheduled || pendingRoutePollRemaining <= 0 { return; }
      pendingRoutePollScheduled := true;
    }

    method SubmissionTurn(r: Route, composer: string, now: int) returns (turn: Turn)
      requires Valid()
      modifies `submitSequence, `recentSubmission
      ensures Valid() && (View(), turn) == TurnOf(old(View()), r, composer, now)
    {
      if recentSubmission.Some? && recentSubmission.value.chat == r.chat && recentSubmission.value.content == composer
         && now - recentSubmission.value.at < RESUBMISSION {
        return recentSubmission.value.turn;
      }
      submitSequence := submitSequence + 1;
      turn := Submission(now, submitSequence);
      recentSubmission := Some(Recent(r.chat, composer, now, turn));
    }

    /** `captureUserSubmit` up to its emission. */
    method ArmSubmission(
      composer: string, route: Route, listed: set<string>, now: int)
      returns (e: Option<CaptureEvent>)
      requires Valid()
      modifies `trustedProjectHome, `recentProjectStableRoute, `submitSequence, `recentSubmission, `pendingNewChat,
        `pendingRoutePollRemaining
      ensures Valid() && (View(), e) == Armed(settings, old(View()), composer, route, listed, now)
    {
      ObserveTrustedProjectHome(Some(route));
      var r := RouteWithTrustedProjectHome(route);
      var ignored: set<string> := {};
      if r.home {
        recentProjectStableRoute := None;
        ignored := listed;
      }
      var turn := SubmissionTurn(r, composer, now);
      e := UserEvent(r, composer, turn, now);
      if e.None? || !r.newChat { return; }
      pendingNewChat := Some(PendingChat(e.value, e.value.project, e.value.projectName, ignored, false));
      pendingRoutePollRemaining := settings.pollLimit;
    }

    method CaptureUserSubmit(
      composer: string, route: Option<Route>, listed: set<string>, now: int, promised: bool)
      returns (done: bool)
      requires Valid()
      modifies this, eventDedupe
      ensures Valid() && (View(), done) == Submitted(settings, old(View()), composer, route, listed, now, promised)
    {
      if composer == "" || route.None? { return false; }
      var e := ArmSubmission(composer, route.value, listed, now);
      if e.None? { return false; }
      done := EmitEvent(e.value, promised);
      if done && e.value.projectName.Some? { trustedProjectHome := None; }
      if done && route.value.newChat { SchedulePendingRoutePoll(); }
    }

    method ReconcilePendingNewChat(route: Option<Route>, now: int, promised: bool) returns (outcome: Rebinding)
      requires Valid()
      modifies this, eventDedupe
      ensures Valid() && (View(), outcome) == Reconciled(settings, old(View()), route, now, promised)
    {
      if pendingNewChat.None? || route.None? || !route.value.stable { return NotYet; }
      var pending, r := pendingNewChat.value, route.value;
      if r.project != pending.project { return NotYet; }
      var rebound := ReboundEvent(pending, r);
      if rebound.None? { return Raised; }
      var done := EmitEvent(rebound.value, promised);
      if !done { return NotYet; }
      if pending.project.Some? && !pending.assistantCaptured {
        var named := if pending.projectName.Some? then r.(projectName := pending.projectName) else r;
        recentProjectStableRoute := Some(StableRoute(named, pending.project, pending.ignored,
          now + settings.routeLifetime));
      } else {
        recentProjectStableRoute := None;
      }
      pendingNewChat, pendingRoutePollRemaining := None, 0;
      outcome := Rebound;
    }

    /** The callback of `schedulePendingRoutePoll`. */
    method PollPendingRoute(route: Option<Route>, now: int, promised: bool)
      requires Valid()
      modifies this, eventDedupe
      ensures Valid() && View() == Polled(settings, old(View()), route, now, promised)
    {
      if !pendingRoutePollScheduled { return; }
      pendingRoutePollScheduled := false;
      if pendingNewChat.None? { return; }
      pendingRoutePollRemaining := pendingRoutePollRemaining - 1;
      var outcome := ReconcilePendingNewChat(route, now, promised);
      if outcome == NotYet { SchedulePendingRoutePoll(); }
    }

    method AssistantAssociation(route: Option<Route>, now: int) returns (a: Option<Association>)
      requires Valid()
      modifies `recentProjectStableRoute
      ensures Valid() && (View(), a) == Associated(old(View()), route, now)
    {
      if route.None? { return None; }
      var r := route.value;
      if !r.home { return Some(Association(r, Named(r.chat), {}, false)); }
      if pendingNewChat.Some? && pendingNewChat.value.project == r.project {
        var pending := pendingNewChat.value;
        return Some(Association(r.(projectName := pending.projectName, chatName := None), pending.event.chat,
          pending.ignored, true));
      }
      if recentProjectStableRoute.None? { return None; }
      var recent := recentProjectStableRoute.value;
      if recent.expiresAt < now {
        recentProjectStableRoute := None;
        return None;
      }
      if recent.project != r.project { return None; }
      a := Some(Association(recent.route, Named(recent.route.chat), recent.ignored, false));
    }

    method CaptureAnswer(a: Association, m: AssistantMessage, now: int, promised: bool) returns (on: bool)
      requires Valid()
      modifies this, eventDedupe, assistantTracker, assistantTracker.emitted
      ensures Valid() && (View(), on) == Answered(settings, old(View()), a, m, now, promised)
    {
      if m.reference in a.ignored { return true; }
      var ready := assistantTracker.Observe(m, now);
      if !ready { return true; }
      if Stripped(m.reference) == "" { return false; }
      var e := MakeEvent(a.route, a.chat, Assistant, m.content, HostMessage(Stripped(m.reference)), now, None);
      if e.None? { return false; }
      var done := EmitEvent(e.value, promised);
      if done && a.pending && pendingNewChat.Some? {
        pendingNewChat := Some(pendingNewChat.value.(assistantCaptured := true));
      }
      if done && recentProjectStableRoute.Some? && a.chat == Named(recentProjectStableRoute.value.route.chat) {
        recentProjectStableRoute := None;
      }
      on := true;
    }

    method CaptureAnswers(a: Association, messages: seq<AssistantMessage>, now: int, promised: bool)
      requires Valid()
      modifies this, eventDedupe, assistantTracker, assistantTracker.emitted
      ensures Valid() && View() == AnsweredAll(settings, old(View()), a, messages, now, promised).0
    {
      for i := 0 to |messages|
        invariant Valid() && (View(), true) == AnsweredAll(settings, old(View()), a, messages[..i], now, promised)
      {
        assert messages[..i + 1][..i] == messages[..i];
        var on := CaptureAnswer(a, messages[i], now, promised);
        if !on {
          StoppedScan(settings, old(View()), a, messages, i + 1, now, promised);
          return;
        }
      }
      assert messages[..|messages|] == messages;
    }

    method ScanVisibleAssistantMessages(route: Option<Route>, messages: seq<AssistantMessage>, now: int, promised: bool)
      requires Valid()
      modifies this, eventDedupe, assistantTracker, assistantTracker.emitted
      ensures Valid() && View() == Scanned(settings, old(View()), route, messages, now, promised)
    {
      ObserveTrustedProjectHome(route);
      ClearRecentProjectRouteOutside(route);
      var outcome := ReconcilePendingNewChat(route, now, promised);
      if outcome == Raised { return; }
      var a := AssistantAssociation(route, now);
      if a.None? { return; }
      CaptureAnswers(a.value, messages, now, promised);
    }

    method RouteChanged(route: Option<Route>, now: int, promised: bool)
      requires Valid()
      modifies this, eventDedupe, assistantTracker
      ensures Valid() && View() == Rerouted(settings, old(View()), route, now, promised)
    {
      assistantTracker.Reset();
      ObserveTrustedProjectHome(route);
      ClearRecentProjectRouteOutside(route);
      var outcome := ReconcilePendingNewChat(route, now, promised);
    }
  }

  /** Once an answer stops a scan the rest is not looked at. */
  lemma {:induction false} StoppedScan(
    c: Settings, s: Page, a: Association, messages: seq<AssistantMessage>, n: nat, now: int, promised: bool)
    requires n <= |messages| && !AnsweredAll(c, s, a, messages[..n], now, promised).1
    ensures AnsweredAll(c, s, a, messages, now, promised) == AnsweredAll(c, s, a, messages[..n], now, promised)
  {
    if n < |messages| {
      var m := |messages| - 1;
      assert messages[..m][..n] == messages[..n];
      StoppedScan(c, s, a, messages[..m], n, now, promised);
    } else {
      assert messages[..n] == messages;
    }
  }
}
