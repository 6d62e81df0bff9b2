/** Exactly when a handoff goes on, is committed, takes effect or ends: told from when it
    was asked for, the key samples since, the clock, and whether anyone wants control back. */
module Timings {
  import opened Base
  import opened Gates
  import opened Routing
  import opened RouterRuns

  /** When the preparation under way was asked for. */
  function AskedMs(events: seq<RouterEvent>): u64 {
    if events == [] then 0
    else
      var before, e := events[..|events| - 1], events[|events| - 1];
      if e.GoRemote? && Run(before).route.Local() then e.nowMs else AskedMs(before)
  }

  /** What the last key sample of the preparation under way saw, if there was one. */
  function LastSample(events: seq<RouterEvent>): Option<bool> {
    if events == [] then None
    else
      var before, e := events[..|events| - 1], events[|events| - 1];
      if e.Advance? then Some(e.keysReleased)
      else if e.GoRemote? && Run(before).route.Local() then None
      else LastSample(before)
  }

  /** The mode the user chose last. */
  function ChosenMode(events: seq<RouterEvent>): bool {
    if events == [] then false
    else
      var e := events[|events| - 1];
      if e.SetGameMode? then e.enabled else ChosenMode(events[..|events| - 1])
  }

  /** The route remembers no more than that. */
  lemma {:induction false} RouteRemembers(events: seq<RouterEvent>)
    ensures Run(events).route.PreparingRemote? ==>
      && Preparing(Run(events), Run(events).route.request, AskedMs(events))
      && (Run(events).route.keysReleasedSeen <==> LastSample(events) == Some(true))
  {
    hide RouterOk, Step, Gate.Consistent, ValidText;
    if events != [] {
      var before, e := events[..|events| - 1], events[|events| - 1];
      RouteRemembers(before);
      RunOk(before);
      var s := Run(before);
      if Run(events).route.PreparingRemote? {
        if s.route.PreparingRemote? { StaysPreparing(s, e); } else { StartsPreparing(s, e); }
      }
    }
  }

  /** Whatever happened in between, a user who is local is in the mode chosen last. */
  lemma {:induction false} LocalModeIsTheUsers(events: seq<RouterEvent>)
    ensures var s := Run(events);
      && s.gameMode == ChosenMode(events)
      && (s.route.Local() ==> s.route == if ChosenMode(events) then LocalGame else LocalDesktop)
  {
    hide ValidText, Gate.Hooked, Gate.Reserve, Gate.Activate, Gate.RequestLocal;
    if events != [] {
      LocalModeIsTheUsers(events[..|events| - 1]);
    }
  }

  // ----- somebody wants control back

  /** Somebody has asked for local control since the request was reserved, or one of
      `count` hook threads does now. */
  predicate WantedBack(s: RouterState, count: nat)
    requires s.route.PreparingRemote?
  {
    s.gate.word != s.route.request || count > 0
  }

  lemma {:induction false} HookedMovesOn(gate: Gate, request: u64, count: nat)
    requires request < U64_MAX && gate.word >= request && gate.Consistent()
    ensures gate.Hooked(count).StillPreparing(request) <==> gate.word == request && count == 0
  {
    if count > 0 { HookedConsistent(gate, count); }
  }

  lemma ReadsTheGate(s: RouterState, count: nat)
    requires RouterOk(s) && s.route.PreparingRemote?
    ensures s.gate.Hooked(count).StillPreparing(s.route.request) <==> !WantedBack(s, count)
  {
    hide Gate.Hooked, Gate.StillPreparing, LastReserved, OddActivations;
    HookedMovesOn(s.gate, s.route.request, count);
  }

  // ----- the decision of each step

  /** The keys and the clock let the preparation go on at this sample. */
  predicate InTime(events: seq<RouterEvent>, committed: bool, nowMs: u64, keysReleased: bool) {
    && nowMs < AskedMs(events) + HANDOFF_TIMEOUT_MS
    && (if keysReleased then LastSample(events) == Some(true) || nowMs < AskedMs(events) + KEYS_RELEASE_TIMEOUT_MS
        else !committed && nowMs < AskedMs(events) + KEYS_RELEASE_TIMEOUT_MS)
  }

  /** This sample is the one to commit on: the keys are up, the peer is ready, and nothing
      has been committed yet. */
  predicate Due(route: RouteState, keysReleased: bool)
    requires route.PreparingRemote?
  {
    keysReleased && route.session.Some? && !route.commitSent
  }

  lemma AdvanceDecides(s: RouterState, nowMs: u64, keysReleased: bool, answers: Answers, hooks: Hooks)
    requires RouterOk(s) && s.route.PreparingRemote?
    ensures var out := s.Advance(nowMs, keysReleased, answers, hooks);
      var reason :=
        if WantedBack(s, hooks.load) then Some(Emergency)
        else if nowMs >= s.route.deadlineMs then Some(Timeout)
        else if (!keysReleased && s.route.commitSent)
                || ((!keysReleased || !s.route.keysReleasedSeen) && nowMs >= s.route.keysDeadlineMs) then Some(KeysHeld)
        else if !Due(s.route, keysReleased) then None
        else if answers.focus.Some? then Some(FocusUnavailable)
        else if hooks.recheck > 0 then Some(Emergency)
        else None;
      && out.error.None?
      && (reason.Some? ==> out.state.route.Local() && out.state.lastReturn == reason)
      && (reason.None? ==> out.state.route.PreparingRemote?)
      && (out.effects == [Commit(s.route.request, if s.route.session.Some? then s.route.session.value else 0)]
          <==> reason.None? && Due(s.route, keysReleased))
  {
    hide RouterOk, Gate.Hooked, Gate.StillPreparing, Gate.RequestLocal;
    ReadsTheGate(s, hooks.load);
    if !WantedBack(s, hooks.load) {
      var t := s.RunHooks(hooks.load);
      NoHooks(s);
      ReadsTheGate(s, hooks.recheck);
    }
  }

  lemma NoHooks(s: RouterState)
    ensures s.RunHooks(0) == s
  {
  }

  /** A key sample during a preparation: it commits, goes on, or goes home for the reason
      that comes first, all told from the run so far. */
  lemma AdvanceExactly(events: seq<RouterEvent>, e: RouterEvent)
    requires e.Advance? && Run(events).route.PreparingRemote?
    ensures var s := Run(events); var out := Step(s, e);
      var back, inTime, due := WantedBack(s, e.hooks.load), InTime(events, s.route.commitSent, e.nowMs, e.keysReleased),
                               Due(s.route, e.keysReleased);
      && (out.effects == [Commit(s.route.request, if s.route.session.Some? then s.route.session.value else 0)]
          <==> !back && inTime && due && e.answers.focus.None? && e.hooks.recheck == 0)
      && (out.state.route.PreparingRemote?
          <==> !back && inTime && (due ==> e.answers.focus.None? && e.hooks.recheck == 0))
      && (out.state.route.Local() <==> !out.state.route.PreparingRemote?)
      && (out.state.route.Local() ==> out.state.lastReturn == Some(
            if back then Emergency
            else if e.nowMs >= AskedMs(events) + HANDOFF_TIMEOUT_MS then Timeout
            else if !inTime then KeysHeld
            else if e.answers.focus.Some? then FocusUnavailable else Emergency))
  {
    hide RouterOk, RouterState.Advance, Run, WantedBack, Due;
    RunOk(events);
    RouteRemembers(events);
    AdvanceDecides(Run(events), e.nowMs, e.keysReleased, e.answers, e.hooks);
  }

  /** An acknowledgement during a preparation takes effect if and only if it is for the
      committed session, in time, nobody wants control back, and capture starts.  One for
      something else changes nothing; any other ends the preparation. */
  lemma AckExactly(events: seq<RouterEvent>, e: RouterEvent)
    requires e.CommitAck? && Run(events).route.PreparingRemote?
    ensures var s := Run(events); var out := Step(s, e);
      var mine := e.request == s.route.request && s.route.session == Some(e.session) && s.route.commitSent;
      var inTime := e.nowMs < AskedMs(events) + HANDOFF_TIMEOUT_MS;
      var back := WantedBack(s, e.hooks.load) || (e.answers.activate.None? && e.hooks.recheck > 0);
      && (out.state.route == RemoteActive(s.route.peer, e.session)
          <==> mine && inTime && !back && e.answers.activate.None?)
      && (!mine ==> out.state == s && out.error == Some(StaleReply))
      && (mine && !(inTime && !back && e.answers.activate.None?) ==>
            && out.state.route.Local()
            && out.state.lastReturn == Some(
                 if !inTime then Timeout else if WantedBack(s, e.hooks.load) then Emergency
                 else if e.answers.activate.Some? then CaptureFailed else Emergency))
  {
    hide RouterOk, Run, Gate.Hooked, Gate.RequestLocal;
    RunOk(events);
    RouteRemembers(events);
    var s := Run(events);
    AckReadsTheGate(s, e.hooks.load);
    ReadsTheGate(s, e.hooks.load);
    NoHooks(s);
    ReadsTheGate(s, e.hooks.recheck);
    AckReadsTheGate(s, e.hooks.recheck);
  }

  lemma AckReadsTheGate(s: RouterState, count: nat)
    requires RouterOk(s) && s.route.PreparingRemote?
    ensures s.gate.Hooked(count).Activate(s.route.request).1 <==> !WantedBack(s, count)
  {
    hide Gate.Hooked, LastReserved, OddActivations;
    ReadsTheGate(s, count);
  }

  lemma FreshRequest(s: RouterState, count: nat, again: nat)
    requires RouterOk(s) && s.gate.Hooked(count).Reserve().1.Some?
    ensures var (gate', ticket) := s.gate.Hooked(count).Reserve();
      gate'.Hooked(again).StillPreparing(ticket.value) <==> again == 0
  {
    hide RouterOk, Gate.Hooked, LastReserved, OddActivations;
    ReserveHasRoom(s, count);
    var (gate', ticket) := s.gate.Hooked(count).Reserve();
    HookedMovesOn(gate', ticket.value, again);
  }

  lemma ReserveHasRoom(s: RouterState, count: nat)
    requires RouterOk(s) && s.gate.Hooked(count).Reserve().1.Some?
    ensures var (gate', ticket) := s.gate.Hooked(count).Reserve();
      gate'.Consistent() && gate'.word == ticket.value < U64_MAX
  {
    hide Gate.Hooked, LastReserved, OddActivations;
    HookedConsistent(s.gate, count);
    ReserveConsistent(s.gate.Hooked(count));
  }

  /** Asking for a peer from home starts a preparation for that very peer if and only if
      its name is valid, the deadlines and a request number exist, capture can be prepared
      and nobody wants control back at once; away from home it changes nothing. */
  lemma AskExactly(events: seq<RouterEvent>, e: RouterEvent)
    requires e.GoRemote?
    ensures var s := Run(events); var out := Step(s, e);
      var room := s.gate.Hooked(e.hooks.load).Reserve().1.Some?;
      if !s.route.Local() then
        && out.state == s && out.effects == []
        && (out.error.None? <==>
              ValidText(e.peer, MAX_PEER_ID_BYTES) && (s.route.PreparingRemote? || s.route.RemoteActive?)
              && s.route.peer == e.peer)
      else
        && (out.state.route.PreparingRemote? <==>
              && ValidText(e.peer, MAX_PEER_ID_BYTES) && e.nowMs + HANDOFF_TIMEOUT_MS <= U64_MAX && room
              && e.answers.prepare.None? && e.hooks.recheck == 0)
        && (out.state.route.PreparingRemote? ==>
              && out.state.route.peer == e.peer && out.state.gate.word == out.state.route.request
              && out.effects == [Prepare(e.peer, out.state.route.request)] && out.error.None?)
        && (!out.state.route.PreparingRemote? ==> out.state.route == s.route && out.error.Some? && out.effects == [])
  {
    hide Run, ValidText, Gate.Hooked, Gate.Reserve, Gate.RequestLocal, RouterOk;
    RunOk(events);
    LocalModeIsTheUsers(events);
    var s := Run(events);
    NeverReturning(s);
    if s.gate.Hooked(e.hooks.load).Reserve().1.Some? {
      FreshRequest(s, e.hooks.load, e.hooks.recheck);
      ReserveHasRoom(s, e.hooks.load);
      NoHooks(s.(gate := s.gate.Hooked(e.hooks.load).Reserve().0));
    }
  }

  lemma NeverReturning(s: RouterState)
    requires RouterOk(s)
    ensures !s.route.ReturningLocal?
  {
  }
}
