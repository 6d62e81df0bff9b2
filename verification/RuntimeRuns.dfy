/** The coupling invariant of router, handshake and pending session, over every run of
    the controller runtime. */
module RuntimeRuns {
  import opened Base
  import opened Gates
  import Routing
  import RouterRuns
  import Handshakes
  import opened Inputs
  import opened Runtime

  datatype RuntimeEvent =
    | HookFires
    | SetGameMode(enabled: bool)
    | Begin(peer: string, display: string, revision: u64, nowMs: u64, env: Env)
    | Control(frame: Frame, nowMs: u64, env: Env)
    | Advance(nowMs: u64, keysReleased: bool, env: Env)
    | GoLocal(reason: Routing.ReturnReason, count: nat)
    | Input(event: CriticalEvent)
    | Motion(x: i32, y: i32)
    | Ping

  function Step(s: RuntimeState, e: RuntimeEvent): Reply {
    match e
    case HookFires => Reply(s.(router := s.router.RunHooks(1)), [], None)
    case SetGameMode(enabled) => Reply(s.(router := s.router.SetGameMode(enabled)), [], None)
    case Begin(peer, display, revision, now, env) => s.Begin(peer, display, revision, now, env)
    case Control(frame, now, env) => s.HandleControl(frame, now, env)
    case Advance(now, released, env) => s.Advance(now, released, env)
    case GoLocal(reason, count) => s.GoLocal(reason, count)
    case Input(event) =>
      var (s', frame) := s.NextInput(event);
      Reply(s', [], if frame.Err? then Some(frame.error) else None)
    case Motion(x, y) =>
      var (s', frame) := s.NextMotion(x, y);
      Reply(s', [], if frame.Err? then Some(frame.error) else None)
    case Ping => s.Ping()
  }

  function Run(start: RuntimeState, events: seq<RuntimeEvent>): RuntimeState {
    if events == [] then start else Step(Run(start, events[..|events| - 1]), events[|events| - 1]).state
  }

  predicate GoodSession(session: SessionId, boot: Id128) {
    Handshakes.CheckSession(session).None? && session.controllerBoot == boot
  }

  /** Router route, handshake state and pending session always tell the same story. */
  ghost predicate Agree(route: Routing.RouteState, s: RuntimeState) {
    var hs := s.handshake.state;
    match route
    case LocalDesktop => AtRest(s)
    case LocalGame => AtRest(s)
    case PreparingRemote(_, request, _, _, _, session, commitSent) =>
      && s.inputSequence == 0 && s.motionSequence == 0 && s.display.Some?
      && (if session.None? then
            && !commitSent
            && hs == Handshakes.AwaitReady(request, s.display.value.0, s.display.value.1)
            && s.pendingRequest.None? && s.pendingSession.None?
          else
            && s.pendingRequest == Some(request) && s.pendingSession.Some?
            && GoodSession(s.pendingSession.value, s.handshake.localBoot)
            && SessionToken(s.pendingSession.value) == session.value
            && hs == if commitSent then Handshakes.AwaitCommitAck(s.pendingSession.value)
                     else Handshakes.Prepared(request, s.pendingSession.value))
    case RemoteActive(_, token) =>
      && s.pendingRequest.None? && s.pendingSession.Some? && s.display.Some?
      && GoodSession(s.pendingSession.value, s.handshake.localBoot)
      && SessionToken(s.pendingSession.value) == token
      && hs == Handshakes.ControllerState.Active(s.pendingSession.value)
    case ReturningLocal(_) => false
  }

  predicate AtRest(s: RuntimeState) {
    && (s.handshake.state.Idle? || s.handshake.state.Ended?)
    && s.pendingRequest.None? && s.pendingSession.None? && s.inputSequence == 0 && s.motionSequence == 0
  }

  ghost predicate Coupled(s: RuntimeState) {
    && RouterRuns.RouterOk(s.router)
    && s.handshake.localBoot != 0
    && Agree(s.router.route, s)
  }

  lemma ReasonIsValid(reason: Routing.ReturnReason)
    ensures ValidText(ReasonText(reason), Handshakes.MAX_DETAIL_BYTES)
    ensures ValidText(LATE_ACK, Handshakes.MAX_DETAIL_BYTES)
  {
    PlainTextIsValid(ReasonText(reason), Handshakes.MAX_DETAIL_BYTES);
    PlainTextIsValid(LATE_ACK, Handshakes.MAX_DETAIL_BYTES);
  }

  lemma RouterGoesLocal(router: Routing.RouterState, reason: Routing.ReturnReason, hooks: nat)
    requires RouterRuns.RouterOk(router)
    ensures var out := router.GoLocal(reason, hooks);
      && RouterRuns.RouterOk(out.state) && out.state.route.Local() && out.state.gate.IsLocal()
      && RouterRuns.LastReserved(out.state.gate.log) == RouterRuns.LastReserved(router.gate.log)
  {
    RouterRuns.ForwardReflexive(router.gate);
    RouterRuns.GoLocalOk(router.gate, router, reason, hooks);
  }

  /** A step ends in a coupled state of the same controller. */
  ghost predicate Keeps(s: RuntimeState, s': RuntimeState) {
    Coupled(s') && s'.handshake.localBoot == s.handshake.localBoot
  }

  ghost predicate SameNewest(s: RuntimeState, s': RuntimeState) {
    RouterRuns.LastReserved(s'.router.gate.log) == RouterRuns.LastReserved(s.router.gate.log)
  }

  lemma FailLocalRests(s: RuntimeState, hooks: nat)
    requires RouterRuns.RouterOk(s.router) && s.handshake.localBoot != 0
    ensures var s' := s.FailLocal(hooks); Keeps(s, s') && SameNewest(s, s') && s'.router.route.Local() && s'.router.gate.IsLocal()
  {
    RouterGoesLocal(s.router, Routing.NetworkFailed, hooks);
  }

  lemma BeginCoupled(s: RuntimeState, peer: string, display: string, revision: u64, nowMs: u64, env: Env)
    requires Coupled(s)
    ensures Keeps(s, s.Begin(peer, display, revision, nowMs, env).state)
  {
    hide RouterRuns.RouterOk, ValidText, Gate.Hooked, Gate.Reserve, Gate.RequestLocal;
    RouterRuns.StepOk(s.router, RouterRuns.GoRemote(peer, nowMs, env.answers, env.hooks));
    var out := s.router.GoRemote(peer, nowMs, env.answers, env.hooks);
    if out.effects != [] { RouterGoesLocal(out.state, Routing.NetworkFailed, env.hooks.again); }
  }

  lemma ReadyCoupled(s: RuntimeState, frame: Frame, nowMs: u64, env: Env)
    requires Coupled(s) && frame.Ready?
    ensures var reply := s.HandleControl(frame, nowMs, env);
      Keeps(s, reply.state) && SameNewest(s, reply.state) && (reply.error.Some? ==> reply.state.router.route.Local())
  {
    hide RouterRuns.RouterOk, ValidText, Gate.Hooked, Gate.RequestLocal;
    var hs := s.handshake.Handle(frame, env.entropy);
    var handled := s.(handshake := hs.state);
    FailLocalRests(handled, env.hooks.again);
    if hs.error.None? {
      var request, session := hs.state.state.requestId, hs.state.state.sessionId;
      RouterRuns.StepOk(s.router, RouterRuns.Ready(request, SessionToken(session), env.hooks));
      var out := s.router.Ready(request, SessionToken(session), env.hooks);
      FailLocalRests(
        handled.(pendingRequest := Some(request), pendingSession := Some(session), router := out.state),
        env.hooks.again);
    }
  }

  lemma AckCoupled(s: RuntimeState, frame: Frame, nowMs: u64, env: Env)
    requires Coupled(s) && frame.CommitAck?
    ensures var reply := s.HandleControl(frame, nowMs, env);
      && Keeps(s, reply.state) && SameNewest(s, reply.state)
      && (reply.error.Some? && reply.error != Some(NotActive) ==> reply.state.router.route.Local())
  {
    hide RouterRuns.RouterOk, ValidText, Gate.Hooked, Gate.RequestLocal, Gate.Activate;
    FailLocalRests(s, env.hooks.again);
    var hs := s.handshake.Handle(frame, env.entropy);
    var handled := s.(handshake := hs.state);
    FailLocalRests(handled, env.hooks.again);
    if s.pendingRequest.Some? && s.pendingSession == Some(frame.sessionId) && hs.error.None? {
      ReasonIsValid(Routing.User);
      var token := SessionToken(frame.sessionId);
      RouterRuns.StepOk(s.router,
        RouterRuns.CommitAck(s.pendingRequest.value, token, nowMs, env.answers, env.hooks));
      var out := s.router.CommitAck(s.pendingRequest.value, token, nowMs, env.answers, env.hooks);
      RouterGoesLocal(out.state, Routing.Emergency, env.hooks.again);
      if out.error.Some? {
        AckFailureRests(handled.(router := out.state), env.hooks.again);
      }
    }
  }

  lemma AckFailureRests(s: RuntimeState, hooks: nat)
    requires RouterRuns.RouterOk(s.router) && s.handshake.localBoot != 0
    requires s.handshake.state.Active? && GoodSession(s.handshake.state.sessionId, s.handshake.localBoot)
    ensures var reply := s.EndAfterFailedAck(hooks);
      && Keeps(s, reply.state) && SameNewest(s, reply.state)
      && reply.state.router.route.Local() && reply.state.handshake.state.Ended?
      && reply.actions == [SendControl(Handshakes.EndSession(s.handshake.state.sessionId, LATE_ACK)), CloseInput]
  {
    hide RouterRuns.RouterOk, ValidText, Gate.Hooked, Gate.RequestLocal;
    ReasonIsValid(Routing.User);
    RouterGoesLocal(s.router, Routing.Emergency, hooks);
  }

  lemma ControlCoupled(s: RuntimeState, frame: Frame, nowMs: u64, env: Env)
    requires Coupled(s)
    ensures var reply := s.HandleControl(frame, nowMs, env);
      && Keeps(s, reply.state) && SameNewest(s, reply.state)
      && (reply.error.Some? && reply.error != Some(NotActive) ==> reply.state.router.route.Local())
  {
    hide RouterRuns.RouterOk, ValidText;
    if frame.Ready? {
      ReadyCoupled(s, frame, nowMs, env);
    } else if frame.CommitAck? {
      AckCoupled(s, frame, nowMs, env);
    } else {
      FailLocalRests(s, env.hooks.again);
      FailLocalRests(s.(handshake := s.handshake.Handle(frame, env.entropy).state), env.hooks.again);
    }
  }

  lemma OneEffectAlone(s: RuntimeState, effect: Routing.RouteEffect)
    ensures s.RouteEffects([], []) == Reply(s, [], None)
    ensures var one := s.OneEffect(effect);
      s.RouteEffects([effect], []) == if one.error.Some? then Reply(one.state, [], one.error)
                                      else Reply(one.state, one.actions, None)
  {
    assert [effect][1..] == [];
    var one := s.OneEffect(effect);
    assert [] + one.actions == one.actions;
    assert one.state.RouteEffects([], one.actions) == Reply(one.state, one.actions, None);
  }

  /** The router's effects always find the handshake where they need it: none of the
      error branches can be taken. */
  lemma EffectFits(before: Routing.RouteState, s: RuntimeState, effect: Routing.RouteEffect)
    requires RouterRuns.RouterOk(s.router) && s.handshake.localBoot != 0
    requires Agree(before, s) && !before.Local() && !effect.Prepare?
    requires effect.Commit? ==>
      && before.PreparingRemote? && before.session == Some(effect.session) && !before.commitSent
      && before.request == effect.request
      && s.router.route == before.(keysReleasedSeen := true, commitSent := true)
    requires effect.End? || effect.Cancel? ==> s.router.route.Local()
    ensures var reply := s.OneEffect(effect);
      && reply.error.None? && Keeps(s, reply.state) && reply.state.router == s.router && !reply.state.IsActive()
  {
    hide RouterRuns.RouterOk, ValidText;
    if effect.End? { ReasonIsValid(effect.reason); }
  }

  lemma AdvanceCoupled(s: RuntimeState, nowMs: u64, keysReleased: bool, env: Env)
    requires Coupled(s)
    ensures var reply := s.Advance(nowMs, keysReleased, env);
      reply.error.None? && Keeps(s, reply.state) && (reply.state.IsActive() ==> reply.state == s.(router := reply.state.router))
  {
    hide RouterRuns.RouterOk, ValidText, Gate.Hooked, Gate.RequestLocal, RuntimeState.RouteEffects;
    RouterRuns.StepOk(s.router, RouterRuns.Advance(nowMs, keysReleased, env.answers, env.hooks));
    var out := s.router.Advance(nowMs, keysReleased, env.answers, env.hooks);
    var s' := s.(router := out.state);
    OneEffectAlone(s', if out.effects == [] then Routing.Cancel(0) else out.effects[0]);
    if out.effects != [] {
      assert out.effects == [out.effects[0]];
      EffectFits(s.router.route, s', out.effects[0]);
    }
  }

  lemma GoLocalCoupled(s: RuntimeState, reason: Routing.ReturnReason, count: nat)
    requires Coupled(s)
    ensures var reply := s.GoLocal(reason, count);
      reply.error.None? && Keeps(s, reply.state) && reply.state.router.route.Local() && reply.state.router.gate.IsLocal()
  {
    hide RouterRuns.RouterOk, ValidText, Gate.Hooked, Gate.RequestLocal, RuntimeState.RouteEffects;
    RouterGoesLocal(s.router, reason, count);
    var out := s.router.GoLocal(reason, count);
    var s' := s.(router := out.state);
    OneEffectAlone(s', if out.effects == [] then Routing.Cancel(0) else out.effects[0]);
    if out.effects != [] {
      assert out.effects == [out.effects[0]];
      EffectFits(s.router.route, s', out.effects[0]);
    }
  }

  /** Going home tells the peer which session is over and why, if one is open; gives the
      input stream up if anything was under way; and says nothing from home. */
  lemma LeavingTellsThePeer(s: RuntimeState, reason: Routing.ReturnReason, count: nat)
    requires Coupled(s)
    ensures s.GoLocal(reason, count).actions
         == if s.IsActive() then
              [SendControl(Handshakes.EndSession(s.handshake.state.sessionId, ReasonText(reason))), CloseInput]
            else if s.router.route.Local() then [] else [CloseInput]
  {
    hide RouterRuns.RouterOk, ValidText, Gate.Hooked, Gate.RequestLocal, RuntimeState.RouteEffects;
    ReasonIsValid(reason);
    var out := s.router.GoLocal(reason, count);
    var s' := s.(router := out.state);
    OneEffectAlone(s', if out.effects == [] then Routing.Cancel(0) else out.effects[0]);
    if out.effects != [] { assert out.effects == [out.effects[0]]; }
  }

  /** The peer can tell the reasons apart. */
  lemma ReasonsDiffer(a: Routing.ReturnReason, b: Routing.ReturnReason)
    ensures ReasonText(a) == ReasonText(b) ==> a == b
  {
    if ReasonText(a) == ReasonText(b) { assert ReasonText(a)[0] == ReasonText(b)[0]; }
  }

  /** Steps that leave route and handshake state alone. */
  lemma QuietCoupled(s: RuntimeState, e: RuntimeEvent)
    requires Coupled(s) && (e.SetGameMode? || e.Input? || e.Motion? || e.Ping?)
    ensures Keeps(s, Step(s, e).state)
  {
  }

  lemma StepCoupled(s: RuntimeState, e: RuntimeEvent)
    requires Coupled(s)
    ensures Keeps(s, Step(s, e).state)
  {
    hide Agree, RouterRuns.RouterOk, ValidText, RuntimeState.HandleControl, RuntimeState.RouteEffects, Gate.Hooked;
    match e
    case HookFires => RouterRuns.StepOk(s.router, RouterRuns.HookFires); HookCoupled(s);
    case Begin(peer, display, revision, now, env) => BeginCoupled(s, peer, display, revision, now, env);
    case Control(frame, now, env) => ControlCoupled(s, frame, now, env);
    case Advance(now, released, env) => AdvanceCoupled(s, now, released, env);
    case GoLocal(reason, count) => GoLocalCoupled(s, reason, count);
    case _ => QuietCoupled(s, e);
  }

  lemma HookCoupled(s: RuntimeState)
    requires Coupled(s) && RouterRuns.RouterOk(s.router.RunHooks(1))
    ensures Keeps(s, Step(s, HookFires).state)
  {
    hide RouterRuns.RouterOk, Gate.Hooked;
  }

  ghost predicate Initial(s: RuntimeState) {
    exists boot: Id128, peer :: boot != 0 && s == InitialRuntime(boot, peer)
  }

  /** The coupling invariant holds in every reachable state. */
  lemma {:induction false} AlwaysCoupled(start: RuntimeState, events: seq<RuntimeEvent>)
    requires Initial(start)
    ensures Coupled(Run(start, events))
    ensures Run(start, events).handshake.localBoot == start.handshake.localBoot
  {
    if events != [] {
      AlwaysCoupled(start, events[..|events| - 1]);
      StepCoupled(Run(start, events[..|events| - 1]), events[|events| - 1]);
    }
  }
}
