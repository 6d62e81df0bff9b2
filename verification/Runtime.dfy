/** The controller runtime drives the router, the handshake and the outgoing frame
    counters together.  As a value first, then as the class that owns the parts. */
module Runtime {
  import opened Base
  import opened Gates
  import Routing
  import Handshakes
  import opened Inputs

  type Frame = Handshakes.ControlFrame
  type SessionId = Handshakes.SessionId

  datatype Action = SendControl(frame: Frame) | OpenInput(sessionId: SessionId) | CloseInput

  datatype RuntimeError = Route(route: Routing.RouteError) | Protocol(protocol: Handshakes.ProtocolError) | NotActive

  /** What the world answers during one operation: platform ports, random source, hooks. */
  datatype Env = Env(answers: Routing.Answers, entropy: Option<Id128>, hooks: Routing.Hooks)

  datatype Reply = Reply(state: RuntimeState, actions: seq<Action>, error: Option<RuntimeError>)

  function SendAll(frames: seq<Frame>): seq<Action> {
    seq(|frames|, i requires 0 <= i < |frames| => SendControl(frames[i]))
  }

  /** The control frames among the actions. */
  function FramesOf(actions: seq<Action>): seq<Frame> {
    if actions == [] then []
    else (if actions[0].SendControl? then [actions[0].frame] else []) + FramesOf(actions[1..])
  }

  function ReasonText(reason: Routing.ReturnReason): string {
    match reason
    case User => "user"
    case Emergency => "emergency"
    case Timeout => "timeout"
    case KeysHeld => "keys-held"
    case FocusUnavailable => "focus-unavailable"
    case CaptureFailed => "capture-failed"
    case NetworkFailed => "network-failed"
    case QueueFull => "queue-full"
  }

  const LATE_ACK := "late-or-cancelled-ack"

  function SessionToken(session: SessionId): Id128 { session.nonce }

  datatype RuntimeState = RuntimeState(router: Routing.RouterState, handshake: Handshakes.ControllerSide,
                                       pendingRequest: Option<u64>, pendingSession: Option<SessionId>,
                                       inputSequence: u64, motionSequence: u64,
                                       display: Option<(string, u64)>)
  {
    predicate CanBegin() { router.route.Local() }

    predicate IsActive() { handshake.state.Active? }

    function Begin(peer: string, display: string, revision: u64, nowMs: u64, env: Env): Reply {
      var out := router.GoRemote(peer, nowMs, env.answers, env.hooks);
      var s := this.(router := out.state);
      if out.error.Some? then Reply(s, [], Some(Route(out.error.value)))
      else if out.effects == [] || !out.effects[0].Prepare? then Reply(s, [], None)
      else
        var hs := handshake.Begin(out.effects[0].request, display, revision);
        if hs.error.None? then
          Reply(s.(handshake := hs.state, display := Some((display, revision))), SendAll(hs.frames), None)
        else
          Reply(s.(router := s.router.GoLocal(Routing.NetworkFailed, env.hooks.again).state, display := None),
                [], Some(Protocol(hs.error.value)))
    }

    function Forget(): RuntimeState {
      this.(pendingRequest := None, pendingSession := None, inputSequence := 0, motionSequence := 0)
    }

    function FailLocal(hooks: nat): RuntimeState {
      this.(router := router.GoLocal(Routing.NetworkFailed, hooks).state, handshake := handshake.Abort()).Forget()
    }

    function EndAfterFailedAck(hooks: nat): Reply {
      var hs := handshake.End(LATE_ACK);
      var ended := handshake.state.Active? && hs.error.None?;
      Reply(this.(router := router.GoLocal(Routing.Emergency, hooks).state,
                  handshake := if ended then hs.state else handshake).Forget(),
            (if ended then SendAll(hs.frames) else []) + [CloseInput], None)
    }

    function HandleControl(frame: Frame, nowMs: u64, env: Env): Reply {
      var hs := handshake.Handle(frame, env.entropy);
      var handled := this.(handshake := hs.state);
      match frame
      case Ready(_, _, _, _, _) =>
        if hs.error.Some? then Reply(handled.FailLocal(env.hooks.again), [], Some(Protocol(hs.error.value)))
        else if !hs.state.state.Prepared? then
          Reply(handled.FailLocal(env.hooks.again), [], Some(Protocol(Handshakes.InvalidTransition)))
        else
          var request, session := hs.state.state.requestId, hs.state.state.sessionId;
          var out := router.Ready(request, SessionToken(session), env.hooks);
          var s := handled.(pendingRequest := Some(request), pendingSession := Some(session), router := out.state);
          if out.error.Some? then Reply(s.FailLocal(env.hooks.again), [], Some(Route(out.error.value)))
          else Reply(s, [], None)
      case CommitAck(session) =>
        if pendingRequest.None? || pendingSession.None? then Reply(this, [], Some(NotActive))
        else if pendingSession.value != session then
          Reply(FailLocal(env.hooks.again), [], Some(Protocol(Handshakes.WrongSession)))
        else if hs.error.Some? then Reply(handled.FailLocal(env.hooks.again), [], Some(Protocol(hs.error.value)))
        else
          var out := router.CommitAck(pendingRequest.value, SessionToken(session), nowMs, env.answers, env.hooks);
          var s := handled.(router := out.state);
          if out.error.Some? then s.EndAfterFailedAck(env.hooks.again)  // its actions are never empty
          else
            Reply(s.(pendingRequest := None, inputSequence := 0, motionSequence := 0), [OpenInput(session)], None)
      case Pong(_, _, _) =>
        if hs.error.Some? then Reply(handled.FailLocal(env.hooks.again), [], Some(Protocol(hs.error.value)))
        else Reply(handled, [], None)
      case Reject(_, _) =>
        Reply(handled.FailLocal(env.hooks.again), [], Some(Protocol(Handshakes.InvalidTransition)))
      case _ => Reply(FailLocal(env.hooks.again), [], Some(Protocol(Handshakes.InvalidTransition)))
    }

    /** One router effect, as a change of the handshake and frames to send. */
    function OneEffect(effect: Routing.RouteEffect): Reply {
      match effect
      case Prepare(_, _) => Reply(this, [], None)
      case Commit(request, token) =>
        if pendingRequest != Some(request) || pendingSession.None? || SessionToken(pendingSession.value) != token
        then Reply(this, [], Some(NotActive))
        else
          var hs := handshake.Commit(request, pendingSession.value);
          Reply(this.(handshake := hs.state), SendAll(hs.frames),
                if hs.error.Some? then Some(Protocol(hs.error.value)) else None)
      case Cancel(_) => Reply(this.(handshake := handshake.Abort()).Forget(), [CloseInput], None)
      case End(_, reason) =>
        if handshake.state.Active? then
          var hs := handshake.End(ReasonText(reason));
          if hs.error.Some? then Reply(this.(handshake := hs.state), [], Some(Protocol(hs.error.value)))
          else Reply(this.(handshake := hs.state).Forget(), SendAll(hs.frames) + [CloseInput], None)
        else Reply(this.(handshake := handshake.Abort()).Forget(), [CloseInput], None)
    }

    function RouteEffects(effects: seq<Routing.RouteEffect>, done: seq<Action>): Reply
      decreases |effects|
    {
      if effects == [] then Reply(this, done, None)
      else
        var one := OneEffect(effects[0]);
        if one.error.Some? then Reply(one.state, [], one.error)
        else one.state.RouteEffects(effects[1..], done + one.actions)
    }

    function Advance(nowMs: u64, keysReleased: bool, env: Env): Reply {
      var out := router.Advance(nowMs, keysReleased, env.answers, env.hooks);
      this.(router := out.state).RouteEffects(out.effects, [])
    }

    function GoLocal(reason: Routing.ReturnReason, hooks: nat): Reply {
      var out := router.GoLocal(reason, hooks);
      this.(router := out.state).RouteEffects(out.effects, [])
    }

    function NextInput(event: CriticalEvent): (RuntimeState, Result<CriticalFrame, RuntimeError>) {
      if !handshake.state.Active? then (this, Err(NotActive))
      else if !event.Key? && motionSequence == 0 then
        (this, Err(Protocol(Handshakes.InvalidField("motion_sequence"))))
      else if inputSequence == U64_MAX then (this, Err(Protocol(Handshakes.InvalidField("sequence"))))
      else
        var stamped := if event.Key? then event else event.(motionSequence := motionSequence);
        (this.(inputSequence := inputSequence + 1),
         Ok(CriticalFrame(handshake.state.sessionId, inputSequence + 1, stamped)))
    }

    function NextMotion(x: i32, y: i32): (RuntimeState, Result<MotionFrame, RuntimeError>) {
      if !handshake.state.Active? || display.None? then (this, Err(NotActive))
      else if motionSequence == U64_MAX then (this, Err(Protocol(Handshakes.InvalidField("motion_sequence"))))
      else
        (this.(motionSequence := motionSequence + 1),
         Ok(MotionFrame(handshake.state.sessionId, display.value.0, display.value.1,
                        motionSequence + 1, inputSequence, x, y)))
    }

    function Ping(): Reply {
      var hs := handshake.Ping();
      Reply(this.(handshake := hs.state), SendAll(hs.frames),
            if hs.error.Some? then Some(Protocol(hs.error.value)) else None)
    }
  }

  function InitialRuntime(localBoot: Id128, localPeerId: string): RuntimeState {
    RuntimeState(Routing.InitialRouter, Handshakes.ControllerSide(localBoot, localPeerId, Handshakes.Idle, 0, 0, 0),
                 None, None, 0, 0, None)
  }

  class ControllerRuntime {
    const router: Routing.Router
    const handshake: Handshakes.ControllerHandshake
    var pendingRequest: Option<u64>
    var pendingSession: Option<SessionId>
    var inputSequence: u64
    var motionSequence: u64
    var display: Option<(string, u64)>

    ghost function View(ports: Routing.Ports): RuntimeState
      reads this, router, router.gate, handshake, ports
    {
      RuntimeState(router.View(ports), handshake.View(), pendingRequest, pendingSession,
                   inputSequence, motionSequence, display)
    }

    constructor (localBoot: Id128, localPeerId: string, gate: LocalOverride)
      requires localBoot != 0 && ValidText(localPeerId, Handshakes.MAX_PEER_ID_BYTES)
      ensures router.gate == gate && fresh(router) && fresh(handshake)
      ensures router.route == Routing.LocalDesktop && !router.gameMode && router.lastReturn == None
      ensures handshake.View() == InitialRuntime(localBoot, localPeerId).handshake
      ensures pendingRequest == None && pendingSession == None && display == None
      ensures inputSequence == 0 && motionSequence == 0
    {
      router := new Routing.Router(gate);
      handshake := new Handshakes.ControllerHandshake(localBoot, localPeerId);
      pendingRequest, pendingSession, display := None, None, None;
      inputSequence, motionSequence := 0, 0;
    }

    static method New(localBoot: Id128, localPeerId: string, gate: LocalOverride)
      returns (runtime: Result<ControllerRuntime, RuntimeError>)
      ensures runtime.Ok? <==> localBoot != 0 && ValidText(localPeerId, Handshakes.MAX_PEER_ID_BYTES)
      ensures runtime.Ok? ==> fresh(runtime.value) && runtime.value.router.gate == gate
      ensures runtime.Ok? ==>
        runtime.value.handshake.View() == InitialRuntime(localBoot, localPeerId).handshake
        && runtime.value.router.route == Routing.LocalDesktop && runtime.value.pendingSession == None
      ensures runtime.Err? ==>
        runtime.error == Protocol(Handshakes.InvalidField(if localBoot == 0 then "boot_id" else "peer_id"))
    {
      var handshake := Handshakes.ControllerHandshake.New(localBoot, localPeerId);
      if handshake.Err? { return Err(Protocol(handshake.error)); }
      var made := new ControllerRuntime(localBoot, localPeerId, gate);
      runtime := Ok(made);
    }

    method CanBegin(ghost ports: Routing.Ports) returns (idle: bool)
      ensures idle == View(ports).CanBegin()
    {
      idle := router.route.LocalDesktop? || router.route.LocalGame?;
    }

    method IsActive(ghost ports: Routing.Ports) returns (active: bool)
      ensures active == View(ports).IsActive()
    {
      var session := handshake.ActiveSession();
      active := session.Some?;
    }

    method Begin(peer: string, shown: string, revision: u64, nowMs: u64, ports: Routing.Ports, env: Env)
      returns (actions: seq<Action>, error: Option<RuntimeError>)
      requires ports.Replies() == env.answers
      modifies this, router, router.gate, handshake, ports
      ensures Reply(View(ports), actions, error) == old(View(ports)).Begin(peer, shown, revision, nowMs, env)
      ensures ports.Replies() == old(ports.Replies())
    {
      actions := [];
      var effects, failure := router.GoRemote(peer, nowMs, ports, env.hooks);
      if failure.Some? { return [], Some(Route(failure.value)); }
      if effects == [] || !effects[0].Prepare? { return [], None; }
      var frames, refused := handshake.Begin(effects[0].request, shown, revision);
      if refused.Some? {
        display := None;
        var _ := router.GoLocal(Routing.NetworkFailed, ports, env.hooks.again);
        return [], Some(Protocol(refused.value));
      }
      display := Some((shown, revision));
      actions, error := SendAll(frames), None;
    }

    method HandleControl(frame: Frame, nowMs: u64, ports: Routing.Ports, env: Env)
      returns (actions: seq<Action>, error: Option<RuntimeError>)
      requires ports.Replies() == env.answers
      modifies this, router, router.gate, handshake, ports
      ensures Reply(View(ports), actions, error) == old(View(ports)).HandleControl(frame, nowMs, env)
      ensures ports.Replies() == old(ports.Replies())
    {
      hide Handshakes.ControllerSide.Handle, RuntimeState.FailLocal, RuntimeState.EndAfterFailedAck;
      actions, error := [], None;
      match frame {
        case Ready(_, _, _, _, _) =>
          var refused := handshake.Handle(frame, env.entropy);
          if refused.Some? {
            FailLocal(ports, env.hooks.again);
            return [], Some(Protocol(refused.value));
          }
          var prepared := handshake.PreparedSession();
          if prepared.None? {
            FailLocal(ports, env.hooks.again);
            return [], Some(Protocol(Handshakes.InvalidTransition));
          }
          var (request, session) := prepared.value;
          pendingRequest := Some(request);
          pendingSession := Some(session);
          var failure := router.Ready(request, SessionToken(session), ports, env.hooks);
          if failure.Some? {
            FailLocal(ports, env.hooks.again);
            return [], Some(Route(failure.value));
          }
        case CommitAck(session) =>
          if pendingRequest.None? || pendingSession.None? { return [], Some(NotActive); }
          var request := pendingRequest.value;
          if pendingSession.value != session {
            FailLocal(ports, env.hooks.again);
            return [], Some(Protocol(Handshakes.WrongSession));
          }
          var refused := handshake.Handle(frame, env.entropy);
          if refused.Some? {
            FailLocal(ports, env.hooks.again);
            return [], Some(Protocol(refused.value));
          }
          var failure := router.CommitAck(request, SessionToken(session), nowMs, ports, env.hooks);
          if failure.Some? {
            actions := EndAfterFailedAck(ports, env.hooks.again);
            return;
          }
          pendingRequest := None;
          inputSequence, motionSequence := 0, 0;
          actions := [OpenInput(session)];
        case Pong(_, _, _) =>
          var refused := handshake.Handle(frame, env.entropy);
          if refused.Some? {
            FailLocal(ports, env.hooks.again);
            error := Some(Protocol(refused.value));
          }
        case Reject(_, _) =>
          var _ := handshake.Handle(frame, env.entropy);
          FailLocal(ports, env.hooks.again);
          error := Some(Protocol(Handshakes.InvalidTransition));
        case _ =>
          FailLocal(ports, env.hooks.again);
          error := Some(Protocol(Handshakes.InvalidTransition));
      }
    }

    method Advance(nowMs: u64, keysReleased: bool, ports: Routing.Ports, env: Env)
      returns (actions: seq<Action>, error: Option<RuntimeError>)
      requires ports.Replies() == env.answers
      modifies this, router, router.gate, handshake, ports
      ensures Reply(View(ports), actions, error) == old(View(ports)).Advance(nowMs, keysReleased, env)
      ensures ports.Replies() == old(ports.Replies())
    {
      var effects := router.Advance(nowMs, keysReleased, ports, env.hooks);
      actions, error := RouteEffects(effects, ports);
    }

    method GoLocal(reason: Routing.ReturnReason, ports: Routing.Ports, hooks: nat)
      returns (actions: seq<Action>, error: Option<RuntimeError>)
      modifies this, router, router.gate, handshake, ports
      ensures Reply(View(ports), actions, error) == old(View(ports)).GoLocal(reason, hooks)
      ensures ports.Replies() == old(ports.Replies())
    {
      var effects := router.GoLocal(reason, ports, hooks);
      actions, error := RouteEffects(effects, ports);
    }

    method NextInput(event: CriticalEvent, ghost ports: Routing.Ports)
      returns (frame: Result<CriticalFrame, RuntimeError>)
      modifies this
      ensures (View(ports), frame) == old(View(ports)).NextInput(event)
    {
      var session := handshake.ActiveSession();
      if session.None? { return Err(NotActive); }
      var stamped := event;
      if event.Button? || event.Scroll? {
        if motionSequence == 0 { return Err(Protocol(Handshakes.InvalidField("motion_sequence"))); }
        stamped := event.(motionSequence := motionSequence);
      }
      if inputSequence == U64_MAX { return Err(Protocol(Handshakes.InvalidField("sequence"))); }
      inputSequence := inputSequence + 1;
      frame := Ok(CriticalFrame(session.value, inputSequence, stamped));
    }

    method NextMotion(x: i32, y: i32, ghost ports: Routing.Ports) returns (frame: Result<MotionFrame, RuntimeError>)
      modifies this
      ensures (View(ports), frame) == old(View(ports)).NextMotion(x, y)
    {
      var session := handshake.ActiveSession();
      if session.None? || display.None? { return Err(NotActive); }
      var (id, revision) := display.value;
      if motionSequence == U64_MAX { return Err(Protocol(Handshakes.InvalidField("motion_sequence"))); }
      motionSequence := motionSequence + 1;
      frame := Ok(MotionFrame(session.value, id, revision, motionSequence, inputSequence, x, y));
    }

    method Ping(ghost ports: Routing.Ports) returns (actions: seq<Action>, error: Option<RuntimeError>)
      modifies handshake
      ensures Reply(View(ports), actions, error) == old(View(ports)).Ping()
    {
      var ping := handshake.Ping();
      if ping.Err? { return [], Some(Protocol(ping.error)); }
      actions, error := [SendControl(ping.value)], None;
    }

    method RouteEffects(effects: seq<Routing.RouteEffect>, ghost ports: Routing.Ports)
      returns (actions: seq<Action>, error: Option<RuntimeError>)
      modifies this, handshake
      ensures Reply(View(ports), actions, error) == old(View(ports)).RouteEffects(effects, [])
    {
      actions, error := [], None;
      var i := 0;
      while i < |effects|
        invariant i <= |effects|
        invariant View(ports).RouteEffects(effects[i..], actions) == old(View(ports)).RouteEffects(effects, [])
        invariant error == None
      {
        assert effects[i..][1..] == effects[i + 1..];
        var more, failure := OneEffect(effects[i], ports);
        if failure.Some? { return [], failure; }
        actions := actions + more;
        i := i + 1;
      }
    }

    method OneEffect(effect: Routing.RouteEffect, ghost ports: Routing.Ports)
      returns (actions: seq<Action>, error: Option<RuntimeError>)
      modifies this, handshake
      ensures Reply(View(ports), actions, error) == old(View(ports)).OneEffect(effect)
    {
      actions, error := [], None;
      match effect {
        case Prepare(_, _) =>
        case Commit(request, token) =>
          if pendingRequest != Some(request) { return [], Some(NotActive); }
          if pendingSession.None? || SessionToken(pendingSession.value) != token { return [], Some(NotActive); }
          var commit := handshake.Commit(request, pendingSession.value);
          if commit.Err? { return [], Some(Protocol(commit.error)); }
          actions := [SendControl(commit.value)];
        case End(_, reason) =>
          var session := handshake.ActiveSession();
          if session.Some? {
            var end := handshake.End(ReasonText(reason));
            if end.Err? { return [], Some(Protocol(end.error)); }
            actions := [SendControl(end.value)];
          } else {
            handshake.Abort();
          }
          Forget(ports);
          actions := actions + [CloseInput];
        case Cancel(_) =>
          handshake.Abort();
          Forget(ports);
          actions := [CloseInput];
      }
    }

    method Forget(ghost ports: Routing.Ports)
      modifies this
      ensures View(ports) == old(View(ports)).Forget()
    {
      pendingRequest, pendingSession := None, None;
      inputSequence, motionSequence := 0, 0;
    }

    method FailLocal(ports: Routing.Ports, hooks: nat)
      modifies this, router, router.gate, handshake, ports
      ensures View(ports) == old(View(ports)).FailLocal(hooks)
      ensures ports.Replies() == old(ports.Replies())
    {
      var _ := router.GoLocal(Routing.NetworkFailed, ports, hooks);
      handshake.Abort();
      Forget(ports);
    }

    method EndAfterFailedAck(ports: Routing.Ports, hooks: nat) returns (actions: seq<Action>)
      modifies this, router, router.gate, handshake, ports
      ensures Reply(View(ports), actions, None) == old(View(ports)).EndAfterFailedAck(hooks)
      ensures ports.Replies() == old(ports.Replies())
    {
      actions := [];
      var session := handshake.ActiveSession();
      if session.Some? {
        var end := handshake.End(LATE_ACK);
        if end.Ok? { actions := actions + [SendControl(end.value)]; }
      }
      var _ := router.GoLocal(Routing.Emergency, ports, hooks);
      Forget(ports);
      actions := actions + [CloseInput];
    }
  }
}
