/** The whole handoff as it is deployed: a controller runtime with its gate and hooks, the
    connection it opened last, and the receiver's session runtime, which outlives every
    connection and serves others beside this one. */
module Handoffs {
  import opened Base
  import opened Gates
  import RouterRuns
  import Handshakes
  import opened Inputs
  import opened Links
  import opened Runtime
  import RuntimeRuns
  import opened Worlds
  import opened Lines
  import Receivers
  import ReceiverRuns

  type Peer = Receivers.Peer

  datatype Handoff = Handoff(runtime: RuntimeState, line: Line)

  datatype HandoffEvent =
    | Dials(route: string, display: string, revision: u64, nowMs: u64, env: Env, peer: Peer)
    | Local(event: RuntimeRuns.RuntimeEvent)
    | Deliver(nowMs: u64, env: Env)
    | Takes(serving: Serving)
    | Happens(other: ReceiverRuns.SessionEvent)
    | CutForward(keep: nat)
    | CutBackward(keep: nat)

  /** Every connection is new to the receiver; what else happens there is no control frame
      of this one. */
  function Step(h: Handoff, e: HandoffEvent): Handoff {
    match e
    case Dials(route, display, revision, now, env, peer) =>
      if !h.runtime.CanBegin() || h.line.session.binding == Some(peer) then h
      else
        var reply := h.runtime.Begin(route, display, revision, now, env);
        Handoff(reply.state, NewLine(h.line.session, peer).(channels := Post(NewChannels, reply.actions)))
    case Local(event) =>
      if event.Begin? || event.Control? then h
      else
        var reply := RuntimeRuns.Step(h.runtime, event);
        Handoff(reply.state, h.line.(channels := Post(h.line.channels, reply.actions)))
    case Deliver(now, env) =>
      if h.line.channels.toController == [] then h
      else
        var reply := h.runtime.HandleControl(h.line.channels.toController[0], now, env);
        var line := h.line.Received(h.runtime.handshake, env.entropy);
        Handoff(reply.state, line.(channels := Post(line.channels, reply.actions)))
    case Takes(serving) => h.(line := h.line.Takes(serving))
    case Happens(event) => if Elsewhere(event, h.line.peer) then h.(line := h.line.Happens(event)) else h
    case CutForward(keep) => h.(line := h.line.(channels := h.line.channels.CutForward(keep)))
    case CutBackward(keep) => h.(line := h.line.(channels := h.line.channels.CutBackward(keep)))
  }

  function Run(start: Handoff, events: seq<HandoffEvent>): Handoff {
    if events == [] then start else Step(Run(start, events[..|events| - 1]), events[|events| - 1])
  }

  /** Both ends freshly started, never connected. */
  ghost predicate Initial(h: Handoff) {
    && (exists boot: Id128, peer: string ::
          boot != 0 && ValidText(peer, Handshakes.MAX_PEER_ID_BYTES) && h.runtime == InitialRuntime(boot, peer))
    && ReceiverRuns.Initial(h.line.session)
    && h.line == NewLine(h.line.session, h.line.peer)
  }

  ghost predicate HandoffInv(h: Handoff) {
    && RuntimeRuns.Coupled(h.runtime)
    && LineInv(h.runtime.handshake, h.line)
    && (!h.runtime.router.route.Local() ==> AskedFor(h.runtime, h.line.channels.sent))
  }

  lemma PostInv(c: Handshakes.ControllerSide, l: Line, c': Handshakes.ControllerSide, actions: seq<Action>)
    requires LineInv(c, l) && ByOp(c, c', FramesOf(actions))
    ensures LineInv(c', l.(channels := Post(l.channels, actions)))
  {
    hide LineInv, Operate;
    var frames := FramesOf(actions);
    if c' == c && frames == [] {
      assert l.channels.sent + [] == l.channels.sent && l.channels.toReceiver + [] == l.channels.toReceiver;
      assert l.channels.Emit([]) == l.channels;
    } else {
      var op: ControllerOp :| !op.OpBegin? && IsOp(c, op, c', frames);
      OperateLineInv(c, l, op);
    }
    Lines.CutsInv(c', l.(channels := l.channels.Emit(frames)), 0);
  }

  lemma DialsInv(h: Handoff, e: HandoffEvent)
    requires HandoffInv(h) && e.Dials?
    ensures HandoffInv(Step(h, e))
  {
    hide RouterRuns.RouterOk, LineInv, ByOp, ValidText, Gate.Hooked, Gate.RequestLocal, Gate.Reserve;
    if h.runtime.CanBegin() && h.line.session.binding != Some(e.peer) {
      var s := h.runtime;
      RuntimeRuns.BeginCoupled(s, e.route, e.display, e.revision, e.nowMs, e.env);
      LineIdentity(s.handshake, h.line);
      var blank := NewLine(h.line.session, e.peer);
      NewLineInv(s.handshake, h.line.session, e.peer);
      var out := s.router.GoRemote(e.route, e.nowMs, e.env.answers, e.env.hooks);
      NothingIsByOp(s.handshake);
      PostInv(s.handshake, blank, s.handshake, []);
      if out.effects != [] {
        GoRemoteNewest(s.router, e.route, e.nowMs, e.env.answers, e.env.hooks);
        var op := OpBegin(out.effects[0].request, e.display, e.revision);
        OperateLineInv(s.handshake, blank, op);
        FramesOfFew(Operate(s.handshake, op).frames);
        assert blank.channels.sent + Operate(s.handshake, op).frames == Operate(s.handshake, op).frames;
      }
    }
  }

  lemma LineIdentity(c: Handshakes.ControllerSide, l: Line)
    requires LineInv(c, l)
    ensures c.localBoot != 0 && ValidText(c.localPeerId, Handshakes.MAX_PEER_ID_BYTES)
    ensures ReceiverRuns.SessionInv(l.session)
  {
  }

  lemma LocalInv(h: Handoff, event: RuntimeRuns.RuntimeEvent)
    requires HandoffInv(h)
    ensures HandoffInv(Step(h, HandoffEvent.Local(event)))
  {
    hide RouterRuns.RouterOk, RuntimeRuns.Agree, LineInv, ByOp, ValidText;
    if !event.Begin? && !event.Control? {
      var reply := RuntimeRuns.Step(h.runtime, event);
      RuntimeRuns.StepCoupled(h.runtime, event);
      LocalByOp(h.runtime, event);
      PostInv(h.runtime.handshake, h.line, reply.state.handshake, reply.actions);
      if !reply.state.router.route.Local() {
        SentGrows(h.runtime, h.line.channels.sent, reply.state, Step(h, HandoffEvent.Local(event)).line.channels.sent);
      }
    }
  }

  lemma DeliverInv(h: Handoff, nowMs: u64, env: Env)
    requires HandoffInv(h)
    ensures HandoffInv(Step(h, HandoffEvent.Deliver(nowMs, env)))
  {
    hide RouterRuns.RouterOk, RuntimeRuns.Agree, LineInv, ByOp, ValidText;
    if h.line.channels.toController != [] {
      var frame := h.line.channels.toController[0];
      var reply := h.runtime.HandleControl(frame, nowMs, env);
      RuntimeRuns.ControlCoupled(h.runtime, frame, nowMs, env);
      ControlByOp(h.runtime, frame, nowMs, env);
      ReceivedInv(h.runtime.handshake, h.line, env.entropy);
      var line := h.line.Received(h.runtime.handshake, env.entropy);
      PostInv(h.runtime.handshake.Handle(frame, env.entropy).state, line, reply.state.handshake, reply.actions);
      if !reply.state.router.route.Local() {
        SentGrows(h.runtime, h.line.channels.sent, reply.state,
                  Step(h, HandoffEvent.Deliver(nowMs, env)).line.channels.sent);
      }
    }
  }

  /** The receiving end and the wire leave the controller alone. */
  lemma FarInv(h: Handoff, e: HandoffEvent)
    requires HandoffInv(h) && !e.Dials? && !e.Local? && !e.Deliver?
    ensures HandoffInv(Step(h, e))
  {
    hide RouterRuns.RouterOk, RuntimeRuns.Agree, LineInv, Line.Takes, Line.Happens, ValidText;
    match e
    case Takes(serving) =>
      TakesInv(h.runtime.handshake, h.line, serving);
      TakesSendsNothing(h.line, serving);
    case Happens(event) => if Elsewhere(event, h.line.peer) { HappensInv(h.runtime.handshake, h.line, event); }
    case CutForward(keep) => Lines.CutsInv(h.runtime.handshake, h.line, keep);
    case CutBackward(keep) => Lines.CutsInv(h.runtime.handshake, h.line, keep);
  }

  lemma TakesSendsNothing(l: Line, serving: Serving)
    ensures l.Takes(serving).channels.sent == l.channels.sent
  {
    hide ReceiverRuns.Step, Receivers.SessionState.HandleControl;
  }

  lemma StepInv(h: Handoff, e: HandoffEvent)
    requires HandoffInv(h)
    ensures HandoffInv(Step(h, e))
  {
    hide HandoffInv, Step;
    match e
    case Dials(route, display, revision, now, env, peer) => DialsInv(h, e);
    case Local(event) => LocalInv(h, event);
    case Deliver(now, env) => DeliverInv(h, now, env);
    case _ => FarInv(h, e);
  }

  lemma {:induction false} AlwaysHandoffInv(start: Handoff, events: seq<HandoffEvent>)
    requires Initial(start)
    ensures HandoffInv(Run(start, events))
  {
    hide HandoffInv, Step, Initial;
    if events == [] {
      InitialInv(start);
    } else {
      AlwaysHandoffInv(start, events[..|events| - 1]);
      StepInv(Run(start, events[..|events| - 1]), events[|events| - 1]);
    }
  }

  lemma InitialInv(start: Handoff)
    requires Initial(start)
    ensures HandoffInv(start)
  {
    hide ReceiverRuns.SessionInv;
    ReceiverRuns.InitialInv(start.line.session);
    NewLineInv(start.runtime.handshake, start.line.session, start.line.peer);
  }

  // ----- main results

  /** The session that the controller's router and handshake name is open in the receiver's
      runtime, with its input gate asking for the next frame and the display of the newest
      request on show, unless the receiver has left that session; and the controller never
      believes more input to have been applied than has been. */
  ghost predicate EndToEnd(h: Handoff) {
    && h.runtime.router.route.RemoteActive? && h.runtime.handshake.state.Active? && h.runtime.display.Some?
    && var session := h.runtime.handshake.state.sessionId; var s := h.line.session;
    && SessionToken(session) == h.runtime.router.route.activeSession
    && session.controllerBoot == h.runtime.handshake.localBoot && session.receiverBoot == s.localBoot
    && (!h.line.left ==>
          && s.binding == Some(h.line.peer) && s.active == Some(session)
          && s.gate.active.Some? && s.gate.active.value.sessionId == session
          && s.gate.active.value.next == s.highestApplied + 1
          && s.shown.Some?
          && s.shown.value.id == h.runtime.display.value.0 && s.shown.value.revision == h.runtime.display.value.1
          && h.runtime.handshake.highestApplied <= s.highestApplied)
  }

  lemma RemoteIsActive(s: RuntimeState)
    requires RuntimeRuns.Coupled(s) && !s.router.gate.IsLocal()
    ensures s.router.route.RemoteActive? && s.handshake.state.Active? && s.display.Some?
    ensures SessionToken(s.handshake.state.sessionId) == s.router.route.activeSession
  {
  }

  lemma RemoteIsEndToEnd(h: Handoff)
    requires HandoffInv(h) && !h.runtime.router.gate.IsLocal()
    ensures EndToEnd(h)
  {
    hide RuntimeRuns.Coupled, LineInv, RouterRuns.LastReserved;
    RemoteIsActive(h.runtime);
    ActiveMeansOpen(h.runtime.handshake, h.line);
  }

  /** Whenever the gate sends input away from this machine, both ends agree on where. */
  lemma RemoteInputReachesAnOpenSession(start: Handoff, events: seq<HandoffEvent>)
    requires Initial(start) && !Run(start, events).runtime.router.gate.IsLocal()
    ensures EndToEnd(Run(start, events))
  {
    hide HandoffInv, Run, Initial, EndToEnd;
    AlwaysHandoffInv(start, events);
    RemoteIsEndToEnd(Run(start, events));
  }

  /** On every connection, whatever the receiver declines and whatever else it does, the
      controller refuses no reply but rejections before it has ended: offers, commits and
      echoes always come as it expects them, and the applied input they report never falls. */
  lemma OnlyRejectionsAreRefused(start: Handoff, events: seq<HandoffEvent>)
    requires Initial(start) && Run(start, events).line.session.localBoot != 0
    ensures !Run(start, events).line.refused
  {
    hide RuntimeRuns.Coupled;
    AlwaysHandoffInv(start, events);
  }

  lemma MotionFits(s: Receivers.SessionState, frame: MotionFrame, peer: Peer, nowMs: u64)
    requires ReceiverRuns.SessionInv(s) && s.binding == Some(peer) && peer.role == Handshakes.Controller
    requires s.active == Some(frame.sessionId) && frame.sequence != 0
    requires s.shown.Some? && s.shown.value.id == frame.displayId && s.shown.value.revision == frame.layoutRevision
    requires s.shown.value.Map(frame.x, frame.y).Ok?
    ensures var out := s.HandleMotion(frame, peer, nowMs).0; out.error.None? || out.error.value.Injector?
  {
    hide ReceiverRuns.Safe, Receivers.SessionState.ReleasePressed, Receivers.Display.Map;
  }

  /** While the gate is remote and the receiver has not left, the next motion frame that
      the controller issues is one the receiver takes, if its point is on the display. */
  lemma NextMotionIsTaken(start: Handoff, events: seq<HandoffEvent>, x: i32, y: i32, nowMs: u64)
    requires Initial(start)
    requires var h := Run(start, events); !h.runtime.router.gate.IsLocal() && !h.line.left
    requires Run(start, events).runtime.NextMotion(x, y).1.Ok?
    requires var s := Run(start, events).line.session; s.shown.Some? && s.shown.value.Map(x, y).Ok?
    ensures var h := Run(start, events);
      var out := h.line.session.HandleMotion(h.runtime.NextMotion(x, y).1.value, h.line.peer, nowMs).0;
      out.error.None? || out.error.value.Injector?
  {
    hide HandoffInv, Run, Initial, Receivers.SessionState.HandleMotion, Receivers.Display.Map;
    AlwaysHandoffInv(start, events);
    var h := Run(start, events);
    RemoteIsEndToEnd(h);
    ServesAController(h);
    MotionFits(h.line.session, h.runtime.NextMotion(x, y).1.value, h.line.peer, nowMs);
  }

  lemma ServesAController(h: Handoff)
    requires HandoffInv(h) && h.line.session.binding == Some(h.line.peer)
    ensures h.line.peer.role == Handshakes.Controller && ReceiverRuns.SessionInv(h.line.session)
  {
    hide RuntimeRuns.Coupled, ReceiverRuns.SessionInv;
  }
}
