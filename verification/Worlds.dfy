/** The whole handoff: a controller runtime with its gate and hooks, the connection it
    opened last, and the receiver at the other end, over runs that connect again and
    again. */
module Worlds {
  import opened Base
  import opened Gates
  import Routing
  import RouterRuns
  import Handshakes
  import opened Links
  import opened Runtime
  import RuntimeRuns

  datatype World = World(runtime: RuntimeState, link: Link)

  datatype WorldEvent =
    | Connect(peer: string, display: string, revision: u64, nowMs: u64, env: Env,
              trustedPeerId: string, receiverBoot: Id128)
    | Local(event: RuntimeRuns.RuntimeEvent)
    | Deliver(nowMs: u64, env: Env)
    | ReceiverTakes
    | ReceiverAborts(sessionId: SessionId)
    | CutForward(keep: nat)
    | CutBackward(keep: nat)

  /** The controller's actions reach its channel; closing input gives the channel up. */
  function Post(channels: Channels, actions: seq<Action>): Channels {
    var emitted := channels.Emit(FramesOf(actions));
    if CloseInput in actions then emitted.CloseForward() else emitted
  }

  function Step(w: World, e: WorldEvent): World {
    match e
    case Connect(peer, display, revision, now, env, trusted, boot) =>
      if !w.runtime.CanBegin() then w
      else
        var reply := w.runtime.Begin(peer, display, revision, now, env);
        World(reply.state, NewLink(trusted, boot).(channels := Post(NewChannels, reply.actions)))
    case Local(event) =>
      if event.Begin? || event.Control? then w
      else
        var reply := RuntimeRuns.Step(w.runtime, event);
        World(reply.state, w.link.(channels := Post(w.link.channels, reply.actions)))
    case Deliver(now, env) =>
      if w.link.channels.toController == [] then w
      else
        var reply := w.runtime.HandleControl(w.link.channels.toController[0], now, env);
        var link := Receive(w.runtime.handshake, w.link, env.entropy).1;
        World(reply.state, link.(channels := Post(link.channels, reply.actions)))
    case ReceiverTakes => w.(link := w.link.ReceiverTakes())
    case ReceiverAborts(session) => w.(link := w.link.ReceiverAborts(session))
    case CutForward(keep) => w.(link := w.link.(channels := w.link.channels.CutForward(keep)))
    case CutBackward(keep) => w.(link := w.link.(channels := w.link.channels.CutBackward(keep)))
  }

  function Run(start: World, events: seq<WorldEvent>): World {
    if events == [] then start else Step(Run(start, events[..|events| - 1]), events[|events| - 1])
  }

  /** A freshly started controller that has never connected. */
  ghost predicate Initial(w: World) {
    exists boot: Id128, peer: string, trusted: string, receiverBoot: Id128 ::
      boot != 0 && ValidText(peer, Handshakes.MAX_PEER_ID_BYTES)
      && w == World(InitialRuntime(boot, peer), NewLink(trusted, receiverBoot))
  }

  ghost predicate WorldInv(w: World) {
    && RuntimeRuns.Coupled(w.runtime)
    && LinkInv(w.runtime.handshake, w.link)
    && (!w.runtime.router.route.Local() ==> AskedFor(w.runtime, w.link.channels.sent))
  }

  /** The preparation on the wire is the newest request, for the display in use. */
  ghost predicate AskedFor(s: RuntimeState, sent: seq<Frame>) {
    && s.display.Some? && |sent| >= 2
    && sent[1] == Handshakes.Prepare(RouterRuns.LastReserved(s.router.gate.log),
                                     s.display.value.0, s.display.value.1)
  }

  /** Nothing changed, or one operation of the handshake did it all. */
  ghost predicate ByOp(c: Handshakes.ControllerSide, c': Handshakes.ControllerSide, frames: seq<Frame>) {
    (c' == c && frames == []) || exists op: ControllerOp :: !op.OpBegin? && IsOp(c, op, c', frames)
  }

  predicate IsOp(c: Handshakes.ControllerSide, op: ControllerOp, c': Handshakes.ControllerSide, frames: seq<Frame>) {
    Operate(c, op).state == c' && Operate(c, op).frames == frames
  }

  lemma ByOpInv(c: Handshakes.ControllerSide, l: Link, c': Handshakes.ControllerSide, actions: seq<Action>)
    requires LinkInv(c, l) && ByOp(c, c', FramesOf(actions))
    ensures LinkInv(c', l.(channels := Post(l.channels, actions)))
  {
    hide LinkInv, Operate;
    var frames := FramesOf(actions);
    if c' == c && frames == [] {
      assert l.channels.sent + [] == l.channels.sent && l.channels.toReceiver + [] == l.channels.toReceiver;
      assert l.channels.Emit([]) == l.channels;
    } else {
      var op: ControllerOp :| !op.OpBegin? && IsOp(c, op, c', frames);
      OperateInv(c, l, op);
    }
    CutsInv(c', l.(channels := l.channels.Emit(frames)), 0);
  }

  lemma FramesOfFew(frames: seq<Frame>)
    requires |frames| <= 2
    ensures FramesOf(SendAll(frames)) == frames && FramesOf(SendAll(frames) + [CloseInput]) == frames
    ensures CloseInput !in SendAll(frames)
  {
    if frames != [] {
      var rest := frames[1..];
      assert SendAll(frames)[1..] == SendAll(rest);
      assert (SendAll(frames) + [CloseInput])[1..] == SendAll(rest) + [CloseInput];
      assert frames == [frames[0]] + rest;
      FramesOfFew(rest);
    } else {
      assert SendAll(frames) + [CloseInput] == [CloseInput];
    }
  }

  lemma OneEffectByOp(s: RuntimeState, effect: Routing.RouteEffect)
    requires s.OneEffect(effect).error.None?
    ensures ByOp(s.handshake, s.OneEffect(effect).state.handshake, FramesOf(s.OneEffect(effect).actions))
    ensures s.OneEffect(effect).state.display == s.display
  {
    var c, c' := s.handshake, s.OneEffect(effect).state.handshake;
    var op := match effect
      case Commit(request, _) => OpCommit(request, s.pendingSession.value)
      case End(_, reason) => if c.state.Active? then OpEnd(ReasonText(reason)) else OpAbort
      case _ => OpAbort;
    FramesOfFew(Operate(c, op).frames);
    FramesOfFew([]);
    assert effect.Prepare? || IsOp(c, op, c', FramesOf(s.OneEffect(effect).actions));
  }

  lemma EffectsByOp(s: RuntimeState, effects: seq<Routing.RouteEffect>)
    requires |effects| <= 1 && s.RouteEffects(effects, []).error.None?
    ensures var reply := s.RouteEffects(effects, []);
      ByOp(s.handshake, reply.state.handshake, FramesOf(reply.actions))
      && reply.state.display == s.display && reply.state.router == s.router
  {
    hide ByOp;
    RuntimeRuns.OneEffectAlone(s, if effects == [] then Routing.Cancel(0) else effects[0]);
    if effects == [] {
      assert ByOp(s.handshake, s.handshake, []) by { NothingIsByOp(s.handshake); }
    } else {
      assert effects == [effects[0]];
      OneEffectByOp(s, effects[0]);
    }
  }

  lemma NothingIsByOp(c: Handshakes.ControllerSide)
    ensures ByOp(c, c, [])
  {
  }

  lemma LocalByOp(s: RuntimeState, event: RuntimeRuns.RuntimeEvent)
    requires RuntimeRuns.Coupled(s) && !event.Begin? && !event.Control?
    ensures var reply := RuntimeRuns.Step(s, event);
      && ByOp(s.handshake, reply.state.handshake, FramesOf(reply.actions))
      && reply.state.display == s.display
      && (!reply.state.router.route.Local() ==> !s.router.route.Local())
      && RouterRuns.LastReserved(reply.state.router.gate.log) == RouterRuns.LastReserved(s.router.gate.log)
  {
    hide ByOp, RouterRuns.RouterOk, RuntimeRuns.Agree, Gate.Hooked, Gate.RequestLocal, Routing.RouterState.Advance,
         RuntimeState.RouteEffects;
    NothingIsByOp(s.handshake);
    match event
    case HookFires => RouterRuns.StepOk(s.router, RouterRuns.HookFires);
    case Advance(now, released, env) =>
      RouterRuns.StepOk(s.router, RouterRuns.Advance(now, released, env.answers, env.hooks));
      RuntimeRuns.AdvanceCoupled(s, now, released, env);
      AdvanceHasOneEffect(s.router, now, released, env.answers, env.hooks);
      var out := s.router.Advance(now, released, env.answers, env.hooks);
      EffectsByOp(s.(router := out.state), out.effects);
    case GoLocal(reason, count) =>
      RouterRuns.StepOk(s.router, RouterRuns.GoLocal(reason, count));
      RuntimeRuns.GoLocalCoupled(s, reason, count);
      var out := s.router.GoLocal(reason, count);
      EffectsByOp(s.(router := out.state), out.effects);
    case Ping =>
      FramesOfFew(s.handshake.Ping().frames);
      PingIsByOp(s.handshake);
    case _ =>
  }

  lemma AdvanceHasOneEffect(s: Routing.RouterState, nowMs: u64, released: bool,
                            answers: Routing.Answers, hooks: Routing.Hooks)
    ensures var out := s.Advance(nowMs, released, answers, hooks);
      |out.effects| <= 1 && (!out.state.route.Local() ==> !s.route.Local() || s.route.ReturningLocal?)
  {
  }

  lemma PingIsByOp(c: Handshakes.ControllerSide)
    ensures ByOp(c, c.Ping().state, c.Ping().frames)
  {
    assert IsOp(c, OpPing, c.Ping().state, c.Ping().frames);
  }

  lemma EndIsByOp(c: Handshakes.ControllerSide, reason: string)
    ensures ByOp(c, c.End(reason).state, c.End(reason).frames) && ByOp(c, c.Abort(), [])
  {
    assert IsOp(c, OpEnd(reason), c.End(reason).state, c.End(reason).frames);
    assert IsOp(c, OpAbort, c.Abort(), []);
  }

  /** No acknowledgement leaves home. */
  lemma AckFromAway(s: Routing.RouterState, request: u64, session: Id128, nowMs: u64,
                    answers: Routing.Answers, hooks: Routing.Hooks)
    ensures !s.CommitAck(request, session, nowMs, answers, hooks).state.route.Local() ==> !s.route.Local()
  {
    hide Gate.Hooked, Gate.RequestLocal, Gate.Activate;
  }

  lemma FailedAckIsHome(s: RuntimeState, hooks: nat)
    ensures s.EndAfterFailedAck(hooks).state.router.route.Local()
        && s.EndAfterFailedAck(hooks).state.display == s.display
    ensures s.FailLocal(hooks).router.route.Local() && s.FailLocal(hooks).display == s.display
  {
    hide Gate.Hooked, Gate.RequestLocal, ValidText;
  }

  lemma FailedAckByOp(s: RuntimeState, hooks: nat)
    ensures var reply := s.EndAfterFailedAck(hooks);
      ByOp(s.handshake, reply.state.handshake, FramesOf(reply.actions))
  {
    hide ByOp, Gate.Hooked, Gate.RequestLocal, ValidText, Handshakes.CheckFrame;
    NothingIsByOp(s.handshake);
    EndIsByOp(s.handshake, LATE_ACK);
    FramesOfFew(s.handshake.End(LATE_ACK).frames);
    FramesOfFew([]);
  }

  lemma AckByOp(s: RuntimeState, frame: Frame, nowMs: u64, env: Env)
    requires RuntimeRuns.Coupled(s) && frame.CommitAck?
    ensures var reply := s.HandleControl(frame, nowMs, env);
      && ByOp(s.handshake.Handle(frame, env.entropy).state, reply.state.handshake, FramesOf(reply.actions))
      && reply.state.display == s.display
      && (!reply.state.router.route.Local() ==> !s.router.route.Local())
  {
    hide ByOp, RouterRuns.RouterOk, ValidText, Handshakes.CheckFrame, Routing.RouterState.CommitAck,
         RuntimeState.EndAfterFailedAck, Gate.Hooked, Gate.RequestLocal, Routing.RouterState.GoLocal;
    var hs := s.handshake.Handle(frame, env.entropy);
    NothingIsByOp(hs.state);
    EndIsByOp(hs.state, LATE_ACK);
    FramesOfFew([]);
    FailedAckIsHome(s, env.hooks.again);
    FailedAckIsHome(s.(handshake := hs.state), env.hooks.again);
    if s.pendingRequest.Some? && s.pendingSession.Some? {
      var token := SessionToken(frame.sessionId);
      AckFromAway(s.router, s.pendingRequest.value, token, nowMs, env.answers, env.hooks);
      var out := s.router.CommitAck(s.pendingRequest.value, token, nowMs, env.answers, env.hooks);
      var t := s.(handshake := hs.state, router := out.state);
      FailedAckIsHome(t, env.hooks.again);
      FailedAckByOp(t, env.hooks.again);
    }
  }

  /** Handling any frame is what the handshake does with it, followed by at most one more
      operation. */
  lemma ControlByOp(s: RuntimeState, frame: Frame, nowMs: u64, env: Env)
    requires RuntimeRuns.Coupled(s)
    ensures var reply := s.HandleControl(frame, nowMs, env);
      && ByOp(s.handshake.Handle(frame, env.entropy).state, reply.state.handshake, FramesOf(reply.actions))
      && reply.state.display == s.display
      && (!reply.state.router.route.Local() ==> !s.router.route.Local())
      && RouterRuns.LastReserved(reply.state.router.gate.log) == RouterRuns.LastReserved(s.router.gate.log)
  {
    hide ByOp, RouterRuns.RouterOk, Gate.Hooked, Gate.RequestLocal, Routing.RouterState.CommitAck, ValidText,
         Handshakes.CheckFrame;
    RuntimeRuns.ControlCoupled(s, frame, nowMs, env);
    if frame.CommitAck? {
      AckByOp(s, frame, nowMs, env);
    } else {
      var hs := s.handshake.Handle(frame, env.entropy);
      NothingIsByOp(hs.state);
      EndIsByOp(hs.state, LATE_ACK);
    }
  }

  lemma SentGrows(s: RuntimeState, sent: seq<Frame>, s': RuntimeState, sent': seq<Frame>)
    requires AskedFor(s, sent) && sent <= sent' && s'.display == s.display
    requires RouterRuns.LastReserved(s'.router.gate.log) == RouterRuns.LastReserved(s.router.gate.log)
    ensures AskedFor(s', sent')
  {
  }

  lemma ConnectInv(w: World, e: WorldEvent)
    requires WorldInv(w) && e.Connect?
    ensures WorldInv(Step(w, e))
  {
    hide RouterRuns.RouterOk, LinkInv, ByOp, ValidText, Gate.Hooked, Gate.RequestLocal, Gate.Reserve;
    if w.runtime.CanBegin() {
      var s := w.runtime;
      RuntimeRuns.BeginCoupled(s, e.peer, e.display, e.revision, e.nowMs, e.env);
      LinkIdentity(s.handshake, w.link);
      var blank := NewLink(e.trustedPeerId, e.receiverBoot);
      NewLinkInv(s.handshake, e.trustedPeerId, e.receiverBoot);
      var out := s.router.GoRemote(e.peer, e.nowMs, e.env.answers, e.env.hooks);
      NothingIsByOp(s.handshake);
      ByOpInv(s.handshake, blank, s.handshake, []);
      if out.effects != [] {
        GoRemoteNewest(s.router, e.peer, e.nowMs, e.env.answers, e.env.hooks);
        var op := OpBegin(out.effects[0].request, e.display, e.revision);
        OperateInv(s.handshake, blank, op);
        FramesOfFew(Operate(s.handshake, op).frames);
        assert blank.channels.sent + Operate(s.handshake, op).frames == Operate(s.handshake, op).frames;
      }
    }
  }

  lemma LinkIdentity(c: Handshakes.ControllerSide, l: Link)
    requires LinkInv(c, l)
    ensures c.localBoot != 0 && ValidText(c.localPeerId, Handshakes.MAX_PEER_ID_BYTES)
  {
  }

  lemma GoRemoteNewest(s: Routing.RouterState, peer: string, nowMs: u64, answers: Routing.Answers, hooks: Routing.Hooks)
    requires RouterRuns.RouterOk(s) && s.GoRemote(peer, nowMs, answers, hooks).effects != []
    ensures var out := s.GoRemote(peer, nowMs, answers, hooks);
      && out.effects == [Routing.Prepare(peer, out.state.route.request)] && out.state.route.PreparingRemote?
      && out.state.route.request == RouterRuns.LastReserved(out.state.gate.log)
      && out.error.None?
  {
    hide Gate.Hooked, ValidText;
    RouterRuns.StepOk(s, RouterRuns.GoRemote(peer, nowMs, answers, hooks));
  }

  lemma LocalInv(w: World, event: RuntimeRuns.RuntimeEvent)
    requires WorldInv(w)
    ensures WorldInv(Step(w, Local(event)))
  {
    hide RouterRuns.RouterOk, RuntimeRuns.Agree, LinkInv, ByOp, ValidText;
    if !event.Begin? && !event.Control? {
      var reply := RuntimeRuns.Step(w.runtime, event);
      RuntimeRuns.StepCoupled(w.runtime, event);
      LocalByOp(w.runtime, event);
      ByOpInv(w.runtime.handshake, w.link, reply.state.handshake, reply.actions);
      if !reply.state.router.route.Local() {
        SentGrows(w.runtime, w.link.channels.sent, reply.state, Step(w, Local(event)).link.channels.sent);
      }
    }
  }

  lemma DeliverInv(w: World, nowMs: u64, env: Env)
    requires WorldInv(w)
    ensures WorldInv(Step(w, Deliver(nowMs, env)))
  {
    hide RouterRuns.RouterOk, RuntimeRuns.Agree, LinkInv, ByOp, ValidText;
    if w.link.channels.toController != [] {
      var reply := w.runtime.HandleControl(w.link.channels.toController[0], nowMs, env);
      RuntimeRuns.ControlCoupled(w.runtime, w.link.channels.toController[0], nowMs, env);
      ControlByOp(w.runtime, w.link.channels.toController[0], nowMs, env);
      ReceiveInv(w.runtime.handshake, w.link, env.entropy);
      var (c, l) := Receive(w.runtime.handshake, w.link, env.entropy);
      ByOpInv(c, l, reply.state.handshake, reply.actions);
      if !reply.state.router.route.Local() {
        SentGrows(w.runtime, w.link.channels.sent, reply.state, Step(w, Deliver(nowMs, env)).link.channels.sent);
      }
    }
  }

  /** Cuts leave the controller alone. */
  lemma CutInv(w: World, e: WorldEvent)
    requires WorldInv(w) && (e.CutForward? || e.CutBackward?)
    ensures WorldInv(Step(w, e))
  {
    hide RouterRuns.RouterOk, RuntimeRuns.Agree, LinkInv, ValidText;
    CutsInv(w.runtime.handshake, w.link, e.keep);
  }

  /** So do the receiver's turns. */
  lemma TurnInv(w: World)
    requires WorldInv(w)
    ensures WorldInv(Step(w, ReceiverTakes))
  {
    hide RouterRuns.RouterOk, RuntimeRuns.Agree, LinkInv, ValidText;
    ReceiverTakesInv(w.runtime.handshake, w.link);
  }

  lemma AbortInv(w: World, session: SessionId)
    requires WorldInv(w)
    ensures WorldInv(Step(w, ReceiverAborts(session)))
  {
    hide RouterRuns.RouterOk, RuntimeRuns.Agree, LinkInv, ValidText;
    ReceiverAbortsInv(w.runtime.handshake, w.link, session);
  }

  lemma {:induction false} AlwaysWorldInv(start: World, events: seq<WorldEvent>)
    requires Initial(start)
    ensures WorldInv(Run(start, events))
  {
    hide WorldInv, Step, Initial;
    if events == [] {
      InitialInv(start);
    } else {
      AlwaysWorldInv(start, events[..|events| - 1]);
      var w := Run(start, events[..|events| - 1]);
      match events[|events| - 1]
      case Connect(peer, display, revision, now, env, trusted, boot) => ConnectInv(w, events[|events| - 1]);
      case Local(event) => LocalInv(w, event);
      case Deliver(now, env) => DeliverInv(w, now, env);
      case ReceiverTakes => TurnInv(w);
      case ReceiverAborts(session) => AbortInv(w, session);
      case _ => CutInv(w, events[|events| - 1]);
    }
  }

  lemma InitialInv(start: World)
    requires Initial(start)
    ensures WorldInv(start)
  {
    NewLinkInv(start.runtime.handshake, start.link.receiver.trustedPeerId, start.link.receiver.localBoot);
  }

  // ----- main results

  /** End to end: whenever the gate sends input away from this machine, the peer is in
      the very session the router is in, unless it aborted on its own; the session names
      both boots, and the peer offered the newest request on the display in use. */
  lemma RemoteInputHasAnAgreedSession(start: World, events: seq<WorldEvent>)
    requires Initial(start) && !Run(start, events).runtime.router.gate.IsLocal()
    ensures var w := Run(start, events);
      && w.runtime.router.route.RemoteActive? && w.runtime.handshake.state.Active?
      && var session := w.runtime.handshake.state.sessionId;
      && SessionToken(session) == w.runtime.router.route.activeSession
      && (w.link.receiver.state == Handshakes.InSession(session)
          || (w.link.aborted && w.link.receiver.state == Handshakes.Over(session)))
      && session.controllerBoot == w.runtime.handshake.localBoot
      && session.receiverBoot == w.link.receiver.localBoot
      && w.runtime.display.Some?
      && w.link.channels.replies != []
      && w.link.channels.replies[0]
      == Handshakes.Ready(w.runtime.router.gate.word + 1, w.link.receiver.localBoot, true,
                          w.runtime.display.value.0, w.runtime.display.value.1)
  {
    AlwaysWorldInv(start, events);
    var w := Run(start, events);
    hide LinkInv;
    ActiveMeansAgreed(w.runtime.handshake, w.link);
  }

  /** On every connection to a peer that trusts this controller, and as long as the peer
      does not abort, no frame is refused by either side before the controller ends. */
  lemma NoFrameIsRefused(start: World, events: seq<WorldEvent>)
    requires Initial(start)
    requires var l := Run(start, events).link;
      l.receiver.trustedPeerId == Run(start, events).runtime.handshake.localPeerId && l.receiver.localBoot != 0
    ensures var l := Run(start, events).link; !l.rejected && (!l.aborted ==> !l.refused)
  {
    AlwaysWorldInv(start, events);
    var w := Run(start, events);
    NothingIsRefused(w.runtime.handshake, w.link);
  }
}
