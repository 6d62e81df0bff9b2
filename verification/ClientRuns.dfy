/** Exactly when the client fails closed.  Over every run, with any transport outcomes,
    inbound frames, platform answers, random values and hook threads: a failure leaves the
    gate local, the handshake inactive and the transport gone, but for causes that can be
    told beforehand; and nothing is sent again before a new handoff has gone all the way
    through. */
module ClientRuns {
  import opened Base
  import opened Gates
  import Routing
  import RouterRuns
  import Handshakes
  import opened Inputs
  import opened Runtime
  import RuntimeRuns
  import opened Clients

  datatype ClientEvent =
    | HookFires
    | SetGameMode(enabled: bool)
    | Arrives(frame: Frame)
    | Begin(target: Target, nowMs: u64, answers: Routing.Answers)
    | Poll(nowMs: u64, keysReleased: bool, answers: Routing.Answers, late: seq<seq<Frame>>)
    | SendInput(event: CriticalEvent)
    | SendMotion(x: i32, y: i32)
    | GoLocal(reason: Routing.ReturnReason)

  function Step(s: ClientState, e: ClientEvent): ClientReply {
    match e
    case HookFires => ClientReply(s.(runtime := RuntimeRuns.Step(s.runtime, RuntimeRuns.HookFires).state), None)
    case SetGameMode(enabled) =>
      ClientReply(s.(runtime := RuntimeRuns.Step(s.runtime, RuntimeRuns.SetGameMode(enabled)).state), None)
    case Arrives(frame) => ClientReply(s.Offer(frame), None)
    case Begin(target, now, answers) => s.Begin(target, now, answers)
    case Poll(now, released, answers, late) => s.Poll(now, released, answers, late)
    case SendInput(event) => s.SendInput(event)
    case SendMotion(x, y) => s.SendMotion(x, y)
    case GoLocal(reason) => s.GoLocal(reason)
  }

  function Run(start: ClientState, events: seq<ClientEvent>): ClientState {
    if events == [] then start else Step(Run(start, events[..|events| - 1]), events[|events| - 1]).state
  }

  ghost predicate Initial(s: ClientState) {
    && RuntimeRuns.Initial(s.runtime) && s.wire == Unconnected
    && s.inbound == [] && !s.overflowed && s.nextPing == None && s.drawn == 0
  }

  // ----- the runtime below

  /** An open session is the activation of the newest reservation. */
  ghost predicate ActivatedNewest(s: RuntimeState) {
    s.IsActive() ==> Activated(RouterRuns.LastReserved(s.router.gate.log)) in s.router.gate.log
  }

  ghost predicate RuntimeOk(s: RuntimeState) { RuntimeRuns.Coupled(s) && ActivatedNewest(s) }

  ghost predicate RuntimeOnward(s: RuntimeState, s': RuntimeState) {
    RuntimeOk(s') && RouterRuns.Forward(s.router.gate, s'.router.gate) && RuntimeRuns.SameNewest(s, s')
  }

  /** The actions of a step match what became of the session. */
  ghost predicate ActionsFit(s: RuntimeState, reply: Reply) {
    if !s.IsActive() && reply.state.IsActive() then
      && reply.actions == [OpenInput(reply.state.handshake.state.sessionId)]
      && reply.state.inputSequence == 0 && reply.state.motionSequence == 0
    else
      && (forall i :: 0 <= i < |reply.actions| ==> !reply.actions[i].OpenInput?)
      && (CloseInput in reply.actions || !s.router.route.Local() ==>
            (CloseInput in reply.actions <==> reply.state.router.route.Local()))
      && (s.IsActive() && !reply.state.IsActive() ==> reply.state.router.route.Local())
      && (reply.state.IsActive() ==>
            && reply.state.handshake.state == s.handshake.state
            && reply.state.inputSequence == s.inputSequence && reply.state.motionSequence == s.motionSequence)
  }

  lemma OnwardWhenQuiet(s: RuntimeState, s': RuntimeState)
    requires RuntimeOk(s) && RuntimeRuns.Coupled(s')
    requires RouterRuns.Forward(s.router.gate, s'.router.gate) && RuntimeRuns.SameNewest(s, s')
    requires s'.IsActive() ==> s.IsActive()
    ensures RuntimeOnward(s, s')
  {
  }

  lemma FailLocalForward(from: Gate, s: RuntimeState, hooks: nat)
    requires RouterRuns.RouterOk(s.router) && RouterRuns.Forward(from, s.router.gate)
    ensures RouterRuns.Forward(from, s.FailLocal(hooks).router.gate)
  {
    RouterRuns.GoLocalOk(from, s.router, Routing.NetworkFailed, hooks);
  }

  lemma ReadyForward(s: RuntimeState, frame: Frame, nowMs: u64, env: Env)
    requires RuntimeRuns.Coupled(s) && frame.Ready?
    ensures RouterRuns.Forward(s.router.gate, s.HandleControl(frame, nowMs, env).state.router.gate)
  {
    hide RouterRuns.RouterOk, RouterRuns.Forward, ValidText, Gate.Hooked, Gate.RequestLocal, RuntimeRuns.Agree, RuntimeState.FailLocal;
    RouterRuns.ForwardReflexive(s.router.gate);
    var hs := s.handshake.Handle(frame, env.entropy);
    var handled := s.(handshake := hs.state);
    FailLocalForward(s.router.gate, handled, env.hooks.again);
    if hs.error.None? && hs.state.state.Prepared? {
      var request, session := hs.state.state.requestId, hs.state.state.sessionId;
      RouterRuns.StepOk(s.router, RouterRuns.Ready(request, SessionToken(session), env.hooks));
      var out := s.router.Ready(request, SessionToken(session), env.hooks);
      FailLocalForward(s.router.gate,
        handled.(pendingRequest := Some(request), pendingSession := Some(session), router := out.state),
        env.hooks.again);
    }
  }

  lemma AckForward(s: RuntimeState, frame: Frame, nowMs: u64, env: Env)
    requires RuntimeRuns.Coupled(s) && frame.CommitAck?
    ensures RouterRuns.Forward(s.router.gate, s.HandleControl(frame, nowMs, env).state.router.gate)
  {
    hide RouterRuns.RouterOk, RouterRuns.Forward, ValidText, Gate.Hooked, Gate.RequestLocal, Gate.Activate,
         RuntimeRuns.Agree, RuntimeState.FailLocal;
    RouterRuns.ForwardReflexive(s.router.gate);
    FailLocalForward(s.router.gate, s, env.hooks.again);
    var hs := s.handshake.Handle(frame, env.entropy);
    FailLocalForward(s.router.gate, s.(handshake := hs.state), env.hooks.again);
    if s.pendingRequest.Some? {
      var e := RouterRuns.CommitAck(s.pendingRequest.value, SessionToken(frame.sessionId), nowMs, env.answers, env.hooks);
      RouterRuns.StepOk(s.router, e);
      GoLocalForward(s.router.gate, RouterRuns.Step(s.router, e).state, Routing.Emergency, env.hooks.again);
    }
  }

  lemma GoLocalForward(from: Gate, s: Routing.RouterState, reason: Routing.ReturnReason, hooks: nat)
    requires RouterRuns.RouterOk(s) && RouterRuns.Forward(from, s.gate)
    ensures var s' := s.GoLocal(reason, hooks).state;
      s'.route.Local() && RouterRuns.Forward(from, s'.gate)
  {
    RouterRuns.GoLocalOk(from, s, reason, hooks);
  }

  lemma ControlForward(s: RuntimeState, frame: Frame, nowMs: u64, env: Env)
    requires RuntimeRuns.Coupled(s)
    ensures RouterRuns.Forward(s.router.gate, s.HandleControl(frame, nowMs, env).state.router.gate)
  {
    hide RouterRuns.RouterOk, RouterRuns.Forward, ValidText, RuntimeRuns.Agree, RuntimeState.FailLocal;
    if frame.Ready? {
      ReadyForward(s, frame, nowMs, env);
    } else if frame.CommitAck? {
      AckForward(s, frame, nowMs, env);
    } else {
      RouterRuns.ForwardReflexive(s.router.gate);
      FailLocalForward(s.router.gate, s, env.hooks.again);
      FailLocalForward(s.router.gate, s.(handshake := s.handshake.Handle(frame, env.entropy).state), env.hooks.again);
    }
  }

  /** A successful acknowledgement ends in the activation of the request. */
  lemma AckActivates(s: Routing.RouterState, request: u64, session: Id128, nowMs: u64,
                     answers: Routing.Answers, hooks: Routing.Hooks)
    requires RouterRuns.RouterOk(s) && s.CommitAck(request, session, nowMs, answers, hooks).error.None?
    ensures var gate := s.CommitAck(request, session, nowMs, answers, hooks).state.gate;
      Activated(RouterRuns.LastReserved(gate.log)) in gate.log
  {
    hide RouterRuns.LastReserved, Gate.Hooked, Gate.Consistent, RouterRuns.OddActivations;
    RouterRuns.StepOk(s, RouterRuns.CommitAck(request, session, nowMs, answers, hooks));
    var gate := s.CommitAck(request, session, nowMs, answers, hooks).state.gate;
    assert gate.log[|gate.log| - 1] == Activated(request);
  }

  lemma ControlFits(s: RuntimeState, frame: Frame, nowMs: u64, env: Env)
    requires RuntimeOk(s)
    ensures var reply := s.HandleControl(frame, nowMs, env);
      RuntimeOnward(s, reply.state) && (reply.error.None? ==> ActionsFit(s, reply))
  {
    var reply := s.HandleControl(frame, nowMs, env);
    RuntimeRuns.ControlCoupled(s, frame, nowMs, env);
    ControlForward(s, frame, nowMs, env);
    if !s.IsActive() && reply.state.IsActive() {
      OnlyAckOpens(s, frame, nowMs, env);
    } else {
      OnwardWhenQuiet(s, reply.state);
      if reply.error.None? { QuietControl(s, frame, nowMs, env); }
    }
  }

  lemma OnlyAckOpens(s: RuntimeState, frame: Frame, nowMs: u64, env: Env)
    requires RuntimeRuns.Coupled(s)
    requires !s.IsActive() && s.HandleControl(frame, nowMs, env).state.IsActive()
    ensures var reply := s.HandleControl(frame, nowMs, env); ActionsFit(s, reply) && ActivatedNewest(reply.state)
  {
    hide RouterRuns.RouterOk, ValidText, Gate.Hooked, Gate.RequestLocal, Gate.Activate, RouterRuns.LastReserved;
    if frame.CommitAck? && s.pendingRequest.Some? {
      var token := SessionToken(frame.sessionId);
      if s.router.CommitAck(s.pendingRequest.value, token, nowMs, env.answers, env.hooks).error.None? {
        AckActivates(s.router, s.pendingRequest.value, token, nowMs, env.answers, env.hooks);
      } else {
        RuntimeRuns.ReasonIsValid(Routing.User);
      }
    }
  }

  lemma QuietControl(s: RuntimeState, frame: Frame, nowMs: u64, env: Env)
    requires RuntimeRuns.Coupled(s) && s.HandleControl(frame, nowMs, env).error.None?
    requires s.IsActive() || !s.HandleControl(frame, nowMs, env).state.IsActive()
    ensures ActionsFit(s, s.HandleControl(frame, nowMs, env))
  {
    hide RouterRuns.RouterOk, ValidText, Gate.Hooked, Gate.RequestLocal, Gate.Activate, RouterRuns.LastReserved;
    var reply := s.HandleControl(frame, nowMs, env);
    if frame.CommitAck? {
      RuntimeRuns.ReasonIsValid(Routing.User);
      assert CloseInput == reply.actions[|reply.actions| - 1];
      assert reply.state.router.route.Local();
    }
  }

  lemma EffectActions(s: RuntimeState, effect: Routing.RouteEffect)
    requires s.OneEffect(effect).error.None?
    ensures var reply := s.OneEffect(effect);
      && (forall i :: 0 <= i < |reply.actions| ==> !reply.actions[i].OpenInput?)
      && (CloseInput in reply.actions <==> effect.End? || effect.Cancel?)
  {
    hide ValidText;
    var reply := s.OneEffect(effect);
    if effect.End? || effect.Cancel? { assert CloseInput == reply.actions[|reply.actions| - 1]; }
  }

  lemma AdvanceFits(s: RuntimeState, nowMs: u64, keysReleased: bool, env: Env)
    requires RuntimeOk(s)
    ensures var reply := s.Advance(nowMs, keysReleased, env);
      reply.error.None? && RuntimeOnward(s, reply.state) && ActionsFit(s, reply)
  {
    hide RouterRuns.RouterOk, ValidText, Gate.Hooked, Gate.RequestLocal, RuntimeState.RouteEffects,
         RuntimeState.OneEffect, RouterRuns.LastReserved, RuntimeRuns.Agree, RouterRuns.Forward;
    var reply := s.Advance(nowMs, keysReleased, env);
    RuntimeRuns.AdvanceCoupled(s, nowMs, keysReleased, env);
    ActiveIsRemote(s);
    RouterRuns.StepOk(s.router, RouterRuns.Advance(nowMs, keysReleased, env.answers, env.hooks));
    var out := s.router.Advance(nowMs, keysReleased, env.answers, env.hooks);
    var s' := s.(router := out.state);
    RuntimeRuns.OneEffectAlone(s', if out.effects == [] then Routing.Cancel(0) else out.effects[0]);
    EffectsKeepRouter(s', out.effects);
    if out.effects != [] {
      assert out.effects == [out.effects[0]];
      EffectActions(s', out.effects[0]);
    }
    OnwardWhenQuiet(s, reply.state);
  }

  lemma ActiveIsRemote(s: RuntimeState)
    requires RuntimeOk(s)
    ensures s.IsActive() <==> s.router.route.RemoteActive?
  {
    hide RouterRuns.RouterOk;
  }

  lemma EffectsKeepRouter(s: RuntimeState, effects: seq<Routing.RouteEffect>)
    requires |effects| <= 1
    ensures s.RouteEffects(effects, []).state.router == s.router
  {
    RuntimeRuns.OneEffectAlone(s, if effects == [] then Routing.Cancel(0) else effects[0]);
    if effects != [] { assert effects == [effects[0]]; }
  }

  lemma GoLocalFits(s: RuntimeState, reason: Routing.ReturnReason, count: nat)
    requires RuntimeOk(s)
    ensures var reply := s.GoLocal(reason, count);
      && reply.error.None? && RuntimeOnward(s, reply.state) && ActionsFit(s, reply)
      && reply.state.router.route.Local() && reply.state.router.gate.IsLocal() && !reply.state.IsActive()
  {
    hide RouterRuns.RouterOk, ValidText, Gate.Hooked, Gate.RequestLocal, RuntimeState.RouteEffects,
         RuntimeState.OneEffect, RouterRuns.LastReserved, RouterRuns.Forward;
    var reply := s.GoLocal(reason, count);
    RuntimeRuns.GoLocalCoupled(s, reason, count);
    RouterRuns.StepOk(s.router, RouterRuns.GoLocal(reason, count));
    var out := s.router.GoLocal(reason, count);
    var s' := s.(router := out.state);
    RuntimeRuns.OneEffectAlone(s', if out.effects == [] then Routing.Cancel(0) else out.effects[0]);
    EffectsKeepRouter(s', out.effects);
    if out.effects != [] {
      assert out.effects == [out.effects[0]];
      EffectActions(s', out.effects[0]);
    }
    OnwardWhenQuiet(s, reply.state);
  }

  lemma BeginFits(s: RuntimeState, target: Target, nowMs: u64, env: Env)
    requires RuntimeOk(s) && s.CanBegin()
    ensures var reply := s.Begin(target.peerId, target.display, target.revision, nowMs, env);
      && RuntimeOk(reply.state) && RouterRuns.Forward(s.router.gate, reply.state.router.gate)
      && !reply.state.IsActive()
      && (reply.error.Some? ==> reply.state.router.route.Local())
      && (reply.error.None? ==>
            && !reply.state.router.route.Local()
            && Generation(s.router.gate.word) < RouterRuns.LastReserved(reply.state.router.gate.log)
            && forall i :: 0 <= i < |reply.actions| ==> reply.actions[i].SendControl?)
  {
    hide RouterRuns.RouterOk, ValidText, Gate.Hooked, Gate.Reserve, Gate.RequestLocal, RouterRuns.LastReserved;
    var reply := s.Begin(target.peerId, target.display, target.revision, nowMs, env);
    RuntimeRuns.BeginCoupled(s, target.peerId, target.display, target.revision, nowMs, env);
    var e := RouterRuns.GoRemote(target.peerId, nowMs, env.answers, env.hooks);
    RouterRuns.StepOk(s.router, e);
    var out := RouterRuns.Step(s.router, e);
    if out.state.route.PreparingRemote? {
      RouterRuns.StartsPreparing(s.router, e);
      NewestIsPrepared(out.state);
      GoLocalForward(s.router.gate, out.state, Routing.NetworkFailed, env.hooks.again);
    }
  }

  lemma NewestIsPrepared(s: Routing.RouterState)
    requires RouterRuns.RouterOk(s) && s.route.PreparingRemote?
    ensures s.route.request == RouterRuns.LastReserved(s.gate.log)
  {
  }

  // ----- the client above

  /** The frames of the open input stream: numbered 1, 2, 3, ..., of one session, and
      referring only to frames the transport has already taken. */
  ghost predicate WellNumbered(wire: Wire) {
    && (forall i :: 0 <= i < |wire.inputs| ==>
          && wire.inputs[i].sessionId == wire.inputs[0].sessionId && wire.inputs[i].sequence == i + 1
          && CheckCritical(wire.inputs[i]).None?
          && (wire.inputs[i].event.Key? || 1 <= wire.inputs[i].event.motionSequence <= |wire.motions|))
    && (forall i :: 0 <= i < |wire.motions| ==>
          && wire.motions[i].sessionId == wire.motions[0].sessionId && wire.motions[i].sequence == i + 1
          && wire.motions[i].requiredReliableSequence <= |wire.inputs| && CheckMotion(wire.motions[i]).None?)
  }

  /** The transport is held only while a handoff is under way, the input stream exactly
      while a session is open on it, and the runtime's counters count what it took. */
  ghost predicate WireFits(s: ClientState) {
    && (s.wire.connected ==> !s.runtime.router.route.Local())
    && (s.wire.inputOpen <==> s.wire.connected && s.runtime.IsActive())
    && (s.wire.inputOpen ==>
          && s.runtime.inputSequence == |s.wire.inputs| && s.runtime.motionSequence == |s.wire.motions|
          && (s.wire.inputs != [] ==> s.wire.inputs[0].sessionId == s.runtime.handshake.state.sessionId)
          && (s.wire.motions != [] ==> s.wire.motions[0].sessionId == s.runtime.handshake.state.sessionId))
  }

  ghost predicate Inv(s: ClientState) { RuntimeOk(s.runtime) && WellNumbered(s.wire) && WireFits(s) }

  ghost predicate Onward(s: ClientState, s': ClientState) {
    RuntimeOnward(s.runtime, s'.runtime) && (s'.wire.connected ==> s.wire.connected)
  }

  /** Nothing reaches the peer any more. */
  ghost predicate Closed(s: ClientState) {
    !s.wire.connected && !s.wire.inputOpen && !s.runtime.IsActive() && s.runtime.router.gate.IsLocal()
  }

  /** The user has the machine back: every capture was restored. */
  ghost predicate Restored(s: ClientState) {
    s.runtime.router.route.Local() && s.runtime.router.calls.prepared == s.runtime.router.calls.restored
  }

  lemma OnwardTransitive(a: ClientState, b: ClientState, c: ClientState)
    requires Onward(a, b) && Onward(b, c)
    ensures Onward(a, c)
  {
    var x, y, z := a.runtime.router.gate.log, b.runtime.router.gate.log, c.runtime.router.gate.log;
    assert x == y[..|x|] && y == z[..|y|];
    assert x == z[..|x|];
  }

  lemma OnwardReflexive(s: ClientState)
    requires RuntimeOk(s.runtime)
    ensures Onward(s, s)
  {
  }

  lemma LocalIsRestored(s: ClientState)
    requires RuntimeOk(s.runtime) && s.runtime.router.route.Local()
    ensures Restored(s) && s.runtime.router.gate.IsLocal() && !s.runtime.IsActive()
  {
  }

  lemma FailTransportCloses(s: ClientState)
    requires RuntimeOk(s.runtime)
    ensures var t := s.FailTransport();
      && Onward(s, t) && Closed(t) && Restored(t)
      && t.wire.inputs == s.wire.inputs && t.wire.motions == s.wire.motions
  {
    hide RuntimeOk, RuntimeState.GoLocal, RouterRuns.Forward;
    GoLocalFits(s.runtime, Routing.NetworkFailed, s.Next().hooks.load);
    LocalIsRestored(s.FailTransport());
  }

  /** What is left after actions that open nothing. */
  ghost predicate Applied(s: ClientState, closes: bool, r: ClientReply) {
    if r.error.None? then
      && r.state.runtime == s.runtime
      && r.state.wire == (if closes then s.wire.Disconnect() else s.wire).(controls := r.state.wire.controls)
    else
      && r.error == Some(Transport)
      && Onward(s, r.state) && Closed(r.state) && Restored(r.state)
      && r.state.wire.inputs == s.wire.inputs && r.state.wire.motions == s.wire.motions
  }

  lemma {:induction false} ApplyQuiet(s: ClientState, actions: seq<Action>)
    requires RuntimeOk(s.runtime) && forall i :: 0 <= i < |actions| ==> !actions[i].OpenInput?
    ensures Applied(s, CloseInput in actions, s.Apply(actions))
    decreases |actions|
  {
    hide RuntimeOk, RuntimeRuns.SameNewest, Closed, Restored, ClientState.FailTransport;
    if actions != [] {
      var (t, ok) := s.Perform(actions[0]);
      if ok {
        ApplyQuiet(t, actions[1..]);
        assert actions == [actions[0]] + actions[1..];
      } else {
        FailTransportCloses(t);
      }
    }
  }

  /** A step of the runtime followed by its actions keeps the client's invariant. */
  lemma DrivenOk(s0: ClientState, reply: Reply, s: ClientState)
    requires Inv(s0) && reply.error.None?
    requires RuntimeOnward(s0.runtime, reply.state) && ActionsFit(s0.runtime, reply)
    requires s.runtime == reply.state && s.wire == s0.wire
    ensures var r := s.Apply(reply.actions);
      && Inv(r.state) && Onward(s0, r.state)
      && (r.error.Some? ==> r.error == Some(Transport) && Closed(r.state) && Restored(r.state))
      && (r.error.None? ==> r.state.runtime == reply.state)
  {
    hide RuntimeOk, RouterRuns.Forward, RuntimeRuns.SameNewest, ClientState.FailTransport;
    var r := s.Apply(reply.actions);
    if !s0.runtime.IsActive() && reply.state.IsActive() {
      var (t, ok) := s.Perform(reply.actions[0]);
      assert reply.actions[1..] == [];
      ActiveIsRemote(t.runtime);
      if !ok {
        FailTransportCloses(t);
        OnwardTransitive(s0, t, r.state);
      }
    } else {
      ApplyQuiet(s, reply.actions);
      ActiveIsRemote(s0.runtime);
      ActiveIsRemote(reply.state);
      if r.error.Some? { OnwardTransitive(s0, s, r.state); }
    }
  }


  /** A part of an operation: the invariant holds, the run moves on, and `closing`
      errors leave nothing open. */
  ghost predicate Good(s: ClientState, r: ClientReply, closing: bool) {
    && Inv(r.state) && Onward(s, r.state)
    && (closing ==> Closed(r.state) && Restored(r.state))
  }

  /** When the next ping is due, for a client that looks at the clock now. */
  function Due(s: ClientState, nowMs: u64): u64 {
    if s.nextPing.Some? then s.nextPing.value else SaturatingAdd(nowMs, PING_INTERVAL_MS)
  }

  const ExhaustedPing := RuntimeFailed(Protocol(Handshakes.InvalidField("sequence")))

  /** A ping is due and its number is the largest there is: the call fails, and nothing
      that reaches the peer or the user changes. */
  lemma PingOk(s: ClientState, nowMs: u64)
    requires Inv(s)
    ensures var r := s.PollPing(nowMs);
      && Good(s, r, r.error == Some(Transport))
      && (r.error.Some? ==> r.error == Some(Transport) || r.error == Some(ExhaustedPing))
      && (r.error == Some(ExhaustedPing) <==>
            s.runtime.IsActive() && nowMs >= Due(s, nowMs) && s.runtime.handshake.pingSequence == U64_MAX)
      && (r.error == Some(ExhaustedPing) ==> r.state.runtime == s.runtime && r.state.wire == s.wire)
      && (s.runtime.router.route.Local() ==> r.state.runtime == s.runtime && r.state.wire == s.wire && r.error.None?)
  {
    hide RouterRuns.Forward, RuntimeRuns.Coupled, ClientState.Apply;
    ActiveIsRemote(s.runtime);
    OnwardReflexive(s);
    if s.runtime.IsActive() {
      RuntimePings(s.runtime);
      var ping := s.runtime.Ping();
      if ping.error.None? { DrivenOk(s, ping, s.(nextPing := Some(Due(s, nowMs)), runtime := ping.state)); }
    }
  }

  lemma RuntimePings(s: RuntimeState)
    requires RuntimeOk(s) && s.IsActive()
    ensures var reply := s.Ping();
      && RuntimeOnward(s, reply.state)
      && (if reply.error.None? then ActionsFit(s, reply)
          else reply == Reply(s, [], Some(Protocol(Handshakes.InvalidField("sequence")))))
  {
    hide RouterRuns.RouterOk;
    RuntimeRuns.QuietCoupled(s, RuntimeRuns.Ping);
  }

  lemma InboxIsApart(s: ClientState, t: ClientState)
    requires Inv(s) && t.runtime == s.runtime && t.wire == s.wire
    ensures Inv(t) && Onward(s, t)
  {
    OnwardReflexive(s);
  }

  /** An acknowledgement that nothing is waiting for. */
  predicate Stray(s: RuntimeState, frame: Frame) {
    frame.CommitAck? && (s.pendingRequest.None? || s.pendingSession.None?)
  }

  /** Handling one frame: an error closes everything, with one exception that can be told
      beforehand, a stray acknowledgement while the machine is not local. */
  lemma FrameOk(s: ClientState, frame: Frame, nowMs: u64, answers: Routing.Answers)
    requires Inv(s)
    ensures var r := s.HandleFrame(frame, nowMs, answers);
      && Good(s, r, r.error.Some? && !Stray(s.runtime, frame))
      && (r.error == Some(RuntimeFailed(NotActive)) <==> Stray(s.runtime, frame))
      && (r.error.Some? ==> !r.state.wire.connected && !r.state.wire.inputOpen)
      && (Stray(s.runtime, frame) ==> r.state.runtime == s.runtime)
      && (r.error.Some? ==> (Closed(r.state) <==> !(Stray(s.runtime, frame) && s.runtime.IsActive())))
      && (frame.CommitAck? && s.runtime.IsActive() ==> Stray(s.runtime, frame))
  {
    hide RouterRuns.Forward, RuntimeRuns.SameNewest, RouterRuns.RouterOk, ClientState.Apply, RuntimeState.HandleControl, ValidText;
    var reply := s.runtime.HandleControl(frame, nowMs, s.NextEnv(answers));
    var t := s.Draw().(runtime := reply.state);
    ControlFits(s.runtime, frame, nowMs, s.NextEnv(answers));
    RuntimeRuns.ControlCoupled(s.runtime, frame, nowMs, s.NextEnv(answers));
    StrayIsRefused(s.runtime, frame, nowMs, s.NextEnv(answers));
    if reply.error.None? {
      DrivenOk(s, reply, t);
    } else if reply.error != Some(NotActive) {
      LocalIsRestored(t);
    } else {
      GateIsLocalUnlessActive(reply.state);
    }
  }

  lemma GateIsLocalUnlessActive(s: RuntimeState)
    requires RuntimeOk(s)
    ensures !s.IsActive() ==> s.router.gate.IsLocal()
  {
  }

  lemma StrayIsRefused(s: RuntimeState, frame: Frame, nowMs: u64, env: Env)
    requires RuntimeRuns.Coupled(s)
    ensures s.HandleControl(frame, nowMs, env).error == Some(NotActive) <==> Stray(s, frame)
    ensures Stray(s, frame) ==> s.HandleControl(frame, nowMs, env) == Reply(s, [], Some(NotActive))
    ensures frame.CommitAck? && s.IsActive() ==> Stray(s, frame)
  {
    hide RouterRuns.RouterOk, ValidText;
  }

  /** A frame that an open session takes is a pong, and changes nothing that a ping needs. */
  lemma FrameLeavesPings(s: ClientState, frame: Frame, nowMs: u64, answers: Routing.Answers)
    requires Inv(s)
    ensures var r := s.HandleFrame(frame, nowMs, answers);
      && r.error != Some(ExhaustedPing)
      && (r.error.None? ==>
            && r.state.nextPing == s.nextPing
            && if s.runtime.IsActive() then SamePings(s, r.state)
               else r.state.runtime.IsActive() ==> r.state.runtime.handshake.pingSequence == 0)
  {
    hide RouterRuns.RouterOk, RouterRuns.Forward, ClientState.FailTransport, WellNumbered, WireFits;
    var reply := s.runtime.HandleControl(frame, nowMs, s.NextEnv(answers));
    ControlLeavesPings(s.runtime, frame, nowMs, s.NextEnv(answers));
    ApplyErrors(s.Draw().(runtime := reply.state), reply.actions);
  }

  /** Same session and wire, and the next ping has the same number. */
  ghost predicate SamePings(s: ClientState, t: ClientState) {
    && t.runtime.handshake.state == s.runtime.handshake.state && t.runtime.IsActive()
    && t.runtime.handshake.pingSequence == s.runtime.handshake.pingSequence
    && t.runtime.router == s.runtime.router && t.wire == s.wire && t.nextPing == s.nextPing
  }

  lemma ControlLeavesPings(s: RuntimeState, frame: Frame, nowMs: u64, env: Env)
    requires RuntimeRuns.Coupled(s)
    ensures var reply := s.HandleControl(frame, nowMs, env);
      && reply.error != Some(Protocol(Handshakes.InvalidField("sequence")))
      && (reply.error.None? ==>
            if s.IsActive() then
              && reply.actions == [] && reply.state.router == s.router
              && reply.state.handshake.state == s.handshake.state
              && reply.state.handshake.pingSequence == s.handshake.pingSequence
            else reply.state.IsActive() ==> reply.state.handshake.pingSequence == 0)
  {
    hide RouterRuns.RouterOk, ValidText, Handshakes.CheckFrame, Routing.RouterState.CommitAck, Routing.RouterState.Ready,
         RuntimeState.FailLocal;
    NeverTheSequence(frame);
  }

  lemma NeverTheSequence(frame: Frame)
    ensures Handshakes.CheckFrame(frame) != Some(Handshakes.InvalidField("sequence"))
  {
    hide ValidText;
  }

  lemma {:induction false} ApplyErrors(s: ClientState, actions: seq<Action>)
    ensures var r := s.Apply(actions);
      if r.error.Some? then r.error == Some(Transport)
      else r.state.nextPing == s.nextPing && r.state.runtime == s.runtime
    ensures actions == [] ==> s.Apply(actions) == ClientReply(s, None)
    decreases |actions|
  {
    hide ClientState.FailTransport;
    if actions != [] && s.Perform(actions[0]).1 { ApplyErrors(s.Perform(actions[0]).0, actions[1..]); }
  }

  lemma {:induction false} OfferAllKeeps(s: ClientState, frames: seq<Frame>)
    ensures var t := s.OfferAll(frames); t.runtime == s.runtime && t.wire == s.wire && t.nextPing == s.nextPing
    decreases |frames|
  {
    if frames != [] { OfferAllKeeps(s.Offer(frames[0]), frames[1..]); }
  }

  /** The runtime that a stray acknowledgement finds when the inbox is emptied, if one does. */
  ghost function MeetsStray(s: ClientState, nowMs: u64, answers: Routing.Answers, late: seq<seq<Frame>>)
    : Option<RuntimeState>
    decreases |late|, |s.inbound|
  {
    var t := if late == [] then s else s.OfferAll(late[0]);
    if t.inbound == [] then None
    else if Stray(t.runtime, t.inbound[0]) then Some(t.runtime)
    else
      var one := t.(inbound := t.inbound[1..]).HandleFrame(t.inbound[0], nowMs, answers);
      if one.error.Some? then None else MeetsStray(one.state, nowMs, answers, if late == [] then [] else late[1..])
  }

  lemma {:induction false} DrainOk(s: ClientState, nowMs: u64, answers: Routing.Answers, late: seq<seq<Frame>>)
    requires Inv(s)
    ensures var r := s.Drain(nowMs, answers, late); var stray := MeetsStray(s, nowMs, answers, late);
      && Good(s, r, r.error.Some? && stray.None?)
      && (r.error == Some(RuntimeFailed(NotActive)) <==> stray.Some?)
      && (r.error.Some? ==> !r.state.wire.connected && !r.state.wire.inputOpen)
      && (stray.Some? ==> r.state.runtime == stray.value)
      && (r.error.Some? ==> (Closed(r.state) <==> !(stray.Some? && stray.value.IsActive())))
    decreases |late|, |if late == [] then s.inbound else []|
  {
    hide Inv, Onward, Closed, Restored, Stray, ClientState.HandleFrame, ClientState.OfferAll;
    var t := if late == [] then s else s.OfferAll(late[0]);
    if late != [] { OfferAllKeeps(s, late[0]); }
    InboxIsApart(s, t);
    if t.inbound != [] {
      var u := t.(inbound := t.inbound[1..]);
      InboxIsApart(s, u);
      FrameOk(u, t.inbound[0], nowMs, answers);
      var one := u.HandleFrame(t.inbound[0], nowMs, answers);
      OnwardTransitive(s, u, one.state);
      if one.error.None? {
        var rest := if late == [] then [] else late[1..];
        DrainOk(one.state, nowMs, answers, rest);
        OnwardTransitive(s, one.state, one.state.Drain(nowMs, answers, rest).state);
      }
    }
  }

  lemma {:induction false} DrainLeavesPings(s: ClientState, nowMs: u64, answers: Routing.Answers, late: seq<seq<Frame>>)
    requires Inv(s)
    ensures var r := s.Drain(nowMs, answers, late);
      && r.error != Some(ExhaustedPing)
      && (r.error.None? ==>
            && r.state.nextPing == s.nextPing
            && if s.runtime.IsActive() then SamePings(s, r.state)
               else r.state.runtime.IsActive() ==> r.state.runtime.handshake.pingSequence == 0)
    decreases |late|, |if late == [] then s.inbound else []|
  {
    hide Inv, Onward, ClientState.HandleFrame, ClientState.OfferAll;
    var t := if late == [] then s else s.OfferAll(late[0]);
    if late != [] { OfferAllKeeps(s, late[0]); }
    if t.inbound != [] {
      var u := t.(inbound := t.inbound[1..]);
      InboxIsApart(s, u);
      FrameOk(u, t.inbound[0], nowMs, answers);
      FrameLeavesPings(u, t.inbound[0], nowMs, answers);
      var one := u.HandleFrame(t.inbound[0], nowMs, answers);
      if one.error.None? { DrainLeavesPings(one.state, nowMs, answers, if late == [] then [] else late[1..]); }
    }
  }

  // ----- the inbox of an open session

  /** An echo that an open session takes: of a ping it has sent and not heard of yet, with
      no less input applied than it knows of. */
  predicate IsEcho(c: Handshakes.ControllerSide, frame: Frame) {
    && Handshakes.CheckFrame(frame).None? && frame.Pong?
    && c.state.Active? && frame.sessionId == c.state.sessionId
    && c.lastPong < frame.sequence <= c.pingSequence && c.highestApplied <= frame.highestApplied
  }

  /** How many of the frames are such echoes, up to the first that is not. */
  function Echoed(c: Handshakes.ControllerSide, frames: seq<Frame>): (n: nat)
    ensures n <= |frames|
    decreases |frames|
  {
    if frames == [] || !IsEcho(c, frames[0]) then 0
    else 1 + Echoed(c.(lastPong := frames[0].sequence, highestApplied := frames[0].highestApplied), frames[1..])
  }

  /** The inbox with as many of the arriving frames as it has room for. */
  function Filled(inbound: seq<Frame>, frames: seq<Frame>): seq<Frame> {
    if |inbound| >= INBOUND_CONTROL_FRAMES then inbound
    else inbound + frames[..if |frames| < INBOUND_CONTROL_FRAMES - |inbound| then |frames|
                            else INBOUND_CONTROL_FRAMES - |inbound|]
  }

  /** The frames that wait or arrive in time, in the order in which they are looked at. */
  function Arriving(inbound: seq<Frame>, late: seq<seq<Frame>>): seq<Frame>
    decreases |late|, |inbound|
  {
    var waiting := if late == [] then inbound else Filled(inbound, late[0]);
    if waiting == [] then []
    else [waiting[0]] + Arriving(waiting[1..], if late == [] then [] else late[1..])
  }

  lemma {:induction false} OfferAllFills(s: ClientState, frames: seq<Frame>)
    ensures s.OfferAll(frames).inbound == Filled(s.inbound, frames)
    ensures s.OfferAll(frames).drawn == s.drawn && s.OfferAll(frames).tape == s.tape
    decreases |frames|
  {
    if frames != [] { OfferAllFills(s.Offer(frames[0]), frames[1..]); }
  }

  lemma ControlInSession(s: RuntimeState, frame: Frame, nowMs: u64, env: Env)
    requires RuntimeRuns.Coupled(s) && s.IsActive()
    ensures var reply := s.HandleControl(frame, nowMs, env);
      && (reply.error.None? <==> IsEcho(s.handshake, frame))
      && (reply.error.None? ==>
            reply.state.handshake
            == s.handshake.(lastPong := frame.sequence, highestApplied := frame.highestApplied))
  {
    hide RouterRuns.RouterOk, ValidText, Handshakes.CheckFrame, Routing.RouterState.CommitAck, Routing.RouterState.Ready,
         RuntimeState.FailLocal;
  }

  lemma FrameInSession(s: ClientState, frame: Frame, nowMs: u64, answers: Routing.Answers)
    requires Inv(s) && s.runtime.IsActive()
    ensures var r := s.HandleFrame(frame, nowMs, answers);
      && (r.error.None? <==> IsEcho(s.runtime.handshake, frame))
      && (r.error.None? ==>
            && Inv(r.state) && r.state.runtime.IsActive()
            && r.state.drawn == s.drawn + 1 && r.state.tape == s.tape
            && r.state.runtime.handshake
               == s.runtime.handshake.(lastPong := frame.sequence, highestApplied := frame.highestApplied))
      && (Stray(s.runtime, frame) <==> frame.CommitAck?)
  {
    hide RouterRuns.RouterOk, RouterRuns.Forward, ClientState.FailTransport, WellNumbered, WireFits, IsEcho, Closed;
    var reply := s.runtime.HandleControl(frame, nowMs, s.NextEnv(answers));
    ControlInSession(s.runtime, frame, nowMs, s.NextEnv(answers));
    ControlLeavesPings(s.runtime, frame, nowMs, s.NextEnv(answers));
    ApplyErrors(s.Draw().(runtime := reply.state), reply.actions);
    StrayIsRefused(s.runtime, frame, nowMs, s.NextEnv(answers));
    FrameOk(s, frame, nowMs, answers);
  }

  lemma ArrivingStep(inbound: seq<Frame>, late: seq<seq<Frame>>)
    ensures var waiting := if late == [] then inbound else Filled(inbound, late[0]);
      var rest := if late == [] then [] else late[1..];
      Arriving(inbound, late) == if waiting == [] then [] else [waiting[0]] + Arriving(waiting[1..], rest)
  {
    hide Filled;
  }

  lemma EchoedStep(c: Handshakes.ControllerSide, frame: Frame, rest: seq<Frame>)
    ensures Echoed(c, [frame] + rest) ==
            if !IsEcho(c, frame) then 0
            else 1 + Echoed(c.(lastPong := frame.sequence, highestApplied := frame.highestApplied), rest)
    ensures IsEcho(c, frame) ==> frame.Pong?
  {
    assert ([frame] + rest)[1..] == rest;
  }

  /** In an open session the frames alone decide: emptying the inbox succeeds if and only
      if all are echoes, and the first that is not is a stray acknowledgement if and only
      if it is any acknowledgement. */
  lemma {:induction false} DrainInSession(s: ClientState, nowMs: u64, answers: Routing.Answers, late: seq<seq<Frame>>)
    requires Inv(s) && s.runtime.IsActive()
    ensures var r := s.Drain(nowMs, answers, late);
      var frames := Arriving(s.inbound, late); var n := Echoed(s.runtime.handshake, frames);
      && (r.error.None? <==> n == |frames|)
      && (r.error.None? ==> r.state.drawn == s.drawn + |frames| && r.state.tape == s.tape)
      && (MeetsStray(s, nowMs, answers, late).Some? <==> n < |frames| && frames[n].CommitAck?)
    decreases |late|, |if late == [] then s.inbound else []|
  {
    hide Inv, Stray, IsEcho, Echoed, Arriving, Filled, ClientState.HandleFrame, ClientState.OfferAll;
    var t := if late == [] then s else s.OfferAll(late[0]);
    var rest := if late == [] then [] else late[1..];
    if late != [] {
      OfferAllKeeps(s, late[0]);
      OfferAllFills(s, late[0]);
    }
    ArrivingStep(s.inbound, late);
    if t.inbound == [] {
      NoneEchoed(s.runtime.handshake);
    } else {
      var u, frame := t.(inbound := t.inbound[1..]), t.inbound[0];
      KeepsInbox(s, u);
      FrameInSession(u, frame, nowMs, answers);
      EchoedStep(s.runtime.handshake, frame, Arriving(u.inbound, rest));
      var one := u.HandleFrame(frame, nowMs, answers);
      if one.error.None? { DrainInSession(one.state, nowMs, answers, rest); }
    }
  }

  lemma NoneEchoed(c: Handshakes.ControllerSide)
    ensures Echoed(c, []) == 0
  {
  }

  lemma KeepsInbox(s: ClientState, t: ClientState)
    requires Inv(s) && t.runtime == s.runtime && t.wire == s.wire
    ensures Inv(t)
  {
    hide RuntimeOk, WellNumbered;
  }

  /** The gate is local by the time an advance reads it. */
  predicate HookedLocal(s: ClientState) { s.runtime.router.gate.Hooked(s.Next().hooks.load).IsLocal() }

  lemma AdvanceOk(s: ClientState, nowMs: u64, keysReleased: bool, answers: Routing.Answers)
    requires Inv(s)
    ensures var r := s.AdvanceNow(nowMs, keysReleased, answers);
      && Good(s, r, r.error == Some(Transport))
      && (r.error.Some? ==> r.error == Some(Transport) || r.error == Some(ExhaustedPing))
      && (r.error == Some(ExhaustedPing) <==>
            && s.runtime.IsActive() && !HookedLocal(s)
            && nowMs >= Due(s, nowMs) && s.runtime.handshake.pingSequence == U64_MAX)
      && (r.error == Some(ExhaustedPing) ==> r.state.runtime.IsActive() && r.state.wire == s.wire)
  {
    hide Onward, Inv, Closed, Restored, RuntimeOk, ClientState.Apply, ClientState.PollPing, RuntimeState.Advance,
         ClientState.FailTransport, HookedLocal;
    assert RuntimeOk(s.runtime) by { InvHasRuntime(s); }
    AdvanceFits(s.runtime, nowMs, keysReleased, s.NextEnv(answers));
    AdvanceWhileActive(s, nowMs, keysReleased, answers);
    var reply := s.runtime.Advance(nowMs, keysReleased, s.NextEnv(answers));
    var t := s.Draw().(runtime := reply.state);
    DrivenOk(s, reply, t);
    ApplyErrors(t, reply.actions);
    var applied := t.Apply(reply.actions);
    if applied.error.None? {
      PingOk(applied.state, nowMs);
      OnwardTransitive(s, applied.state, applied.state.PollPing(nowMs).state);
    }
  }

  /** An open session outlives an advance exactly when the gate is not local by then. */
  lemma AdvanceWhileActive(s: ClientState, nowMs: u64, keysReleased: bool, answers: Routing.Answers)
    requires Inv(s)
    ensures var reply := s.runtime.Advance(nowMs, keysReleased, s.NextEnv(answers));
      && (reply.state.IsActive() <==> s.runtime.IsActive() && !HookedLocal(s))
      && (reply.state.IsActive() ==> reply.actions == [] && reply.state.handshake == s.runtime.handshake)
  {
    hide RouterRuns.RouterOk, RuntimeState.OneEffect, WellNumbered, WireFits, Gate.Hooked;
    ActiveIsRemote(s.runtime);
    var env := s.NextEnv(answers);
    RuntimeRuns.AdvanceCoupled(s.runtime, nowMs, keysReleased, env);
    AdvanceFits(s.runtime, nowMs, keysReleased, env);
    var out := s.runtime.router.Advance(nowMs, keysReleased, answers, env.hooks);
    if s.runtime.IsActive() {
      EffectsKeepRouter(s.runtime.(router := out.state), out.effects);
      ActiveIsRemote(s.runtime.Advance(nowMs, keysReleased, env).state);
    }
  }

  lemma InvHasRuntime(s: ClientState)
    requires Inv(s)
    ensures RuntimeOk(s.runtime) && RuntimeRuns.Coupled(s.runtime) && RouterRuns.RouterOk(s.runtime.router)
  {
  }

  /** The open session's next ping is due and there is no number left for it; everything
      that waits or arrives is an echo; and no hook has asked for local control by the time
      the gate is read. */
  ghost predicate PingRunsOut(s: ClientState, nowMs: u64, late: seq<seq<Frame>>) {
    && !s.overflowed
    && s.runtime.IsActive() && s.runtime.handshake.pingSequence == U64_MAX && nowMs >= Due(s, nowMs)
    && var frames := Arriving(s.inbound, late);
    && Echoed(s.runtime.handshake, frames) == |frames|
    && !s.runtime.router.gate.Hooked(s.tape(s.drawn + |frames|).hooks.load).IsLocal()
  }

  /** A poll fails with everything closed, but for two causes that can be told beforehand. */
  lemma PollOk(s: ClientState, nowMs: u64, keysReleased: bool, answers: Routing.Answers, late: seq<seq<Frame>>)
    requires Inv(s)
    ensures var r := s.Poll(nowMs, keysReleased, answers, late);
      var stray := if s.overflowed then None else MeetsStray(s, nowMs, answers, late);
      && Good(s, r, r.error.Some? && stray.None? && !PingRunsOut(s, nowMs, late))
      && (r.error == Some(RuntimeFailed(NotActive)) <==> stray.Some?)
      && (stray.Some? ==> !r.state.wire.connected && !r.state.wire.inputOpen && r.state.runtime == stray.value)
      && (r.error == Some(ExhaustedPing) <==> PingRunsOut(s, nowMs, late))
      && (PingRunsOut(s, nowMs, late) ==> r.state.runtime.IsActive() && r.state.wire == s.wire)
  {
    hide Onward, Closed, Restored, Inv, ClientState.Drain, ClientState.AdvanceNow, ClientState.FailTransport, Arriving,
         Echoed, Gate.Hooked, MeetsStray;
    if s.overflowed {
      InboxIsApart(s, s.(overflowed := false));
      FailedOk(s, s.(overflowed := false));
    } else {
      DrainOk(s, nowMs, answers, late);
      DrainLeavesPings(s, nowMs, answers, late);
      if s.runtime.IsActive() { DrainInSession(s, nowMs, answers, late); }
      var drained := s.Drain(nowMs, answers, late);
      if drained.error.None? {
        AdvanceOk(drained.state, nowMs, keysReleased, answers);
        OnwardTransitive(s, drained.state, drained.state.AdvanceNow(nowMs, keysReleased, answers).state);
      }
    }
  }

  /** Failing from a state whose runtime has moved on keeps the invariant. */
  lemma FailedOk(s: ClientState, t: ClientState)
    requires Inv(s) && Onward(s, t) && t.wire == s.wire
    ensures Inv(t.FailTransport()) && Onward(s, t.FailTransport())
    ensures Closed(t.FailTransport()) && Restored(t.FailTransport())
  {
    hide RuntimeOk, RouterRuns.Forward, RuntimeRuns.SameNewest, ClientState.FailTransport;
    FailTransportCloses(t);
    OnwardTransitive(s, t, t.FailTransport());
  }

  lemma InputTaken(wire: Wire, frame: CriticalFrame)
    requires WellNumbered(wire) && CheckCritical(frame).None?
    requires wire.inputs != [] ==> frame.sessionId == wire.inputs[0].sessionId
    requires frame.sequence == |wire.inputs| + 1
    requires frame.event.Key? || 1 <= frame.event.motionSequence <= |wire.motions|
    ensures WellNumbered(wire.(inputs := wire.inputs + [frame]))
  {
    hide CheckCritical, CheckMotion;
  }

  lemma MotionTaken(wire: Wire, frame: MotionFrame)
    requires WellNumbered(wire) && CheckMotion(frame).None?
    requires wire.motions != [] ==> frame.sessionId == wire.motions[0].sessionId
    requires frame.sequence == |wire.motions| + 1 && frame.requiredReliableSequence <= |wire.inputs|
    ensures WellNumbered(wire.(motions := wire.motions + [frame]))
  {
    hide CheckCritical, CheckMotion;
  }

  lemma SendInputOk(s: ClientState, event: CriticalEvent)
    requires Inv(s)
    ensures var r := s.SendInput(event);
      && Good(s, r, r.error == Some(Transport))
      && (r.error.Some? && r.error != Some(Transport) ==> r.error.value.RuntimeFailed? && r.state == s)
      && (r.error.None? ==>
            && s.wire.inputOpen && r.state.wire.motions == s.wire.motions
            && |r.state.wire.inputs| == |s.wire.inputs| + 1 && s.wire.inputs <= r.state.wire.inputs)
  {
    hide RouterRuns.RouterOk, RouterRuns.Forward, ClientState.FailTransport, RouterRuns.LastReserved, CheckCritical, CheckMotion, WellNumbered;
    RuntimeRuns.QuietCoupled(s.runtime, RuntimeRuns.Input(event));
    RouterRuns.ForwardReflexive(s.runtime.router.gate);
    var (runtime', frame) := s.runtime.NextInput(event);
    OnwardWhenQuiet(s.runtime, runtime');
    if frame.Ok? {
      FailedOk(s, s.Draw().(runtime := runtime'));
      if s.wire.inputOpen && CheckCritical(frame.value).None? { InputTaken(s.wire, frame.value); }
    }
  }

  lemma SendMotionOk(s: ClientState, x: i32, y: i32)
    requires Inv(s)
    ensures var r := s.SendMotion(x, y);
      && Good(s, r, r.error == Some(Transport))
      && (r.error.Some? && r.error != Some(Transport) ==> r.error.value.RuntimeFailed? && r.state == s)
      && (r.error.None? ==>
            && s.wire.inputOpen && r.state.wire.inputs == s.wire.inputs
            && |r.state.wire.motions| == |s.wire.motions| + 1 && s.wire.motions <= r.state.wire.motions)
  {
    hide RouterRuns.RouterOk, RouterRuns.Forward, ClientState.FailTransport, RouterRuns.LastReserved, CheckCritical, CheckMotion, WellNumbered;
    RuntimeRuns.QuietCoupled(s.runtime, RuntimeRuns.Motion(x, y));
    RouterRuns.ForwardReflexive(s.runtime.router.gate);
    var (runtime', frame) := s.runtime.NextMotion(x, y);
    OnwardWhenQuiet(s.runtime, runtime');
    if frame.Ok? {
      FailedOk(s, s.Draw().(runtime := runtime'));
      if s.wire.inputOpen && CheckMotion(frame.value).None? { MotionTaken(s.wire, frame.value); }
    }
  }

  /** Going local always ends with everything closed, whether or not the last frame left. */
  lemma GoLocalOk(s: ClientState, reason: Routing.ReturnReason)
    requires Inv(s)
    ensures Good(s, s.GoLocal(reason), true)
  {
    hide RuntimeOk, RouterRuns.Forward, RuntimeRuns.SameNewest, RuntimeState.GoLocal, ClientState.Apply;
    GoLocalFits(s.runtime, reason, s.Next().hooks.load);
    var reply := s.runtime.GoLocal(reason, s.Next().hooks.load);
    DrivenOk(s, reply, s.Draw().(runtime := reply.state));
    LocalIsRestored(s.GoLocal(reason).state);
  }

  lemma BeginOk(s: ClientState, target: Target, nowMs: u64, answers: Routing.Answers)
    requires Inv(s)
    ensures var r := s.Begin(target, nowMs, answers);
      && Inv(r.state) && RouterRuns.Forward(s.runtime.router.gate, r.state.runtime.router.gate)
      && (!s.runtime.CanBegin() ==> r == ClientReply(s, Some(RuntimeFailed(Route(Routing.Busy)))))
      && (s.runtime.CanBegin() && r.error.Some? ==> Closed(r.state) && Restored(r.state))
      && (r.error.None? ==>
            Generation(s.runtime.router.gate.word) < RouterRuns.LastReserved(r.state.runtime.router.gate.log))
      && (r.state.wire.connected && !s.wire.connected ==> r.error.None?)
  {
    hide RuntimeOk, RouterRuns.LastReserved, RuntimeState.Begin, ClientState.Apply, ClientState.FailTransport;
    if s.runtime.CanBegin() {
      var u := s.(inbound := [], overflowed := false, nextPing := None);
      var (wire', ok) := u.wire.Connect(u.Next().sent);
      var t := u.Draw().(wire := wire');
      LocalIsRestored(t);
      if ok {
        var env := t.NextEnv(answers);
        BeginFits(t.runtime, target, nowMs, env);
        var reply := t.runtime.Begin(target.peerId, target.display, target.revision, nowMs, env);
        var v := t.Draw().(runtime := reply.state);
        if reply.error.Some? {
          LocalIsRestored(v.(wire := v.wire.Disconnect()));
        } else {
          ApplyQuiet(v, reply.actions);
          assert CloseInput !in reply.actions;
          var applied := v.Apply(reply.actions);
          if applied.error.Some? { ForwardTransitive(s.runtime.router.gate, v.runtime.router.gate, applied.state.runtime.router.gate); }
        }
      }
    }
  }

  lemma ForwardTransitive(a: Gate, b: Gate, c: Gate)
    requires RouterRuns.Forward(a, b) && RouterRuns.Forward(b, c)
    ensures RouterRuns.Forward(a, c)
  {
    assert a.log == b.log[..|a.log|] && b.log == c.log[..|b.log|];
    assert a.log == c.log[..|a.log|];
  }

  // ----- whole runs

  lemma StepInv(s: ClientState, e: ClientEvent)
    requires Inv(s)
    ensures Inv(Step(s, e).state)
    ensures RouterRuns.Forward(s.runtime.router.gate, Step(s, e).state.runtime.router.gate)
    ensures !e.Begin? ==> Onward(s, Step(s, e).state)
  {
    hide Inv, ClientState.Begin, ClientState.Poll, ClientState.SendInput, ClientState.SendMotion, ClientState.GoLocal,
         RouterRuns.Forward, RuntimeOk, RouterRuns.RouterOk, RuntimeRuns.Agree, RouterRuns.LastReserved, Gate.Hooked;
    match e
    case HookFires =>
      InvHasRuntime(s);
      RouterRuns.StepOk(s.runtime.router, RouterRuns.HookFires);
      RuntimeRuns.HookCoupled(s.runtime);
      QuietOk(s, s.runtime.router.RunHooks(1));
    case SetGameMode(enabled) =>
      InvHasRuntime(s);
      RouterRuns.StepOk(s.runtime.router, RouterRuns.SetGameMode(enabled));
      RuntimeRuns.QuietCoupled(s.runtime, RuntimeRuns.SetGameMode(enabled));
      QuietOk(s, s.runtime.router.SetGameMode(enabled));
    case Arrives(frame) => InboxIsApart(s, s.Offer(frame));
    case Begin(target, now, answers) => BeginOk(s, target, now, answers);
    case Poll(now, released, answers, late) => PollOk(s, now, released, answers, late);
    case SendInput(event) => SendInputOk(s, event);
    case SendMotion(x, y) => SendMotionOk(s, x, y);
    case GoLocal(reason) => GoLocalOk(s, reason);
  }

  /** A router that neither goes home nor leaves changes nothing else. */
  lemma QuietOk(s: ClientState, router: Routing.RouterState)
    requires Inv(s) && RuntimeRuns.Coupled(s.runtime.(router := router))
    requires RouterRuns.Forward(s.runtime.router.gate, router.gate)
    requires RuntimeRuns.SameNewest(s.runtime, s.runtime.(router := router))
    requires router.route.Local() == s.runtime.router.route.Local()
    ensures var t := s.(runtime := s.runtime.(router := router)); Inv(t) && Onward(s, t)
  {
    hide RouterRuns.RouterOk, RouterRuns.Forward, RuntimeRuns.SameNewest, RouterRuns.LastReserved, RuntimeRuns.Agree;
    OnwardWhenQuiet(s.runtime, s.runtime.(router := router));
  }

  lemma {:induction false} AlwaysInv(start: ClientState, events: seq<ClientEvent>)
    requires Initial(start)
    ensures Inv(Run(start, events))
  {
    if events == [] {
      RuntimeRuns.AlwaysCoupled(start.runtime, []);
    } else {
      AlwaysInv(start, events[..|events| - 1]);
      StepInv(Run(start, events[..|events| - 1]), events[|events| - 1]);
    }
  }

  // ----- main results

  /** Calls that fail and leave something open.  A begin or an input while a handoff is
      under way.  In an open session: a click or a scroll before the first motion, an input
      or a motion whose numbers are used up, and a ping likewise.  And an acknowledgement
      that nothing waits for. */
  ghost predicate Survivable(s: ClientState, e: ClientEvent) {
    match e
    case Begin(_, _, _) => !s.runtime.CanBegin()
    case SendInput(event) =>
      && !s.runtime.CanBegin()
      && (|| !s.runtime.IsActive()
          || (!event.Key? && s.runtime.motionSequence == 0)
          || s.runtime.inputSequence == U64_MAX)
    case SendMotion(_, _) =>
      !s.runtime.CanBegin() && (!s.runtime.IsActive() || s.runtime.motionSequence == U64_MAX)
    case Poll(now, _, answers, late) =>
      || (!s.overflowed && MeetsStray(s, now, answers, late).Some?
          && !MeetsStray(s, now, answers, late).value.CanBegin())
      || PingRunsOut(s, now, late)
    case _ => false
  }

  /** In every reachable state, a call fails without closing everything and restoring the
      user's machine if and only if it is one of those; and going local always closes. */
  lemma FailsClosed(start: ClientState, events: seq<ClientEvent>, e: ClientEvent)
    requires Initial(start)
    ensures var s := Run(start, events); var r := Step(s, e);
      r.error.Some? && !(Closed(r.state) && Restored(r.state)) <==> Survivable(s, e)
    ensures var r := Step(Run(start, events), e);
      e.GoLocal? || r.error == Some(Transport) || r.error == Some(InboundOverflow) ==>
        Closed(r.state) && Restored(r.state)
  {
    hide Inv, Step, Closed, Restored, Survivable;
    AlwaysInv(start, events);
    var s := Run(start, events);
    match e
    case Begin(target, now, answers) => BeginFails(s, e);
    case Poll(now, released, answers, late) => PollFails(s, e);
    case SendInput(event) => SendFails(s, e);
    case SendMotion(x, y) => SendFails(s, e);
    case _ => OthersFail(s, e);
  }

  lemma BeginFails(s: ClientState, e: ClientEvent)
    requires Inv(s) && e.Begin?
    ensures FailsAsSaid(s, e)
  {
    hide Inv, ClientState.Begin, RouterRuns.LastReserved;
    BeginOk(s, e.target, e.nowMs, e.answers);
  }

  lemma SendFails(s: ClientState, e: ClientEvent)
    requires Inv(s) && (e.SendInput? || e.SendMotion?)
    ensures FailsAsSaid(s, e)
  {
    hide RouterRuns.RouterOk, RouterRuns.Forward, ClientState.FailTransport, RouterRuns.LastReserved, WellNumbered;
    if e.SendInput? { SendInputOk(s, e.event); } else { SendMotionOk(s, e.x, e.y); }
    if s.runtime.CanBegin() { LocalIsRestored(s); }
  }

  lemma PollFails(s: ClientState, e: ClientEvent)
    requires Inv(s) && e.Poll?
    ensures FailsAsSaid(s, e)
  {
    hide Inv, RuntimeOk, ClientState.Poll, MeetsStray, PingRunsOut;
    PollOk(s, e.nowMs, e.keysReleased, e.answers, e.late);
    var r := Step(s, e);
    InvHasRuntime(r.state);
    if r.state.runtime.CanBegin() { LocalIsRestored(r.state); }
    ActiveIsRemote(r.state.runtime);
  }

  lemma OthersFail(s: ClientState, e: ClientEvent)
    requires Inv(s) && !e.Begin? && !e.Poll? && !e.SendInput? && !e.SendMotion?
    ensures FailsAsSaid(s, e)
  {
    hide Inv, ClientState.GoLocal;
    if e.GoLocal? { GoLocalOk(s, e.reason); }
  }

  ghost predicate FailsAsSaid(s: ClientState, e: ClientEvent) {
    var r := Step(s, e);
    && (r.error.Some? && !(Closed(r.state) && Restored(r.state)) <==> Survivable(s, e))
    && (e.GoLocal? || r.error == Some(Transport) || r.error == Some(InboundOverflow) ==>
          Closed(r.state) && Restored(r.state))
  }

  /** What the transport took on one input stream is one session's, numbered from 1, and
      refers only to what it had taken before; a gate opened once for that session
      accepts all of it, below the largest sequence number. */
  lemma ReceiverAcceptsWhatWasSent(start: ClientState, events: seq<ClientEvent>, gate: GateSide)
    requires Initial(start) && Run(start, events).wire.inputs != []
    requires var session := Run(start, events).wire.inputs[0].sessionId;
      gate.active == Some(Stream(session, 1)) && session.receiverBoot == gate.localBoot
    ensures WellNumbered(Run(start, events).wire)
    ensures var frames := Run(start, events).wire.inputs;
      Accepted(gate, Offers(frames)) == frames <==> |frames| < U64_MAX
  {
    hide RuntimeOk, CheckCritical;
    AlwaysInv(start, events);
    var frames := Run(start, events).wire.inputs;
    AcceptsInOrder(gate, frames[0].sessionId, frames);
  }

  /** Between two points of the log a request was reserved and then activated. */
  ghost predicate FullHandoff(before: seq<Gates.GateEvent>, after: seq<Gates.GateEvent>) {
    && before <= after
    && exists p: nat, q: nat ::
         |before| <= p < q < |after| && after[p].Reserved? && after[q] == Activated(after[p].generation)
  }

  lemma {:induction false} NewestPosition(log: seq<Gates.GateEvent>) returns (p: nat)
    requires RouterRuns.LastReserved(log) != 0
    ensures p < |log| && log[p] == Reserved(RouterRuns.LastReserved(log))
  {
    if log[|log| - 1].Reserved? { p := |log| - 1; } else { p := NewestPosition(log[..|log| - 1]); }
  }

  /** A reservation newer than a gate's generation comes after that gate's log. */
  lemma ReservedLater(before: Gate, after: Gate, p: nat)
    requires after.Consistent() && before.Consistent() && before.log <= after.log && p < |after.log|
    requires after.log[p].Reserved? && Generation(before.word) < after.log[p].generation
    ensures |before.log| <= p
  {
    hide LegalLog, WordAfter;
    ReservedWord(after.log, p);
    assert after.log[..|before.log|] == before.log;
    if p < |before.log| { GenerationNeverDecreases(after.log, p + 1, |before.log|); }
  }

  /** Nothing is activated before it was reserved. */
  lemma ActivatedLater(log: seq<Gates.GateEvent>, p: nat, q: nat)
    requires LegalLog(log) && p < |log| && q < |log|
    requires log[p].Reserved? && log[q] == Activated(log[p].generation)
    ensures p < q
  {
    hide LegalLog, WordAfter;
    ReservedWord(log, p);
    ActivatedWord(log, q);
    if q < p { GenerationNeverDecreases(log, q, p); }
  }

  lemma HandoffPositions(before: Gate, after: Gate, q: nat)
    requires after.Consistent() && before.Consistent() && before.log <= after.log && q < |after.log|
    requires Generation(before.word) < RouterRuns.LastReserved(after.log)
    requires after.log[q] == Activated(RouterRuns.LastReserved(after.log))
    ensures FullHandoff(before.log, after.log)
  {
    hide RouterRuns.LastReserved, LegalLog, WordAfter;
    var p := NewestPosition(after.log);
    ReservedLater(before, after, p);
    ActivatedLater(after.log, p, q);
  }

  /** One step: the transport is held on for the same request, or a begin took it anew. */
  lemma HoldStep(from: Gate, s: ClientState, e: ClientEvent)
    requires Inv(s) && RouterRuns.Forward(from, s.runtime.router.gate)
    requires s.wire.connected ==> Generation(from.word) < RouterRuns.LastReserved(s.runtime.router.gate.log)
    ensures var r := Step(s, e);
      && RouterRuns.Forward(from, r.state.runtime.router.gate)
      && (r.state.wire.connected ==>
            && Generation(from.word) < RouterRuns.LastReserved(r.state.runtime.router.gate.log)
            && (s.wire.connected || (e.Begin? && r.error.None?)))
  {
    hide Inv, Step, RuntimeOk, RouterRuns.LastReserved;
    StepInv(s, e);
    ForwardTransitive(from, s.runtime.router.gate, Step(s, e).state.runtime.router.gate);
    if e.Begin? { StepIsBegin(s, e); }
  }

  lemma StepIsBegin(s: ClientState, e: ClientEvent)
    requires Inv(s) && e.Begin?
    ensures var r := Step(s, e);
      && (!s.runtime.CanBegin() ==> r.state == s)
      && (s.runtime.CanBegin() && r.error.Some? ==> Closed(r.state))
      && (r.error.None? ==>
            Generation(s.runtime.router.gate.word) < RouterRuns.LastReserved(r.state.runtime.router.gate.log))
  {
    hide Inv, ClientState.Begin, RouterRuns.LastReserved;
    BeginOk(s, e.target, e.nowMs, e.answers);
  }

  /** Since the transport was gone, only a newer request can have brought it back. */
  lemma {:induction false} HeldByANewerRequest(start: ClientState, events: seq<ClientEvent>, i: nat, j: nat)
    requires Initial(start) && i <= j <= |events| && !Run(start, events[..i]).wire.connected
    ensures var s, t := Run(start, events[..i]), Run(start, events[..j]);
      && RouterRuns.Forward(s.runtime.router.gate, t.runtime.router.gate)
      && (t.wire.connected ==>
            && Generation(s.runtime.router.gate.word) < RouterRuns.LastReserved(t.runtime.router.gate.log)
            && exists k :: i <= k < j && BeginsAt(start, events, k))
    decreases j
  {
    hide Inv, Step, RouterRuns.LastReserved, RouterRuns.Forward;
    var from := Run(start, events[..i]).runtime.router.gate;
    if i == j {
      RouterRuns.ForwardReflexive(from);
    } else {
      HeldByANewerRequest(start, events, i, j - 1);
      assert events[..j][..j - 1] == events[..j - 1];
      AlwaysInv(start, events[..j - 1]);
      var s, e := Run(start, events[..j - 1]), events[j - 1];
      HoldStep(from, s, e);
      if e.Begin? && Step(s, e).error.None? { assert BeginsAt(start, events, j - 1); }
    }
  }

  ghost predicate BeginsAt(start: ClientState, events: seq<ClientEvent>, k: int) {
    0 <= k < |events| && events[k].Begin? && Step(Run(start, events[..k]), events[k]).error.None?
  }

  /** No input without a new handoff: a send that succeeds after the transport was gone
      belongs to a request reserved, and then activated, after that point. */
  lemma SendingNeedsANewHandoff(start: ClientState, events: seq<ClientEvent>, i: nat, j: nat)
    requires Initial(start) && i <= j < |events| && !Run(start, events[..i]).wire.connected
    requires events[j].SendInput? || events[j].SendMotion?
    requires Step(Run(start, events[..j]), events[j]).error.None?
    ensures exists k :: i <= k < j && BeginsAt(start, events, k)
    ensures FullHandoff(Run(start, events[..i]).runtime.router.gate.log,
                        Run(start, events[..j]).runtime.router.gate.log)
  {
    hide ClientState.SendInput, ClientState.SendMotion, RouterRuns.LastReserved, BeginsAt, FullHandoff, Inv,
         Gate.Consistent, Run;
    var s, t := Run(start, events[..i]), Run(start, events[..j]);
    AlwaysInv(start, events[..i]);
    AlwaysInv(start, events[..j]);
    if events[j].SendInput? { SendInputOk(t, events[j].event); } else { SendMotionOk(t, events[j].x, events[j].y); }
    HeldByANewerRequest(start, events, i, j);
    GateIsConsistent(s);
    GateIsConsistent(t);
    var q := OpenStreamWasActivated(t);
    HandoffPositions(s.runtime.router.gate, t.runtime.router.gate, q);
  }

  lemma GateIsConsistent(s: ClientState)
    requires Inv(s)
    ensures s.runtime.router.gate.Consistent()
  {
  }

  lemma OpenStreamWasActivated(s: ClientState) returns (q: nat)
    requires Inv(s) && s.wire.inputOpen
    ensures s.wire.connected
    ensures var log := s.runtime.router.gate.log; q < |log| && log[q] == Activated(RouterRuns.LastReserved(log))
  {
    hide RuntimeRuns.Coupled, RouterRuns.LastReserved;
    var log := s.runtime.router.gate.log;
    q :| q < |log| && log[q] == Activated(RouterRuns.LastReserved(log));
  }
}
