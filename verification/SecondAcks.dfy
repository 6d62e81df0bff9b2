/** One of the errors after which the client does not fail closed, as a run: the peer
    acknowledges the same commit twice. */
module SecondAcks {
  import opened Base
  import Routing
  import RuntimeRuns
  import Handshakes
  import opened Runtime
  import opened Clients
  import opened ClientRuns

  const Lucky := Fate(true, Some(7), Routing.Hooks(0, 0, 0, 0))
  const Willing := Routing.Answers(None, None, None)
  const Agreed := Handshakes.SessionId(1, 2, 7)
  const FirstBoot := ClientState(InitialRuntime(1, "windows"), Unconnected, [], false, None, 0, _ => Lucky)

  /** A handoff with a peer that acknowledges the commit twice. */
  const DoubleAck: seq<ClientEvent> := [
    Begin(Target("mac", "mac-main", 1), 0, Willing),
    Arrives(Handshakes.Ready(3, 2, true, "mac-main", 1)),
    Poll(1, true, Willing, []),
    Arrives(Handshakes.CommitAck(Agreed)),
    Poll(2, true, Willing, []),
    Arrives(Handshakes.CommitAck(Agreed)),
    Poll(3, true, Willing, [])]

  const Calm := Routing.Hooks(0, 0, 0, 0)

  lemma RouterBegins()
    ensures var out := Routing.InitialRouter.GoRemote("mac", 0, Willing, Calm);
      && out.state.route == Routing.PreparingRemote("mac", 3, 2500, 1500, false, None, false)
      && out.state.gate.word == 3 && out.effects == [Routing.Prepare("mac", 3)] && out.error.None?
  {
    hide ValidText;
    assert ValidText("mac", Routing.MAX_PEER_ID_BYTES) by { PlainTextIsValid("mac", Routing.MAX_PEER_ID_BYTES); }
  }

  lemma RuntimeBegins()
    ensures var reply := FirstBoot.runtime.Begin("mac", "mac-main", 1, 0, CalmEnv);
      && reply.error.None? && |reply.actions| == 2 && reply.actions[0].SendControl? && reply.actions[1].SendControl?
      && reply.state.router == Routing.InitialRouter.GoRemote("mac", 0, Willing, Calm).state
      && reply.state.handshake == FirstBoot.runtime.handshake.(state := Handshakes.AwaitReady(3, "mac-main", 1))
      && reply.state.pendingRequest == None && reply.state.pendingSession == None
      && reply.state.display == Some(("mac-main", 1))
  {
    hide ValidText, Routing.RouterState.GoRemote;
    assert ValidText("mac-main", Handshakes.MAX_PEER_ID_BYTES) by {
      PlainTextIsValid("mac-main", Handshakes.MAX_PEER_ID_BYTES);
    }
    RouterBegins();
  }

  ghost predicate IsLucky(s: ClientState) { forall n: nat :: s.tape(n) == Lucky }

  lemma {:induction false} LuckySends(s: ClientState, actions: seq<Action>)
    requires IsLucky(s) && s.wire.connected && forall i :: 0 <= i < |actions| ==> actions[i].SendControl?
    ensures var r := s.Apply(actions);
      r.error.None? && r.state.runtime == s.runtime && r.state.nextPing == s.nextPing
      && r.state.wire == s.wire.(controls := r.state.wire.controls)
    decreases |actions|
  {
    hide ClientState.FailTransport;
    if actions != [] { LuckySends(s.Perform(actions[0]).0, actions[1..]); }
  }

  ghost predicate Waiting(s: ClientState) {
    s.inbound == [] && !s.overflowed && s.nextPing == None && s.wire.connected && IsLucky(s)
  }

  lemma LuckyBegin(s: ClientState, target: Target, nowMs: u64)
    requires s.runtime.CanBegin() && IsLucky(s)
    requires var reply := s.runtime.Begin(target.peerId, target.display, target.revision, nowMs, CalmEnv);
      reply.error.None? && !reply.state.IsActive() && forall i :: 0 <= i < |reply.actions| ==> reply.actions[i].SendControl?
    ensures var r := s.Begin(target, nowMs, Willing);
      && r.error.None? && Waiting(r.state)
      && r.state.runtime == s.runtime.Begin(target.peerId, target.display, target.revision, nowMs, CalmEnv).state
  {
    hide RuntimeState.Begin, ClientState.Apply;
    var u := s.(inbound := [], overflowed := false, nextPing := None);
    var t := u.Draw().(wire := u.wire.Connect(true).0);
    assert t.NextEnv(Willing) == CalmEnv;
    var reply := t.runtime.Begin(target.peerId, target.display, target.revision, nowMs, CalmEnv);
    LuckySends(t.Draw().(runtime := reply.state), reply.actions);
  }

  const CalmEnv := Env(Willing, Some(7), Calm)
  const ReadyFrame := Handshakes.Ready(3, 2, true, "mac-main", 1)
  const AckFrame := Handshakes.CommitAck(Agreed)

  ghost predicate Side(s: RuntimeState, state: Handshakes.ControllerState) {
    s.handshake == FirstBoot.runtime.handshake.(state := state)
  }

  ghost predicate Asked(s: RuntimeState) {
    && s.router.route == Routing.PreparingRemote("mac", 3, 2500, 1500, false, None, false)
    && s.router.gate.word == 3 && Side(s, Handshakes.AwaitReady(3, "mac-main", 1)) && s.display == Some(("mac-main", 1))
    && s.pendingRequest == None && s.pendingSession == None
  }

  ghost predicate Offered(s: RuntimeState) {
    && s.router.route == Routing.PreparingRemote("mac", 3, 2500, 1500, false, Some(7), false)
    && s.router.gate.word == 3 && Side(s, Handshakes.Prepared(3, Agreed)) && s.display == Some(("mac-main", 1))
    && s.pendingRequest == Some(3) && s.pendingSession == Some(Agreed)
  }

  ghost predicate Committed(s: RuntimeState) {
    && s.router.route == Routing.PreparingRemote("mac", 3, 2500, 1500, true, Some(7), true)
    && s.router.gate.word == 3 && Side(s, Handshakes.AwaitCommitAck(Agreed)) && s.display == Some(("mac-main", 1))
    && s.pendingRequest == Some(3) && s.pendingSession == Some(Agreed)
  }

  ghost predicate Opened(s: RuntimeState) {
    && s.router.route == Routing.RemoteActive("mac", 7) && s.router.gate.word == 2
    && Side(s, Handshakes.Active(Agreed)) && s.pendingRequest == None
    && s.inputSequence == 0 && s.motionSequence == 0 && s.display == Some(("mac-main", 1))
  }

  lemma TakesReady(s: RuntimeState)
    requires Asked(s)
    ensures var reply := s.HandleControl(ReadyFrame, 1, CalmEnv);
      reply.error.None? && reply.actions == [] && Offered(reply.state)
  {
    hide ValidText;
    assert ValidText("mac-main", Handshakes.MAX_PEER_ID_BYTES) by {
      PlainTextIsValid("mac-main", Handshakes.MAX_PEER_ID_BYTES);
    }
  }

  lemma Commits(s: RuntimeState)
    requires Offered(s)
    ensures var reply := s.Advance(1, true, CalmEnv);
      reply.error.None? && reply.actions == [SendControl(Handshakes.Commit(3, Agreed))] && Committed(reply.state)
  {
    hide RuntimeState.RouteEffects;
    var out := s.router.Advance(1, true, Willing, Calm);
    assert out.effects == [Routing.Commit(3, 7)];
    RuntimeRuns.OneEffectAlone(s.(router := out.state), out.effects[0]);
  }

  lemma TakesAck(s: RuntimeState)
    requires Committed(s)
    ensures var reply := s.HandleControl(AckFrame, 2, CalmEnv);
      reply.error.None? && reply.actions == [OpenInput(Agreed)] && Opened(reply.state)
  {
  }

  lemma Rests(s: RuntimeState)
    requires Opened(s)
    ensures s.Advance(2, true, CalmEnv) == Reply(s, [], None)
  {
  }

  /** One frame in the inbox, nothing else on its way. */
  lemma PollOne(s: ClientState, frame: Frame, nowMs: u64)
    requires s.inbound == [frame] && !s.overflowed
    ensures var one := s.(inbound := []).HandleFrame(frame, nowMs, Willing);
      s.Poll(nowMs, true, Willing, []) == if one.error.Some? then one else one.state.AdvanceNow(nowMs, true, Willing)
  {
    hide ClientState.HandleFrame, ClientState.AdvanceNow;
    assert s.inbound[1..] == [];
    var one := s.(inbound := []).HandleFrame(frame, nowMs, Willing);
    assert one.error.None? ==> one.state.Drain(nowMs, Willing, []) == ClientReply(one.state, None);
  }

  lemma PollsReady(s: ClientState)
    requires Waiting(s) && Asked(s.runtime)
    ensures var r := s.Offer(ReadyFrame).Poll(1, true, Willing, []);
      r.error.None? && Waiting(r.state) && Committed(r.state.runtime)
  {
    hide RuntimeState.HandleControl, RuntimeState.Advance, ClientState.Poll;
    PollOne(s.Offer(ReadyFrame), ReadyFrame, 1);
    TakesReady(s.runtime);
    var handled := s.HandleFrame(ReadyFrame, 1, Willing).state;
    assert s.Offer(ReadyFrame).(inbound := []) == s;
    Commits(handled.runtime);
    var reply := handled.runtime.Advance(1, true, CalmEnv);
    LuckySends(handled.Draw().(runtime := reply.state), reply.actions);
  }

  lemma PollsAck(s: ClientState)
    requires Waiting(s) && Committed(s.runtime)
    ensures var r := s.Offer(AckFrame).Poll(2, true, Willing, []);
      && r.error.None? && r.state.inbound == [] && !r.state.overflowed && Opened(r.state.runtime)
      && r.state.wire.connected && r.state.wire.inputOpen && IsLucky(r.state)
  {
    hide RuntimeState.HandleControl, RuntimeState.Advance, ClientState.Poll;
    PollOne(s.Offer(AckFrame), AckFrame, 2);
    TakesAck(s.runtime);
    assert s.Offer(AckFrame).(inbound := []) == s;
    var reply := s.runtime.HandleControl(AckFrame, 2, CalmEnv);
    var t := s.Draw().(runtime := reply.state);
    assert reply.actions[1..] == [];
    assert t.Apply(reply.actions) == ClientReply(t.Perform(OpenInput(Agreed)).0, None);
    Rests(t.runtime);
  }

  lemma BeginsAsked()
    ensures Waiting(Step(Run(FirstBoot, DoubleAck[..0]), DoubleAck[0]).state)
    ensures Asked(Step(Run(FirstBoot, DoubleAck[..0]), DoubleAck[0]).state.runtime)
  {
    hide ClientState.Begin, RuntimeState.Begin, Routing.RouterState.GoRemote;
    RuntimeBegins();
    RouterBegins();
    LuckyBegin(FirstBoot, Target("mac", "mac-main", 1), 0);
  }

  lemma SessionOpens()
    ensures var s := Run(FirstBoot, DoubleAck[..5]);
      s.inbound == [] && !s.overflowed && Opened(s.runtime) && s.wire.connected && s.wire.inputOpen && IsLucky(s)
  {
    hide ClientState.Poll, ClientState.Begin, Waiting, Asked, Committed, Run;
    BeginsAsked();
    RunStep(FirstBoot, DoubleAck, 0);
    PollsReady(Run(FirstBoot, DoubleAck[..1]));
    RunStep(FirstBoot, DoubleAck, 1);
    RunStep(FirstBoot, DoubleAck, 2);
    PollsAck(Run(FirstBoot, DoubleAck[..3]));
    RunStep(FirstBoot, DoubleAck, 3);
    RunStep(FirstBoot, DoubleAck, 4);
  }

  /** A second acknowledgement costs the transport, but neither the gate nor the session
      learns of it: the machine stays remote on a connection that is gone. */
  lemma SecondAckLeavesTheGateRemote()
    ensures Initial(FirstBoot)
    ensures var s := Run(FirstBoot, DoubleAck);
      !s.wire.connected && !s.runtime.router.gate.IsLocal() && s.runtime.IsActive()
    ensures Step(Run(FirstBoot, DoubleAck[..6]), DoubleAck[6]).error == Some(RuntimeFailed(NotActive))
  {
    hide ClientState.Poll, ClientState.Begin, ValidText;
    SessionOpens();
    var s5, s6 := Run(FirstBoot, DoubleAck[..5]), Run(FirstBoot, DoubleAck[..6]);
    RunStep(FirstBoot, DoubleAck, 5);
    RunStep(FirstBoot, DoubleAck, 6);
    PollOne(s6, AckFrame, 3);
    assert s6.(inbound := []) == s5;
    assert DoubleAck[..7] == DoubleAck;
  }

  lemma RunStep(start: ClientState, events: seq<ClientEvent>, k: nat)
    requires k < |events|
    ensures Run(start, events[..k + 1]) == Step(Run(start, events[..k]), events[k]).state
  {
    assert events[..k + 1][..k] == events[..k];
  }
}
