/** What the client puts on its transport: on the input stream exactly what it was told to
    send, on the control stream what the runtime asked for, and a ping in time. */
module Sendings {
  import opened Base
  import Gates
  import Routing
  import RouterRuns
  import Handshakes
  import opened Inputs
  import opened InputRuns
  import opened Runtime
  import RuntimeRuns
  import opened Clients
  import opened ClientRuns

  // ----- the input stream

  /** What the caller sent with success, told from the call and its outcome alone. */
  function SentBy(e: ClientEvent, error: Option<ClientError>): seq<Deed> {
    match e
    case SendInput(event) => if error.None? then [Struck(event)] else []
    case SendMotion(x, y) => if error.None? then [Moved(x, y)] else []
    case _ => []
  }

  /** Everything sent since the input stream was opened last, oldest first. */
  function Sent(start: ClientState, events: seq<ClientEvent>): seq<Deed> {
    if events == [] then []
    else
      var before := events[..|events| - 1];
      var s, e := ClientRuns.Run(start, before), events[|events| - 1];
      var r := ClientRuns.Step(s, e);
      if !s.wire.inputOpen && r.state.wire.inputOpen then [] else Sent(start, before) + SentBy(e, r.error)
  }

  /** The stream holds the frame of a deed, sent after `struck` strokes and `moved` motions. */
  predicate HoldsFrame(wire: Wire, deed: Deed, struck: nat, moved: nat) {
    match deed
    case Struck(event) =>
      struck < |wire.inputs| && wire.inputs[struck].sequence == struck + 1
      && Conveys(wire.inputs[struck].event, event, moved)
    case Moved(x, y) =>
      moved < |wire.motions| && wire.motions[moved].sequence == moved + 1
      && wire.motions[moved].requiredReliableSequence == struck
      && wire.motions[moved].x == x && wire.motions[moved].y == y
  }

  ghost predicate Took(wire: Wire, deeds: seq<Deed>) {
    && |wire.inputs| == StruckCount(deeds) && |wire.motions| == MovedCount(deeds)
    && forall i :: 0 <= i < |deeds| ==> HoldsFrame(wire, deeds[i], StruckCount(deeds[..i]), MovedCount(deeds[..i]))
  }

  lemma TookMore(wire: Wire, wire': Wire, deeds: seq<Deed>, deed: Deed)
    requires Took(wire, deeds) && wire.inputs <= wire'.inputs && wire.motions <= wire'.motions
    requires |wire'.inputs| == |wire.inputs| + (if deed.Struck? then 1 else 0)
    requires |wire'.motions| == |wire.motions| + (if deed.Moved? then 1 else 0)
    requires HoldsFrame(wire', deed, |wire.inputs|, |wire.motions|)
    ensures Took(wire', deeds + [deed])
  {
    hide Conveys;
    var more := deeds + [deed];
    assert more[..|deeds|] == deeds;
    forall i | 0 <= i < |more|
      ensures HoldsFrame(wire', more[i], StruckCount(more[..i]), MovedCount(more[..i]))
    {
      if i < |deeds| {
        assert more[..i] == deeds[..i];
        assert HoldsFrame(wire, deeds[i], StruckCount(deeds[..i]), MovedCount(deeds[..i]));
      }
    }
  }

  /** No call but a send touches an open stream; one that opens is empty; one that closes
      is gone with the transport. */
  ghost predicate Streams(s: ClientState, t: ClientState) {
    && (t.wire.inputOpen ==>
          && t.wire.inputs == (if s.wire.inputOpen then s.wire.inputs else [])
          && t.wire.motions == (if s.wire.inputOpen then s.wire.motions else []))
    && (s.wire.inputOpen && !t.wire.inputOpen ==> !t.wire.connected)
  }

  lemma StreamsThen(a: ClientState, b: ClientState, c: ClientState)
    requires Streams(a, b) && Streams(b, c) && Inv(b) && Inv(c)
    requires c.wire.connected ==> b.wire.connected
    ensures Streams(a, c)
  {
    hide RuntimeOk, WellNumbered;
  }

  /** A step of the runtime that is not a send, and the actions it asks for. */
  lemma DrivenStreams(s0: ClientState, reply: Reply, s: ClientState)
    requires Inv(s0) && reply.error.None?
    requires RuntimeOnward(s0.runtime, reply.state) && ActionsFit(s0.runtime, reply)
    requires s.runtime == reply.state && s.wire == s0.wire
    ensures Streams(s0, s.Apply(reply.actions).state)
  {
    hide RuntimeOk, RouterRuns.Forward, RuntimeRuns.SameNewest, WellNumbered, ClientState.FailTransport;
    DrivenOk(s0, reply, s);
    ActiveIsRemote(s0.runtime);
    ActiveIsRemote(reply.state);
    if !s0.runtime.IsActive() && reply.state.IsActive() {
      var (t, ok) := s.Perform(reply.actions[0]);
      assert reply.actions[1..] == [];
    } else {
      ApplyQuiet(s, reply.actions);
    }
  }

  lemma FrameStreams(s: ClientState, frame: Frame, nowMs: u64, answers: Routing.Answers)
    requires Inv(s)
    ensures Streams(s, s.HandleFrame(frame, nowMs, answers).state)
  {
    hide Inv, RuntimeOnward, ActionsFit, RuntimeState.HandleControl, ClientState.Apply;
    var reply := s.runtime.HandleControl(frame, nowMs, s.NextEnv(answers));
    InvHasRuntime(s);
    RuntimeIsOk(s);
    ControlFits(s.runtime, frame, nowMs, s.NextEnv(answers));
    if reply.error.None? { DrivenStreams(s, reply, s.Draw().(runtime := reply.state)); }
  }

  lemma RuntimeIsOk(s: ClientState)
    requires Inv(s)
    ensures RuntimeOk(s.runtime)
  {
  }

  lemma {:induction false} DrainStreams(s: ClientState, nowMs: u64, answers: Routing.Answers, late: seq<seq<Frame>>)
    requires Inv(s)
    ensures Streams(s, s.Drain(nowMs, answers, late).state)
    decreases |late|, |if late == [] then s.inbound else []|
  {
    hide Inv, RuntimeOnward, ClientState.HandleFrame, ClientState.OfferAll;
    var t := if late == [] then s else s.OfferAll(late[0]);
    if late != [] { OfferAllKeeps(s, late[0]); }
    if t.inbound != [] {
      var u := t.(inbound := t.inbound[1..]);
      InboxIsApart(s, u);
      FrameOk(u, t.inbound[0], nowMs, answers);
      FrameStreams(u, t.inbound[0], nowMs, answers);
      var one := u.HandleFrame(t.inbound[0], nowMs, answers);
      if one.error.None? {
        var rest := if late == [] then [] else late[1..];
        DrainOk(one.state, nowMs, answers, rest);
        DrainStreams(one.state, nowMs, answers, rest);
        StreamsThen(s, one.state, one.state.Drain(nowMs, answers, rest).state);
      }
    }
  }

  lemma PingStreams(s: ClientState, nowMs: u64)
    requires Inv(s)
    ensures Streams(s, s.PollPing(nowMs).state)
  {
    hide RuntimeOnward, ActionsFit, WellNumbered, RouterRuns.Forward, ClientState.Apply;
    RuntimeIsOk(s);
    if s.runtime.IsActive() {
      RuntimePings(s.runtime);
      var ping := s.runtime.Ping();
      if ping.error.None? { DrivenStreams(s, ping, s.(nextPing := Some(Due(s, nowMs)), runtime := ping.state)); }
    }
  }

  lemma AdvanceStreams(s: ClientState, nowMs: u64, keysReleased: bool, answers: Routing.Answers)
    requires Inv(s)
    ensures Streams(s, s.AdvanceNow(nowMs, keysReleased, answers).state)
  {
    hide Inv, RuntimeOnward, ActionsFit, RuntimeState.Advance, ClientState.Apply, ClientState.PollPing;
    RuntimeIsOk(s);
    AdvanceFits(s.runtime, nowMs, keysReleased, s.NextEnv(answers));
    var reply := s.runtime.Advance(nowMs, keysReleased, s.NextEnv(answers));
    var t := s.Draw().(runtime := reply.state);
    DrivenOk(s, reply, t);
    DrivenStreams(s, reply, t);
    var applied := t.Apply(reply.actions);
    if applied.error.None? {
      PingOk(applied.state, nowMs);
      PingStreams(applied.state, nowMs);
      GoodHolds(applied.state, applied.state.PollPing(nowMs));
      StreamsThen(s, applied.state, applied.state.PollPing(nowMs).state);
    }
  }

  lemma GoodHolds(s: ClientState, r: ClientReply)
    requires Good(s, r, false)
    ensures r.state.wire.connected ==> s.wire.connected
  {
  }

  lemma PollStreams(s: ClientState, nowMs: u64, keysReleased: bool, answers: Routing.Answers, late: seq<seq<Frame>>)
    requires Inv(s)
    ensures Streams(s, s.Poll(nowMs, keysReleased, answers, late).state)
  {
    hide Inv, Onward, ClientState.Drain, ClientState.AdvanceNow, MeetsStray, Arriving, Echoed;
    if !s.overflowed {
      DrainOk(s, nowMs, answers, late);
      DrainStreams(s, nowMs, answers, late);
      var drained := s.Drain(nowMs, answers, late);
      if drained.error.None? {
        AdvanceOk(drained.state, nowMs, keysReleased, answers);
        AdvanceStreams(drained.state, nowMs, keysReleased, answers);
        GoodHolds(drained.state, drained.state.AdvanceNow(nowMs, keysReleased, answers));
        StreamsThen(s, drained.state, drained.state.AdvanceNow(nowMs, keysReleased, answers).state);
      }
    }
  }

  lemma BeginStreams(s: ClientState, target: Target, nowMs: u64, answers: Routing.Answers)
    requires Inv(s)
    ensures Streams(s, s.Begin(target, nowMs, answers).state)
  {
    hide RuntimeOk, ClientState.Begin, RouterRuns.LastReserved, RouterRuns.Forward, WellNumbered;
    BeginOk(s, target, nowMs, answers);
    if s.runtime.CanBegin() {
      RuntimeIsOk(s);
      LocalIsRestored(s);
      BegunIsInactive(s, target, nowMs, answers);
    } else {
      hide Closed, Restored;
    }
  }

  lemma BegunIsInactive(s: ClientState, target: Target, nowMs: u64, answers: Routing.Answers)
    requires Inv(s) && s.runtime.CanBegin()
    ensures var r := s.Begin(target, nowMs, answers);
      !r.state.wire.inputOpen && (r.error.None? ==> r.state.nextPing.None?)
  {
    hide RuntimeOk, RouterRuns.LastReserved, RouterRuns.Forward, RuntimeState.Begin, ClientState.Apply,
         ClientState.FailTransport, Closed;
    RuntimeIsOk(s);
    LocalIsRestored(s);
    var u := s.(inbound := [], overflowed := false, nextPing := None);
    var (wire', ok) := u.wire.Connect(u.Next().sent);
    var t := u.Draw().(wire := wire');
    if ok {
      var env := t.NextEnv(answers);
      BeginFits(t.runtime, target, nowMs, env);
      var reply := t.runtime.Begin(target.peerId, target.display, target.revision, nowMs, env);
      var v := t.Draw().(runtime := reply.state);
      if reply.error.None? {
        ApplyQuiet(v, reply.actions);
        if v.Apply(reply.actions).error.Some? { ClosedIsClosed(v.Apply(reply.actions).state); }
      }
    }
  }

  lemma ClosedIsClosed(s: ClientState)
    requires Closed(s)
    ensures !s.wire.inputOpen && !s.wire.connected
  {
  }

  lemma GoLocalStreams(s: ClientState, reason: Routing.ReturnReason)
    requires Inv(s)
    ensures Streams(s, s.GoLocal(reason).state)
  {
    hide ClientState.GoLocal, Inv;
    GoLocalOk(s, reason);
  }

  lemma OtherStreams(s: ClientState, e: ClientEvent)
    requires Inv(s) && !e.SendInput? && !e.SendMotion?
    ensures Streams(s, ClientRuns.Step(s, e).state)
  {
    hide Inv, ClientState.Begin, ClientState.Poll, ClientState.GoLocal;
    match e
    case Begin(target, now, answers) => BeginStreams(s, target, now, answers);
    case Poll(now, released, answers, late) => PollStreams(s, now, released, answers, late);
    case GoLocal(reason) => GoLocalStreams(s, reason);
    case _ =>
  }

  /** A send that succeeds adds the frame that says what was sent; one that fails leaves
      the stream alone or closes it. */
  lemma SendStreams(s: ClientState, e: ClientEvent)
    requires Inv(s) && (e.SendInput? || e.SendMotion?)
    ensures var r := ClientRuns.Step(s, e); var deed := SentBy(e, r.error);
      if r.error.Some? then r.state == s || !r.state.wire.inputOpen
      else
        && s.wire.inputOpen && |deed| == 1 && HoldsFrame(r.state.wire, deed[0], |s.wire.inputs|, |s.wire.motions|)
        && s.wire.inputs <= r.state.wire.inputs && s.wire.motions <= r.state.wire.motions
        && |r.state.wire.inputs| == |s.wire.inputs| + (if deed[0].Struck? then 1 else 0)
        && |r.state.wire.motions| == |s.wire.motions| + (if deed[0].Moved? then 1 else 0)
  {
    hide RuntimeOk, Closed, ClientState.FailTransport, CheckCritical, CheckMotion, WellNumbered, Onward, Restored;
    if e.SendInput? { SendInputOk(s, e.event); } else { SendMotionOk(s, e.x, e.y); }
    if ClientRuns.Step(s, e).error == Some(Transport) { ClosedIsClosed(ClientRuns.Step(s, e).state); }
  }

  lemma TookStep(s: ClientState, e: ClientEvent, deeds: seq<Deed>)
    requires Inv(s) && (s.wire.inputOpen ==> Took(s.wire, deeds))
    ensures var r := ClientRuns.Step(s, e);
      r.state.wire.inputOpen ==>
        Took(r.state.wire, if !s.wire.inputOpen then [] else deeds + SentBy(e, r.error))
  {
    hide Inv, ClientRuns.Step, HoldsFrame;
    var r := ClientRuns.Step(s, e);
    if e.SendInput? || e.SendMotion? {
      SendStreams(s, e);
      if r.error.None? {
        var deed := SentBy(e, r.error);
        assert deed == [deed[0]];
        TookMore(s.wire, r.state.wire, deeds, deed[0]);
      } else {
        assert deeds + [] == deeds;
      }
    } else {
      OtherStreams(s, e);
      assert deeds + [] == deeds;
      if r.state.wire.inputOpen {
        if s.wire.inputOpen { TookAlike(s.wire, r.state.wire, deeds); } else { NothingTaken(r.state.wire); }
      }
    }
  }

  lemma TookAlike(wire: Wire, wire': Wire, deeds: seq<Deed>)
    requires Took(wire, deeds) && wire'.inputs == wire.inputs && wire'.motions == wire.motions
    ensures Took(wire', deeds)
  {
    hide Conveys, StruckCount, MovedCount;
  }

  lemma NothingTaken(wire: Wire)
    requires wire.inputs == [] && wire.motions == []
    ensures Took(wire, [])
  {
  }

  /** While the input stream is open, it holds exactly what was sent since it was opened:
      each stroke unchanged, with its number and that of the last motion before it, and
      each motion with its point. */
  lemma {:induction false} StreamIsWhatWasSent(start: ClientState, events: seq<ClientEvent>)
    requires ClientRuns.Initial(start)
    ensures var s := ClientRuns.Run(start, events); s.wire.inputOpen ==> Took(s.wire, Sent(start, events))
  {
    hide Inv, Took, ClientRuns.Step, RuntimeRuns.Initial;
    if events != [] {
      var before := events[..|events| - 1];
      StreamIsWhatWasSent(start, before);
      AlwaysInv(start, before);
      TookStep(ClientRuns.Run(start, before), events[|events| - 1], Sent(start, before));
    }
  }

  // ----- the control stream

  /** Actions that succeed put their control frames on the wire, all of them and in order;
      what was sent before a failure stays sent. */
  lemma {:induction false} ControlsInOrder(s: ClientState, actions: seq<Action>)
    ensures var r := s.Apply(actions);
      && s.wire.controls <= r.state.wire.controls
      && (r.error.None? ==> r.state.wire.controls == s.wire.controls + FramesOf(actions))
    decreases |actions|
  {
    hide ClientState.FailTransport;
    if actions != [] {
      var (t, ok) := s.Perform(actions[0]);
      if ok {
        ControlsInOrder(t, actions[1..]);
      } else {
        ExtendsOnly(t);
      }
    }
  }

  lemma ExtendsOnly(s: ClientState)
    ensures s.wire.controls <= s.FailTransport().wire.controls
  {
    hide RuntimeState.GoLocal;
    var reply := s.runtime.GoLocal(Routing.NetworkFailed, s.Next().hooks.load);
    PartingExtends(s.Draw().(runtime := reply.state), reply.actions);
  }

  lemma {:induction false} PartingExtends(s: ClientState, actions: seq<Action>)
    ensures s.wire.controls <= s.Parting(actions).wire.controls
    decreases |actions|
  {
    if actions != [] {
      var t := if actions[0].SendControl? then s.Perform(actions[0]).0 else s;
      assert s.wire.controls <= t.wire.controls;
      PartingExtends(t, actions[1..]);
    }
  }

  /** A begin that succeeds has greeted the peer and asked for the target's display under
      a new request, and routes to the target's peer. */
  lemma BeginAsksForTheTarget(s: ClientState, target: Target, nowMs: u64, answers: Routing.Answers)
    requires Inv(s) && s.Begin(target, nowMs, answers).error.None?
    ensures var t := s.Begin(target, nowMs, answers).state; var c := s.runtime.handshake;
      && t.inbound == [] && !t.overflowed
      && t.runtime.router.route.PreparingRemote? && t.runtime.router.route.peer == target.peerId
      && t.wire.controls == s.wire.controls
         + [Handshakes.Hello(c.localBoot, c.localPeerId, Handshakes.Controller, Handshakes.REQUIRED_CAPABILITIES),
            Handshakes.Prepare(t.runtime.router.route.request, target.display, target.revision)]
  {
    hide RuntimeOk, RouterRuns.LastReserved, RouterRuns.Forward, RuntimeState.Begin, ClientState.Apply, Closed,
         ClientState.FailTransport;
    RuntimeIsOk(s);
    var u := s.(inbound := [], overflowed := false, nextPing := None);
    var (wire', ok) := u.wire.Connect(u.Next().sent);
    var t := u.Draw().(wire := wire');
    var env := t.NextEnv(answers);
    BeginFits(t.runtime, target, nowMs, env);
    RuntimeAsks(t.runtime, target, nowMs, env);
    var reply := t.runtime.Begin(target.peerId, target.display, target.revision, nowMs, env);
    var v := t.Draw().(runtime := reply.state);
    ApplyQuiet(v, reply.actions);
    ControlsInOrder(v, reply.actions);
  }

  /** An inbox that ran over fails one poll, and no other poll fails for that. */
  lemma OverflowIsReportedOnce(s: ClientState, nowMs: u64, keysReleased: bool, answers: Routing.Answers,
                               late: seq<seq<Frame>>)
    requires Inv(s)
    ensures var r := s.Poll(nowMs, keysReleased, answers, late);
      && (r.error == Some(InboundOverflow) <==> s.overflowed)
      && (s.overflowed ==> !r.state.overflowed)
  {
    hide Inv, Onward, Closed, Restored, ClientState.Drain, ClientState.AdvanceNow, ClientState.FailTransport,
         MeetsStray,
         Arriving, Echoed;
    if !s.overflowed {
      DrainErrors(s, nowMs, answers, late);
      DrainOk(s, nowMs, answers, late);
      var drained := s.Drain(nowMs, answers, late);
      if drained.error.None? { AdvanceOk(drained.state, nowMs, keysReleased, answers); }
    }
  }

  lemma {:induction false} DrainErrors(s: ClientState, nowMs: u64, answers: Routing.Answers, late: seq<seq<Frame>>)
    ensures s.Drain(nowMs, answers, late).error != Some(InboundOverflow)
    decreases |late|, |if late == [] then s.inbound else []|
  {
    hide ClientState.HandleFrame, ClientState.OfferAll;
    var t := if late == [] then s else s.OfferAll(late[0]);
    if t.inbound != [] {
      var u := t.(inbound := t.inbound[1..]);
      FrameErrors(u, t.inbound[0], nowMs, answers);
      var one := u.HandleFrame(t.inbound[0], nowMs, answers);
      if one.error.None? { DrainErrors(one.state, nowMs, answers, if late == [] then [] else late[1..]); }
    }
  }

  lemma FrameErrors(s: ClientState, frame: Frame, nowMs: u64, answers: Routing.Answers)
    ensures s.HandleFrame(frame, nowMs, answers).error != Some(InboundOverflow)
  {
    hide RuntimeState.HandleControl, ClientState.Apply;
    var reply := s.runtime.HandleControl(frame, nowMs, s.NextEnv(answers));
    ApplyErrors(s.Draw().(runtime := reply.state), reply.actions);
  }

  lemma RuntimeAsks(s: RuntimeState, target: Target, nowMs: u64, env: Env)
    requires RuntimeOk(s) && s.CanBegin()
    ensures var reply := s.Begin(target.peerId, target.display, target.revision, nowMs, env); var c := s.handshake;
      reply.error.None? ==>
        && reply.state.router.route.PreparingRemote? && reply.state.router.route.peer == target.peerId
        && FramesOf(reply.actions)
           == [Handshakes.Hello(c.localBoot, c.localPeerId, Handshakes.Controller, Handshakes.REQUIRED_CAPABILITIES),
               Handshakes.Prepare(reply.state.router.route.request, target.display, target.revision)]
  {
    hide RouterRuns.RouterOk, ValidText, Gates.Gate.Hooked, Gates.Gate.Reserve, Gates.Gate.RequestLocal,
         RouterRuns.LastReserved;
    RuntimeRuns.BeginCoupled(s, target.peerId, target.display, target.revision, nowMs, env);
    var out := s.router.GoRemote(target.peerId, nowMs, env.answers, env.hooks);
    if out.effects != [] {
      var hs := s.handshake.Begin(out.effects[0].request, target.display, target.revision);
      if hs.error.None? { TwoFrames(hs.frames[0], hs.frames[1]); }
    }
  }

  lemma TwoFrames(a: Frame, b: Frame)
    ensures FramesOf(SendAll([a, b])) == [a, b]
  {
    var last := SendAll([a, b])[1..];
    assert last == [SendControl(b)] && last[1..] == [];
    assert FramesOf(last) == [b] + FramesOf([]);
  }

  // ----- pings

  function PingOf(s: ClientState): Frame
    requires s.runtime.IsActive() && s.runtime.handshake.pingSequence < U64_MAX
  {
    Handshakes.Ping(s.runtime.handshake.state.sessionId, s.runtime.handshake.pingSequence + 1)
  }

  /** The next ping is scheduled for `due` by now, or the one that was due has left. */
  ghost predicate Pings(s: ClientState, r: ClientReply, due: u64, nowMs: u64) {
    if nowMs < due || r.error.Some? then
      && r.state.wire.controls == s.wire.controls && r.state.nextPing == Some(due)
    else
      && s.runtime.IsActive() && s.runtime.handshake.pingSequence < U64_MAX
      && r.state.wire.controls == s.wire.controls + [PingOf(s)]
      && r.state.nextPing == Some(SaturatingAdd(nowMs, PING_INTERVAL_MS))
  }

  lemma PollPingPings(s: ClientState, nowMs: u64)
    requires Inv(s) && s.runtime.IsActive() && s.PollPing(nowMs).state.wire.connected
    ensures Pings(s, s.PollPing(nowMs), Due(s, nowMs), nowMs)
    ensures s.PollPing(nowMs).state.runtime.IsActive()
  {
    hide RuntimeOk, WellNumbered, ClientState.FailTransport, ClientState.Apply, Closed;
    PingOk(s, nowMs);
    var ping := s.runtime.Ping();
    var t := s.(nextPing := Some(Due(s, nowMs)), runtime := ping.state);
    if ping.error.None? && nowMs >= Due(s, nowMs) {
      RuntimeIsOk(s);
      RuntimePings(s.runtime);
      DrivenOk(s, ping, t);
      if t.Apply(ping.actions).error.Some? { ClosedIsClosed(t.Apply(ping.actions).state); }
      assert ping.actions == [SendControl(PingOf(s))];
      AppliesOne(t, PingOf(s));
    }
  }

  lemma AppliesOne(s: ClientState, frame: Frame)
    ensures var r := s.Apply([SendControl(frame)]);
      r.error.None? ==> r.state.wire.controls == s.wire.controls + [frame]
  {
    hide ClientState.FailTransport;
  }

  /** A poll of an open session that stays open: nothing but the ping leaves, if it is due. */
  lemma OpenPollPings(s: ClientState, nowMs: u64, keysReleased: bool, answers: Routing.Answers, late: seq<seq<Frame>>)
    requires Inv(s) && s.wire.inputOpen && s.Poll(nowMs, keysReleased, answers, late).state.wire.inputOpen
    ensures Pings(s, s.Poll(nowMs, keysReleased, answers, late), Due(s, nowMs), nowMs)
  {
    hide Inv, Onward, ClientState.Drain, ClientState.FailTransport, ClientState.PollPing, MeetsStray, Arriving, Echoed,
         Closed, RuntimeState.Advance, HookedLocal;
    OpenIsActive(s);
    if s.overflowed {
      FailedOk(s, s.(overflowed := false)) by { InboxIsApart(s, s.(overflowed := false)); }
      ClosedIsClosed(s.(overflowed := false).FailTransport());
    } else {
      DrainOk(s, nowMs, answers, late);
      DrainLeavesPings(s, nowMs, answers, late);
      var drained := s.Drain(nowMs, answers, late);
      if drained.error.None? {
        AdvanceOk(drained.state, nowMs, keysReleased, answers);
        OpenAdvancePings(drained.state, nowMs, keysReleased, answers);
      }
    }
  }

  lemma OpenIsActive(s: ClientState)
    requires Inv(s)
    ensures s.wire.inputOpen ==> s.runtime.IsActive() && s.wire.connected
    ensures s.wire.connected && s.runtime.IsActive() ==> s.wire.inputOpen
  {
  }

  lemma OpenAdvancePings(s: ClientState, nowMs: u64, keysReleased: bool, answers: Routing.Answers)
    requires Inv(s) && s.runtime.IsActive() && s.AdvanceNow(nowMs, keysReleased, answers).state.wire.inputOpen
    ensures Pings(s, s.AdvanceNow(nowMs, keysReleased, answers), Due(s, nowMs), nowMs)
  {
    hide Inv, Onward, Closed, ClientState.FailTransport, ClientState.PollPing, HookedLocal, RuntimeState.Advance;
    RuntimeIsOk(s);
    AdvanceFits(s.runtime, nowMs, keysReleased, s.NextEnv(answers));
    AdvanceWhileActive(s, nowMs, keysReleased, answers);
    var reply := s.runtime.Advance(nowMs, keysReleased, s.NextEnv(answers));
    var t := s.Draw().(runtime := reply.state);
    DrivenOk(s, reply, t);
    if reply.state.IsActive() {
      assert t.Apply([]) == ClientReply(t, None);
      OpenIsActive(t.PollPing(nowMs).state) by { PingOk(t, nowMs); }
      PollPingPings(t, nowMs);
    } else {
      ApplyErrors(t, reply.actions);
      AdvanceOk(s, nowMs, keysReleased, answers);
      StaysInactive(s, t, reply.actions, nowMs);
    }
  }

  lemma StaysInactive(s: ClientState, t: ClientState, actions: seq<Action>, nowMs: u64)
    requires Inv(t.Apply(actions).state) && !t.runtime.IsActive()
    requires t.Apply(actions).error.None? ==> t.Apply(actions).state.runtime == t.runtime
    requires t.Apply(actions).error.Some? ==> Closed(t.Apply(actions).state)
    ensures var applied := t.Apply(actions);
      !(if applied.error.Some? then applied else applied.state.PollPing(nowMs)).state.wire.inputOpen
  {
    hide RuntimeOk, WellNumbered;
  }

  /** Before the session opens, no ping is scheduled on a transport that is held. */
  ghost predicate NoneScheduled(s: ClientState) {
    s.wire.connected && !s.runtime.IsActive() ==> s.nextPing.None?
  }

  lemma PollSchedules(s: ClientState, nowMs: u64, keysReleased: bool, answers: Routing.Answers, late: seq<seq<Frame>>)
    requires Inv(s)
    ensures var r := s.Poll(nowMs, keysReleased, answers, late);
      && NoneScheduled(r.state)
      && (NoneScheduled(s) && !s.wire.inputOpen && r.state.wire.inputOpen ==>
            r.state.nextPing == Some(SaturatingAdd(nowMs, PING_INTERVAL_MS)))
  {
    hide Inv, Onward, ClientState.Drain, ClientState.AdvanceNow, ClientState.FailTransport, MeetsStray, Arriving,
         Echoed,
         Closed;
    var r := s.Poll(nowMs, keysReleased, answers, late);
    OpenIsActive(s);
    if s.overflowed {
      FailedOk(s, s.(overflowed := false)) by { InboxIsApart(s, s.(overflowed := false)); }
      ClosedIsClosed(r.state);
    } else {
      DrainOk(s, nowMs, answers, late);
      DrainLeavesPings(s, nowMs, answers, late);
      var drained := s.Drain(nowMs, answers, late);
      if drained.error.None? {
        AdvanceOk(drained.state, nowMs, keysReleased, answers);
        AdvanceSchedules(drained.state, nowMs, keysReleased, answers);
        GoodHolds(s, drained);
        GoodHolds(drained.state, r);
        OpenIsActive(drained.state);
        OpenIsActive(r.state);
      }
    }
  }

  lemma AdvanceSchedules(s: ClientState, nowMs: u64, keysReleased: bool, answers: Routing.Answers)
    requires Inv(s)
    ensures var r := s.AdvanceNow(nowMs, keysReleased, answers);
      && NoneScheduled(r.state)
      && (r.state.wire.inputOpen && s.nextPing.None? ==>
            r.state.nextPing == Some(SaturatingAdd(nowMs, PING_INTERVAL_MS)))
  {
    hide Inv, Onward, Closed, ClientState.FailTransport, ClientState.PollPing, RuntimeState.Advance, ClientState.Apply;
    RuntimeIsOk(s);
    AdvanceFits(s.runtime, nowMs, keysReleased, s.NextEnv(answers));
    var reply := s.runtime.Advance(nowMs, keysReleased, s.NextEnv(answers));
    var t := s.Draw().(runtime := reply.state);
    DrivenOk(s, reply, t);
    ApplyErrors(t, reply.actions);
    var applied := t.Apply(reply.actions);
    if applied.error.None? {
      PingSchedules(applied.state, nowMs);
    } else {
      ClosedIsClosed(applied.state);
    }
  }

  lemma PingSchedules(s: ClientState, nowMs: u64)
    requires Inv(s)
    ensures var r := s.PollPing(nowMs);
      && NoneScheduled(r.state)
      && (r.state.wire.inputOpen && s.nextPing.None? ==>
            r.state.nextPing == Some(SaturatingAdd(nowMs, PING_INTERVAL_MS)))
  {
    hide Inv, Closed, ClientState.FailTransport, ClientState.Apply;
    PingOk(s, nowMs);
    OpenIsActive(s.PollPing(nowMs).state);
    if s.runtime.IsActive() && s.PollPing(nowMs).state.wire.connected { PollPingPings(s, nowMs); }
  }

  // ----- pings over runs

  /** When the stream was opened or the last ping left on it, whichever is later, told
      from the polls and what they put on the wire. */
  ghost function LastSign(start: ClientState, events: seq<ClientEvent>): Option<u64> {
    if events == [] then None
    else
      var before := events[..|events| - 1];
      var s, e := ClientRuns.Run(start, before), events[|events| - 1];
      var t := ClientRuns.Step(s, e).state;
      if e.Poll? && t.wire.inputOpen && (!s.wire.inputOpen || |t.wire.controls| > |s.wire.controls|) then Some(e.nowMs)
      else LastSign(start, before)
  }

  ghost predicate ScheduledFrom(s: ClientState, last: Option<u64>) {
    && NoneScheduled(s)
    && (s.wire.inputOpen ==>
          last.Some? && s.nextPing == Some(SaturatingAdd(last.value, PING_INTERVAL_MS)))
  }

  lemma PollKeepsSchedule(s: ClientState, e: ClientEvent, last: Option<u64>)
    requires Inv(s) && ScheduledFrom(s, last) && e.Poll?
    ensures var t := ClientRuns.Step(s, e).state;
      ScheduledFrom(t, if t.wire.inputOpen && (!s.wire.inputOpen || |t.wire.controls| > |s.wire.controls|)
                       then Some(e.nowMs) else last)
  {
    hide Inv, ClientState.Poll, NoneScheduled;
    PollSchedules(s, e.nowMs, e.keysReleased, e.answers, e.late);
    if s.wire.inputOpen && ClientRuns.Step(s, e).state.wire.inputOpen {
      OpenPollPings(s, e.nowMs, e.keysReleased, e.answers, e.late);
    }
  }

  lemma QuietKeepsSchedule(s: ClientState, e: ClientEvent, last: Option<u64>)
    requires Inv(s) && ScheduledFrom(s, last) && !e.Poll?
    ensures ScheduledFrom(ClientRuns.Step(s, e).state, last)
  {
    hide RuntimeOk, WellNumbered, ClientState.Begin, ClientState.GoLocal, ClientState.FailTransport, Closed, Onward,
         RouterRuns.Forward, RouterRuns.LastReserved;
    match e
    case Begin(target, now, answers) => BeginSchedules(s, target, now, answers);
    case GoLocal(reason) =>
      GoLocalOk(s, reason);
      ClosedIsClosed(s.GoLocal(reason).state);
    case SendInput(event) =>
      SendInputOk(s, event);
      if s.SendInput(event).error == Some(Transport) { ClosedIsClosed(s.SendInput(event).state); }
    case SendMotion(x, y) =>
      SendMotionOk(s, x, y);
      if s.SendMotion(x, y).error == Some(Transport) { ClosedIsClosed(s.SendMotion(x, y).state); }
    case _ =>
  }

  lemma BeginSchedules(s: ClientState, target: Target, nowMs: u64, answers: Routing.Answers)
    requires Inv(s) && NoneScheduled(s)
    ensures NoneScheduled(s.Begin(target, nowMs, answers).state)
    ensures s.runtime.CanBegin() ==> !s.Begin(target, nowMs, answers).state.wire.inputOpen
    ensures !s.runtime.CanBegin() ==> s.Begin(target, nowMs, answers).state == s
    ensures s.wire.inputOpen ==> !s.runtime.CanBegin()
  {
    hide RuntimeOk, RouterRuns.LastReserved, RouterRuns.Forward, RuntimeState.Begin, ClientState.Apply,
         ClientState.FailTransport, Closed;
    RuntimeIsOk(s);
    if s.runtime.CanBegin() {
      BegunIsInactive(s, target, nowMs, answers);
      LocalIsRestored(s);
      BeginOk(s, target, nowMs, answers);
      var r := s.Begin(target, nowMs, answers);
      OpenIsActive(r.state);
      if r.error.Some? { ClosedIsClosed(r.state); }
    }
  }

  lemma {:induction false} AlwaysScheduled(start: ClientState, events: seq<ClientEvent>)
    requires ClientRuns.Initial(start)
    ensures ScheduledFrom(ClientRuns.Run(start, events), LastSign(start, events))
  {
    hide Inv, ScheduledFrom, ClientRuns.Step;
    if events == [] {
      assert ScheduledFrom(start, None) by { StartsUnscheduled(start); }
    } else {
      var before, e := events[..|events| - 1], events[|events| - 1];
      AlwaysScheduled(start, before);
      AlwaysInv(start, before);
      var s := ClientRuns.Run(start, before);
      if e.Poll? { PollKeepsSchedule(s, e, LastSign(start, before)); }
      else { QuietKeepsSchedule(s, e, LastSign(start, before)); }
    }
  }

  lemma StartsUnscheduled(start: ClientState)
    requires ClientRuns.Initial(start)
    ensures ScheduledFrom(start, None)
  {
    hide RuntimeRuns.Initial;
  }

  /** A poll of an open session that stays open sends a ping, and nothing else, if the
      opening and the last ping are an interval or more ago; if not, nothing is sent.  It
      fails only when there is no number left. */
  lemma PingsExactlyWhenDue(start: ClientState, events: seq<ClientEvent>, e: ClientEvent)
    requires ClientRuns.Initial(start) && e.Poll?
    requires var s := ClientRuns.Run(start, events); s.wire.inputOpen && ClientRuns.Step(s, e).state.wire.inputOpen
    ensures var s := ClientRuns.Run(start, events); var r := ClientRuns.Step(s, e);
      && s.runtime.IsActive() && LastSign(start, events).Some?
      && var due := SaturatingAdd(LastSign(start, events).value, PING_INTERVAL_MS);
      && (r.error.Some? <==> e.nowMs >= due && s.runtime.handshake.pingSequence == U64_MAX)
      && r.state.wire.controls
         == s.wire.controls + (if e.nowMs >= due && r.error.None? then [PingOf(s)] else [])
  {
    hide Inv, ClientState.Poll, ClientRuns.Run, LastSign, PingRunsOut, MeetsStray, Closed, Onward;
    AlwaysInv(start, events);
    AlwaysScheduled(start, events);
    var s := ClientRuns.Run(start, events);
    OpenIsActive(s);
    OpenPollPings(s, e.nowMs, e.keysReleased, e.answers, e.late);
    if ClientRuns.Step(s, e).error.Some? { RunsOut(s, e); }
  }

  lemma RunsOut(s: ClientState, e: ClientEvent)
    requires Inv(s) && e.Poll? && ClientRuns.Step(s, e).error.Some? && ClientRuns.Step(s, e).state.wire.inputOpen
    ensures e.nowMs >= Due(s, e.nowMs) && s.runtime.handshake.pingSequence == U64_MAX
  {
    hide Inv, ClientState.Poll, MeetsStray, Onward, Arriving, Echoed;
    PollOk(s, e.nowMs, e.keysReleased, e.answers, e.late);
  }
}
