/** One control connection as it is served: the controller's handshake at one end, the
    receiver's whole session runtime at the other.  That runtime may decline a frame for
    reasons of its own, and anything may happen to it in between: frames on other
    connections, input, motion, expiring leases, failing injections, changing displays. */
module Lines {
  import opened Base
  import opened Handshakes
  import opened Links
  import opened Inputs
  import opened Pressed
  import opened Receivers
  import ReceiverRuns

  /** How the receiving end treats the next frame. */
  datatype Serving =
    | Serves(displays: seq<Display>, nowMs: u64)   // with the displays as they are now
    | Disabled                                     // receiving is switched off
    | Swallowed                                    // a lock is poisoned: no answer at all

  const SESSION_REJECTED := ControlFrame.Reject("session_rejected", "refused")
  const RECEIVER_DISABLED := ControlFrame.Reject("receiver_disabled", "disabled")

  /** `clean` counts the replies before the first rejection; `left` remembers that the
      session opened on this connection is over at the receiver; `refused` that the
      controller refused a reply that was no rejection, before it had ended. */
  datatype Line = Line(session: SessionState, peer: Peer, channels: Channels, clean: nat, left: bool, refused: bool) {
    /** The session that is open was opened on this connection. */
    predicate Ours() { session.binding == Some(peer) && session.active.Some? }

    predicate Declined() { clean < |channels.replies| }

    function Follow(t: SessionState): Line { this.(session := t, left := left || (Ours() && t.active.None?)) }

    /** Something else happens to the session runtime. */
    function Happens(e: ReceiverRuns.SessionEvent): Line { Follow(ReceiverRuns.Step(session, e).state) }

    function Answer(reply: seq<ControlFrame>): Line
      requires channels.toReceiver != []
    {
      this.(channels := channels.Take(reply),
            clean := if Declined() || (reply != [] && reply[0].Reject?) then clean else clean + |reply|)
    }

    function Handles(nowMs: u64): Line
      requires channels.toReceiver != []
    {
      var out := session.HandleControl(channels.toReceiver[0], peer, nowMs);
      Follow(out.state).Answer(ReplyTo(out))
    }

    /** The receiving end takes the next frame, if one has arrived. */
    function Takes(serving: Serving): Line {
      if channels.toReceiver == [] then this
      else
        match serving
        case Disabled => Answer([RECEIVER_DISABLED])
        case Swallowed => Answer([])
        case Serves(displays, now) =>
          var updated := Happens(ReceiverRuns.NewDisplays(displays));
          if ReceiverRuns.Step(session, ReceiverRuns.NewDisplays(displays)).error.Some?
          then updated.Answer([SESSION_REJECTED]) else updated.Handles(now)
    }

    /** The controller takes the next reply. */
    function Received(c: ControllerSide, entropy: Option<Id128>): Line
      requires channels.toController != []
    {
      var frame := channels.toController[0];
      var error := c.Handle(frame, entropy).error;
      this.(channels := channels.Pop(),
            refused := refused || (error.Some? && error != Some(RandomUnavailable)
                                   && !frame.Reject? && !c.state.Ended?))
    }
  }

  function ReplyTo(out: Reply): seq<ControlFrame> {
    if out.error.Some? then [SESSION_REJECTED] else if out.response.Some? then [out.response.value] else []
  }

  function NewLine(session: SessionState, peer: Peer): Line { Line(session, peer, NewChannels, 0, false, false) }

  // ----- the invariant

  /** The display that was asked for. */
  predicate Matches(display: Display, prepare: ControlFrame)
    requires prepare.Prepare?
  {
    display.id == prepare.targetDisplay && display.revision == prepare.layoutRevision
  }

  predicate IsEcho(frame: ControlFrame, session: SessionId, taken: nat) {
    frame.Pong? && frame.sessionId == session && 1 <= frame.sequence <= taken - 3
  }

  /** Up to the first rejection: an offer, an acknowledgement, and echoes of pings with
      rising numbers that report ever more applied input. */
  ghost predicate Replies(boot: Id128, w: Channels, clean: nat) {
    && w.taken <= |w.sent| && clean <= |w.replies| <= w.taken
    && (forall i :: 0 <= i < |w.replies| ==> CheckFrame(w.replies[i]).None?)
    && (clean < |w.replies| ==> w.replies[clean].Reject?)
    && (clean >= 1 ==> w.taken >= 2 && w.sent[1].Prepare? && w.replies[0] == Offered(w.sent[1], boot))
    && (clean >= 2 ==> w.taken >= 3 && w.sent[2].Commit? && w.replies[1] == CommitAck(w.sent[2].sessionId))
    && (forall i :: 2 <= i < clean ==> IsEcho(w.replies[i], w.sent[2].sessionId, w.taken))
    && (forall i, j :: 2 <= i < j < clean ==>
          w.replies[i].sequence < w.replies[j].sequence && w.replies[i].highestApplied <= w.replies[j].highestApplied)
  }

  /** Where the frames taken so far may have brought the receiver's handshake. */
  ghost predicate HandshakeStands(c: ControllerSide, s: SessionState, state: ReceiverState, w: Channels, clean: nat)
    requires Script(c, s.localBoot, w.sent) && w.taken <= |w.sent|
  {
    match state
    case AwaitHello => false
    case Greeted(boot) => w.taken >= 1 && boot == c.localBoot && (w.taken == 1 ==> w.replies == [])
    case PreparedFor(boot, request) =>
      && w.taken >= 2 && boot == c.localBoot && request == w.sent[1].requestId
      && (w.taken == 2 ==> clean == 1 == |w.replies|)
    case InSession(session) =>
      w.taken >= 3 && session == w.sent[2].sessionId && (s.active.None? ==> clean < |w.replies|)
    case Over(session) => w.taken >= 3 && session == w.sent[2].sessionId
  }

  /** As long as the runtime is bound to this connection it stands where the script has
      brought it, and shows the display that was asked for; an acknowledged session is
      open unless the receiver has left it. */
  ghost predicate SessionStands(c: ControllerSide, l: Line)
    requires Script(c, l.session.localBoot, l.channels.sent) && Replies(l.session.localBoot, l.channels, l.clean)
  {
    var s, w := l.session, l.channels;
    && (s.binding == Some(l.peer) ==>
          && l.peer.role == Controller && s.handshake.Some?
          && HandshakeStands(c, s, s.handshake.value.state, w, l.clean)
          && (s.prepared.Some? ==> w.taken >= 2 && Matches(s.prepared.value, w.sent[1]))
          && (s.active.Some? ==> w.taken >= 3 && s.shown.Some? && Matches(s.shown.value, w.sent[1])))
    && (l.Ours() ==> l.clean >= 2)
    && (l.clean >= 2 && !l.left ==> l.Ours())
    && (l.clean >= 3 && l.Ours() ==> w.replies[l.clean - 1].highestApplied <= s.highestApplied)
  }

  /** Where the replies have brought the controller. */
  ghost predicate ControllerStands(c: ControllerSide, boot: Id128, w: Channels, clean: nat)
    requires Script(c, boot, w.sent) && Replies(boot, w, clean)
  {
    && SentAt(c, boot, w.sent)
    && (!c.state.Ended? ==> w.handled <= clean)
    && match c.state
       case AwaitReady(_, _, _) => w.handled <= 1
       case Prepared(_, _) => w.handled == 1
       case AwaitCommitAck(_) => w.handled == 1
       case Active(_) =>
         && 2 <= w.handled
         && c.lastPong == (if w.handled == 2 then 0 else w.replies[w.handled - 1].sequence)
         && c.highestApplied == (if w.handled == 2 then 0 else w.replies[w.handled - 1].highestApplied)
       case _ => true
  }

  ghost predicate LineInv(c: ControllerSide, l: Line) {
    && c.localBoot != 0 && ValidText(c.localPeerId, MAX_PEER_ID_BYTES)
    && Script(c, l.session.localBoot, l.channels.sent)
    && Flows(l.channels)
    && ReceiverRuns.SessionInv(l.session)
    && Replies(l.session.localBoot, l.channels, l.clean)
    && SessionStands(c, l)
    && ControllerStands(c, l.session.localBoot, l.channels, l.clean)
    && (l.session.localBoot != 0 ==> !l.refused)
  }

  // ----- what else happens to the session runtime

  /** Fields that input, motion and letting go never touch. */
  ghost predicate Apart(s: SessionState, t: SessionState) {
    t == s.(gate := t.gate, highestApplied := t.highestApplied, highestMotion := t.highestMotion,
            pending := t.pending, lastActivity := t.lastActivity, fault := t.fault,
            pressed := t.pressed, injector := t.injector)
  }

  /** Nothing of the session changed, or the runtime left it. */
  ghost predicate Moves(s: SessionState, t: SessionState) {
    Apart(s, t) || (s.active.Some? && Apart(s.Leave(s.active.value), t))
  }

  lemma ReleaseApart(s: SessionState)
    ensures Apart(s, s.ReleasePressed().state)
  {
    hide Injected.SubmitAll;
  }

  lemma FailInjectionMoves(s: SessionState, t: SessionState, failure: PortError, session: SessionId)
    requires Apart(s, t) && s.active == Some(session)
    ensures Moves(s, t.FailInjection(failure, session))
  {
    hide SessionState.ReleasePressed, GateSide.End;
    ReleaseApart(t.(fault := Some(InjectorFault(failure))).Leave(session));
  }

  lemma ApplyMotionMoves(s: SessionState, t: SessionState, frame: MotionFrame)
    requires Apart(s, t) && s.active == Some(frame.sessionId)
    ensures Moves(s, t.ApplyMotion(frame).state)
  {
    hide SessionState.FailInjection, SessionState.Leave;
    var point := t.MapPointer(frame.x, frame.y);
    if point.Ok? {
      var moved := t.pressed.UpdatePointer(point.value.0, point.value.1);
      var (injector', failure) := t.injector.Post(MouseMove(point.value.0, point.value.1, DragOf(moved)));
      if failure.Some? { FailInjectionMoves(s, t.(injector := injector'), failure.value, frame.sessionId); }
    }
  }

  lemma CarryMoves(s: SessionState, t: SessionState, frame: CriticalFrame, ledger: Ledger,
                   commands: seq<InputCommand>, nowMs: u64)
    requires Apart(s, t) && s.active == Some(frame.sessionId)
    requires t.pending.Some? ==> t.pending.value.sessionId == frame.sessionId
    ensures Moves(s, t.Carry(frame, ledger, commands, nowMs).state)
  {
    hide SessionState.FailInjection, SessionState.Leave, SessionState.ApplyMotion, Injected.Submit;
    var (injector', failure) := t.injector.Submit(commands);
    if failure.Some? {
      FailInjectionMoves(s, t.(injector := injector'), failure.value, frame.sessionId);
    } else {
      var u := t.(injector := injector', pressed := ledger, highestApplied := frame.sequence,
                  highestMotion := ReceiverRuns.Stamped(t, frame), lastActivity := Some(nowMs));
      if u.pending.Some? { ApplyMotionMoves(s, u.(pending := None), u.pending.value); }
    }
  }

  lemma AcceptedFrame(s: SessionState, frame: CriticalFrame)
    requires ReceiverRuns.SessionInv(s) && s.gate.Accept(frame).1.None?
    ensures s.active == Some(frame.sessionId) && (s.pending.Some? ==> s.pending.value.sessionId == frame.sessionId)
  {
    hide ReceiverRuns.Safe, CheckCritical;
  }

  lemma InputMoves(s: SessionState, frame: CriticalFrame, peer: Peer, nowMs: u64)
    requires ReceiverRuns.SessionInv(s)
    ensures Moves(s, s.HandleInput(frame, peer, nowMs).state)
  {
    hide ReceiverRuns.SessionInv, SessionState.Carry, Ledger.Apply, Ledger.UpdatePointer, CheckCritical,
         SessionState.Leave;
    var (gate', refused) := s.gate.Accept(frame);
    if refused.None? {
      AcceptedFrame(s, frame);
      forall ledger: Ledger, commands: seq<InputCommand>
        ensures Moves(s, s.(gate := gate').Carry(frame, ledger, commands, nowMs).state)
      {
        CarryMoves(s, s.(gate := gate'), frame, ledger, commands, nowMs);
      }
    }
  }

  lemma MotionMoves(s: SessionState, frame: MotionFrame, peer: Peer, nowMs: u64)
    ensures Moves(s, s.HandleMotion(frame, peer, nowMs).0.state)
  {
    hide SessionState.ApplyMotion, SessionState.Leave, Display.Map;
    if s.active == Some(frame.sessionId) { ApplyMotionMoves(s, s.(lastActivity := Some(nowMs)), frame); }
  }

  /** Anything but a control frame on this connection. */
  predicate Elsewhere(e: ReceiverRuns.SessionEvent, peer: Peer) { e.Control? ==> e.peer != peer }

  /** What such an event may do to a runtime bound to this connection: drop the display
      that was prepared, leave the session, or lose the binding while no session is open. */
  ghost predicate Follows(s: SessionState, t: SessionState, peer: Peer) {
    && t.localBoot == s.localBoot
    && (s.binding != Some(peer) ==> t.binding != Some(peer))
    && (s.binding == Some(peer) && t.binding != Some(peer) ==> s.active.None?)
    && (s.binding == Some(peer) == t.binding ==>
          && (t.prepared == s.prepared || t.prepared.None?)
          && if t.active.Some? then
               && t.active == s.active && t.handshake == s.handshake && t.shown == s.shown
               && t.highestApplied >= s.highestApplied
             else if s.active.Some? then t.handshake.Some? && t.handshake.value.state == Over(s.active.value)
             else t.handshake == s.handshake)
  }

  lemma MovesFollow(s: SessionState, t: SessionState, peer: Peer)
    requires ReceiverRuns.SessionInv(s) && Moves(s, t)
    requires t.active.Some? ==> t.highestApplied >= s.highestApplied
    ensures Follows(s, t, peer)
  {
    hide ReceiverRuns.Safe;
  }

  lemma DisplaysFollow(s: SessionState, displays: seq<Display>, peer: Peer)
    requires ReceiverRuns.SessionInv(s)
    ensures Follows(s, s.UpdateDisplays(displays).0.state, peer)
  {
    hide ReceiverRuns.Safe, SessionState.ReleasePressed;
    var u := s.(displays := displays,
                prepared := if s.prepared.Some? && s.prepared.value !in displays then None else s.prepared);
    ReleaseApart(u.DropSession().(shown := None, fault := Some(LayoutChanged)));
  }

  lemma ControlFollows(s: SessionState, frame: ControlFrame, other: Peer, nowMs: u64, peer: Peer)
    requires ReceiverRuns.SessionInv(s) && other != peer
    ensures Follows(s, s.HandleControl(frame, other, nowMs).state, peer)
  {
    hide ReceiverRuns.Safe, SessionState.ReleasePressed, ReceiverSide.Handle, SessionState.PassOn;
    ReleaseApart(s);
    if s.binding == Some(other) { KeepsBinding(s, frame, other, nowMs); }
  }

  /** No frame of the bound connection changes the binding. */
  lemma KeepsBinding(s: SessionState, frame: ControlFrame, peer: Peer, nowMs: u64)
    requires s.binding == Some(peer)
    ensures var t := s.HandleControl(frame, peer, nowMs).state; t.binding == Some(peer) && t.localBoot == s.localBoot
  {
    hide SessionState.ReleasePressed, SessionState.PassOn, ReceiverSide.Handle;
    ReleaseApart(s);
    forall u: SessionState ensures SameBinding(u, u.PassOn(frame, nowMs).state) { PassOnKeepsBinding(u, frame, nowMs); }
  }

  predicate SameBinding(s: SessionState, t: SessionState) { t.binding == s.binding && t.localBoot == s.localBoot }

  lemma PassOnKeepsBinding(s: SessionState, frame: ControlFrame, nowMs: u64)
    ensures SameBinding(s, s.PassOn(frame, nowMs).state)
  {
    hide SessionState.Open, SessionState.EndOrdered, ReceiverSide.Handle;
    forall u: SessionState, session: SessionId
      ensures SameBinding(u, u.Open(session, nowMs).state) && SameBinding(u, u.EndOrdered(session).state)
    {
      EndsKeepBinding(u, session, nowMs);
    }
  }

  lemma EndsKeepBinding(s: SessionState, session: SessionId, nowMs: u64)
    ensures SameBinding(s, s.Open(session, nowMs).state) && SameBinding(s, s.EndOrdered(session).state)
  {
    hide SessionState.ReleasePressed, GateSide.End, GateSide.Activate;
    ReleaseApart(s);
    ReleaseApart(s.(gate := s.gate.End(session).0, active := None, shown := None, lastActivity := None).ResetMotion());
  }

  lemma ElsewhereFollows(s: SessionState, e: ReceiverRuns.SessionEvent, peer: Peer)
    requires ReceiverRuns.SessionInv(s) && Elsewhere(e, peer)
    ensures Follows(s, ReceiverRuns.Step(s, e).state, peer)
  {
    hide ReceiverRuns.SessionInv, SessionState.HandleControl, SessionState.HandleInput, SessionState.HandleMotion,
         SessionState.UpdateDisplays, SessionState.ReleasePressed, SessionState.Leave, Moves, Follows;
    match e
    case Control(frame, other, now) => ControlFollows(s, frame, other, now, peer);
    case Input(frame, other, now) =>
      ReceiverRuns.InputOk(s, frame, other, now);
      InputMoves(s, frame, other, now);
      MovesFollow(s, s.HandleInput(frame, other, now).state, peer);
    case Motion(frame, other, now) =>
      ReceiverRuns.MotionOk(s, frame, other, now);
      MotionMoves(s, frame, other, now);
      MovesFollow(s, s.HandleMotion(frame, other, now).0.state, peer);
    case Expire(now) => LeavesFollow(s, LeaseExpired, peer);
    case StreamCloses(other) => LeavesFollow(s, InputStreamClosed, peer);
    case NewDisplays(displays) => DisplaysFollow(s, displays, peer);
    case NewMapping(remap) => StaysFollow(s, remap, peer);
  }

  lemma LeavesFollow(s: SessionState, fault: Fault, peer: Peer)
    requires ReceiverRuns.SessionInv(s)
    ensures Follows(s, s, peer)
    ensures s.active.Some? ==> Follows(s, s.Leave(s.active.value).(fault := Some(fault)).ReleasePressed().state, peer)
  {
    hide ReceiverRuns.Safe, SessionState.ReleasePressed;
    if s.active.Some? { ReleaseApart(s.Leave(s.active.value).(fault := Some(fault))); }
  }

  lemma StaysFollow(s: SessionState, remap: u16 -> u16, peer: Peer)
    ensures Follows(s, s.(remap := remap), peer)
  {
  }

  lemma FollowStands(c: ControllerSide, l: Line, t: SessionState)
    requires Script(c, l.session.localBoot, l.channels.sent) && Replies(l.session.localBoot, l.channels, l.clean)
    requires SessionStands(c, l) && ReceiverRuns.SessionInv(l.session) && Follows(l.session, t, l.peer)
    ensures SessionStands(c, l.Follow(t))
  {
    hide ReceiverRuns.Safe, Script, Replies, Matches;
  }

  lemma HappensInv(c: ControllerSide, l: Line, e: ReceiverRuns.SessionEvent)
    requires LineInv(c, l) && Elsewhere(e, l.peer)
    ensures LineInv(c, l.Happens(e)) && l.Happens(e).channels == l.channels
  {
    hide ReceiverRuns.SessionInv, ReceiverRuns.Step, Script, Replies, SessionStands, ControllerStands, Flows, ValidText;
    ReceiverRuns.StepGoes(l.session, e);
    ElsewhereFollows(l.session, e, l.peer);
    FollowStands(c, l, ReceiverRuns.Step(l.session, e).state);
  }

  // ----- frames taken

  /** A rejection, or silence, leaves the session where it stands. */
  lemma DeclineStands(c: ControllerSide, l: Line, reply: seq<ControlFrame>)
    requires LineInv(c, l) && l.channels.toReceiver != []
    requires reply == [] || (|reply| == 1 && reply[0].Reject? && CheckFrame(reply[0]).None?)
    ensures var l' := l.Answer(reply);
      Replies(l.session.localBoot, l'.channels, l'.clean) && SessionStands(c, l')
  {
    hide LineInv, Replies, SessionStands, Script, Fitting, CheckFrame;
    LineHas(c, l);
    DeclineFits(l, reply);
    RepliesGrow(l, reply);
    DeclinedStands(c, l, reply);
  }

  lemma DeclinedStands(c: ControllerSide, l: Line, reply: seq<ControlFrame>)
    requires LineInv(c, l) && l.channels.toReceiver != []
    requires reply == [] || (|reply| == 1 && reply[0].Reject?)
    requires var l' := l.Answer(reply); Replies(l.session.localBoot, l'.channels, l'.clean)
    ensures SessionStands(c, l.Answer(reply))
  {
    hide ReceiverRuns.SessionInv, Matches, Flows, Script, ValidText, ControllerStands, Replies;
    NotYetAcknowledged(l.session.localBoot, l.channels, l.clean);
  }

  lemma DeclineFits(l: Line, reply: seq<ControlFrame>)
    requires Replies(l.session.localBoot, l.channels, l.clean)
    requires reply == [] || (|reply| == 1 && reply[0].Reject? && CheckFrame(reply[0]).None?)
    ensures Fitting(l.session.localBoot, l.channels, l.clean, reply)
  {
    hide Replies;
  }

  lemma ControllerStays(c: ControllerSide, boot: Id128, w: Channels, clean: nat, w': Channels, clean': nat)
    requires Script(c, boot, w.sent) && Replies(boot, w, clean) && ControllerStands(c, boot, w, clean)
    requires w'.sent == w.sent && w'.handled == w.handled && w.replies <= w'.replies && clean <= clean'
    requires Replies(boot, w', clean') && w.handled <= |w.replies|
    ensures ControllerStands(c, boot, w', clean')
  {
    hide CheckFrame, IsPing, IsEcho, ValidText;
  }

  lemma RejectionsAreValid()
    ensures CheckFrame(SESSION_REJECTED).None? && CheckFrame(RECEIVER_DISABLED).None?
  {
    hide ValidText;
    PlainTextIsValid("session_rejected", MAX_CAPABILITY_BYTES);
    PlainTextIsValid("refused", MAX_DETAIL_BYTES);
    DisabledIsValid();
    PlainTextIsValid("disabled", MAX_DETAIL_BYTES);
  }

  lemma DisabledIsValid()
    ensures ValidText("receiver_disabled", MAX_CAPABILITY_BYTES)
  {
    hide Utf8Length;
    AsciiLength("receiver_disabled");
    assert !IsWhiteSpace("receiver_disabled"[0]);
  }

  lemma DeclineInv(c: ControllerSide, l: Line, reply: seq<ControlFrame>)
    requires LineInv(c, l) && l.channels.toReceiver != []
    requires reply == [] || reply == [SESSION_REJECTED] || reply == [RECEIVER_DISABLED]
    ensures LineInv(c, l.Answer(reply))
  {
    hide ReceiverRuns.SessionInv, Script, Replies, SessionStands, ControllerStands, Flows, ValidText, CheckFrame;
    RejectionsAreValid();
    TakeFlows(l.channels, reply);
    DeclineStands(c, l, reply);
    var l' := l.Answer(reply);
    FlowsHandled(l.channels);
    ControllerStays(c, l.session.localBoot, l.channels, l.clean, l'.channels, l'.clean);
  }

  lemma FlowsHandled(w: Channels)
    requires Flows(w)
    ensures w.handled <= |w.replies|
  {
  }

  lemma UnboundDeclines(s: SessionState, frame: ControlFrame, peer: Peer, nowMs: u64)
    requires s.binding != Some(peer) && !frame.Hello?
    ensures var out := s.HandleControl(frame, peer, nowMs); out.state == s && out.error.Some?
  {
  }

  lemma TakesHello(s: SessionState, frame: ControlFrame, peer: Peer, nowMs: u64)
    requires frame.Hello? && frame.role == Controller && s.binding != Some(peer)
    ensures var out := s.HandleControl(frame, peer, nowMs); var t := out.state;
      && t.localBoot == s.localBoot && t.active == s.active
      && if out.error.Some? then t.binding == s.binding
         else
           && out.response.None? && t.binding == Some(peer) && peer.role == Controller && t.active.None?
           && t.handshake.Some? && t.handshake.value.state == Greeted(frame.bootId) && t.prepared.None?
  {
    hide SessionState.ReleasePressed, CheckFrame, ValidText;
    ReleaseApart(s);
  }

  lemma {:induction false} FoundDisplay(displays: seq<Display>, prepare: ControlFrame)
    requires prepare.Prepare?
    ensures var found := FindDisplay(displays, prepare.targetDisplay, prepare.layoutRevision);
      found.Some? ==> Matches(found.value, prepare)
    decreases |displays|
  {
    if displays != [] { FoundDisplay(displays[1..], prepare); }
  }

  lemma TakesPrepare(s: SessionState, frame: ControlFrame, peer: Peer, nowMs: u64)
    requires frame.Prepare? && CheckFrame(frame).None? && s.binding == Some(peer) && s.active.None?
    requires s.handshake.Some? && s.handshake.value.state.Greeted? && s.handshake.value.localBoot == s.localBoot
    ensures var out := s.HandleControl(frame, peer, nowMs); var t := out.state;
      && t.localBoot == s.localBoot && t.binding == s.binding && t.active.None? && t.handshake.Some?
      && if out.error.Some? then t.handshake == s.handshake && (t.prepared == s.prepared || t.prepared.None?)
         else
           && t.handshake.value.state == PreparedFor(s.handshake.value.state.controllerBoot, frame.requestId)
           && out.response == Some(Offered(frame, s.localBoot)) && t.prepared.Some? && Matches(t.prepared.value, frame)
  {
    hide CheckFrame, SessionState.Open, SessionState.EndOrdered, FindDisplay, Matches;
    FoundDisplay(s.displays, frame);
  }

  lemma TakesCommit(s: SessionState, frame: ControlFrame, peer: Peer, nowMs: u64)
    requires frame.Commit? && CheckFrame(frame).None? && s.binding == Some(peer) && s.active.None?
    requires s.handshake.Some? && s.handshake.value.localBoot == s.localBoot
    requires s.handshake.value.state.Greeted? || s.handshake.value.state.PreparedFor?
    ensures var out := s.HandleControl(frame, peer, nowMs); var t := out.state;
      && t.localBoot == s.localBoot && t.binding == s.binding && t.handshake.Some?
      && if out.error.Some? then
           && t.active.None? && t.prepared == s.prepared
           && (t.handshake == s.handshake || t.handshake.value.state == InSession(frame.sessionId))
         else
           && s.handshake.value.state.PreparedFor? && s.prepared.Some?
           && out.response == Some(CommitAck(frame.sessionId)) && t.active == Some(frame.sessionId)
           && t.handshake.value.state == InSession(frame.sessionId)
           && t.shown == s.prepared && t.prepared.None? && t.highestApplied == 0
  {
    hide CheckFrame, SessionState.EndOrdered, GateSide.Activate;
  }

  /** A ping or an end that reaches the session, or what is left of it. */
  lemma TakesLater(s: SessionState, frame: ControlFrame, peer: Peer, nowMs: u64)
    requires (frame.Ping? || frame.EndSession?) && CheckFrame(frame).None? && s.binding == Some(peer)
    requires s.handshake.Some? && ReceiverRuns.SessionInv(s)
    requires s.handshake.value.state.InSession? || s.handshake.value.state.Over? ==>
      s.handshake.value.state.sessionId == frame.sessionId
    ensures var out := s.HandleControl(frame, peer, nowMs); var t := out.state;
      && t.localBoot == s.localBoot && t.binding == s.binding && t.prepared == s.prepared && t.handshake.Some?
      && (t.active.Some? ==> t.active == s.active && t.shown == s.shown && t.highestApplied == s.highestApplied)
      && (out.error.None? && out.response.Some? ==>
            && s.handshake.value.state.InSession? && frame.Ping? && t.handshake == s.handshake && t.active == s.active
            && out.response == Some(Pong(frame.sessionId, frame.sequence, s.highestApplied)))
      && ((t.handshake == s.handshake && t.active == s.active)
          || (s.handshake.value.state.InSession? && t.handshake.value.state == Over(frame.sessionId) && t.active.None?))
  {
    hide CheckFrame, SessionState.Open, SessionState.EndOrdered, ReceiverRuns.Safe;
    var hs := s.handshake.value.Handle(frame);
    if frame.EndSession? { EndOrderedEnds(s, s.(handshake := Some(hs.state)), frame.sessionId); }
  }

  lemma EndOrderedEnds(s: SessionState, t: SessionState, session: SessionId)
    requires ReceiverRuns.SessionInv(s) && t == s.(handshake := t.handshake)
    requires s.active.Some? ==> s.active == Some(session)
    ensures var u := t.EndOrdered(session).state;
      && u.active.None? && u.handshake == t.handshake && u.binding == t.binding && u.localBoot == t.localBoot
      && u.prepared == t.prepared
  {
    hide SessionState.ReleasePressed, ReceiverRuns.Safe;
    ReleaseApart(t);
    ReleaseApart(t.(gate := t.gate.End(session).0, active := None, shown := None, lastActivity := None).ResetMotion());
  }

  /** The next frame of the script, and what the binding says when it comes. */
  lemma NextFrame(c: ControllerSide, l: Line)
    requires Script(c, l.session.localBoot, l.channels.sent) && Replies(l.session.localBoot, l.channels, l.clean)
    requires SessionStands(c, l) && ReceiverRuns.SessionInv(l.session) && Flows(l.channels)
    requires l.channels.toReceiver != []
    ensures var s, w := l.session, l.channels; var frame := w.toReceiver[0];
      && w.taken < |w.sent| && frame == w.sent[w.taken] && CheckFrame(frame).None?
      && (w.taken == 0 ==> frame == c.Greeting() && s.binding != Some(l.peer))
      && (w.taken == 1 ==> frame.Prepare?)
      && (w.taken == 2 ==> frame.Commit?)
      && (w.taken >= 3 ==> (IsPing(frame, w.sent[2].sessionId, w.taken - 2)
                            || (frame.EndSession? && frame.sessionId == w.sent[2].sessionId)))
      && (s.binding == Some(l.peer) ==>
            && s.handshake.Some? && s.handshake.value.localBoot == s.localBoot
            && (s.active.Some? ==> s.handshake.value.state == InSession(s.active.value)))
  {
    hide CheckFrame, ReceiverRuns.Safe, Matches, ValidText;
    TakeFlows(l.channels, []);
  }

  ghost predicate Handled(c: ControllerSide, l: Line, nowMs: u64)
    requires l.channels.toReceiver != [] && Script(c, l.session.localBoot, l.channels.sent)
  {
    var l' := l.Handles(nowMs);
    && l'.session.localBoot == l.session.localBoot
    && Replies(l.session.localBoot, l'.channels, l'.clean) && SessionStands(c, l')
  }

  lemma HandlesHello(c: ControllerSide, l: Line, nowMs: u64)
    requires LineInv(c, l) && l.channels.toReceiver != [] && l.channels.taken == 0
    ensures Handled(c, l, nowMs)
  {
    hide CheckFrame, ReceiverRuns.SessionInv, SessionState.HandleControl, Matches, ValidText, InFlight, IsPing,
         ControllerStands;
    NextFrame(c, l);
    RejectionsAreValid();
    TakesHello(l.session, l.channels.toReceiver[0], l.peer, nowMs);
  }

  lemma HandlesPrepare(c: ControllerSide, l: Line, nowMs: u64)
    requires LineInv(c, l) && l.channels.toReceiver != [] && l.channels.taken == 1
    ensures Handled(c, l, nowMs)
  {
    hide CheckFrame, ReceiverRuns.SessionInv, SessionState.HandleControl, Matches, ValidText, InFlight, IsPing,
         ControllerStands;
    NextFrame(c, l);
    RejectionsAreValid();
    var s, frame := l.session, l.channels.toReceiver[0];
    OfferIsValid(frame, s.localBoot);
    if s.binding == Some(l.peer) {
      TakesPrepare(s, frame, l.peer, nowMs);
    } else {
      UnboundDeclines(s, frame, l.peer, nowMs);
    }
  }

  lemma OfferIsValid(prepare: ControlFrame, boot: Id128)
    requires prepare.Prepare? && CheckFrame(prepare).None?
    ensures CheckFrame(Offered(prepare, boot)).None?
  {
  }

  /** A reply that goes on where the replies so far have come to. */
  ghost predicate Fitting(boot: Id128, w: Channels, clean: nat, reply: seq<ControlFrame>)
    requires Replies(boot, w, clean)
  {
    reply == [] ||
      (|reply| == 1 && CheckFrame(reply[0]).None?
       && (|| reply[0].Reject?
           || clean < |w.replies|
           || (w.taken == 2 < |w.sent| && clean == 1 && w.sent[2].Commit? && reply[0] == CommitAck(w.sent[2].sessionId))
           || (w.taken >= 3 && clean >= 2
               && reply[0].Pong? && reply[0].sessionId == w.sent[2].sessionId && reply[0].sequence == w.taken - 2
               && (clean >= 3 ==> w.replies[clean - 1].highestApplied <= reply[0].highestApplied))))
  }

  lemma RepliesGrow(l: Line, reply: seq<ControlFrame>)
    requires Replies(l.session.localBoot, l.channels, l.clean) && l.channels.toReceiver != []
    requires l.channels.taken < |l.channels.sent| && Fitting(l.session.localBoot, l.channels, l.clean, reply)
    ensures var l' := l.Answer(reply); Replies(l.session.localBoot, l'.channels, l'.clean)
  {
    hide CheckFrame;
  }

  lemma SameSessionIsValid(frame: ControlFrame, session: SessionId, applied: u64)
    requires (frame.Commit? || frame.Ping?) && frame.sessionId == session && CheckFrame(frame).None?
    ensures CheckFrame(CommitAck(session)).None?
    ensures frame.Ping? ==> CheckFrame(Pong(session, frame.sequence, applied)).None?
  {
  }

  lemma CommitStands(c: ControllerSide, l: Line, nowMs: u64)
    requires LineInv(c, l) && l.channels.toReceiver != [] && l.channels.taken == 2
    requires l.Handles(nowMs).session.localBoot == l.session.localBoot
    requires var l' := l.Handles(nowMs); Replies(l.session.localBoot, l'.channels, l'.clean)
    ensures SessionStands(c, l.Handles(nowMs))
  {
    hide CheckFrame, ReceiverRuns.SessionInv, SessionState.HandleControl, Matches, ValidText, InFlight, IsPing,
         ControllerStands, Script, Replies;
    NextFrame(c, l);
    NotYetAcknowledged(l.session.localBoot, l.channels, l.clean);
    var s, frame := l.session, l.channels.toReceiver[0];
    if s.binding == Some(l.peer) {
      TakesCommit(s, frame, l.peer, nowMs);
    } else {
      UnboundDeclines(s, frame, l.peer, nowMs);
    }
  }

  lemma NotYetAcknowledged(boot: Id128, w: Channels, clean: nat)
    requires Replies(boot, w, clean)
    ensures w.taken < 3 ==> clean < 2
    ensures clean <= |w.replies|
  {
  }

  lemma CommitFits(c: ControllerSide, l: Line, nowMs: u64)
    requires LineInv(c, l) && l.channels.toReceiver != [] && l.channels.taken == 2
    ensures var out := l.session.HandleControl(l.channels.toReceiver[0], l.peer, nowMs);
      out.state.localBoot == l.session.localBoot
      && Fitting(l.session.localBoot, l.channels, l.clean, ReplyTo(out))
  {
    hide CheckFrame, ReceiverRuns.SessionInv, SessionState.HandleControl, Matches, ValidText, InFlight, IsPing,
         ControllerStands, Script, IsEcho;
    NextFrame(c, l);
    RejectionsAreValid();
    var s, frame := l.session, l.channels.toReceiver[0];
    SameSessionIsValid(frame, frame.sessionId, 0);
    if s.binding == Some(l.peer) {
      TakesCommit(s, frame, l.peer, nowMs);
    } else {
      UnboundDeclines(s, frame, l.peer, nowMs);
    }
  }

  lemma HandlesCommit(c: ControllerSide, l: Line, nowMs: u64)
    requires LineInv(c, l) && l.channels.toReceiver != [] && l.channels.taken == 2
    ensures Handled(c, l, nowMs)
  {
    hide LineInv, ReceiverRuns.SessionInv, SessionState.HandleControl, Fitting, Replies, SessionStands, Script;
    CommitFits(c, l, nowMs);
    LineHas(c, l);
    RepliesGrow(l, ReplyTo(l.session.HandleControl(l.channels.toReceiver[0], l.peer, nowMs)));
    CommitStands(c, l, nowMs);
  }

  lemma LineHas(c: ControllerSide, l: Line)
    requires LineInv(c, l)
    ensures Script(c, l.session.localBoot, l.channels.sent) && Replies(l.session.localBoot, l.channels, l.clean)
    ensures l.channels.toReceiver != [] ==> l.channels.taken < |l.channels.sent|
  {
    if l.channels.toReceiver != [] { TakeFlows(l.channels, []); }
  }

  lemma LaterFits(c: ControllerSide, l: Line, nowMs: u64)
    requires LineInv(c, l) && l.channels.toReceiver != [] && l.channels.taken >= 3
    ensures var out := l.session.HandleControl(l.channels.toReceiver[0], l.peer, nowMs);
      out.state.localBoot == l.session.localBoot
      && Fitting(l.session.localBoot, l.channels, l.clean, ReplyTo(out))
  {
    hide CheckFrame, ReceiverRuns.SessionInv, SessionState.HandleControl, Matches, ValidText, InFlight, ControllerStands,
         Script, IsEcho;
    NextFrame(c, l);
    RejectionsAreValid();
    var s, frame := l.session, l.channels.toReceiver[0];
    if frame.Ping? { SameSessionIsValid(frame, frame.sessionId, s.highestApplied); }
    if s.binding == Some(l.peer) {
      TakesLater(s, frame, l.peer, nowMs);
    } else {
      UnboundDeclines(s, frame, l.peer, nowMs);
    }
  }

  lemma LaterStands(c: ControllerSide, l: Line, nowMs: u64)
    requires LineInv(c, l) && l.channels.toReceiver != [] && l.channels.taken >= 3
    requires l.Handles(nowMs).session.localBoot == l.session.localBoot
    requires var l' := l.Handles(nowMs); Replies(l.session.localBoot, l'.channels, l'.clean)
    ensures SessionStands(c, l.Handles(nowMs))
  {
    hide CheckFrame, ReceiverRuns.SessionInv, SessionState.HandleControl, Matches, ValidText, InFlight,
         ControllerStands, Script, Replies;
    NextFrame(c, l);
    NotYetAcknowledged(l.session.localBoot, l.channels, l.clean);
    var s, frame := l.session, l.channels.toReceiver[0];
    if s.binding == Some(l.peer) {
      TakesLater(s, frame, l.peer, nowMs);
    } else {
      UnboundDeclines(s, frame, l.peer, nowMs);
    }
  }

  lemma HandlesLater(c: ControllerSide, l: Line, nowMs: u64)
    requires LineInv(c, l) && l.channels.toReceiver != [] && l.channels.taken >= 3
    ensures Handled(c, l, nowMs)
  {
    hide LineInv, ReceiverRuns.SessionInv, SessionState.HandleControl, Fitting, Replies, SessionStands, Script;
    LaterFits(c, l, nowMs);
    LineHas(c, l);
    RepliesGrow(l, ReplyTo(l.session.HandleControl(l.channels.toReceiver[0], l.peer, nowMs)));
    LaterStands(c, l, nowMs);
  }

  lemma HandlesInv(c: ControllerSide, l: Line, nowMs: u64)
    requires LineInv(c, l) && l.channels.toReceiver != []
    ensures LineInv(c, l.Handles(nowMs))
  {
    hide ReceiverRuns.SessionInv, SessionState.HandleControl, Replies, SessionStands, ControllerStands, Script, Flows,
         ValidText;
    if l.channels.taken == 0 { HandlesHello(c, l, nowMs); }
    else if l.channels.taken == 1 { HandlesPrepare(c, l, nowMs); }
    else if l.channels.taken == 2 { HandlesCommit(c, l, nowMs); }
    else { HandlesLater(c, l, nowMs); }
    var out := l.session.HandleControl(l.channels.toReceiver[0], l.peer, nowMs);
    ReceiverRuns.ControlOk(l.session, l.channels.toReceiver[0], l.peer, nowMs);
    TakeFlows(l.channels, ReplyTo(out));
    FlowsHandled(l.channels);
    var l' := l.Handles(nowMs);
    ControllerStays(c, l.session.localBoot, l.channels, l.clean, l'.channels, l'.clean);
  }

  lemma TakesInv(c: ControllerSide, l: Line, serving: Serving)
    requires LineInv(c, l)
    ensures LineInv(c, l.Takes(serving))
  {
    hide LineInv, Line.Happens, Line.Handles, Line.Answer, ReceiverRuns.Step;
    if l.channels.toReceiver != [] {
      match serving
      case Disabled => DeclineInv(c, l, [RECEIVER_DISABLED]);
      case Swallowed => DeclineInv(c, l, []);
      case Serves(displays, now) =>
        var updated := l.Happens(ReceiverRuns.NewDisplays(displays));
        HappensInv(c, l, ReceiverRuns.NewDisplays(displays));
        DeclineInv(c, updated, [SESSION_REJECTED]);
        HandlesInv(c, updated, now);
    }
  }

  // ----- the controller's moves

  /** The reply in front is the one the controller is waiting for, or a rejection. */
  lemma ExpectedReply(c: ControllerSide, l: Line)
    requires LineInv(c, l) && l.channels.toController != [] && !c.state.Ended?
    ensures var w := l.channels; var frame := w.toController[0];
      && CheckFrame(frame).None? && !c.state.Idle?
      && (!frame.Reject? ==>
            && w.handled < l.clean && !c.state.Prepared?
            && (c.state.AwaitReady? ==> w.handled == 0 && frame == Offered(w.sent[1], l.session.localBoot))
            && (c.state.AwaitCommitAck? ==> frame == CommitAck(c.state.sessionId))
            && (c.state.Active? ==>
                  && frame.Pong? && frame.sessionId == c.state.sessionId
                  && c.lastPong < frame.sequence <= c.pingSequence && frame.highestApplied >= c.highestApplied))
  {
    hide ValidText, CheckFrame, ReceiverRuns.SessionInv, SessionStands, InFlight, IsPing;
    PopFlows(l.channels);
  }

  lemma ReceivedStands(c: ControllerSide, l: Line, entropy: Option<Id128>)
    requires LineInv(c, l) && l.channels.toController != []
    ensures var c' := c.Handle(l.channels.toController[0], entropy).state; var boot := l.session.localBoot;
      && Script(c', boot, l.channels.sent) && Replies(boot, l.channels.Pop(), l.clean)
      && ControllerStands(c', boot, l.channels.Pop(), l.clean)
    ensures l.session.localBoot != 0 ==> !l.Received(c, entropy).refused
  {
    hide ValidText, CheckFrame, ReceiverRuns.SessionInv, SessionStands, InFlight, IsPing, IsEcho;
    PopFlows(l.channels);
    if !c.state.Ended? { ExpectedReply(c, l); }
    ZeroRequestIsInvalid(l.channels.toController[0]);
    HandleKeepsIdentity(c, l.channels.toController[0], entropy);
    SameScript(c, c.Handle(l.channels.toController[0], entropy).state, l.session.localBoot, l.channels.sent);
  }

  /** The receiver's half depends on the controller's identity only. */
  lemma StandsForBoth(c: ControllerSide, c': ControllerSide, l: Line, channels: Channels)
    requires Script(c, l.session.localBoot, l.channels.sent) && Replies(l.session.localBoot, l.channels, l.clean)
    requires SessionStands(c, l) && c'.localBoot == c.localBoot
    requires channels.sent == l.channels.sent && channels.taken == l.channels.taken
    requires channels.replies == l.channels.replies
    requires Script(c', l.session.localBoot, channels.sent) && Replies(l.session.localBoot, channels, l.clean)
    ensures SessionStands(c', l.(channels := channels))
  {
    hide Script, Replies, ReceiverRuns.SessionInv, Matches;
  }

  lemma ReceivedInv(c: ControllerSide, l: Line, entropy: Option<Id128>)
    requires LineInv(c, l) && l.channels.toController != []
    ensures LineInv(c.Handle(l.channels.toController[0], entropy).state, l.Received(c, entropy))
  {
    hide ValidText, ReceiverRuns.SessionInv, SessionStands, ControllerStands, Script, Replies, Flows,
         ControllerSide.Handle;
    PopFlows(l.channels);
    ReceivedStands(c, l, entropy);
    HandleKeepsIdentity(c, l.channels.toController[0], entropy);
    var c' := c.Handle(l.channels.toController[0], entropy).state;
    StandsForBoth(c, c', l, l.channels.Pop());
    SessionStandsApart(c', l.(channels := l.channels.Pop()), l.Received(c, entropy));
  }

  lemma SessionStandsApart(c: ControllerSide, l: Line, l': Line)
    requires Script(c, l.session.localBoot, l.channels.sent) && Replies(l.session.localBoot, l.channels, l.clean)
    requires SessionStands(c, l) && l' == l.(refused := l'.refused)
    ensures SessionStands(c, l')
  {
    hide Script, Replies, ReceiverRuns.SessionInv, Matches;
  }

  /** Replies depend on the histories only, not on what is in flight. */
  lemma RepliesOfHistory(boot: Id128, w: Channels, clean: nat, w': Channels)
    requires Replies(boot, w, clean) && w'.sent == w.sent && w'.taken == w.taken && w'.replies == w.replies
    ensures Replies(boot, w', clean)
  {
    hide CheckFrame, IsEcho;
  }

  lemma SameHistoryInv(c: ControllerSide, l: Line, w: Channels)
    requires LineInv(c, l) && Flows(w) && w.sent == l.channels.sent && w.taken == l.channels.taken
    requires w.replies == l.channels.replies && w.handled == l.channels.handled
    ensures LineInv(c, l.(channels := w))
  {
    hide ValidText, ReceiverRuns.SessionInv, SessionStands, ControllerStands, Script, Replies, Flows;
    RepliesOfHistory(l.session.localBoot, l.channels, l.clean, w);
    StandsForBoth(c, c, l, w);
    FlowsHandled(l.channels);
    ControllerStays(c, l.session.localBoot, l.channels, l.clean, w, l.clean);
  }

  lemma CutsInv(c: ControllerSide, l: Line, keep: nat)
    requires LineInv(c, l)
    ensures LineInv(c, l.(channels := l.channels.CutForward(keep)))
    ensures LineInv(c, l.(channels := l.channels.CutBackward(keep)))
    ensures LineInv(c, l.(channels := l.channels.CloseForward()))
  {
    hide LineInv, Flows;
    LineFlows(c, l);
    CutsFlow(l.channels, keep);
    SameHistoryInv(c, l, l.channels.CutForward(keep));
    SameHistoryInv(c, l, l.channels.CutBackward(keep));
    SameHistoryInv(c, l, l.channels.CloseForward());
  }

  lemma LineFlows(c: ControllerSide, l: Line)
    requires LineInv(c, l)
    ensures Flows(l.channels)
  {
  }

  /** Frames still to come change nothing about the frames taken. */
  lemma LaterFrames(c: ControllerSide, l: Line, more: seq<ControlFrame>)
    requires LineInv(c, l) && Script(c, l.session.localBoot, l.channels.sent + more)
    ensures var w := l.channels.Emit(more);
      Replies(l.session.localBoot, w, l.clean) && SessionStands(c, l.(channels := w))
  {
    hide ValidText, CheckFrame, ReceiverRuns.SessionInv, ControllerStands, InFlight, IsPing, Matches;
  }

  lemma OperateStands(c: ControllerSide, boot: Id128, w: Channels, clean: nat, op: ControllerOp)
    requires c.localBoot != 0 && ValidText(c.localPeerId, MAX_PEER_ID_BYTES)
    requires Script(c, boot, w.sent) && Replies(boot, w, clean) && ControllerStands(c, boot, w, clean)
    requires op.OpBegin? ==> w == NewChannels
    ensures var out := Operate(c, op); var w' := w.Emit(out.frames);
      && Script(out.state, boot, w'.sent) && Script(c, boot, w'.sent)
      && out.state.localBoot == c.localBoot && out.state.localPeerId == c.localPeerId
      && (Replies(boot, w', clean) ==> ControllerStands(out.state, boot, w', clean))
  {
    hide ValidText, CheckTarget, CheckFrame, IsEcho, Script, SentAt;
    OperateScript(c, boot, w.sent, op);
  }

  lemma OperateLineInv(c: ControllerSide, l: Line, op: ControllerOp)
    requires LineInv(c, l)
    requires op.OpBegin? ==> l.channels == NewChannels
    ensures var out := Operate(c, op); LineInv(out.state, l.(channels := l.channels.Emit(out.frames)))
  {
    hide ValidText, ReceiverRuns.SessionInv, SessionStands, ControllerStands, Script, Replies, Flows, Operate;
    var out := Operate(c, op);
    OperateStands(c, l.session.localBoot, l.channels, l.clean, op);
    EmitFlows(l.channels, out.frames);
    LaterFrames(c, l, out.frames);
    var l' := l.(channels := l.channels.Emit(out.frames));
    StandsForBoth(c, out.state, l', l'.channels);
  }

  lemma NewLineInv(c: ControllerSide, session: SessionState, peer: Peer)
    requires c.localBoot != 0 && ValidText(c.localPeerId, MAX_PEER_ID_BYTES)
    requires c.state.Idle? || c.state.Ended?
    requires ReceiverRuns.SessionInv(session) && session.binding != Some(peer)
    ensures LineInv(c, NewLine(session, peer))
  {
    hide ReceiverRuns.SessionInv, ValidText;
  }

  // ----- main results

  /** An active controller's session is open at the receiver's runtime, on the display that
      was asked for, unless the receiver has left it; and what the controller believes to
      have been applied has been. */
  lemma ActiveMeansOpen(c: ControllerSide, l: Line)
    requires LineInv(c, l) && c.state.Active?
    ensures var session := c.state.sessionId; var s, w := l.session, l.channels;
      && session.controllerBoot == c.localBoot && session.receiverBoot == s.localBoot
      && |w.sent| >= 3 && w.sent[1].Prepare? && w.sent[2] == Commit(w.sent[1].requestId, session)
      && |w.replies| >= 2 && w.replies[0] == Offered(w.sent[1], s.localBoot) && w.replies[1] == CommitAck(session)
      && (!l.left ==>
            && s.binding == Some(l.peer) && s.active == Some(session)
            && s.gate.active == Some(Stream(session, s.highestApplied + 1))
            && s.shown.Some? && Matches(s.shown.value, w.sent[1])
            && c.highestApplied <= s.highestApplied)
  {
    hide ValidText, CheckFrame, ReceiverRuns.Safe, InFlight, IsPing, Matches;
    ReportedInOrder(l.session.localBoot, l.channels, l.clean);
  }

  lemma ReportedInOrder(boot: Id128, w: Channels, clean: nat)
    requires Replies(boot, w, clean)
    ensures forall i :: 2 <= i < clean ==> w.replies[i].highestApplied <= w.replies[clean - 1].highestApplied
  {
    hide CheckFrame;
  }
}
