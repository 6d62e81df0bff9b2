/** One control connection: a controller and a receiver joined by two FIFO channels
    that can be cut anywhere, at any time, independently of each other. */
module Links {
  import opened Base
  import opened Handshakes

  /** Both directions of a connection.  `sent` and `replies` are everything either side ever
      emitted on it, `taken` and `handled` how much of it the other side has looked at.
      What is in flight is the part of it that no cut has dropped. */
  datatype Channels = Channels(toReceiver: seq<ControlFrame>, toController: seq<ControlFrame>,
                               forwardOpen: bool, backwardOpen: bool,
                               sent: seq<ControlFrame>, taken: nat, replies: seq<ControlFrame>, handled: nat)
  {
    /** The controller hands frames to its channel. */
    function Emit(frames: seq<ControlFrame>): Channels {
      this.(sent := sent + frames, toReceiver := if forwardOpen then toReceiver + frames else toReceiver)
    }

    function CloseForward(): Channels { this.(forwardOpen := false) }

    /** The channel loses everything behind the first `keep` frames in flight. */
    function CutForward(keep: nat): Channels {
      this.(forwardOpen := false, toReceiver := if keep < |toReceiver| then toReceiver[..keep] else toReceiver)
    }

    function CutBackward(keep: nat): Channels {
      this.(backwardOpen := false,
            toController := if keep < |toController| then toController[..keep] else toController)
    }

    /** The receiver takes the frame in front and replies. */
    function Take(reply: seq<ControlFrame>): Channels
      requires toReceiver != []
    {
      this.(toReceiver := toReceiver[1..], taken := taken + 1, replies := replies + reply,
            toController := if backwardOpen then toController + reply else toController)
    }

    /** The controller takes the reply in front. */
    function Pop(): Channels
      requires toController != []
    {
      this.(toController := toController[1..], handled := handled + 1)
    }
  }

  const NewChannels := Channels([], [], true, true, [], 0, [], 0)

  datatype Link = Link(receiver: ReceiverSide, channels: Channels, aborted: bool, refused: bool, rejected: bool) {
    /** The receiver handles the next frame, if one has arrived. */
    function ReceiverTakes(): Link {
      if channels.toReceiver == [] then this
      else
        var out := receiver.Handle(channels.toReceiver[0]);
        this.(receiver := out.state, channels := channels.Take(out.frames), refused := refused || out.error.Some?)
    }

    function ReceiverAborts(session: SessionId): Link {
      var out := receiver.AbortActive(session);
      this.(receiver := out.state, aborted := aborted || out.error.None?)
    }
  }

  function NewLink(trustedPeerId: string, receiverBoot: Id128): Link {
    Link(ReceiverSide(trustedPeerId, receiverBoot, AwaitHello), NewChannels, false, false, false)
  }

  predicate IsPing(frame: ControlFrame, session: SessionId, number: int) {
    frame.Ping? && frame.sessionId == session && frame.sequence == number
  }

  predicate IsPong(frame: ControlFrame, session: SessionId, number: int) {
    frame.Pong? && frame.sessionId == session && frame.sequence == number && frame.highestApplied == 0
  }

  /** What is in flight continues the history where the other side stopped; as long as
      the channel is open nothing is missing. */
  ghost predicate InFlight(channel: seq<ControlFrame>, history: seq<ControlFrame>, seen: nat, open: bool) {
    seen <= |history| && (if open then channel == history[seen..] else channel <= history[seen..])
  }

  /** Everything the controller has sent: a greeting and a preparation, then a commit,
      then numbered pings, then at most one end, in that order. */
  ghost predicate Script(c: ControllerSide, boot: Id128, sent: seq<ControlFrame>) {
    && (forall i :: 0 <= i < |sent| ==> CheckFrame(sent[i]).None?)
    && (|sent| != 0 ==> |sent| >= 2 && sent[0] == c.Greeting() && sent[1].Prepare?)
    && (|sent| >= 3 ==> sent[2].Commit? && sent[2].requestId == sent[1].requestId
                        && sent[2].sessionId.controllerBoot == c.localBoot && sent[2].sessionId.receiverBoot == boot)
    && (forall i :: 3 <= i < |sent| ==>
          || IsPing(sent[i], sent[2].sessionId, i - 2)
          || (i == |sent| - 1 && sent[i].EndSession? && sent[i].sessionId == sent[2].sessionId))
  }

  function Offered(prepare: ControlFrame, boot: Id128): ControlFrame
    requires prepare.Prepare?
  {
    Ready(prepare.requestId, boot, true, prepare.targetDisplay, prepare.layoutRevision)
  }

  /** Everything the receiver has replied to a script: an offer, an acknowledgement,
      and the echoes of the pings. */
  ghost predicate Echo(sent: seq<ControlFrame>, boot: Id128, replies: seq<ControlFrame>, taken: nat)
    requires taken <= |sent|
    requires |sent| == 0 || (|sent| >= 2 && sent[1].Prepare?)
    requires |sent| >= 3 ==> sent[2].Commit?
  {
    && (taken < 2 ==> replies == [])
    && (taken == 2 ==> |replies| == 1)
    && (taken >= 3 ==> 2 <= |replies| <= taken - 1)
    && (|replies| >= 1 ==> replies[0] == Offered(sent[1], boot))
    && (|replies| >= 2 ==> replies[1] == CommitAck(sent[2].sessionId))
    && (forall i :: 2 <= i < |replies| ==> IsPong(replies[i], sent[2].sessionId, i - 1))
    && (|replies| >= 3 ==> sent[|replies|].Ping?)
  }

  /** Where the script has brought the receiver that trusts this controller. */
  ghost predicate ReceiverAt(c: ControllerSide, receiver: ReceiverSide, sent: seq<ControlFrame>, taken: nat,
                             replies: seq<ControlFrame>, aborted: bool)
    requires Script(c, receiver.localBoot, sent) && taken <= |sent|
  {
    match taken
    case 0 => receiver.state == AwaitHello
    case 1 => receiver.state == Greeted(c.localBoot)
    case 2 => receiver.state == PreparedFor(c.localBoot, sent[1].requestId)
    case _ =>
      if aborted || sent[taken - 1].EndSession? then receiver.state == Over(sent[2].sessionId)
      else receiver.state == InSession(sent[2].sessionId) && |replies| == taken - 1
  }

  ghost predicate ReceiverSideOk(c: ControllerSide, receiver: ReceiverSide, sent: seq<ControlFrame>, taken: nat,
                                 replies: seq<ControlFrame>, aborted: bool, refused: bool)
    requires Script(c, receiver.localBoot, sent) && taken <= |sent|
  {
    && (if receiver.trustedPeerId == c.localPeerId then
          && Echo(sent, receiver.localBoot, replies, taken)
          && ReceiverAt(c, receiver, sent, taken, replies, aborted)
          && (!aborted ==> !refused)
        else
          receiver.state == AwaitHello && replies == [])
    && (aborted ==> taken >= 3)
  }

  /** What the controller has sent by the time it is in its state. */
  ghost predicate SentAt(c: ControllerSide, boot: Id128, sent: seq<ControlFrame>)
    requires Script(c, boot, sent)
  {
    match c.state
    case Idle => sent == []
    case AwaitReady(request, display, revision) => |sent| == 2 && sent[1] == Prepare(request, display, revision)
    case Prepared(request, session) =>
      && |sent| == 2 && sent[1].requestId == request
      && CheckSession(session).None? && request != 0
      && session.controllerBoot == c.localBoot && session.receiverBoot == boot
    case AwaitCommitAck(session) => |sent| == 3 && sent[2].sessionId == session
    case Active(session) =>
      && |sent| == 3 + c.pingSequence && sent[2].sessionId == session
      && (forall i :: 3 <= i < |sent| ==> sent[i].Ping?)
    case Ended => true
  }

  /** Where the script has brought the controller. */
  ghost predicate ControllerAt(c: ControllerSide, boot: Id128, sent: seq<ControlFrame>, handled: nat)
    requires Script(c, boot, sent)
  {
    && SentAt(c, boot, sent)
    && match c.state
       case AwaitReady(_, _, _) => handled <= 1
       case Prepared(_, _) => handled == 1
       case AwaitCommitAck(_) => handled == 1
       case Active(_) => handled == 2 + c.lastPong && c.highestApplied == 0
       case _ => true
  }

  ghost predicate LinkInv(c: ControllerSide, l: Link) {
    && c.localBoot != 0
    && ValidText(c.localPeerId, MAX_PEER_ID_BYTES)
    && Script(c, l.receiver.localBoot, l.channels.sent)
    && Flows(l.channels)
    && ReceiverSideOk(c, l.receiver, l.channels.sent, l.channels.taken, l.channels.replies, l.aborted, l.refused)
    && ControllerAt(c, l.receiver.localBoot, l.channels.sent, l.channels.handled)
    && (l.receiver.localBoot != 0 ==> !l.rejected)
  }

  ghost predicate Flows(w: Channels) {
    && w.taken <= |w.sent| && w.handled <= |w.replies|
    && InFlight(w.toReceiver, w.sent, w.taken, w.forwardOpen)
    && InFlight(w.toController, w.replies, w.handled, w.backwardOpen)
  }

  lemma FlightTake(channel: seq<ControlFrame>, history: seq<ControlFrame>, seen: nat, open: bool)
    requires InFlight(channel, history, seen, open) && channel != []
    ensures seen < |history| && channel[0] == history[seen] && InFlight(channel[1..], history, seen + 1, open)
  {
    assert history[seen..][0] == history[seen];
    assert history[seen..][1..] == history[seen + 1..];
  }

  lemma FlightGrow(channel: seq<ControlFrame>, history: seq<ControlFrame>, seen: nat, open: bool,
                   more: seq<ControlFrame>)
    requires InFlight(channel, history, seen, open)
    ensures InFlight(if open then channel + more else channel, history + more, seen, open)
  {
    assert (history + more)[seen..] == history[seen..] + more;
  }

  lemma CutsFlow(w: Channels, keep: nat)
    requires Flows(w)
    ensures Flows(w.CutForward(keep)) && Flows(w.CutBackward(keep)) && Flows(w.CloseForward())
  {
  }

  lemma EmitFlows(w: Channels, frames: seq<ControlFrame>)
    requires Flows(w)
    ensures Flows(w.Emit(frames))
  {
    hide InFlight;
    FlightGrow(w.toReceiver, w.sent, w.taken, w.forwardOpen, frames);
  }

  lemma TakeFlows(w: Channels, reply: seq<ControlFrame>)
    requires Flows(w) && w.toReceiver != []
    ensures Flows(w.Take(reply)) && w.taken < |w.sent| && w.toReceiver[0] == w.sent[w.taken]
  {
    hide InFlight;
    FlightTake(w.toReceiver, w.sent, w.taken, w.forwardOpen);
    FlightGrow(w.toController, w.replies, w.handled, w.backwardOpen, reply);
  }

  lemma PopFlows(w: Channels)
    requires Flows(w) && w.toController != []
    ensures Flows(w.Pop()) && w.handled < |w.replies| && w.toController[0] == w.replies[w.handled]
  {
    hide InFlight;
    FlightTake(w.toController, w.replies, w.handled, w.backwardOpen);
  }

  lemma GreetingIsValid(c: ControllerSide)
    requires ValidText(c.localPeerId, MAX_PEER_ID_BYTES)
    ensures CheckFrame(c.Greeting()).None?
  {
    hide ValidText;
    PlainTextIsValid("control_v2", MAX_CAPABILITY_BYTES);
    PlainTextIsValid("input_v2", MAX_CAPABILITY_BYTES);
    assert REQUIRED_CAPABILITIES[0] in REQUIRED_CAPABILITIES && REQUIRED_CAPABILITIES[1] in REQUIRED_CAPABILITIES;
  }

  lemma NewLinkInv(c: ControllerSide, trustedPeerId: string, receiverBoot: Id128)
    requires c.localBoot != 0 && ValidText(c.localPeerId, MAX_PEER_ID_BYTES)
    requires c.state.Idle? || c.state.Ended?
    ensures LinkInv(c, NewLink(trustedPeerId, receiverBoot))
  {
  }

  lemma CutsInv(c: ControllerSide, l: Link, keep: nat)
    requires LinkInv(c, l)
    ensures LinkInv(c, l.(channels := l.channels.CutForward(keep)))
    ensures LinkInv(c, l.(channels := l.channels.CutBackward(keep)))
    ensures LinkInv(c, l.(channels := l.channels.CloseForward()))
  {
    hide ValidText, InFlight, Script, ReceiverSideOk, ControllerAt;
    CutsFlow(l.channels, keep);
  }

  lemma ReceiverAbortsInv(c: ControllerSide, l: Link, session: SessionId)
    requires LinkInv(c, l)
    ensures LinkInv(c, l.ReceiverAborts(session))
  {
    hide CheckFrame, ValidText, InFlight, IsPing, IsPong, Echo, ControllerAt;
  }

  /** How the receiver answers the next frame of the script. */
  lemma ReceiverFollows(c: ControllerSide, receiver: ReceiverSide, sent: seq<ControlFrame>, taken: nat,
                        replies: seq<ControlFrame>, aborted: bool, refused: bool)
    requires c.localBoot != 0 && Script(c, receiver.localBoot, sent) && taken < |sent|
    requires ReceiverSideOk(c, receiver, sent, taken, replies, aborted, refused)
    ensures var out := receiver.Handle(sent[taken]);
      && out.state.localBoot == receiver.localBoot
      && ReceiverSideOk(c, out.state, sent, taken + 1, replies + out.frames, aborted, refused || out.error.Some?)
  {
    hide CheckFrame, ValidText;
    var frame := sent[taken];
    assert CheckFrame(frame).None?;
    if receiver.trustedPeerId != c.localPeerId { assert taken >= 1 ==> !frame.Hello?; }
  }

  lemma ReceiverTakesInv(c: ControllerSide, l: Link)
    requires LinkInv(c, l)
    ensures LinkInv(c, l.ReceiverTakes())
  {
    hide ValidText, InFlight, Script, ReceiverSideOk, ControllerAt, ReceiverSide.Handle;
    if l.channels.toReceiver != [] {
      TakeFlows(l.channels, l.receiver.Handle(l.channels.toReceiver[0]).frames);
      ReceiverFollows(c, l.receiver, l.channels.sent, l.channels.taken, l.channels.replies, l.aborted, l.refused);
    }
  }

  // ----- the controller's moves

  /** The controller handles the next reply.  A refusal counts while it has not ended,
      unless it is only the random source that failed. */
  function Receive(c: ControllerSide, l: Link, entropy: Option<Id128>): (ControllerSide, Link)
    requires l.channels.toController != []
  {
    var out := c.Handle(l.channels.toController[0], entropy);
    (out.state,
     l.(channels := l.channels.Pop(),
        rejected := l.rejected || (out.error.Some? && out.error != Some(RandomUnavailable) && !c.state.Ended?)))
  }

  /** The reply in front of the channel is the one the controller is waiting for. */
  lemma ExpectedReply(c: ControllerSide, l: Link)
    requires LinkInv(c, l) && l.channels.toController != []
    ensures var frame := l.channels.toController[0];
      && CheckFrame(frame).None? && !frame.Reject?
      && !c.state.Idle? && !c.state.Prepared?
      && (c.state.AwaitReady? ==>
            l.channels.handled == 0 && frame == Offered(l.channels.sent[1], l.receiver.localBoot))
      && (c.state.AwaitCommitAck? ==> frame == CommitAck(c.state.sessionId) && l.channels.taken >= 3)
      && (c.state.Active? ==> IsPong(frame, c.state.sessionId, c.lastPong + 1) && c.lastPong < c.pingSequence)
  {
    hide ValidText;
    PopFlows(l.channels);
    assert |l.channels.sent| > 1 ==> CheckFrame(l.channels.sent[1]).None?;
    assert |l.channels.sent| > 2 ==> CheckFrame(l.channels.sent[2]).None?;
  }

  /** How the controller takes the reply it is waiting for. */
  lemma ControllerFollows(c: ControllerSide, boot: Id128, sent: seq<ControlFrame>, handled: nat,
                          frame: ControlFrame, entropy: Option<Id128>)
    requires c.localBoot != 0 && Script(c, boot, sent) && ControllerAt(c, boot, sent, handled)
    requires CheckFrame(frame).None? && !frame.Reject? && !c.state.Idle? && !c.state.Prepared?
    requires c.state.AwaitReady? ==> handled == 0 && frame == Offered(sent[1], boot)
    requires c.state.AwaitCommitAck? ==> frame == CommitAck(c.state.sessionId)
    requires c.state.Active? ==> IsPong(frame, c.state.sessionId, c.lastPong + 1) && c.lastPong < c.pingSequence
    ensures var out := c.Handle(frame, entropy);
      && Script(out.state, boot, sent) && ControllerAt(out.state, boot, sent, handled + 1)
      && (boot != 0 && out.error.Some? ==> out.error == Some(RandomUnavailable) || c.state.Ended?)
  {
    hide ValidText, CheckFrame, IsPing;
    ZeroRequestIsInvalid(frame);
    SameScript(c, c.Handle(frame, entropy).state, boot, sent);
  }

  lemma SameScript(c: ControllerSide, c': ControllerSide, boot: Id128, sent: seq<ControlFrame>)
    requires Script(c, boot, sent) && c'.localBoot == c.localBoot && c'.localPeerId == c.localPeerId
    ensures Script(c', boot, sent)
  {
    hide ValidText, CheckFrame, IsPing;
  }

  lemma ReceiveInv(c: ControllerSide, l: Link, entropy: Option<Id128>)
    requires LinkInv(c, l) && l.channels.toController != []
    ensures var (c', l') := Receive(c, l, entropy); LinkInv(c', l')
  {
    hide ValidText, InFlight, CheckFrame, Script, ReceiverSideOk, ControllerAt, ControllerSide.Handle;
    ExpectedReply(c, l);
    var w := l.channels;
    PopFlows(w);
    ControllerFollows(c, l.receiver.localBoot, w.sent, w.handled, w.toController[0], entropy);
    HandleKeepsIdentity(c, w.toController[0], entropy);
    ReceiverSideIgnoresState(c, Receive(c, l, entropy).0, l.receiver, w.sent, w.taken, w.replies, l.aborted, l.refused);
  }

  lemma HandleKeepsIdentity(c: ControllerSide, frame: ControlFrame, entropy: Option<Id128>)
    ensures var c' := c.Handle(frame, entropy).state; c'.localBoot == c.localBoot && c'.localPeerId == c.localPeerId
  {
    hide CheckFrame;
  }

  lemma ZeroRequestIsInvalid(frame: ControlFrame)
    ensures frame.Ready? && CheckFrame(frame).None? ==> frame.requestId != 0
  {
  }

  /** The receiver's half depends on the controller's identity only, and on the part of
      the script it has seen. */
  lemma ReceiverSideIgnoresState(c: ControllerSide, c': ControllerSide, receiver: ReceiverSide,
                                 sent: seq<ControlFrame>, taken: nat, replies: seq<ControlFrame>,
                                 aborted: bool, refused: bool)
    requires Script(c, receiver.localBoot, sent) && taken <= |sent|
    requires ReceiverSideOk(c, receiver, sent, taken, replies, aborted, refused)
    requires c.localBoot == c'.localBoot && c.localPeerId == c'.localPeerId
    ensures Script(c', receiver.localBoot, sent)
    ensures ReceiverSideOk(c', receiver, sent, taken, replies, aborted, refused)
  {
  }

  lemma ReceiverSideIgnoresFuture(c: ControllerSide, receiver: ReceiverSide,
                                  sent: seq<ControlFrame>, more: seq<ControlFrame>, taken: nat,
                                  replies: seq<ControlFrame>, aborted: bool, refused: bool)
    requires Script(c, receiver.localBoot, sent) && Script(c, receiver.localBoot, sent + more) && taken <= |sent|
    requires ReceiverSideOk(c, receiver, sent, taken, replies, aborted, refused)
    ensures ReceiverSideOk(c, receiver, sent + more, taken, replies, aborted, refused)
  {
    hide ValidText, CheckFrame, IsPing, IsPong;
  }

  datatype ControllerOp =
    | OpBegin(requestId: u64, display: string, revision: u64)
    | OpCommit(requestId: u64, sessionId: SessionId)
    | OpPing
    | OpEnd(reason: string)
    | OpAbort

  function Operate(c: ControllerSide, op: ControllerOp): Outcome<ControllerSide> {
    match op
    case OpBegin(request, display, revision) => c.Begin(request, display, revision)
    case OpCommit(request, session) => c.Commit(request, session)
    case OpPing => c.Ping()
    case OpEnd(reason) => c.End(reason)
    case OpAbort => Outcome(c.Abort(), [], None)
  }

  lemma BeginScript(c: ControllerSide, boot: Id128, requestId: u64, display: string, revision: u64)
    requires c.localBoot != 0 && ValidText(c.localPeerId, MAX_PEER_ID_BYTES)
    requires c.state.Idle? || c.state.Ended?
    ensures var out := c.Begin(requestId, display, revision);
      Script(out.state, boot, out.frames) && (out.error.None? ==> SentAt(out.state, boot, out.frames))
  {
    hide ValidText;
    GreetingIsValid(c);
  }

  /** Whatever the controller does, what it has sent follows the script and fits its state. */
  lemma OperateScript(c: ControllerSide, boot: Id128, sent: seq<ControlFrame>, op: ControllerOp)
    requires c.localBoot != 0 && ValidText(c.localPeerId, MAX_PEER_ID_BYTES)
    requires Script(c, boot, sent) && SentAt(c, boot, sent)
    requires op.OpBegin? ==> sent == []
    ensures var out := Operate(c, op);
      && Script(out.state, boot, sent + out.frames)
      && Script(c, boot, sent + out.frames)
      && SentAt(out.state, boot, sent + out.frames)
      && out.state.localBoot == c.localBoot && out.state.localPeerId == c.localPeerId
  {
    hide ValidText, CheckTarget;
    var frames := Operate(c, op).frames;
    if frames == [] {
      assert sent + frames == sent;
    } else if op.OpBegin? {
      assert sent + frames == frames;
      BeginScript(c, boot, op.requestId, op.display, op.revision);
    } else {
      assert sent + frames == sent + [frames[0]] && CheckFrame(frames[0]).None?;
    }
  }

  lemma OperateAt(c: ControllerSide, boot: Id128, sent: seq<ControlFrame>, handled: nat, op: ControllerOp)
    requires Script(c, boot, sent) && ControllerAt(c, boot, sent, handled)
    requires op.OpBegin? ==> handled == 0
    requires var out := Operate(c, op);
      Script(out.state, boot, sent + out.frames) && SentAt(out.state, boot, sent + out.frames)
    ensures var out := Operate(c, op); ControllerAt(out.state, boot, sent + out.frames, handled)
  {
    hide Script, SentAt, CheckFrame, CheckTarget;
  }

  lemma OperateInv(c: ControllerSide, l: Link, op: ControllerOp)
    requires LinkInv(c, l)
    requires op.OpBegin? ==> l.channels.sent == []
    ensures var out := Operate(c, op); LinkInv(out.state, l.(channels := l.channels.Emit(out.frames)))
  {
    var w := l.channels;
    if w.sent == [] { assert w.replies == [] && w.handled == 0; }
    hide ValidText, InFlight, Script, ReceiverSideOk, SentAt, Operate;
    OperateScript(c, l.receiver.localBoot, w.sent, op);
    OperateAt(c, l.receiver.localBoot, w.sent, w.handled, op);
    var out := Operate(c, op);
    var all := w.sent + out.frames;
    EmitFlows(w, out.frames);
    ReceiverSideIgnoresFuture(c, l.receiver, w.sent, out.frames, w.taken, w.replies, l.aborted, l.refused);
    ReceiverSideIgnoresState(c, out.state, l.receiver, all, w.taken, w.replies, l.aborted, l.refused);
  }

  // ----- main results

  /** An active controller has an agreeing receiver: it is in that very session, or it
      was and its side was aborted locally; the session names both boots; and the
      receiver itself offered exactly the request, display and layout asked for. */
  lemma ActiveMeansAgreed(c: ControllerSide, l: Link)
    requires LinkInv(c, l) && c.state.Active?
    ensures var session := c.state.sessionId; var w := l.channels;
      && (l.receiver.state == InSession(session) || (l.aborted && l.receiver.state == Over(session)))
      && session.controllerBoot == c.localBoot && session.receiverBoot == l.receiver.localBoot
      && |w.sent| >= 3 && w.sent[1].Prepare? && w.sent[2] == Commit(w.sent[1].requestId, session)
      && |w.replies| >= 2 && w.replies[0] == Offered(w.sent[1], l.receiver.localBoot)
      && w.replies[1] == CommitAck(session)
  {
    hide ValidText, CheckFrame;
  }

  /** Unless the receiver aborts on its own, nothing the controller sends is refused;
      and nothing the receiver replies is refused before the controller ends. */
  lemma NothingIsRefused(c: ControllerSide, l: Link)
    requires LinkInv(c, l)
    requires l.receiver.trustedPeerId == c.localPeerId && l.receiver.localBoot != 0
    ensures !l.aborted ==> !l.refused
    ensures !l.rejected
  {
  }
}
