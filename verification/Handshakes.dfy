/** The control protocol: frames, their validation, and the two state machines that
    exchange them.  Each machine exists twice: as a value with one function per
    operation, and as the class whose methods assign its fields. */
module Handshakes {
  import opened Base

  const MAX_PEER_ID_BYTES: nat := 256
  const MAX_CAPABILITIES: nat := 32
  const MAX_CAPABILITY_BYTES: nat := 64
  const MAX_DETAIL_BYTES: nat := 512
  const REQUIRED_CAPABILITIES: seq<string> := ["control_v2", "input_v2"]

  datatype Role = Controller | Receiver

  datatype SessionId = SessionId(controllerBoot: Id128, receiverBoot: Id128, nonce: Id128)

  datatype ControlFrame =
    | Hello(bootId: Id128, peerId: string, role: Role, capabilities: seq<string>)
    | Prepare(requestId: u64, targetDisplay: string, layoutRevision: u64)
    | Ready(requestId: u64, receiverBoot: Id128, inputReady: bool, targetDisplay: string, layoutRevision: u64)
    | Commit(requestId: u64, sessionId: SessionId)
    | CommitAck(sessionId: SessionId)
    | EndSession(sessionId: SessionId, reason: string)
    | Ping(sessionId: SessionId, sequence: u64)
    | Pong(sessionId: SessionId, sequence: u64, highestApplied: u64)
    | Reject(code: string, detail: string)

  datatype ProtocolError =
    | FrameTooLarge(size: nat) | InvalidLength | Truncated | Decode | InvalidMagic | UnsupportedMajor(major: nat)
    | InvalidField(field: string) | InvalidTransition | WrongBoot | WrongSession | WrongRole | RandomUnavailable

  // ----- validation

  function CheckText(value: string, max: nat, field: string): Option<ProtocolError> {
    if ValidText(value, max) then None else Some(InvalidField(field))
  }

  function CheckSession(session: SessionId): Option<ProtocolError> {
    if session.controllerBoot == 0 || session.receiverBoot == 0 || session.nonce == 0
    then Some(InvalidField("session_id")) else None
  }

  function CheckTarget(requestId: u64, targetDisplay: string, layoutRevision: u64): Option<ProtocolError> {
    if requestId == 0 then Some(InvalidField("request_id"))
    else if !ValidText(targetDisplay, MAX_PEER_ID_BYTES) then Some(InvalidField("target_display"))
    else if layoutRevision == 0 then Some(InvalidField("layout_revision"))
    else None
  }

  function CheckFrame(frame: ControlFrame): Option<ProtocolError> {
    match frame
    case Hello(_, peerId, _, capabilities) =>
      if !ValidText(peerId, MAX_PEER_ID_BYTES) then Some(InvalidField("peer_id"))
      else if |capabilities| > MAX_CAPABILITIES then Some(InvalidField("capabilities"))
      else if exists i :: 0 <= i < |capabilities| && !ValidText(capabilities[i], MAX_CAPABILITY_BYTES)
      then Some(InvalidField("capability"))
      else if exists i :: 0 <= i < |REQUIRED_CAPABILITIES| && REQUIRED_CAPABILITIES[i] !in capabilities
      then Some(InvalidField("capabilities"))
      else None
    case Prepare(requestId, display, revision) => CheckTarget(requestId, display, revision)
    case Ready(requestId, _, _, display, revision) => CheckTarget(requestId, display, revision)
    case Commit(requestId, session) =>
      if requestId == 0 then Some(InvalidField("request_id")) else CheckSession(session)
    case CommitAck(session) => CheckSession(session)
    case Ping(session, _) => CheckSession(session)
    case Pong(session, _, _) => CheckSession(session)
    case EndSession(session, reason) =>
      if CheckSession(session).Some? then CheckSession(session) else CheckText(reason, MAX_DETAIL_BYTES, "reason")
    case Reject(code, detail) =>
      if !ValidText(code, MAX_CAPABILITY_BYTES) then Some(InvalidField("code"))
      else CheckText(detail, MAX_DETAIL_BYTES, "detail")
  }

  /** A session names both boots and is told apart by its nonce. */
  predicate Complete(session: SessionId) { session.controllerBoot > 0 && session.receiverBoot > 0 && session.nonce > 0 }

  /** Which frames are valid. */
  lemma ValidControl(frame: ControlFrame)
    ensures CheckFrame(frame).None? <==>
      match frame
      case Hello(_, peerId, _, capabilities) =>
        && ValidText(peerId, MAX_PEER_ID_BYTES) && |capabilities| <= MAX_CAPABILITIES
        && (forall c :: c in capabilities ==> ValidText(c, MAX_CAPABILITY_BYTES))
        && "control_v2" in capabilities && "input_v2" in capabilities
      case Prepare(request, display, revision) =>
        request > 0 && ValidText(display, MAX_PEER_ID_BYTES) && revision > 0
      case Ready(request, _, _, display, revision) =>
        request > 0 && ValidText(display, MAX_PEER_ID_BYTES) && revision > 0
      case Commit(request, session) => request > 0 && Complete(session)
      case CommitAck(session) => Complete(session)
      case EndSession(session, reason) => Complete(session) && ValidText(reason, MAX_DETAIL_BYTES)
      case Ping(session, _) => Complete(session)
      case Pong(session, _, _) => Complete(session)
      case Reject(code, detail) => ValidText(code, MAX_CAPABILITY_BYTES) && ValidText(detail, MAX_DETAIL_BYTES)
  {
    hide ValidText;
    if frame.Hello? { assert REQUIRED_CAPABILITIES[0] == "control_v2" && REQUIRED_CAPABILITIES[1] == "input_v2"; }
  }

  // ----- the controller's side

  datatype ControllerState =
    | Idle
    | AwaitReady(requestId: u64, targetDisplay: string, layoutRevision: u64)
    | Prepared(requestId: u64, sessionId: SessionId)
    | AwaitCommitAck(sessionId: SessionId)
    | Active(sessionId: SessionId)
    | Ended

  /** What an operation leaves behind, the frames it hands out, and its error. */
  datatype Outcome<S> = Outcome(state: S, frames: seq<ControlFrame>, error: Option<ProtocolError>)

  datatype ControllerSide = ControllerSide(localBoot: Id128, localPeerId: string, state: ControllerState,
                                           pingSequence: u64, lastPong: u64, highestApplied: u64)
  {
    function Greeting(): ControlFrame { Hello(localBoot, localPeerId, Controller, REQUIRED_CAPABILITIES) }

    function Begin(requestId: u64, display: string, revision: u64): Outcome<ControllerSide> {
      if !state.Idle? && !state.Ended? then Outcome(this, [], Some(InvalidTransition))
      else if CheckTarget(requestId, display, revision).Some? then
        Outcome(this, [], CheckTarget(requestId, display, revision))
      else
        Outcome(this.(state := AwaitReady(requestId, display, revision)),
                [Greeting(), Prepare(requestId, display, revision)], None)
    }

    /** `entropy` is what the random source delivers, if it delivers. */
    function Handle(frame: ControlFrame, entropy: Option<Id128>): Outcome<ControllerSide> {
      if CheckFrame(frame).Some? then Outcome(this, [], CheckFrame(frame))
      else if frame.Reject? then Outcome(this.(state := Ended), [], Some(InvalidTransition))
      else if state.AwaitReady? && frame.Ready? then
        if frame.inputReady && frame.requestId == state.requestId && frame.targetDisplay == state.targetDisplay
           && frame.layoutRevision == state.layoutRevision && frame.receiverBoot != 0
        then
          if entropy.None? || entropy.value == 0 then Outcome(this, [], Some(RandomUnavailable))
          else Outcome(this.(state := Prepared(state.requestId,
                                               SessionId(localBoot, frame.receiverBoot, entropy.value))), [], None)
        else Outcome(this, [], Some(WrongSession))
      else if state.AwaitCommitAck? && frame.CommitAck? then
        if frame.sessionId == state.sessionId then
          Outcome(this.(state := Active(state.sessionId), pingSequence := 0, lastPong := 0, highestApplied := 0), [], None)
        else Outcome(this, [], Some(WrongSession))
      else if state.Active? && frame.Pong? then
        if frame.sessionId == state.sessionId && lastPong < frame.sequence <= pingSequence
           && frame.highestApplied >= highestApplied
        then Outcome(this.(lastPong := frame.sequence, highestApplied := frame.highestApplied), [], None)
        else Outcome(this, [], Some(WrongSession))
      else Outcome(this, [], Some(InvalidTransition))
    }

    function Commit(requestId: u64, sessionId: SessionId): Outcome<ControllerSide> {
      if state != Prepared(requestId, sessionId) then Outcome(this, [], Some(WrongSession))
      else Outcome(this.(state := AwaitCommitAck(sessionId)), [ControlFrame.Commit(requestId, sessionId)], None)
    }

    function Ping(): Outcome<ControllerSide> {
      if !state.Active? then Outcome(this, [], Some(InvalidTransition))
      else if pingSequence == U64_MAX then Outcome(this, [], Some(InvalidField("sequence")))
      else Outcome(this.(pingSequence := pingSequence + 1),
                   [ControlFrame.Ping(state.sessionId, pingSequence + 1)], None)
    }

    function Abort(): ControllerSide { this.(state := Ended) }

    function End(reason: string): Outcome<ControllerSide> {
      if !state.Active? then Outcome(this, [], Some(InvalidTransition))
      else
        var frame := EndSession(state.sessionId, reason);
        if CheckFrame(frame).Some? then Outcome(this, [], CheckFrame(frame))
        else Outcome(this.(state := Ended), [frame], None)
    }
  }

  /** The random source, as a value the caller cannot predict. */
  method GenerateSession(controllerBoot: Id128, receiverBoot: Id128, entropy: Option<Id128>)
    returns (session: Result<SessionId, ProtocolError>)
    ensures session == if entropy.Some? && entropy.value != 0
                       then Ok(SessionId(controllerBoot, receiverBoot, entropy.value)) else Err(RandomUnavailable)
  {
    if entropy.None? || entropy.value == 0 { return Err(RandomUnavailable); }
    session := Ok(SessionId(controllerBoot, receiverBoot, entropy.value));
  }

  class ControllerHandshake {
    const localBoot: Id128
    const localPeerId: string
    var state: ControllerState
    var pingSequence: u64
    var lastPong: u64
    var highestApplied: u64

    ghost function View(): ControllerSide reads this {
      ControllerSide(localBoot, localPeerId, state, pingSequence, lastPong, highestApplied)
    }

    constructor (localBoot: Id128, localPeerId: string)
      requires localBoot != 0 && ValidText(localPeerId, MAX_PEER_ID_BYTES)
      ensures View() == ControllerSide(localBoot, localPeerId, Idle, 0, 0, 0)
    {
      this.localBoot, this.localPeerId := localBoot, localPeerId;
      state, pingSequence, lastPong, highestApplied := Idle, 0, 0, 0;
    }

    static method New(localBoot: Id128, localPeerId: string)
      returns (handshake: Result<ControllerHandshake, ProtocolError>)
      ensures handshake.Ok? <==> localBoot != 0 && ValidText(localPeerId, MAX_PEER_ID_BYTES)
      ensures handshake.Ok? ==>
        fresh(handshake.value) && handshake.value.View() == ControllerSide(localBoot, localPeerId, Idle, 0, 0, 0)
      ensures handshake.Err? ==>
        handshake.error == InvalidField(if localBoot == 0 then "boot_id" else "peer_id")
    {
      if localBoot == 0 { return Err(InvalidField("boot_id")); }
      if !ValidText(localPeerId, MAX_PEER_ID_BYTES) { return Err(InvalidField("peer_id")); }
      var made := new ControllerHandshake(localBoot, localPeerId);
      handshake := Ok(made);
    }

    method Begin(requestId: u64, display: string, revision: u64)
      returns (frames: seq<ControlFrame>, error: Option<ProtocolError>)
      modifies this
      ensures Outcome(View(), frames, error) == old(View()).Begin(requestId, display, revision)
    {
      if !state.Idle? && !state.Ended? { return [], Some(InvalidTransition); }
      var prepare := Prepare(requestId, display, revision);
      error := CheckFrame(prepare);
      if error.Some? { return [], error; }
      state := AwaitReady(requestId, display, revision);
      frames := [Hello(localBoot, localPeerId, Controller, REQUIRED_CAPABILITIES), prepare];
    }

    method Handle(frame: ControlFrame, entropy: Option<Id128>) returns (error: Option<ProtocolError>)
      modifies this
      ensures Outcome(View(), [], error) == old(View()).Handle(frame, entropy)
    {
      error := CheckFrame(frame);
      if error.Some? { return; }
      match (state, frame) {
        case (_, Reject(_, _)) =>
          state := Ended;
          error := Some(InvalidTransition);
        case (AwaitReady(request, display, revision), Ready(received, boot, inputReady, shown, shownRevision)) =>
          if inputReady && request == received && display == shown && revision == shownRevision && boot != 0 {
            var session := GenerateSession(localBoot, boot, entropy);
            if session.Err? { return Some(session.error); }
            state := Prepared(request, session.value);
          } else {
            error := Some(WrongSession);
          }
        case (AwaitCommitAck(session), CommitAck(received)) =>
          if session == received {
            state := Active(session);
            pingSequence, lastPong, highestApplied := 0, 0, 0;
          } else {
            error := Some(WrongSession);
          }
        case (Active(session), Pong(received, sequence, applied)) =>
          if session == received && sequence > lastPong && sequence <= pingSequence && applied >= highestApplied {
            lastPong := sequence;
            highestApplied := applied;
          } else {
            error := Some(WrongSession);
          }
        case _ => error := Some(InvalidTransition);
      }
    }

    method ActiveSession() returns (session: Option<SessionId>)
      ensures session == if state.Active? then Some(state.sessionId) else None
    {
      session := if state.Active? then Some(state.sessionId) else None;
    }

    method PreparedSession() returns (prepared: Option<(u64, SessionId)>)
      ensures prepared == if state.Prepared? then Some((state.requestId, state.sessionId)) else None
    {
      prepared := if state.Prepared? then Some((state.requestId, state.sessionId)) else None;
    }

    method Commit(requestId: u64, sessionId: SessionId) returns (frame: Result<ControlFrame, ProtocolError>)
      modifies this
      ensures Outcome(View(), if frame.Ok? then [frame.value] else [], if frame.Ok? then None else Some(frame.error))
           == old(View()).Commit(requestId, sessionId)
    {
      var prepared := PreparedSession();
      if prepared != Some((requestId, sessionId)) { return Err(WrongSession); }
      state := AwaitCommitAck(sessionId);
      frame := Ok(ControlFrame.Commit(requestId, sessionId));
    }

    method Ping() returns (frame: Result<ControlFrame, ProtocolError>)
      modifies this
      ensures Outcome(View(), if frame.Ok? then [frame.value] else [], if frame.Ok? then None else Some(frame.error))
           == old(View()).Ping()
    {
      var session := ActiveSession();
      if session.None? { return Err(InvalidTransition); }
      if pingSequence == U64_MAX { return Err(InvalidField("sequence")); }
      pingSequence := pingSequence + 1;
      frame := Ok(ControlFrame.Ping(session.value, pingSequence));
    }

    method Abort()
      modifies this
      ensures View() == old(View()).Abort()
    {
      state := Ended;
    }

    method End(reason: string) returns (frame: Result<ControlFrame, ProtocolError>)
      modifies this
      ensures Outcome(View(), if frame.Ok? then [frame.value] else [], if frame.Ok? then None else Some(frame.error))
           == old(View()).End(reason)
    {
      var session := ActiveSession();
      if session.None? { return Err(InvalidTransition); }
      var end := EndSession(session.value, reason);
      var error := CheckFrame(end);
      if error.Some? { return Err(error.value); }
      state := Ended;
      frame := Ok(end);
    }
  }

  // ----- the receiver's side

  datatype ReceiverState =
    | AwaitHello
    | Greeted(controllerBoot: Id128)
    | PreparedFor(controllerBoot: Id128, requestId: u64)
    | InSession(sessionId: SessionId)
    | Over(sessionId: SessionId)

  datatype ReceiverSide = ReceiverSide(trustedPeerId: string, localBoot: Id128, state: ReceiverState) {
    function Offer(prepare: ControlFrame): ControlFrame
      requires prepare.Prepare?
    {
      Ready(prepare.requestId, localBoot, true, prepare.targetDisplay, prepare.layoutRevision)
    }

    function Handle(frame: ControlFrame): Outcome<ReceiverSide> {
      if CheckFrame(frame).Some? then Outcome(this, [], CheckFrame(frame))
      else
        match state
        case AwaitHello =>
          if !frame.Hello? then Outcome(this, [], Some(InvalidTransition))
          else if frame.role == Controller && frame.peerId == trustedPeerId
          then Outcome(this.(state := Greeted(frame.bootId)), [], None)
          else Outcome(this, [], Some(WrongRole))
        case Greeted(boot) =>
          if frame.Prepare? then Outcome(this.(state := PreparedFor(boot, frame.requestId)), [Offer(frame)], None)
          else Outcome(this, [], Some(Refusal(frame)))
        case PreparedFor(boot, request) =>
          if !frame.Commit? then Outcome(this, [], Some(Refusal(frame)))
          else if frame.requestId != request then Outcome(this, [], Some(InvalidTransition))
          else if frame.sessionId.controllerBoot != boot || frame.sessionId.receiverBoot != localBoot
          then Outcome(this, [], Some(WrongBoot))
          else Outcome(this.(state := InSession(frame.sessionId)), [CommitAck(frame.sessionId)], None)
        case InSession(session) =>
          if frame.Commit? && frame.sessionId == session then Outcome(this, [CommitAck(session)], None)
          else if frame.EndSession? && frame.sessionId == session then Outcome(this.(state := Over(session)), [], None)
          else if frame.Ping? && frame.sessionId == session
          then Outcome(this, [Pong(session, frame.sequence, 0)], None)
          else Outcome(this, [], Some(Refusal(frame)))
        case Over(session) =>
          if frame.EndSession? && frame.sessionId == session then Outcome(this, [], None)
          else if frame.Prepare?
          then Outcome(this.(state := PreparedFor(session.controllerBoot, frame.requestId)), [Offer(frame)], None)
          else Outcome(this, [], Some(Refusal(frame)))
    }

    /** How a frame is refused once the peer has said hello. */
    function Refusal(frame: ControlFrame): ProtocolError {
      match frame
      case Hello(boot, _, _, _) =>
        if (state.Greeted? || state.PreparedFor?) && state.controllerBoot != boot then WrongBoot
        else InvalidTransition
      case Commit(_, session) => if session.receiverBoot != localBoot then WrongBoot else WrongSession
      case Ping(session, _) => if session.receiverBoot != localBoot then WrongBoot else WrongSession
      case EndSession(session, _) => if session.receiverBoot != localBoot then WrongBoot else WrongSession
      case _ => InvalidTransition
    }

    function AbortActive(session: SessionId): Outcome<ReceiverSide> {
      if state == InSession(session) then Outcome(this.(state := Over(session)), [], None)
      else Outcome(this, [], Some(WrongSession))
    }
  }

  class ReceiverHandshake {
    const trustedPeerId: string
    const localBoot: Id128
    var state: ReceiverState

    ghost function View(): ReceiverSide reads this { ReceiverSide(trustedPeerId, localBoot, state) }

    constructor (trustedPeerId: string, localBoot: Id128)
      requires ValidText(trustedPeerId, MAX_PEER_ID_BYTES)
      ensures View() == ReceiverSide(trustedPeerId, localBoot, AwaitHello)
    {
      this.trustedPeerId, this.localBoot, state := trustedPeerId, localBoot, AwaitHello;
    }

    static method New(trustedPeerId: string, localBoot: Id128)
      returns (handshake: Result<ReceiverHandshake, ProtocolError>)
      ensures handshake.Ok? <==> ValidText(trustedPeerId, MAX_PEER_ID_BYTES)
      ensures handshake.Ok? ==>
        fresh(handshake.value) && handshake.value.View() == ReceiverSide(trustedPeerId, localBoot, AwaitHello)
      ensures handshake.Err? ==> handshake.error == InvalidField("peer_id")
    {
      if !ValidText(trustedPeerId, MAX_PEER_ID_BYTES) { return Err(InvalidField("peer_id")); }
      var made := new ReceiverHandshake(trustedPeerId, localBoot);
      handshake := Ok(made);
    }

    method AbortActive(session: SessionId) returns (error: Option<ProtocolError>)
      modifies this
      ensures Outcome(View(), [], error) == old(View()).AbortActive(session)
    {
      if state.InSession? && state.sessionId == session {
        state := Over(session);
        return None;
      }
      error := Some(WrongSession);
    }

    method Handle(frame: ControlFrame) returns (reply: Option<ControlFrame>, error: Option<ProtocolError>)
      modifies this
      ensures Outcome(View(), if reply.Some? then [reply.value] else [], error) == old(View()).Handle(frame)
    {
      reply, error := None, CheckFrame(frame);
      if error.Some? { return; }
      match (state, frame) {
        case (AwaitHello, Hello(boot, peer, role, _)) =>
          if role == Controller && peer == trustedPeerId {
            state := Greeted(boot);
          } else {
            error := Some(WrongRole);
          }
        case (Greeted(boot), Prepare(request, display, revision)) =>
          state := PreparedFor(boot, request);
          reply := Some(Ready(request, localBoot, true, display, revision));
        case (PreparedFor(boot, request), Commit(incoming, session)) =>
          if incoming != request { return None, Some(InvalidTransition); }
          if session.controllerBoot != boot || session.receiverBoot != localBoot { return None, Some(WrongBoot); }
          state := InSession(session);
          reply := Some(CommitAck(session));
        case (Over(session), Prepare(request, display, revision)) =>
          state := PreparedFor(session.controllerBoot, request);
          reply := Some(Ready(request, localBoot, true, display, revision));
        case (InSession(active), Commit(_, session)) =>
          if active == session { reply := Some(CommitAck(session)); } else { error := Refuse(frame); }
        case (InSession(active), EndSession(session, _)) =>
          if active == session { state := Over(session); } else { error := Refuse(frame); }
        case (InSession(active), Ping(session, sequence)) =>
          if active == session { reply := Some(Pong(session, sequence, 0)); } else { error := Refuse(frame); }
        case (Over(last), EndSession(session, _)) =>
          if last != session { error := Refuse(frame); }
        case (AwaitHello, _) => error := Some(InvalidTransition);
        case _ => error := Refuse(frame);
      }
    }

    method Refuse(frame: ControlFrame) returns (error: Option<ProtocolError>)
      ensures error == Some(View().Refusal(frame))
    {
      error := Some(InvalidTransition);
      match frame {
        case Hello(boot, _, _, _) =>
          match state {
            case Greeted(known) => if known != boot { error := Some(WrongBoot); }
            case PreparedFor(known, _) => if known != boot { error := Some(WrongBoot); }
            case _ =>
          }
        case Commit(_, session) =>
          error := Some(if session.receiverBoot != localBoot then WrongBoot else WrongSession);
        case Ping(session, _) =>
          error := Some(if session.receiverBoot != localBoot then WrongBoot else WrongSession);
        case EndSession(session, _) =>
          error := Some(if session.receiverBoot != localBoot then WrongBoot else WrongSession);
        case _ =>
      }
    }
  }
}
