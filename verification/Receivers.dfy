/** The receiver's session runtime: it binds a connection, drives the handshake, lets
    critical frames through the gate, holds motion back until what it refers to has been
    applied, and injects the resulting commands.  As a value first, then as the class. */
module Receivers {
  import opened Base
  import Routing
  import opened Handshakes
  import opened Inputs
  import opened Pressed

  const INPUT_LEASE_TIMEOUT_MS: u64 := 3000

  type PortError = Routing.PortError

  /** Who is at the other end of an authenticated connection. */
  datatype Peer = Peer(peerId: string, role: Role, connection: nat)

  datatype SessionError = WrongPeerRole | WrongConnection | Protocol(error: ProtocolError) | Injector(port: PortError)

  datatype Fault =
    | InjectorFault(injected: PortError)
    | ReleaseFailed(release: PortError)
    | LeaseExpired
    | InputStreamClosed
    | LayoutChanged

  datatype InputCommand =
    | MouseMove(x: i32, y: i32, drag: Option<CriticalButton>)
    | Act(command: Command)

  // ----- displays

  /** The share of `size` that `value` is of `of`, rounded down as for non-negative numbers. */
  function Share(value: nat, size: nat, of: nat): (r: int)
    requires of > 0
    ensures r >= 0
  {
    value * size / of
  }

  function MapAxis(value: i32, logicalSize: i32, nativeOrigin: i32, nativeSize: i32): i32
    requires 0 <= value
  {
    if logicalSize <= 1 || nativeSize <= 1 then nativeOrigin
    else
      var mapped := nativeOrigin + Share(value, nativeSize - 1, logicalSize - 1);
      if mapped > 0x7FFF_FFFF then 0x7FFF_FFFF else mapped
  }

  datatype Display = Display(id: string, revision: u64, logicalWidth: i32, logicalHeight: i32,
                             nativeX: i32, nativeY: i32, nativeWidth: i32, nativeHeight: i32)
  {
    function Map(x: i32, y: i32): Result<(i32, i32), ProtocolError> {
      if revision == 0 || logicalWidth <= 0 || logicalHeight <= 0 || nativeWidth <= 0 || nativeHeight <= 0
         || x < 0 || y < 0 || x >= logicalWidth || y >= logicalHeight
      then Err(InvalidField("coordinates"))
      else Ok((MapAxis(x, logicalWidth, nativeX, nativeWidth), MapAxis(y, logicalHeight, nativeY, nativeHeight)))
    }
  }

  function FindDisplay(displays: seq<Display>, id: string, revision: u64): Option<Display> {
    if displays == [] then None
    else if displays[0].id == id && displays[0].revision == revision then Some(displays[0])
    else FindDisplay(displays[1..], id, revision)
  }

  // ----- the injector

  /** What was injected, what that makes the machine hold, and what every further attempt
      will meet: the answers are a tape that nothing constrains. */
  datatype Injected = Injected(posted: seq<InputCommand>, machine: Machine, drawn: nat, tape: nat -> Option<PortError>) {
    function Post(command: InputCommand): (Injected, Option<PortError>) {
      var answer := tape(drawn);
      var s := this.(drawn := drawn + 1);
      (if answer.Some? then s
       else s.(posted := posted + [command], machine := if command.Act? then machine.Do(command.command) else machine),
       answer)
    }

    /** Command after command, up to the first that fails. */
    function Submit(commands: seq<InputCommand>): (Injected, Option<PortError>)
      decreases |commands|
    {
      if commands == [] then (this, None)
      else
        var (s, failure) := Post(commands[0]);
        if failure.Some? then (s, failure) else s.Submit(commands[1..])
    }

    /** All commands, whatever fails; `last` is the error met last so far, if any. */
    function SubmitAll(commands: seq<InputCommand>, last: Option<PortError>): (Injected, Option<PortError>)
      decreases |commands|
    {
      if commands == [] then (this, last)
      else
        var (s, failure) := Post(commands[0]);
        s.SubmitAll(commands[1..], if failure.Some? then failure else last)
    }
  }

  function Acts(commands: seq<Command>): seq<InputCommand> {
    seq(|commands|, i requires 0 <= i < |commands| => Act(commands[i]))
  }

  function DragOf(ledger: Ledger): Option<CriticalButton> {
    var held := Buttons(ledger.buttons);
    if Left in held then Some(Left) else if CriticalButton.Right in held then Some(CriticalButton.Right)
    else if Middle in held then Some(Middle) else None
  }

  // ----- the session

  datatype Disposition = MotionApplied | MotionBuffered | MotionStale

  datatype Reply = Reply(state: SessionState, response: Option<ControlFrame>, error: Option<SessionError>)

  datatype After = After(state: SessionState, error: Option<SessionError>)

  datatype SessionState = SessionState(localBoot: Id128, binding: Option<Peer>, handshake: Option<ReceiverSide>,
                                       gate: GateSide, active: Option<SessionId>,
                                       highestApplied: u64, highestMotion: u64, pending: Option<MotionFrame>,
                                       displays: seq<Display>, prepared: Option<Display>, shown: Option<Display>,
                                       remap: u16 -> u16, lastActivity: Option<u64>, fault: Option<Fault>,
                                       pressed: Ledger, injector: Injected)
  {
    function ResetMotion(): SessionState { this.(highestMotion := 0, pending := None) }

    /** Let go of everything held.  If a release fails, the ledger keeps all its entries. */
    function ReleasePressed(): After {
      var (injector', failure) := injector.SubmitAll(Acts(pressed.ReleaseAll().commands), None);
      if failure.Some? then
        After(this.(injector := injector', fault := Some(ReleaseFailed(failure.value))),
                Some(Injector(FirstFailure())))
      else After(this.(injector := injector', pressed := pressed.ReleaseAll().ledger), None)
    }

    /** The error a failed release reports is the first one met. */
    function FirstFailure(): PortError
      requires injector.SubmitAll(Acts(pressed.ReleaseAll().commands), None).1.Some?
    {
      FirstIsSome(injector, Acts(pressed.ReleaseAll().commands), None);
      FirstOf(injector, Acts(pressed.ReleaseAll().commands)).value
    }

    /** The handshake and the gate leave the session. */
    function Leave(session: SessionId): SessionState {
      this.(gate := gate.End(session).0, active := None, lastActivity := None,
            handshake := if handshake.Some? then Some(handshake.value.AbortActive(session).state) else None).ResetMotion()
    }

    function Greet(frame: ControlFrame, peer: Peer): Reply
      requires frame.Hello?
    {
      if frame.peerId != peer.peerId || active.Some? then Reply(this, None, Some(WrongConnection))
      else
        var out := ReleasePressed();
        if out.error.Some? then Reply(out.state, None, out.error)
        else if !ValidText(peer.peerId, MAX_PEER_ID_BYTES) then
          Reply(out.state, None, Some(Protocol(InvalidField("peer_id"))))
        else
          var hs := ReceiverSide(peer.peerId, localBoot, AwaitHello).Handle(frame);
          if hs.error.Some? then Reply(out.state, None, Some(Protocol(hs.error.value)))
          else
            Reply(out.state.Bind(peer, hs.state), if hs.frames == [] then None else Some(hs.frames[0]), None)
    }

    /** A new connection, known by its greeting only. */
    function Bind(peer: Peer, greeted: ReceiverSide): SessionState {
      this.(binding := Some(peer), handshake := Some(greeted)).StartOver(None, None)
    }

    /** From here on `display` is shown, nothing is prepared and nothing has been applied. */
    function StartOver(display: Option<Display>, activity: Option<u64>): SessionState {
      this.(shown := display, prepared := None, highestApplied := 0, lastActivity := activity).ResetMotion()
    }

    function HandleControl(frame: ControlFrame, peer: Peer, nowMs: u64): Reply {
      if peer.role != Controller then Reply(this, None, Some(WrongPeerRole))
      else if frame.Hello? && frame.role == Controller then Greet(frame, peer)
      else if binding != Some(peer) then Reply(this, None, Some(WrongConnection))
      else if active.None? && frame.Commit? && prepared.None? then
        Reply(this, None, Some(Protocol(InvalidField("layout_revision"))))
      else if frame.Prepare? then
        var answer := injector.tape(injector.drawn);
        var s := this.(injector := injector.(drawn := injector.drawn + 1));
        if answer.Some? then Reply(s, None, Some(Injector(answer.value)))
        else
          var s := s.(prepared := FindDisplay(displays, frame.targetDisplay, frame.layoutRevision));
          if s.prepared.None? then Reply(s, None, Some(Protocol(InvalidField("layout_revision"))))
          else s.PassOn(frame, nowMs)
      else PassOn(frame, nowMs)
    }

    /** The handshake handles the frame, and the session follows. */
    function PassOn(frame: ControlFrame, nowMs: u64): Reply {
      if handshake.None? then Reply(this, None, Some(WrongConnection))
      else
        var hs := handshake.value.Handle(frame);
        var s := this.(handshake := Some(hs.state));
        if hs.error.Some? then Reply(s, None, Some(Protocol(hs.error.value)))
        else
          var response := if hs.frames == [] then None else Some(hs.frames[0]);
          var joined := if response.Some? && response.value.CommitAck? then s.Open(response.value.sessionId, nowMs)
                        else After(s, None);
          if joined.error.Some? then Reply(joined.state, None, joined.error)
          else
            var ended := if frame.EndSession? then joined.state.EndOrdered(frame.sessionId) else joined;
            if ended.error.Some? then Reply(ended.state, None, ended.error)
            else
              var t := ended.state;
              Reply(if t.active.Some? && (frame.Ping? || frame.Commit?) then t.(lastActivity := Some(nowMs)) else t,
                    if response.Some? && response.value.Pong?
                    then Some(response.value.(highestApplied := t.highestApplied)) else response,
                    None)
    }

    function Open(session: SessionId, nowMs: u64): After {
      if active.Some? then After(this, if active.value == session then None else Some(Protocol(WrongSession)))
      else if pressed.keys != [] || pressed.buttons != [] then After(this, Some(Protocol(InvalidTransition)))
      else
        var (gate', refused) := gate.Activate(session);
        if refused.Some? then After(this.(gate := gate'), Some(Protocol(refused.value)))
        else After(this.(gate := gate', active := Some(session), fault := None).StartOver(prepared, Some(nowMs)), None)
    }

    /** The controller ended a session; what is held is let go either way. */
    function EndOrdered(session: SessionId): After {
      if active != Some(session) then ReleasePressed()
      else
        var (gate', refused) := gate.End(session);
        if refused.Some? then After(this.(gate := gate'), Some(Protocol(refused.value)))
        else this.(gate := gate', active := None, shown := None, lastActivity := None).ResetMotion().ReleasePressed()
    }

    function UpdateDisplays(displays': seq<Display>): (After, bool) {
      var s := this.(displays := displays',
                     prepared := if prepared.Some? && prepared.value !in displays' then None else prepared);
      if shown.None? || shown.value in displays' then (After(s, None), false)
      else
        var out := s.DropSession().(shown := None, fault := Some(LayoutChanged)).ReleasePressed();
        (out, out.error.None?)
    }

    function DropSession(): SessionState {
      if active.Some? then Leave(active.value) else this.(lastActivity := None).ResetMotion()
    }

    function MapPointer(x: i32, y: i32): Result<(i32, i32), ProtocolError> {
      if shown.None? then Err(InvalidField("display_id")) else shown.value.Map(x, y)
    }

    function HandleInput(frame: CriticalFrame, peer: Peer, nowMs: u64): After {
      if binding != Some(peer) || peer.role != Controller then After(this, Some(WrongConnection))
      else if frame.event.Key? then AcceptKey(frame, nowMs)
      else if frame.event.motionSequence != 0 && frame.event.motionSequence < highestMotion then
        After(this, Some(Protocol(WrongSession)))
      else
        var point := MapPointer(frame.event.x, frame.event.y);
        if point.Err? then After(this, Some(Protocol(point.error)))
        else AcceptPointer(frame, point.value.0, point.value.1, nowMs)
    }

    function AcceptKey(frame: CriticalFrame, nowMs: u64): After
      requires frame.event.Key?
    {
      var (gate', refused) := gate.Accept(frame);
      if refused.Some? then After(this.(gate := gate'), Some(Protocol(refused.value)))
      else
        var out := pressed.Apply(frame.event.(keyCode := remap(frame.event.keyCode)));
        this.(gate := gate').Carry(frame, out.ledger, Acts(out.commands), nowMs)
    }

    function AcceptPointer(frame: CriticalFrame, x: i32, y: i32, nowMs: u64): After
      requires !frame.event.Key?
    {
      var (gate', refused) := gate.Accept(frame);
      if refused.Some? then After(this.(gate := gate'), Some(Protocol(refused.value)))
      else
        var out := pressed.UpdatePointer(x, y).Apply(frame.event.(x := x, y := y));
        var moves := if frame.event.Scroll? then [MouseMove(x, y, DragOf(pressed))] else [];
        var commands := moves + Acts(out.commands);
        this.(gate := gate').Carry(frame, out.ledger,
          if commands == [] then [MouseMove(x, y, DragOf(out.ledger))] else commands, nowMs)
    }

    /** Inject what an accepted frame asks for; a failure ends the session. */
    function Carry(frame: CriticalFrame, ledger: Ledger, commands: seq<InputCommand>, nowMs: u64): After {
      var (injector', failure) := injector.Submit(commands);
      if failure.Some? then
        After(this.(injector := injector').FailInjection(failure.value, frame.sessionId), Some(Injector(failure.value)))
      else
        this.(injector := injector', pressed := ledger, highestApplied := frame.sequence,
              highestMotion := if !frame.event.Key? && frame.event.motionSequence > highestMotion
                               then frame.event.motionSequence else highestMotion,
              lastActivity := Some(nowMs)).FlushPending()
    }

    function FailInjection(failure: PortError, session: SessionId): SessionState {
      this.(fault := Some(InjectorFault(failure))).Leave(session).ReleasePressed().state
    }

    function ApplyMotion(frame: MotionFrame): After {
      var point := MapPointer(frame.x, frame.y);
      if point.Err? then After(this, Some(Protocol(point.error)))
      else
        var (x, y) := point.value;
        var moved := pressed.UpdatePointer(x, y);
        var (injector', failure) := injector.Post(MouseMove(x, y, DragOf(moved)));
        if failure.Some? then
          After(this.(injector := injector').FailInjection(failure.value, frame.sessionId), Some(Injector(failure.value)))
        else After(this.(injector := injector', pressed := moved, highestMotion := frame.sequence), None)
    }

    function FlushPending(): After {
      if pending.None? || pending.value.requiredReliableSequence > highestApplied then After(this, None)
      else
        var s := this.(pending := None);
        if pending.value.sequence > highestMotion then s.ApplyMotion(pending.value) else After(s, None)
    }

    function HandleMotion(frame: MotionFrame, peer: Peer, nowMs: u64): (After, Disposition) {
      if binding != Some(peer) || peer.role != Controller then (After(this, Some(WrongConnection)), MotionStale)
      else if frame.sequence == 0 || active != Some(frame.sessionId) || frame.sessionId.receiverBoot != localBoot
      then (After(this, Some(Protocol(WrongSession))), MotionStale)
      else if frame.sequence <= highestMotion then (After(this, None), MotionStale)
      else if shown.None? then (After(this, Some(Protocol(InvalidField("display_id")))), MotionStale)
      else if frame.displayId != shown.value.id || frame.layoutRevision != shown.value.revision then
        (After(this, Some(Protocol(InvalidField("layout_revision")))), MotionStale)
      else if shown.value.Map(frame.x, frame.y).Err? then
        (After(this, Some(Protocol(shown.value.Map(frame.x, frame.y).error))), MotionStale)
      else
        var s := this.(lastActivity := Some(nowMs));
        if frame.requiredReliableSequence > highestApplied then
          (After(if pending.None? || frame.sequence > pending.value.sequence then s.(pending := Some(frame)) else s,
                   None), MotionBuffered)
        else (s.ApplyMotion(frame), MotionApplied)
    }

    function ExpireIfNeeded(nowMs: u64): (After, bool) {
      if active.None? || lastActivity.None? || nowMs < lastActivity.value + INPUT_LEASE_TIMEOUT_MS
      then (After(this, None), false)
      else
        var out := Leave(active.value).(fault := Some(LeaseExpired)).ReleasePressed();
        (out, out.error.None?)
    }

    function StreamClosed(peer: Peer): (After, bool) {
      if binding != Some(peer) || active.None? then (After(this, None), false)
      else
        var out := Leave(active.value).(fault := Some(InputStreamClosed)).ReleasePressed();
        (out, out.error.None?)
    }
  }

  /** The first error that posting all commands meets. */
  function FirstOf(injector: Injected, commands: seq<InputCommand>): Option<PortError>
    decreases |commands|
  {
    if commands == [] then None
    else
      var (s, failure) := injector.Post(commands[0]);
      if failure.Some? then failure else FirstOf(s, commands[1..])
  }

  lemma {:induction false} FirstIsSome(injector: Injected, commands: seq<InputCommand>, last: Option<PortError>)
    ensures injector.SubmitAll(commands, last).1.Some? <==> last.Some? || FirstOf(injector, commands).Some?
    decreases |commands|
  {
    if commands != [] {
      var (s, failure) := injector.Post(commands[0]);
      FirstIsSome(s, commands[1..], if failure.Some? then failure else last);
      if failure.Some? { FirstIsSome(s, commands[1..], failure); }
    }
  }

  function InitialSession(localBoot: Id128, displays: seq<Display>, remap: u16 -> u16,
                          tape: nat -> Option<PortError>): SessionState {
    SessionState(localBoot, None, None, GateSide(localBoot, None, None), None, 0, 0, None, displays, None, None,
                 remap, None, None, Ledger([], []), Injected([], Machine({}, {}), 0, tape))
  }

  // ----- the runtime as an object

  class InjectorPort {
    var drawn: nat
    const tape: nat -> Option<PortError>
    ghost var posted: seq<InputCommand>
    ghost var machine: Machine

    ghost function View(): Injected reads this { Injected(posted, machine, drawn, tape) }

    constructor (tape: nat -> Option<PortError>)
      ensures View() == Injected([], Machine({}, {}), 0, tape)
    {
      this.tape, drawn := tape, 0;
      posted, machine := [], Machine({}, {});
    }

    /** One answer stands for readiness and submission together. */
    method Readiness() returns (failure: Option<PortError>)
      modifies this
      ensures failure == tape(old(drawn)) && View() == old(View()).(drawn := old(drawn) + 1)
    {
      failure := tape(drawn);
      drawn := drawn + 1;
    }

    method Post(command: InputCommand) returns (failure: Option<PortError>)
      modifies this
      ensures (View(), failure) == old(View()).Post(command)
    {
      failure := Readiness();
      if failure.Some? { return; }
      posted := posted + [command];
      if command.Act? { machine := machine.Do(command.command); }
    }
  }

  class ReceiverSessionRuntime {
    const localBoot: Id128
    var binding: Option<Peer>
    var handshake: ReceiverHandshake?
    const gate: InputSessionGate
    var active: Option<SessionId>
    var highestApplied: u64
    var highestMotion: u64
    var pending: Option<MotionFrame>
    var displays: seq<Display>
    var prepared: Option<Display>
    var shown: Option<Display>
    var remap: u16 -> u16
    var lastActivity: Option<u64>
    var fault: Option<Fault>
    const pressed: PressedState
    const injector: InjectorPort

    ghost function View(): SessionState
      reads this, handshake, gate, pressed, injector
    {
      SessionState(localBoot, binding, if handshake == null then None else Some(handshake.View()), gate.View(), active,
                   highestApplied, highestMotion, pending, displays, prepared, shown, remap, lastActivity, fault,
                   pressed.View(), injector.View())
    }

    constructor (localBoot: Id128, injector: InjectorPort, displays: seq<Display>)
      requires injector.View() == Injected([], Machine({}, {}), 0, injector.tape)
      ensures View() == InitialSession(localBoot, displays, remap, injector.tape)
      ensures fresh(gate) && fresh(pressed) && this.injector == injector && handshake == null
    {
      this.localBoot, this.injector, this.displays := localBoot, injector, displays;
      gate := new InputSessionGate(localBoot);
      pressed := new PressedState();
      binding, handshake, active, pending, prepared, shown := None, null, None, None, None, None;
      highestApplied, highestMotion, lastActivity, fault := 0, 0, None, None;
      remap := (key: u16) => key;
    }

    method UpdateMapping(remap': u16 -> u16)
      modifies this
      ensures View() == old(View()).(remap := remap') && handshake == old(handshake)
    {
      remap := remap';
    }

    method ResetMotion()
      modifies this
      ensures View() == old(View()).ResetMotion() && handshake == old(handshake)
    {
      highestMotion, pending := 0, None;
    }

    method ReleasePressed() returns (error: Option<SessionError>)
      modifies this, pressed, injector
      ensures After(View(), error) == old(View()).ReleasePressed() && handshake == old(handshake)
    {
      hide Ledger.ReleaseAll, Injected.Post;
      ghost var start := injector.View();
      var keys, buttons := pressed.keys, pressed.buttons;
      var commands := pressed.ReleaseAll();
      ghost var all := Acts(commands);
      var first: Option<PortError> := None;
      ghost var last: Option<PortError> := None;
      var i := 0;
      while i < |commands|
        invariant i <= |commands| && handshake == old(handshake)
        invariant View() == old(View()).(pressed := pressed.View(), injector := injector.View(), fault := fault)
        invariant pressed.View() == old(View()).pressed.ReleaseAll().ledger
        invariant injector.View().SubmitAll(all[i..], last) == start.SubmitAll(all, None)
        invariant (if first.Some? then first else FirstOf(injector.View(), all[i..])) == FirstOf(start, all)
        invariant first.Some? <==> last.Some?
        invariant fault == if last.Some? then Some(ReleaseFailed(last.value)) else old(fault)
      {
        assert all[i..][0] == Act(commands[i]) && all[i..][1..] == all[i + 1..];
        var failure := injector.Post(Act(commands[i]));
        if failure.Some? {
          fault := Some(ReleaseFailed(failure.value));
          last := failure;
          if first.None? { first := failure; }
        }
        i := i + 1;
      }
      assert all[i..] == [];
      FirstIsSome(start, all, None);
      if first.Some? {
        pressed.keys, pressed.buttons := keys, buttons;
        return Some(Injector(first.value));
      }
      error := None;
    }

    method Leave(session: SessionId)
      modifies this, handshake, gate
      ensures View() == old(View()).Leave(session) && handshake == old(handshake)
    {
      var _ := gate.End(session);
      if handshake != null { var _ := handshake.AbortActive(session); }
      active, lastActivity := None, None;
      ResetMotion();
    }

    method Greet(frame: ControlFrame, peer: Peer) returns (response: Option<ControlFrame>, error: Option<SessionError>)
      requires frame.Hello?
      modifies this, pressed, injector
      ensures Reply(View(), response, error) == old(View()).Greet(frame, peer)
      ensures handshake == old(handshake) || fresh(handshake)
    {
      hide SessionState.ReleasePressed, ReceiverSide.Handle, ValidText;
      response, error := None, None;
      if frame.peerId != peer.peerId || active.Some? { return None, Some(WrongConnection); }
      error := ReleasePressed();
      if error.Some? { return; }
      var made := ReceiverHandshake.New(peer.peerId, localBoot);
      if made.Err? { return None, Some(Protocol(made.error)); }
      var refused: Option<ProtocolError>;
      response, refused := made.value.Handle(frame);
      if refused.Some? { return None, Some(Protocol(refused.value)); }
      Bind(peer, made.value);
    }

    method Bind(peer: Peer, greeted: ReceiverHandshake)
      modifies this
      ensures View() == old(View()).Bind(peer, old(greeted.View())) && handshake == greeted
    {
      hide ReceiverHandshake.View, InputSessionGate.View, PressedState.View, InjectorPort.View;
      binding, handshake := Some(peer), greeted;
      StartOver(None, None);
    }

    method StartOver(display: Option<Display>, activity: Option<u64>)
      modifies this
      ensures View() == old(View()).StartOver(display, activity) && handshake == old(handshake)
    {
      hide ReceiverHandshake.View, InputSessionGate.View, PressedState.View, InjectorPort.View;
      highestApplied, prepared, shown, lastActivity := 0, None, display, activity;
      ResetMotion();
    }

    method HandleControl(frame: ControlFrame, peer: Peer, nowMs: u64)
      returns (response: Option<ControlFrame>, error: Option<SessionError>)
      modifies this, handshake, gate, pressed, injector
      ensures Reply(View(), response, error) == old(View()).HandleControl(frame, peer, nowMs)
      ensures handshake == old(handshake) || fresh(handshake)
    {
      hide SessionState.Greet, SessionState.PassOn, FindDisplay;
      response, error := None, None;
      if peer.role != Controller { return None, Some(WrongPeerRole); }
      if frame.Hello? && frame.role == Controller {
        response, error := Greet(frame, peer);
        return;
      }
      if binding != Some(peer) { return None, Some(WrongConnection); }
      if active.None? && frame.Commit? && prepared.None? {
        return None, Some(Protocol(InvalidField("layout_revision")));
      }
      if frame.Prepare? {
        var failure := injector.Readiness();
        if failure.Some? { return None, Some(Injector(failure.value)); }
        prepared := FindDisplay(displays, frame.targetDisplay, frame.layoutRevision);
        if prepared.None? { return None, Some(Protocol(InvalidField("layout_revision"))); }
      }
      response, error := PassOn(frame, nowMs);
    }

    method PassOn(frame: ControlFrame, nowMs: u64)
      returns (response: Option<ControlFrame>, error: Option<SessionError>)
      modifies this, handshake, gate, pressed, injector
      ensures Reply(View(), response, error) == old(View()).PassOn(frame, nowMs) && handshake == old(handshake)
    {
      hide SessionState.Open, SessionState.EndOrdered, ReceiverSide.Handle, InputSessionGate.View, PressedState.View,
           InjectorPort.View;
      response, error := None, None;
      if handshake == null { return None, Some(WrongConnection); }
      var refused: Option<ProtocolError>;
      response, refused := handshake.Handle(frame);
      if refused.Some? { return None, Some(Protocol(refused.value)); }
      if response.Some? && response.value.CommitAck? {
        error := Open(response.value.sessionId, nowMs);
        if error.Some? { return None, error; }
      }
      if frame.EndSession? {
        error := EndOrdered(frame.sessionId);
        if error.Some? { return None, error; }
      }
      if response.Some? && response.value.Pong? {
        response := Some(response.value.(highestApplied := highestApplied));
      }
      if active.Some? && (frame.Ping? || frame.Commit?) { lastActivity := Some(nowMs); }
    }

    method Open(session: SessionId, nowMs: u64) returns (error: Option<SessionError>)
      modifies this, gate
      ensures After(View(), error) == old(View()).Open(session, nowMs) && handshake == old(handshake)
    {
      hide GateSide.Activate, ReceiverHandshake.View, InputSessionGate.View, InjectorPort.View;
      error := None;
      if active.Some? { return if active.value == session then None else Some(Protocol(WrongSession)); }
      if pressed.keys != [] || pressed.buttons != [] { return Some(Protocol(InvalidTransition)); }
      var refused := gate.Activate(session);
      if refused.Some? { return Some(Protocol(refused.value)); }
      active, fault := Some(session), None;
      StartOver(prepared, Some(nowMs));
    }

    method EndOrdered(session: SessionId) returns (error: Option<SessionError>)
      modifies this, gate, pressed, injector
      ensures After(View(), error) == old(View()).EndOrdered(session) && handshake == old(handshake)
    {
      hide SessionState.ReleasePressed;
      if active == Some(session) {
        var refused := gate.End(session);
        if refused.Some? { return Some(Protocol(refused.value)); }
        active, shown, lastActivity := None, None, None;
        ResetMotion();
      }
      error := ReleasePressed();
    }

    method UpdateDisplays(displays': seq<Display>) returns (changed: bool, error: Option<SessionError>)
      modifies this, handshake, gate, pressed, injector
      ensures (After(View(), error), changed) == old(View()).UpdateDisplays(displays') && handshake == old(handshake)
    {
      hide SessionState.ReleasePressed, SessionState.Leave, ReceiverHandshake.View, InputSessionGate.View, PressedState.View,
           InjectorPort.View;
      var current := shown.None? || shown.value in displays';
      if prepared.Some? && prepared.value !in displays' { prepared := None; }
      displays := displays';
      if current { return false, None; }
      DropSession();
      shown, fault := None, Some(LayoutChanged);
      error := ReleasePressed();
      changed := error.None?;
    }

    method DropSession()
      modifies this, handshake, gate
      ensures View() == old(View()).DropSession() && handshake == old(handshake)
    {
      if active.Some? { Leave(active.value); }
      lastActivity := None;
      ResetMotion();
    }

    method HandleInput(frame: CriticalFrame, peer: Peer, nowMs: u64) returns (error: Option<SessionError>)
      modifies this, handshake, gate, pressed, injector
      ensures After(View(), error) == old(View()).HandleInput(frame, peer, nowMs) && handshake == old(handshake)
    {
      hide SessionState.Carry, Ledger.Apply, Ledger.UpdatePointer, GateSide.Accept, Display.Map, ReceiverHandshake.View,
           InputSessionGate.View, InjectorPort.View;
      if binding != Some(peer) || peer.role != Controller { return Some(WrongConnection); }
      var pointer := !frame.event.Key?;
      if pointer && frame.event.motionSequence != 0 && frame.event.motionSequence < highestMotion {
        return Some(Protocol(WrongSession));
      }
      var mapped := frame.event;
      if pointer {
        var point := MapPointer(frame.event.x, frame.event.y);
        if point.Err? { return Some(Protocol(point.error)); }
        mapped := mapped.(x := point.value.0, y := point.value.1);
      } else {
        mapped := mapped.(keyCode := remap(mapped.keyCode));
      }
      var refused := gate.Accept(frame);
      if refused.Some? { return Some(Protocol(refused.value)); }
      ghost var accepted := View();
      var keys, buttons := pressed.keys, pressed.buttons;
      var commands: seq<InputCommand> := [];
      if pointer {
        var drag := pressed.DragButton();
        pressed.UpdatePointer(mapped.x, mapped.y);
        if frame.event.Scroll? { commands := [MouseMove(mapped.x, mapped.y, drag)]; }
      }
      var more := pressed.Apply(mapped);
      commands := commands + Acts(more);
      if commands == [] && pointer {
        var drag := pressed.DragButton();
        commands := [MouseMove(mapped.x, mapped.y, drag)];
      }
      assert !pointer ==> [] + Acts(more) == Acts(more);
      error := Carry(frame, keys, buttons, commands, nowMs, accepted);
    }

    /** The ledger has taken the event already; `keys` and `buttons` are what it held before. */
    method Carry(frame: CriticalFrame, keys: seq<HeldKey>, buttons: seq<HeldButton>, commands: seq<InputCommand>,
                 nowMs: u64, ghost accepted: SessionState)
      returns (error: Option<SessionError>)
      requires View() == accepted.(pressed := pressed.View()) && accepted.pressed == Ledger(keys, buttons)
      modifies this, handshake, gate, pressed, injector
      ensures After(View(), error) == accepted.Carry(frame, old(pressed.View()), commands, nowMs)
      ensures handshake == old(handshake)
    {
      hide SessionState.FlushPending, SessionState.FailInjection, Injected.Post;
      var i := 0;
      while i < |commands|
        invariant i <= |commands| && handshake == old(handshake)
        invariant View() == accepted.(pressed := old(pressed.View()), injector := injector.View())
        invariant injector.View().Submit(commands[i..]) == accepted.injector.Submit(commands)
      {
        assert commands[i..][1..] == commands[i + 1..];
        var failure := injector.Post(commands[i]);
        if failure.Some? {
          pressed.keys, pressed.buttons := keys, buttons;
          FailInjection(failure.value, frame.sessionId);
          return Some(Injector(failure.value));
        }
        i := i + 1;
      }
      highestApplied := frame.sequence;
      if !frame.event.Key? && frame.event.motionSequence > highestMotion { highestMotion := frame.event.motionSequence; }
      lastActivity := Some(nowMs);
      error := FlushPending();
    }

    method FailInjection(failure: PortError, session: SessionId)
      modifies this, handshake, gate, pressed, injector
      ensures View() == old(View()).FailInjection(failure, session) && handshake == old(handshake)
    {
      hide SessionState.ReleasePressed;
      fault := Some(InjectorFault(failure));
      Leave(session);
      var _ := ReleasePressed();
    }

    method MapPointer(x: i32, y: i32) returns (point: Result<(i32, i32), ProtocolError>)
      ensures point == View().MapPointer(x, y)
    {
      if shown.None? { return Err(InvalidField("display_id")); }
      point := shown.value.Map(x, y);
    }

    method ApplyMotion(frame: MotionFrame) returns (error: Option<SessionError>)
      modifies this, handshake, gate, pressed, injector
      ensures After(View(), error) == old(View()).ApplyMotion(frame) && handshake == old(handshake)
    {
      hide SessionState.FailInjection, Display.Map;
      var point := MapPointer(frame.x, frame.y);
      if point.Err? { return Some(Protocol(point.error)); }
      var (x, y) := point.value;
      var keys, buttons := pressed.keys, pressed.buttons;
      pressed.UpdatePointer(x, y);
      var drag := pressed.DragButton();
      var failure := injector.Post(MouseMove(x, y, drag));
      if failure.Some? {
        pressed.keys, pressed.buttons := keys, buttons;
        FailInjection(failure.value, frame.sessionId);
        return Some(Injector(failure.value));
      }
      highestMotion := frame.sequence;
      error := None;
    }

    method FlushPending() returns (error: Option<SessionError>)
      modifies this, handshake, gate, pressed, injector
      ensures After(View(), error) == old(View()).FlushPending() && handshake == old(handshake)
    {
      hide SessionState.ApplyMotion;
      error := None;
      if pending.None? { return; }
      var frame := pending.value;
      if frame.requiredReliableSequence > highestApplied { return; }
      pending := None;
      if frame.sequence > highestMotion { error := ApplyMotion(frame); }
    }

    method HandleMotion(frame: MotionFrame, peer: Peer, nowMs: u64)
      returns (disposition: Disposition, error: Option<SessionError>)
      modifies this, handshake, gate, pressed, injector
      ensures (After(View(), error), disposition) == old(View()).HandleMotion(frame, peer, nowMs)
      ensures handshake == old(handshake)
    {
      hide SessionState.ApplyMotion, Display.Map;
      disposition, error := MotionStale, None;
      if binding != Some(peer) || peer.role != Controller { return MotionStale, Some(WrongConnection); }
      if frame.sequence == 0 || active != Some(frame.sessionId) || frame.sessionId.receiverBoot != localBoot {
        return MotionStale, Some(Protocol(WrongSession));
      }
      if frame.sequence <= highestMotion { return; }
      if shown.None? { return MotionStale, Some(Protocol(InvalidField("display_id"))); }
      if frame.displayId != shown.value.id || frame.layoutRevision != shown.value.revision {
        return MotionStale, Some(Protocol(InvalidField("layout_revision")));
      }
      var point := shown.value.Map(frame.x, frame.y);
      if point.Err? { return MotionStale, Some(Protocol(point.error)); }
      lastActivity := Some(nowMs);
      if frame.requiredReliableSequence > highestApplied {
        if pending.None? || frame.sequence > pending.value.sequence { pending := Some(frame); }
        return MotionBuffered, None;
      }
      error := ApplyMotion(frame);
      disposition := MotionApplied;
    }

    method ExpireIfNeeded(nowMs: u64) returns (expired: bool, error: Option<SessionError>)
      modifies this, handshake, gate, pressed, injector
      ensures (After(View(), error), expired) == old(View()).ExpireIfNeeded(nowMs) && handshake == old(handshake)
    {
      hide SessionState.ReleasePressed;
      if active.None? || lastActivity.None? { return false, None; }
      if nowMs < lastActivity.value || nowMs - lastActivity.value < INPUT_LEASE_TIMEOUT_MS { return false, None; }
      Leave(active.value);
      fault := Some(LeaseExpired);
      error := ReleasePressed();
      expired := error.None?;
    }

    method StreamClosed(peer: Peer) returns (closed: bool, error: Option<SessionError>)
      modifies this, handshake, gate, pressed, injector
      ensures (After(View(), error), closed) == old(View()).StreamClosed(peer) && handshake == old(handshake)
    {
      hide SessionState.ReleasePressed;
      if binding != Some(peer) || active.None? { return false, None; }
      Leave(active.value);
      fault := Some(InputStreamClosed);
      error := ReleasePressed();
      closed := error.None?;
    }
  }
}
