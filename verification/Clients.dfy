/** The controller client: it carries out what the runtime asks for on a transport that
    may fail at any call, and answers every failure by going local.  As a value first,
    then as the class that owns the runtime, the transport and the inbox. */
module Clients {
  import opened Base
  import Routing
  import opened Inputs
  import opened Runtime

  const INBOUND_CONTROL_FRAMES: nat := 64
  const PING_INTERVAL_MS: u64 := 1000

  datatype ClientError = RuntimeFailed(runtime: RuntimeError) | Transport | InboundOverflow

  datatype Target = Target(peerId: string, display: string, revision: u64)

  /** What one call into the outside world meets: whether the transport takes it, what
      the random source delivers and which hooks fire around it. */
  datatype Fate = Fate(sent: bool, entropy: Option<Id128>, hooks: Routing.Hooks)

  /** All such answers, in the order they are asked for.  Nothing constrains a tape. */
  type Tape = nat -> Fate

  /** The connection and the frames it took.  `inputs` and `motions` belong to the input
      stream opened last. */
  datatype Wire = Wire(connected: bool, inputOpen: bool, controls: seq<Frame>,
                       inputs: seq<CriticalFrame>, motions: seq<MotionFrame>)
  {
    function Disconnect(): Wire { this.(connected := false, inputOpen := false) }

    function Connect(taken: bool): (Wire, bool) { (Disconnect().(connected := taken), taken) }

    function SendControl(frame: Frame, taken: bool): (Wire, bool) {
      if connected && taken then (this.(controls := controls + [frame]), true) else (this, false)
    }

    function OpenInput(taken: bool): (Wire, bool) {
      if connected && taken then (this.(inputOpen := true, inputs := [], motions := []), true) else (this, false)
    }

    /** A frame that does not encode is refused like one that does not fit the queue. */
    function SendInput(frame: CriticalFrame, taken: bool): (Wire, bool) {
      if inputOpen && CheckCritical(frame).None? && taken then (this.(inputs := inputs + [frame]), true)
      else (this, false)
    }

    function SendMotion(frame: MotionFrame, taken: bool): (Wire, bool) {
      if inputOpen && CheckMotion(frame).None? && taken then (this.(motions := motions + [frame]), true)
      else (this, false)
    }
  }

  const Unconnected := Wire(false, false, [], [], [])

  datatype ClientReply = ClientReply(state: ClientState, error: Option<ClientError>)

  datatype ClientState = ClientState(runtime: RuntimeState, wire: Wire, inbound: seq<Frame>, overflowed: bool,
                                     nextPing: Option<u64>, drawn: nat, tape: Tape)
  {
    function Next(): Fate { tape(drawn) }

    function Draw(): ClientState { this.(drawn := drawn + 1) }

    function NextEnv(answers: Routing.Answers): Env { Env(answers, Next().entropy, Next().hooks) }

    /** The receiving thread puts a frame into the bounded inbox. */
    function Offer(frame: Frame): ClientState {
      if |inbound| < INBOUND_CONTROL_FRAMES then this.(inbound := inbound + [frame])
      else this.(overflowed := true)
    }

    function OfferAll(frames: seq<Frame>): ClientState
      decreases |frames|
    {
      if frames == [] then this else Offer(frames[0]).OfferAll(frames[1..])
    }

    function Perform(action: Action): (ClientState, bool) {
      match action
      case SendControl(frame) =>
        var (wire', ok) := wire.SendControl(frame, Next().sent);
        (Draw().(wire := wire'), ok)
      case OpenInput(_) =>
        var (wire', ok) := wire.OpenInput(Next().sent);
        (Draw().(wire := wire'), ok)
      case CloseInput => (this.(wire := wire.Disconnect()), true)
    }

    function Apply(actions: seq<Action>): (r: ClientReply)
      ensures r.state.inbound == inbound && r.state.overflowed == overflowed && r.state.tape == tape
      decreases |actions|
    {
      if actions == [] then ClientReply(this, None)
      else
        var (s, ok) := Perform(actions[0]);
        if ok then s.Apply(actions[1..]) else ClientReply(s.FailTransport(), Some(Transport))
    }

    /** The last frames are sent without looking at the outcome. */
    function Parting(actions: seq<Action>): (s: ClientState)
      ensures s.inbound == inbound && s.overflowed == overflowed && s.tape == tape
      ensures s.runtime == runtime && s.wire.Disconnect() == wire.Disconnect().(controls := s.wire.controls)
      decreases |actions|
    {
      if actions == [] then this
      else (if actions[0].SendControl? then Perform(actions[0]).0 else this).Parting(actions[1..])
    }

    function FailTransport(): (s: ClientState)
      ensures s.inbound == inbound && s.overflowed == overflowed && s.tape == tape
    {
      var reply := runtime.GoLocal(Routing.NetworkFailed, Next().hooks.load);
      var s := Draw().(runtime := reply.state);
      var s := if reply.error.None? then s.Parting(reply.actions) else s;
      s.(wire := s.wire.Disconnect(), nextPing := None)
    }

    function Begin(target: Target, nowMs: u64, answers: Routing.Answers): ClientReply {
      if !runtime.CanBegin() then ClientReply(this, Some(RuntimeFailed(Route(Routing.Busy))))
      else
        var s := this.(inbound := [], overflowed := false, nextPing := None);
        var (wire', ok) := s.wire.Connect(s.Next().sent);
        var s := s.Draw().(wire := wire');
        if !ok then ClientReply(s, Some(Transport))
        else
          var reply := s.runtime.Begin(target.peerId, target.display, target.revision, nowMs, s.NextEnv(answers));
          var s := s.Draw().(runtime := reply.state);
          if reply.error.Some? then
            ClientReply(s.(wire := s.wire.Disconnect()), Some(RuntimeFailed(reply.error.value)))
          else
            var applied := s.Apply(reply.actions);
            if applied.error.Some? then applied else applied.state.PollPing(nowMs)
    }

    function HandleFrame(frame: Frame, nowMs: u64, answers: Routing.Answers): (r: ClientReply)
      ensures r.state.inbound == inbound && r.state.overflowed == overflowed && r.state.tape == tape
    {
      var reply := runtime.HandleControl(frame, nowMs, NextEnv(answers));
      var s := Draw().(runtime := reply.state);
      if reply.error.Some? then
        ClientReply(s.(wire := s.wire.Disconnect()), Some(RuntimeFailed(reply.error.value)))
      else s.Apply(reply.actions)
    }

    /** Empty the inbox.  `late` says what arrives before each look into it. */
    function Drain(nowMs: u64, answers: Routing.Answers, late: seq<seq<Frame>>): ClientReply
      decreases |late|, |inbound|
    {
      var s := if late == [] then this else OfferAll(late[0]);
      if s.inbound == [] then ClientReply(s, None)
      else
        var one := s.(inbound := s.inbound[1..]).HandleFrame(s.inbound[0], nowMs, answers);
        if one.error.Some? then one
        else one.state.Drain(nowMs, answers, if late == [] then [] else late[1..])
    }

    function Poll(nowMs: u64, keysReleased: bool, answers: Routing.Answers, late: seq<seq<Frame>>): ClientReply {
      if overflowed then ClientReply(this.(overflowed := false).FailTransport(), Some(InboundOverflow))
      else
        var drained := Drain(nowMs, answers, late);
        if drained.error.Some? then drained else drained.state.AdvanceNow(nowMs, keysReleased, answers)
    }

    function AdvanceNow(nowMs: u64, keysReleased: bool, answers: Routing.Answers): ClientReply {
      var reply := runtime.Advance(nowMs, keysReleased, NextEnv(answers));
      var s := Draw().(runtime := reply.state);
      if reply.error.Some? then ClientReply(s.FailTransport(), Some(RuntimeFailed(reply.error.value)))
      else
        var applied := s.Apply(reply.actions);
        if applied.error.Some? then applied else applied.state.PollPing(nowMs)
    }

    function PollPing(nowMs: u64): ClientReply {
      if !runtime.IsActive() then ClientReply(this.(nextPing := None), None)
      else
        var due := if nextPing.Some? then nextPing.value else SaturatingAdd(nowMs, PING_INTERVAL_MS);
        var s := this.(nextPing := Some(due));
        if nowMs < due then ClientReply(s, None)
        else
          var ping := s.runtime.Ping();
          var s := s.(runtime := ping.state);
          if ping.error.Some? then ClientReply(s, Some(RuntimeFailed(ping.error.value)))
          else
            var applied := s.Apply(ping.actions);
            if applied.error.Some? then applied
            else ClientReply(applied.state.(nextPing := Some(SaturatingAdd(nowMs, PING_INTERVAL_MS))), None)
    }

    function SendInput(event: CriticalEvent): ClientReply {
      var (runtime', frame) := runtime.NextInput(event);
      var s := this.(runtime := runtime');
      if frame.Err? then ClientReply(s, Some(RuntimeFailed(frame.error)))
      else
        var (wire', ok) := wire.SendInput(frame.value, Next().sent);
        var s := s.Draw().(wire := wire');
        if ok then ClientReply(s, None) else ClientReply(s.FailTransport(), Some(Transport))
    }

    function SendMotion(x: i32, y: i32): ClientReply {
      var (runtime', frame) := runtime.NextMotion(x, y);
      var s := this.(runtime := runtime');
      if frame.Err? then ClientReply(s, Some(RuntimeFailed(frame.error)))
      else
        var (wire', ok) := wire.SendMotion(frame.value, Next().sent);
        var s := s.Draw().(wire := wire');
        if ok then ClientReply(s, None) else ClientReply(s.FailTransport(), Some(Transport))
    }

    function GoLocal(reason: Routing.ReturnReason): ClientReply {
      var reply := runtime.GoLocal(reason, Next().hooks.load);
      var s := Draw().(runtime := reply.state);
      if reply.error.Some? then ClientReply(s, Some(RuntimeFailed(reply.error.value)))
      else
        var applied := s.Apply(reply.actions);
        if applied.error.Some? then applied else ClientReply(applied.state.(nextPing := None), None)
    }
  }

  /** The transport the client drives.  Each call is told whether the network takes it. */
  class QuicTransport {
    var connected: bool
    var inputOpen: bool
    ghost var controls: seq<Frame>
    ghost var inputs: seq<CriticalFrame>
    ghost var motions: seq<MotionFrame>

    ghost function View(): Wire reads this { Wire(connected, inputOpen, controls, inputs, motions) }

    constructor ()
      ensures View() == Unconnected
    {
      connected, inputOpen := false, false;
      controls, inputs, motions := [], [], [];
    }

    method Disconnect()
      modifies this
      ensures View() == old(View()).Disconnect()
    {
      inputOpen := false;
      connected := false;
    }

    method Connect(taken: bool) returns (ok: bool)
      modifies this
      ensures (View(), ok) == old(View()).Connect(taken)
    {
      Disconnect();
      if taken { connected := true; }
      ok := taken;
    }

    method SendControl(frame: Frame, taken: bool) returns (ok: bool)
      modifies this
      ensures (View(), ok) == old(View()).SendControl(frame, taken)
    {
      if !connected || !taken { return false; }
      controls := controls + [frame];
      ok := true;
    }

    method OpenInput(taken: bool) returns (ok: bool)
      modifies this
      ensures (View(), ok) == old(View()).OpenInput(taken)
    {
      if !connected || !taken { return false; }
      inputOpen := true;
      inputs, motions := [], [];
      ok := true;
    }

    method SendInput(frame: CriticalFrame, taken: bool) returns (ok: bool)
      modifies this
      ensures (View(), ok) == old(View()).SendInput(frame, taken)
    {
      if !inputOpen || CheckCritical(frame).Some? || !taken { return false; }
      inputs := inputs + [frame];
      ok := true;
    }

    method SendMotion(frame: MotionFrame, taken: bool) returns (ok: bool)
      modifies this
      ensures (View(), ok) == old(View()).SendMotion(frame, taken)
    {
      if !inputOpen || CheckMotion(frame).Some? || !taken { return false; }
      motions := motions + [frame];
      ok := true;
    }
  }

  class ControllerClient {
    const runtime: ControllerRuntime
    const transport: QuicTransport
    const tape: Tape
    var inbound: seq<Frame>
    var overflowed: bool
    var nextPing: Option<u64>
    var drawn: nat

    ghost function View(ports: Routing.Ports): ClientState
      reads this, transport, runtime, runtime.router, runtime.router.gate, runtime.handshake, ports
    {
      ClientState(runtime.View(ports), transport.View(), inbound, overflowed, nextPing, drawn, tape)
    }

    constructor (runtime: ControllerRuntime, transport: QuicTransport, tape: Tape)
      ensures this.runtime == runtime && this.transport == transport && this.tape == tape
      ensures inbound == [] && !overflowed && nextPing == None && drawn == 0
    {
      this.runtime, this.transport, this.tape := runtime, transport, tape;
      inbound, overflowed, nextPing, drawn := [], false, None, 0;
    }

    method Draw(ghost ports: Routing.Ports) returns (fate: Fate)
      modifies this
      ensures fate == old(View(ports)).Next() && View(ports) == old(View(ports)).Draw()
    {
      fate := tape(drawn);
      drawn := drawn + 1;
    }

    method Offer(frame: Frame, ghost ports: Routing.Ports)
      modifies this
      ensures View(ports) == old(View(ports)).Offer(frame)
    {
      if |inbound| < INBOUND_CONTROL_FRAMES { inbound := inbound + [frame]; } else { overflowed := true; }
    }

    method OfferAll(frames: seq<Frame>, ghost ports: Routing.Ports)
      modifies this
      ensures View(ports) == old(View(ports)).OfferAll(frames)
    {
      var i := 0;
      while i < |frames|
        invariant i <= |frames|
        invariant View(ports).OfferAll(frames[i..]) == old(View(ports)).OfferAll(frames)
      {
        assert frames[i..][1..] == frames[i + 1..];
        Offer(frames[i], ports);
        i := i + 1;
      }
    }

    method Perform(action: Action, ghost ports: Routing.Ports) returns (ok: bool)
      modifies this, transport
      ensures (View(ports), ok) == old(View(ports)).Perform(action)
    {
      match action {
        case SendControl(frame) =>
          var fate := Draw(ports);
          ok := transport.SendControl(frame, fate.sent);
        case OpenInput(_) =>
          var fate := Draw(ports);
          ok := transport.OpenInput(fate.sent);
        case CloseInput =>
          transport.Disconnect();
          ok := true;
      }
    }

    method Apply(actions: seq<Action>, ports: Routing.Ports) returns (error: Option<ClientError>)
      modifies this, transport, runtime, runtime.router, runtime.router.gate, runtime.handshake, ports
      ensures ClientReply(View(ports), error) == old(View(ports)).Apply(actions)
      ensures ports.Replies() == old(ports.Replies())
    {
      var i := 0;
      while i < |actions|
        invariant i <= |actions|
        invariant View(ports).Apply(actions[i..]) == old(View(ports)).Apply(actions)
        invariant ports.Replies() == old(ports.Replies())
      {
        assert actions[i..][1..] == actions[i + 1..];
        var ok := Perform(actions[i], ports);
        if !ok {
          FailTransport(ports);
          return Some(Transport);
        }
        i := i + 1;
      }
      error := None;
    }

    method FailTransport(ports: Routing.Ports)
      modifies this, transport, runtime, runtime.router, runtime.router.gate, runtime.handshake, ports
      ensures View(ports) == old(View(ports)).FailTransport()
      ensures ports.Replies() == old(ports.Replies())
    {
      var fate := Draw(ports);
      var actions, failure := runtime.GoLocal(Routing.NetworkFailed, ports, fate.hooks.load);
      if failure.None? { Parting(actions, ports); }
      transport.Disconnect();
      nextPing := None;
    }

    method Parting(actions: seq<Action>, ghost ports: Routing.Ports)
      modifies this, transport
      ensures View(ports) == old(View(ports)).Parting(actions)
    {
      var i := 0;
      while i < |actions|
        invariant i <= |actions|
        invariant View(ports).Parting(actions[i..]) == old(View(ports)).Parting(actions)
      {
        assert actions[i..][1..] == actions[i + 1..];
        if actions[i].SendControl? { var _ := Perform(actions[i], ports); }
        i := i + 1;
      }
    }

    method Begin(target: Target, nowMs: u64, ports: Routing.Ports) returns (error: Option<ClientError>)
      modifies this, transport, runtime, runtime.router, runtime.router.gate, runtime.handshake, ports
      ensures ClientReply(View(ports), error) == old(View(ports).Begin(target, nowMs, ports.Replies()))
      ensures ports.Replies() == old(ports.Replies())
    {
      hide RuntimeState.Begin, ClientState.Apply, ClientState.PollPing;
      var idle := runtime.CanBegin(ports);
      if !idle { return Some(RuntimeFailed(Route(Routing.Busy))); }
      overflowed, inbound := false, [];
      nextPing := None;
      var fate := Draw(ports);
      var ok := transport.Connect(fate.sent);
      if !ok { return Some(Transport); }
      fate := Draw(ports);
      var actions, failure := runtime.Begin(target.peerId, target.display, target.revision, nowMs, ports,
                                            Env(ports.Replies(), fate.entropy, fate.hooks));
      if failure.Some? {
        transport.Disconnect();
        return Some(RuntimeFailed(failure.value));
      }
      error := Apply(actions, ports);
      if error.None? { error := PollPing(nowMs, ports); }
    }

    method HandleFrame(frame: Frame, nowMs: u64, ports: Routing.Ports) returns (error: Option<ClientError>)
      modifies this, transport, runtime, runtime.router, runtime.router.gate, runtime.handshake, ports
      ensures ClientReply(View(ports), error) == old(View(ports).HandleFrame(frame, nowMs, ports.Replies()))
      ensures ports.Replies() == old(ports.Replies())
    {
      hide RuntimeState.HandleControl, ClientState.Apply;
      var fate := Draw(ports);
      var actions, failure := runtime.HandleControl(frame, nowMs, ports,
                                                    Env(ports.Replies(), fate.entropy, fate.hooks));
      if failure.Some? {
        transport.Disconnect();
        return Some(RuntimeFailed(failure.value));
      }
      error := Apply(actions, ports);
    }

    method Poll(nowMs: u64, keysReleased: bool, ports: Routing.Ports, late: seq<seq<Frame>>)
      returns (error: Option<ClientError>)
      modifies this, transport, runtime, runtime.router, runtime.router.gate, runtime.handshake, ports
      ensures ClientReply(View(ports), error)
           == old(View(ports).Poll(nowMs, keysReleased, ports.Replies(), late))
      ensures ports.Replies() == old(ports.Replies())
    {
      hide ClientState.HandleFrame, ClientState.AdvanceNow, ClientState.FailTransport;
      if overflowed {
        overflowed := false;
        FailTransport(ports);
        return Some(InboundOverflow);
      }
      ghost var answers := ports.Replies();
      var waiting := late;
      while true
        invariant ports.Replies() == answers
        invariant View(ports).Drain(nowMs, answers, waiting) == old(View(ports)).Drain(nowMs, answers, late)
        decreases |waiting|, |inbound|
      {
        if waiting != [] {
          OfferAll(waiting[0], ports);
          waiting := waiting[1..];
        }
        if inbound == [] { break; }
        var frame := inbound[0];
        inbound := inbound[1..];
        error := HandleFrame(frame, nowMs, ports);
        if error.Some? { return; }
      }
      error := AdvanceNow(nowMs, keysReleased, ports);
    }

    method AdvanceNow(nowMs: u64, keysReleased: bool, ports: Routing.Ports) returns (error: Option<ClientError>)
      modifies this, transport, runtime, runtime.router, runtime.router.gate, runtime.handshake, ports
      ensures ClientReply(View(ports), error)
           == old(View(ports).AdvanceNow(nowMs, keysReleased, ports.Replies()))
      ensures ports.Replies() == old(ports.Replies())
    {
      hide RuntimeState.Advance, ClientState.Apply, ClientState.PollPing, ClientState.FailTransport;
      var fate := Draw(ports);
      var actions, failure := runtime.Advance(nowMs, keysReleased, ports,
                                              Env(ports.Replies(), fate.entropy, fate.hooks));
      if failure.Some? {
        FailTransport(ports);
        return Some(RuntimeFailed(failure.value));
      }
      error := Apply(actions, ports);
      if error.None? { error := PollPing(nowMs, ports); }
    }

    method PollPing(nowMs: u64, ports: Routing.Ports) returns (error: Option<ClientError>)
      modifies this, transport, runtime, runtime.router, runtime.router.gate, runtime.handshake, ports
      ensures ClientReply(View(ports), error) == old(View(ports)).PollPing(nowMs)
      ensures ports.Replies() == old(ports.Replies())
    {
      hide ClientState.Apply;
      var active := runtime.IsActive(ports);
      if !active {
        nextPing := None;
        return None;
      }
      if nextPing.None? { nextPing := Some(SaturatingAdd(nowMs, PING_INTERVAL_MS)); }
      if nowMs < nextPing.value { return None; }
      var actions, failure := runtime.Ping(ports);
      if failure.Some? { return Some(RuntimeFailed(failure.value)); }
      error := Apply(actions, ports);
      if error.None? { nextPing := Some(SaturatingAdd(nowMs, PING_INTERVAL_MS)); }
    }

    method SendInput(event: CriticalEvent, ports: Routing.Ports) returns (error: Option<ClientError>)
      modifies this, transport, runtime, runtime.router, runtime.router.gate, runtime.handshake, ports
      ensures ClientReply(View(ports), error) == old(View(ports)).SendInput(event)
      ensures ports.Replies() == old(ports.Replies())
    {
      hide ClientState.FailTransport;
      var frame := runtime.NextInput(event, ports);
      if frame.Err? { return Some(RuntimeFailed(frame.error)); }
      var fate := Draw(ports);
      var ok := transport.SendInput(frame.value, fate.sent);
      if !ok {
        FailTransport(ports);
        return Some(Transport);
      }
      error := None;
    }

    method SendMotion(x: i32, y: i32, ports: Routing.Ports) returns (sequence: Result<u64, ClientError>)
      modifies this, transport, runtime, runtime.router, runtime.router.gate, runtime.handshake, ports
      ensures ClientReply(View(ports), if sequence.Ok? then None else Some(sequence.error))
           == old(View(ports)).SendMotion(x, y)
      ensures sequence.Ok? ==> sequence.value == View(ports).runtime.motionSequence
      ensures ports.Replies() == old(ports.Replies())
    {
      hide ClientState.FailTransport;
      var frame := runtime.NextMotion(x, y, ports);
      if frame.Err? { return Err(RuntimeFailed(frame.error)); }
      var fate := Draw(ports);
      var ok := transport.SendMotion(frame.value, fate.sent);
      if !ok {
        FailTransport(ports);
        return Err(Transport);
      }
      sequence := Ok(frame.value.sequence);
    }

    method GoLocal(reason: Routing.ReturnReason, ports: Routing.Ports) returns (error: Option<ClientError>)
      modifies this, transport, runtime, runtime.router, runtime.router.gate, runtime.handshake, ports
      ensures ClientReply(View(ports), error) == old(View(ports)).GoLocal(reason)
      ensures ports.Replies() == old(ports.Replies())
    {
      hide RuntimeState.GoLocal, ClientState.Apply;
      var fate := Draw(ports);
      var actions, failure := runtime.GoLocal(reason, ports, fate.hooks.load);
      if failure.Some? { return Some(RuntimeFailed(failure.value)); }
      error := Apply(actions, ports);
      if error.None? { nextPing := None; }
    }
  }
}
