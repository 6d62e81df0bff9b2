/** How the receiver's sessions begin and end: opened only as the greeted peer asked, on a
    display that is there, and ended exactly for the reasons there are. */
module Sessions {
  import opened Base
  import Handshakes
  import Inputs
  import opened Receivers
  import opened ReceiverRuns
  import Leases
  import Pressed

  // ----- what was asked for, told from the frames and their outcomes

  /** The boot of the peer that was greeted last. */
  function GreetedBoot(start: SessionState, events: seq<SessionEvent>): Option<Id128> {
    if events == [] then None
    else
      var before, e := events[..|events| - 1], events[|events| - 1];
      if e.Control? && e.frame.Hello? && Step(Run(start, before), e).error.None? then Some(e.frame.bootId)
      else GreetedBoot(start, before)
  }

  /** The request of the preparation that was accepted last. */
  function AcceptedRequest(start: SessionState, events: seq<SessionEvent>): Option<u64> {
    if events == [] then None
    else
      var before, e := events[..|events| - 1], events[|events| - 1];
      if e.Control? && e.frame.Prepare? && Step(Run(start, before), e).error.None? then Some(e.frame.requestId)
      else AcceptedRequest(start, before)
  }

  /** The display that the bound peer named last while the injector was ready, whether the
      preparation was accepted or not. */
  function NamedDisplay(start: SessionState, events: seq<SessionEvent>): Option<(string, u64)> {
    if events == [] then None
    else
      var before, e := events[..|events| - 1], events[|events| - 1];
      if Names(Run(start, before), e) then Some((e.frame.targetDisplay, e.frame.layoutRevision))
      else NamedDisplay(start, before)
  }

  predicate Names(s: SessionState, e: SessionEvent) {
    && e.Control? && e.frame.Prepare? && s.binding == Some(e.peer) && e.peer.role == Handshakes.Controller
    && s.injector.tape(s.injector.drawn).None?
  }

  ghost predicate Greeted(hs: Handshakes.ReceiverSide, boot: Option<Id128>, request: Option<u64>) {
    match hs.state
    case AwaitHello => false
    case Greeted(b) => boot == Some(b)
    case PreparedFor(b, r) => boot == Some(b) && request == Some(r)
    case InSession(session) => boot == Some(session.controllerBoot)
    case Over(session) => boot == Some(session.controllerBoot)
  }

  /** The runtime remembers no more than that, and what it shows or prepares is there. */
  ghost predicate Remembers(s: SessionState, boot: Option<Id128>, request: Option<u64>, named: Option<(string, u64)>) {
    && (s.handshake.Some? ==> Greeted(s.handshake.value, boot, request))
    && (s.prepared.Some? ==>
          named == Some((s.prepared.value.id, s.prepared.value.revision)) && s.prepared.value in s.displays)
    && (s.shown.Some? ==> s.shown.value in s.displays)
  }

  lemma {:induction false} FindsWhatIsThere(displays: seq<Display>, id: string, revision: u64)
    ensures match FindDisplay(displays, id, revision)
      case Some(d) => d in displays && d.id == id && d.revision == revision
      case None => forall d :: d in displays ==> d.id != id || d.revision != revision
  {
    if displays != [] { FindsWhatIsThere(displays[1..], id, revision); }
  }

  /** Only the fields that memory is about. */
  ghost predicate SameMemory(s: SessionState, t: SessionState) {
    t.handshake == s.handshake && t.prepared == s.prepared && t.shown == s.shown && t.displays == s.displays
  }

  lemma ReleaseSameMemory(s: SessionState)
    ensures SameMemory(s, s.ReleasePressed().state)
  {
    hide Injected.SubmitAll, SessionState.FirstFailure;
  }

  lemma LeaveRemembers(s: SessionState, session: Handshakes.SessionId, boot: Option<Id128>, request: Option<u64>,
                       named: Option<(string, u64)>)
    requires Remembers(s, boot, request, named)
    ensures Remembers(s.Leave(session), boot, request, named)
  {
  }

  lemma GreetRemembers(s: SessionState, e: SessionEvent, boot: Option<Id128>, request: Option<u64>,
                       named: Option<(string, u64)>)
    requires e.Control? && e.frame.Hello? && Remembers(s, boot, request, named)
    ensures var out := s.Greet(e.frame, e.peer);
      Remembers(out.state, if out.error.None? then Some(e.frame.bootId) else boot, request, named)
  {
    hide SessionState.ReleasePressed, Handshakes.CheckFrame, ValidText;
    ReleaseSameMemory(s);
  }

  lemma OpenSameMemory(s: SessionState, session: Handshakes.SessionId, nowMs: u64)
    ensures var t := s.Open(session, nowMs).state;
      t.handshake == s.handshake && t.displays == s.displays && (t.prepared == s.prepared || t.prepared.None?)
      && (t.shown == s.shown || t.shown == s.prepared)
  {
    hide Inputs.GateSide.Activate;
  }

  lemma EndSameMemory(s: SessionState, session: Handshakes.SessionId)
    ensures var t := s.EndOrdered(session).state;
      t.handshake == s.handshake && t.displays == s.displays && t.prepared == s.prepared
      && (t.shown == s.shown || t.shown.None?)
  {
    hide SessionState.ReleasePressed;
    ReleaseSameMemory(s);
    ReleaseSameMemory(s.(gate := s.gate.End(session).0, active := None, shown := None,
        lastActivity := None).ResetMotion());
  }

  /** One frame, as the handshake sees it. */
  lemma HandshakeRemembers(hs: Handshakes.ReceiverSide, frame: Handshakes.ControlFrame, boot: Option<Id128>,
                           request: Option<u64>)
    requires Greeted(hs, boot, request)
    ensures var out := hs.Handle(frame);
      && Greeted(out.state, boot, if frame.Prepare? && out.error.None? then Some(frame.requestId) else request)
      && (frame.Hello? ==> out.error.Some?)
      && (out.frames != [] && out.frames[0].CommitAck? ==> frame.Commit? && out.frames[0].sessionId == frame.sessionId)
  {
    hide Handshakes.CheckFrame;
  }

  lemma PassOnRemembers(s: SessionState, frame: Handshakes.ControlFrame, nowMs: u64, boot: Option<Id128>,
                        request: Option<u64>, named: Option<(string, u64)>)
    requires Remembers(s, boot, request, named)
    ensures var out := s.PassOn(frame, nowMs);
      && Remembers(out.state, boot, if frame.Prepare? && out.error.None? then Some(frame.requestId) else request, named)
      && (frame.Hello? ==> out.error.Some?)
  {
    hide SessionState.Open, SessionState.EndOrdered, Handshakes.ReceiverSide.Handle, Greeted;
    if s.handshake.Some? {
      HandshakeRemembers(s.handshake.value, frame, boot, request);
      var hs := s.handshake.value.Handle(frame);
      var t := s.(handshake := Some(hs.state));
      if hs.error.None? && frame.Commit? { OpenSameMemory(t, frame.sessionId, nowMs); }
      if frame.EndSession? { EndSameMemory(t, frame.sessionId); }
    }
  }

  lemma ControlRemembers(s: SessionState, e: SessionEvent, boot: Option<Id128>, request: Option<u64>,
                         named: Option<(string, u64)>)
    requires e.Control? && Remembers(s, boot, request, named)
    ensures var out := Step(s, e);
      Remembers(out.state, if e.frame.Hello? && out.error.None? then Some(e.frame.bootId) else boot,
                if e.frame.Prepare? && out.error.None? then Some(e.frame.requestId) else request,
                if Names(s, e) then Some((e.frame.targetDisplay, e.frame.layoutRevision)) else named)
  {
    hide SessionState.PassOn, SessionState.Greet, Greeted;
    var frame := e.frame;
    if frame.Hello? { GreetRemembers(s, e, boot, request, named); }
    PassOnRemembers(s, frame, e.nowMs, boot, request, named);
    if Names(s, e) {
      FindsWhatIsThere(s.displays, frame.targetDisplay, frame.layoutRevision);
      var t := s.(injector := s.injector.(drawn := s.injector.drawn + 1),
                  prepared := FindDisplay(s.displays, frame.targetDisplay, frame.layoutRevision));
      PassOnRemembers(t, frame, e.nowMs, boot, request, Some((frame.targetDisplay, frame.layoutRevision)));
    }
  }

  lemma DropRemembers(s: SessionState, fault: Fault, boot: Option<Id128>, request: Option<u64>, named: Option<(string,
                      u64)>)
    requires s.active.Some? && Remembers(s, boot, request, named)
    ensures Remembers(s.Leave(s.active.value).(fault := Some(fault)).ReleasePressed().state, boot, request, named)
  {
    hide SessionState.ReleasePressed;
    LeaveRemembers(s, s.active.value, boot, request, named);
    ReleaseSameMemory(s.Leave(s.active.value).(fault := Some(fault)));
  }

  lemma FailRemembers(s: SessionState, failure: PortError, session: Handshakes.SessionId, boot: Option<Id128>,
                      request: Option<u64>, named: Option<(string, u64)>)
    requires Remembers(s, boot, request, named)
    ensures Remembers(s.FailInjection(failure, session), boot, request, named)
  {
    hide SessionState.ReleasePressed;
    LeaveRemembers(s.(fault := Some(InjectorFault(failure))), session, boot, request, named);
    ReleaseSameMemory(s.(fault := Some(InjectorFault(failure))).Leave(session));
  }

  lemma ApplyRemembers(s: SessionState, motion: Inputs.MotionFrame, boot: Option<Id128>, request: Option<u64>,
                       named: Option<(string, u64)>)
    requires Remembers(s, boot, request, named)
    ensures Remembers(s.ApplyMotion(motion).state, boot, request, named)
  {
    hide SessionState.FailInjection, Greeted, Display.Map;
    var point := s.MapPointer(motion.x, motion.y);
    if point.Ok? {
      var moved := s.pressed.UpdatePointer(point.value.0, point.value.1);
      var (injector', failure) := s.injector.Post(MouseMove(point.value.0, point.value.1, DragOf(moved)));
      if failure.Some? {
        FailRemembers(s.(injector := injector'), failure.value, motion.sessionId, boot, request, named);
      }
    }
  }

  lemma FlushRemembers(s: SessionState, boot: Option<Id128>, request: Option<u64>, named: Option<(string, u64)>)
    requires Remembers(s, boot, request, named)
    ensures Remembers(s.FlushPending().state, boot, request, named)
  {
    hide SessionState.ApplyMotion, Greeted;
    if s.pending.Some? { ApplyRemembers(s.(pending := None), s.pending.value, boot, request, named); }
  }

  lemma CarryRemembers(s: SessionState, frame: Inputs.CriticalFrame, ledger: Pressed.Ledger,
                       commands: seq<InputCommand>,
                       nowMs: u64, boot: Option<Id128>, request: Option<u64>, named: Option<(string, u64)>)
    requires Remembers(s, boot, request, named)
    ensures Remembers(s.Carry(frame, ledger, commands, nowMs).state, boot, request, named)
  {
    hide SessionState.FlushPending, SessionState.FailInjection, Injected.Submit, Greeted;
    var (injector', failure) := s.injector.Submit(commands);
    if failure.Some? {
      FailRemembers(s.(injector := injector'), failure.value, frame.sessionId, boot, request, named);
    } else {
      FlushRemembers(s.(injector := injector', pressed := ledger, highestApplied := frame.sequence,
                        highestMotion := Stamped(s, frame), lastActivity := Some(nowMs)), boot, request, named);
    }
  }

  lemma InputRemembers(s: SessionState, frame: Inputs.CriticalFrame, peer: Peer, nowMs: u64, boot: Option<Id128>,
                       request: Option<u64>, named: Option<(string, u64)>)
    requires Remembers(s, boot, request, named)
    ensures Remembers(s.HandleInput(frame, peer, nowMs).state, boot, request, named)
  {
    hide SessionState.Carry, Display.Map, Inputs.GateSide.Accept, Pressed.Ledger.Apply, Pressed.Ledger.UpdatePointer,
         Greeted;
    var t := s.(gate := s.gate.Accept(frame).0);
    if frame.event.Key? {
      var out := s.pressed.Apply(frame.event.(keyCode := s.remap(frame.event.keyCode)));
      CarryRemembers(t, frame, out.ledger, Acts(out.commands), nowMs, boot, request, named);
    } else {
      var point := s.MapPointer(frame.event.x, frame.event.y);
      if point.Ok? {
        var (x, y) := point.value;
        var out := s.pressed.UpdatePointer(x, y).Apply(frame.event.(x := x, y := y));
        var moves := if frame.event.Scroll? then [MouseMove(x, y, DragOf(s.pressed))] else [];
        var commands := moves + Acts(out.commands);
        CarryRemembers(t, frame, out.ledger, if commands == [] then [MouseMove(x, y, DragOf(out.ledger))] else commands,
                       nowMs, boot, request, named);
      }
    }
  }

  lemma MotionRemembers(s: SessionState, motion: Inputs.MotionFrame, peer: Peer, nowMs: u64, boot: Option<Id128>,
                        request: Option<u64>, named: Option<(string, u64)>)
    requires Remembers(s, boot, request, named)
    ensures Remembers(s.HandleMotion(motion, peer, nowMs).0.state, boot, request, named)
  {
    hide SessionState.ApplyMotion, Display.Map, Greeted;
    ApplyRemembers(s.(lastActivity := Some(nowMs)), motion, boot, request, named);
  }

  lemma DisplaysRemembers(s: SessionState, displays: seq<Display>, boot: Option<Id128>, request: Option<u64>,
                          named: Option<(string, u64)>)
    requires Remembers(s, boot, request, named)
    ensures Remembers(s.UpdateDisplays(displays).0.state, boot, request, named)
  {
    hide SessionState.ReleasePressed, SessionState.Leave, Greeted;
    var t := s.(displays := displays,
                prepared := if s.prepared.Some? && s.prepared.value !in displays then None else s.prepared);
    if s.shown.Some? && s.shown.value !in displays {
      if s.active.Some? { LeftMemory(t, s.active.value, boot, request); }
      ReleaseSameMemory(t.DropSession().(shown := None, fault := Some(LayoutChanged)));
    }
  }

  lemma LeftMemory(s: SessionState, session: Handshakes.SessionId, boot: Option<Id128>, request: Option<u64>)
    requires s.handshake.Some? ==> Greeted(s.handshake.value, boot, request)
    ensures var t := s.Leave(session);
      t.prepared == s.prepared && t.displays == s.displays && t.shown == s.shown
      && (t.handshake.Some? ==> Greeted(t.handshake.value, boot, request))
  {
  }

  lemma StepRemembers(s: SessionState, e: SessionEvent, boot: Option<Id128>, request: Option<u64>,
                      named: Option<(string, u64)>)
    requires Remembers(s, boot, request, named)
    ensures var out := Step(s, e);
      Remembers(out.state, if e.Control? && e.frame.Hello? && out.error.None? then Some(e.frame.bootId) else boot,
                if e.Control? && e.frame.Prepare? && out.error.None? then Some(e.frame.requestId) else request,
                if Names(s, e) then Some((e.frame.targetDisplay, e.frame.layoutRevision)) else named)
  {
    hide Greeted, SessionState.HandleControl, SessionState.HandleInput, SessionState.HandleMotion,
         SessionState.UpdateDisplays, SessionState.ReleasePressed, SessionState.Leave;
    match e
    case Control(_, _, _) => ControlRemembers(s, e, boot, request, named);
    case Input(frame, peer, now) => InputRemembers(s, frame, peer, now, boot, request, named);
    case Motion(motion, peer, now) => MotionRemembers(s, motion, peer, now, boot, request, named);
    case Expire(_) => if s.active.Some? { DropRemembers(s, LeaseExpired, boot, request, named); }
    case StreamCloses(_) => if s.active.Some? { DropRemembers(s, InputStreamClosed, boot, request, named); }
    case NewDisplays(displays) => DisplaysRemembers(s, displays, boot, request, named);
    case NewMapping(_) =>
  }

  lemma {:induction false} AlwaysRemembers(start: SessionState, events: seq<SessionEvent>)
    requires Initial(start)
    ensures Remembers(Run(start, events), GreetedBoot(start, events), AcceptedRequest(start, events),
                      NamedDisplay(start, events))
  {
    hide Remembers, Step, Names;
    if events == [] {
      assert Remembers(start, None, None, None) by { RemembersNothing(start); }
    } else {
      var before, e := events[..|events| - 1], events[|events| - 1];
      AlwaysRemembers(start, before);
      StepRemembers(Run(start, before), e, GreetedBoot(start, before), AcceptedRequest(start, before),
                    NamedDisplay(start, before));
    }
  }

  lemma RemembersNothing(start: SessionState)
    requires Initial(start)
    ensures Remembers(start, None, None, None)
  {
  }

  // ----- how a session begins

  lemma OpeningStep(s: SessionState, e: SessionEvent)
    requires SessionInv(s) && s.active.None? && Step(s, e).state.active.Some?
    ensures e.Control? && e.frame.Commit? && s.binding == Some(e.peer) && e.peer.role == Handshakes.Controller
    ensures s.handshake.Some? && TakesCommit(s.handshake.value, e.frame.requestId, e.frame.sessionId)
    ensures var t := Step(s, e).state;
      t.active == Some(e.frame.sessionId) && t.shown == s.prepared && t.shown.Some?
      && e.frame.sessionId.receiverBoot == s.localBoot
  {
    hide SessionInv, SessionState.HandleControl, SessionState.HandleInput, SessionState.HandleMotion,
         SessionState.UpdateDisplays, SessionState.ReleasePressed, CarriedOn;
    StepGoes(s, e);
    match e
    case Control(frame, peer, now) => OpeningControl(s, frame, peer, now);
    case Input(frame, peer, now) => InputOk(s, frame, peer, now);
    case Motion(motion, peer, now) => MotionOk(s, motion, peer, now);
    case NewDisplays(displays) => StaysClosed(s, displays);
    case _ =>
  }

  lemma StaysClosed(s: SessionState, displays: seq<Display>)
    requires s.active.None?
    ensures s.UpdateDisplays(displays).0.state.active.None?
  {
    hide Injected.SubmitAll, SessionState.FirstFailure;
  }

  lemma OpeningControl(s: SessionState, frame: Handshakes.ControlFrame, peer: Peer, nowMs: u64)
    requires SessionInv(s) && s.active.None? && s.HandleControl(frame, peer, nowMs).state.active.Some?
    ensures frame.Commit? && s.binding == Some(peer) && peer.role == Handshakes.Controller
    ensures s.handshake.Some? && TakesCommit(s.handshake.value, frame.requestId, frame.sessionId)
    ensures var t := s.HandleControl(frame, peer, nowMs).state;
      t.active == Some(frame.sessionId) && t.shown == s.prepared && t.shown.Some?
      && frame.sessionId.receiverBoot == s.localBoot
  {
    hide Safe, SessionState.PassOn, SessionState.Greet, FindDisplay;
    if frame.Hello? { GreetingOpensNothing(s, frame, peer); }
    if frame.Prepare? {
      OpeningPassOn(s.(injector := s.injector.(drawn := s.injector.drawn + 1),
                       prepared := FindDisplay(s.displays, frame.targetDisplay, frame.layoutRevision)), frame, nowMs);
    } else {
      OpeningPassOn(s, frame, nowMs);
    }
  }

  lemma GreetingOpensNothing(s: SessionState, frame: Handshakes.ControlFrame, peer: Peer)
    requires s.active.None? && frame.Hello?
    ensures s.Greet(frame, peer).state.active.None?
  {
    hide SessionState.ReleasePressed, Handshakes.CheckFrame, ValidText;
    Leases.Releasing(s);
  }

  lemma OpeningPassOn(s: SessionState, frame: Handshakes.ControlFrame, nowMs: u64)
    requires s.active.None?
    requires s.handshake.Some? ==> s.handshake.value.localBoot == s.localBoot && OwnBoot(s.handshake.value)
    ensures var t := s.PassOn(frame, nowMs).state;
      t.active.Some? ==>
        && frame.Commit? && s.handshake.Some?
        && TakesCommit(s.handshake.value, frame.requestId, frame.sessionId)
        && t.active == Some(frame.sessionId) && t.shown == s.prepared && frame.sessionId.receiverBoot == s.localBoot
  {
    hide SessionState.ReleasePressed, Handshakes.CheckFrame, Inputs.GateSide.Activate;
    if s.handshake.Some? {
      var t := s.(handshake := Some(s.handshake.value.Handle(frame).state));
      Leases.Releasing(t);
    }
  }

  /** A session opens only with a commit of the bound peer, between the boot it greeted
      with and this one, for the preparation accepted last (or, if the handshake is in that
      session already, for any), and on the display named last, which is still there. */
  lemma OpensAsAsked(start: SessionState, events: seq<SessionEvent>, e: SessionEvent)
    requires Initial(start)
    requires Run(start, events).active.None? && Step(Run(start, events), e).state.active.Some?
    ensures e.Control? && e.frame.Commit?
    ensures var s, session := Run(start, events), e.frame.sessionId; var t := Step(s, e).state;
      && s.binding == Some(e.peer) && e.peer.role == Handshakes.Controller && t.active == Some(session)
      && session.receiverBoot == s.localBoot && GreetedBoot(start, events) == Some(session.controllerBoot)
      && s.handshake.Some?
      && (AcceptedRequest(start, events) == Some(e.frame.requestId)
          || s.handshake.value.state == Handshakes.InSession(session))
      && t.shown.Some? && t.shown.value in s.displays
      && NamedDisplay(start, events) == Some((t.shown.value.id, t.shown.value.revision))
  {
    hide Run, Step, Initial, SessionInv;
    AlwaysSessionInv(start, events);
    AlwaysRemembers(start, events);
    OpeningStep(Run(start, events), e);
  }

  /** The display of the preparation that was accepted last. */
  function AcceptedDisplay(start: SessionState, events: seq<SessionEvent>): Option<(string, u64)> {
    if events == [] then None
    else
      var before, e := events[..|events| - 1], events[|events| - 1];
      if e.Control? && e.frame.Prepare? && Step(Run(start, before), e).error.None?
      then Some((e.frame.targetDisplay, e.frame.layoutRevision))
      else AcceptedDisplay(start, before)
  }

  /** The display of the last preparation refused since, if one was. */
  function RefusedSince(start: SessionState, events: seq<SessionEvent>): Option<(string, u64)> {
    if events == [] then None
    else
      var before, e := events[..|events| - 1], events[|events| - 1];
      if e.Control? && e.frame.Prepare? && Step(Run(start, before), e).error.None? then None
      else if Names(Run(start, before), e) then Some((e.frame.targetDisplay, e.frame.layoutRevision))
      else RefusedSince(start, before)
  }

  lemma AcceptedIsNamed(s: SessionState, e: SessionEvent)
    requires e.Control? && e.frame.Prepare? && Step(s, e).error.None?
    ensures Names(s, e)
  {
    hide SessionState.PassOn, FindDisplay;
  }

  lemma {:induction false} NamedIsAcceptedOrRefused(start: SessionState, events: seq<SessionEvent>)
    ensures NamedDisplay(start, events)
         == if RefusedSince(start, events).Some? then RefusedSince(start, events) else AcceptedDisplay(start, events)
  {
    hide Step, Run, Names;
    if events != [] {
      var before, e := events[..|events| - 1], events[|events| - 1];
      NamedIsAcceptedOrRefused(start, before);
      if e.Control? && e.frame.Prepare? && Step(Run(start, before), e).error.None? {
        AcceptedIsNamed(Run(start, before), e);
      }
    }
  }

  /** A session opens on the display of the accepted preparation if and only if no later
      one was refused, or the last of those named the same. */
  lemma OpensOnTheAcceptedDisplayExactlyWhen(start: SessionState, events: seq<SessionEvent>, e: SessionEvent)
    requires Initial(start)
    requires Run(start, events).active.None? && Step(Run(start, events), e).state.active.Some?
    ensures var shown := Step(Run(start, events), e).state.shown; var refused := RefusedSince(start, events);
      && shown.Some?
      && (AcceptedDisplay(start, events) == Some((shown.value.id, shown.value.revision))
          <==> refused.None? || refused == AcceptedDisplay(start, events))
  {
    hide Run, Step, Initial;
    OpensAsAsked(start, events, e);
    NamedIsAcceptedOrRefused(start, events);
  }

  /** Whatever is shown or prepared is one of the displays there are now. */
  lemma ShownIsThere(start: SessionState, events: seq<SessionEvent>)
    requires Initial(start)
    ensures var s := Run(start, events);
      && (s.shown.Some? ==> s.shown.value in s.displays)
      && (s.prepared.Some? ==> s.prepared.value in s.displays)
  {
    AlwaysRemembers(start, events);
  }

  // ----- how a session ends

  /** The reasons for which an open session ends. */
  ghost predicate Ends(start: SessionState, events: seq<SessionEvent>, e: SessionEvent, error: Option<SessionError>) {
    var s := Run(start, events);
    && s.active.Some?
    && match e
       case Control(frame, peer, _) =>
         && frame.EndSession? && frame.sessionId == s.active.value && Handshakes.CheckFrame(frame).None?
         && s.binding == Some(peer) && peer.role == Handshakes.Controller
       case Input(_, _, _) => error.Some? && error.value.Injector?
       case Motion(_, _, _) => error.Some? && error.value.Injector?
       case Expire(now) =>
         Leases.LastSeen(start, events).Some?
         && now - Leases.LastSeen(start, events).value >= INPUT_LEASE_TIMEOUT_MS
       case StreamCloses(peer) => s.binding == Some(peer)
       case NewDisplays(displays) => s.shown.Some? && s.shown.value !in displays
       case NewMapping(_) => false
  }

  lemma ControlEnds(s: SessionState, frame: Handshakes.ControlFrame, peer: Peer, nowMs: u64)
    requires SessionInv(s) && s.active.Some?
    ensures s.HandleControl(frame, peer, nowMs).state.active.None? <==>
      && frame.EndSession? && frame.sessionId == s.active.value && Handshakes.CheckFrame(frame).None?
      && s.binding == Some(peer) && peer.role == Handshakes.Controller
  {
    hide Safe, SessionState.PassOn, SessionState.ReleasePressed, FindDisplay, Handshakes.CheckFrame;
    PassOnEnds(s, frame, nowMs);
    if frame.Prepare? {
      PassOnEnds(s.(injector := s.injector.(drawn := s.injector.drawn + 1),
                    prepared := FindDisplay(s.displays, frame.targetDisplay, frame.layoutRevision)), frame, nowMs);
    }
  }

  lemma PassOnEnds(s: SessionState, frame: Handshakes.ControlFrame, nowMs: u64)
    requires s.active.Some? && s.handshake.Some? && s.handshake.value.state == Handshakes.InSession(s.active.value)
    requires s.gate.active.Some? && s.gate.active.value.sessionId == s.active.value
    ensures s.PassOn(frame, nowMs).state.active.None? <==>
      frame.EndSession? && frame.sessionId == s.active.value && Handshakes.CheckFrame(frame).None?
  {
    hide Injected.SubmitAll, SessionState.FirstFailure, Handshakes.CheckFrame;
  }

  lemma OthersEnd(s: SessionState, e: SessionEvent)
    requires SessionInv(s) && s.active.Some? && !e.Control? && !e.Input? && !e.Motion? && !e.Expire?
    ensures Step(s, e).state.active.None? <==>
      || (e.StreamCloses? && s.binding == Some(e.peer))
      || (e.NewDisplays? && s.shown.value !in e.displays)
  {
    hide Safe, Injected.SubmitAll, SessionState.FirstFailure;
  }

  /** An open session ends if and only if the peer ends it, its stream closes, its display
      goes away, the injector fails on its input, or it has been silent for the lease. */
  lemma EndsExactlyWhen(start: SessionState, events: seq<SessionEvent>, e: SessionEvent)
    requires Initial(start) && Run(start, events).active.Some?
    ensures var s := Run(start, events); var out := Step(s, e);
      && (out.state.active.None? <==> Ends(start, events, e, out.error))
      && (out.state.active.Some? ==> out.state.active == s.active)
  {
    hide Run, Initial, Safe, SessionState.HandleControl, SessionState.HandleInput, SessionState.HandleMotion,
         SessionState.UpdateDisplays, SessionState.ReleasePressed, Handshakes.CheckFrame, Leases.LastSeen,
         SessionState.StreamClosed, SessionState.ExpireIfNeeded;
    AlwaysSessionInv(start, events);
    var s := Run(start, events);
    StepGoes(s, e);
    match e
    case Control(frame, peer, now) => ControlEnds(s, frame, peer, now);
    case Input(frame, peer, now) => InputOk(s, frame, peer, now);
    case Motion(motion, peer, now) => MotionOk(s, motion, peer, now);
    case Expire(now) => Leases.ExpiresExactlyWhenSilent(start, events, now);
    case _ => OthersEnd(s, e);
  }

  // ----- and what is recorded

  /** The fault is this one, unless letting go failed after it. */
  ghost predicate Records(t: SessionState, fault: Fault) {
    t.fault == Some(fault) || (t.fault.Some? && t.fault.value.ReleaseFailed?)
  }

  lemma ReleaseRecords(s: SessionState, fault: Fault)
    requires s.fault == Some(fault)
    ensures Records(s.ReleasePressed().state, fault)
  {
    hide Injected.SubmitAll, SessionState.FirstFailure;
  }

  lemma FailRecords(s: SessionState, failure: PortError, session: Handshakes.SessionId)
    ensures Records(s.FailInjection(failure, session), InjectorFault(failure))
  {
    hide SessionState.ReleasePressed;
    ReleaseRecords(s.(fault := Some(InjectorFault(failure))).Leave(session), InjectorFault(failure));
  }

  /** An injection that fails is what is reported and recorded. */
  ghost predicate Blames(out: After) {
    out.error.Some? && out.error.value.Injector? ==> Records(out.state, InjectorFault(out.error.value.port))
  }

  lemma ApplyBlames(s: SessionState, motion: Inputs.MotionFrame)
    ensures Blames(s.ApplyMotion(motion))
  {
    hide SessionState.FailInjection, Display.Map, Records;
    var point := s.MapPointer(motion.x, motion.y);
    if point.Ok? {
      var moved := s.pressed.UpdatePointer(point.value.0, point.value.1);
      var (injector', failure) := s.injector.Post(MouseMove(point.value.0, point.value.1, DragOf(moved)));
      if failure.Some? { FailRecords(s.(injector := injector'), failure.value, motion.sessionId); }
    }
  }

  lemma CarryBlames(s: SessionState, frame: Inputs.CriticalFrame, ledger: Pressed.Ledger, commands: seq<InputCommand>,
                    nowMs: u64)
    ensures Blames(s.Carry(frame, ledger, commands, nowMs))
  {
    hide SessionState.ApplyMotion, SessionState.FailInjection, Injected.Submit, Records;
    var (injector', failure) := s.injector.Submit(commands);
    if failure.Some? {
      FailRecords(s.(injector := injector'), failure.value, frame.sessionId);
    } else if s.pending.Some? {
      ApplyBlames(s.(injector := injector', pressed := ledger, highestApplied := frame.sequence,
                     highestMotion := Stamped(s, frame), lastActivity := Some(nowMs), pending := None),
                         s.pending.value);
    }
  }

  lemma InputBlames(s: SessionState, frame: Inputs.CriticalFrame, peer: Peer, nowMs: u64)
    ensures Blames(s.HandleInput(frame, peer, nowMs))
  {
    hide SessionState.Carry, Display.Map, Inputs.GateSide.Accept, Pressed.Ledger.Apply, Pressed.Ledger.UpdatePointer,
         Records;
    var t := s.(gate := s.gate.Accept(frame).0);
    if frame.event.Key? {
      var out := s.pressed.Apply(frame.event.(keyCode := s.remap(frame.event.keyCode)));
      CarryBlames(t, frame, out.ledger, Acts(out.commands), nowMs);
    } else {
      var point := s.MapPointer(frame.event.x, frame.event.y);
      if point.Ok? {
        var (x, y) := point.value;
        var out := s.pressed.UpdatePointer(x, y).Apply(frame.event.(x := x, y := y));
        var moves := if frame.event.Scroll? then [MouseMove(x, y, DragOf(s.pressed))] else [];
        var commands := moves + Acts(out.commands);
        CarryBlames(t, frame, out.ledger, if commands == []
            then [MouseMove(x, y, DragOf(out.ledger))] else commands, nowMs);
      }
    }
  }

  lemma MotionBlames(s: SessionState, motion: Inputs.MotionFrame, peer: Peer, nowMs: u64)
    ensures Blames(s.HandleMotion(motion, peer, nowMs).0)
  {
    hide SessionState.ApplyMotion, Display.Map, Records;
    ApplyBlames(s.(lastActivity := Some(nowMs)), motion);
  }

  /** Why a session ended is recorded, unless letting go failed after it; the peer's own
      end records nothing. */
  lemma EndIsRecorded(start: SessionState, events: seq<SessionEvent>, e: SessionEvent)
    requires Initial(start) && Run(start, events).active.Some? && Step(Run(start, events), e).state.active.None?
    ensures var out := Step(Run(start, events), e);
      match e
      case Expire(_) => Records(out.state, LeaseExpired)
      case StreamCloses(_) => Records(out.state, InputStreamClosed)
      case NewDisplays(_) => Records(out.state, LayoutChanged)
      case Control(_, _, _) =>
        out.state.fault == Run(start, events).fault || (out.state.fault.Some? && out.state.fault.value.ReleaseFailed?)
      case _ => out.error.Some? && out.error.value.Injector? && Records(out.state, InjectorFault(out.error.value.port))
  {
    hide Run, Initial, Records, SessionInv, SessionState.ReleasePressed, SessionState.HandleControl,
         SessionState.HandleInput,
         SessionState.HandleMotion;
    EndsExactlyWhen(start, events, e);
    var s := Run(start, events);
    match e
    case Expire(_) => ReleaseRecords(s.Leave(s.active.value).(fault := Some(LeaseExpired)), LeaseExpired);
    case StreamCloses(_) => ReleaseRecords(s.Leave(s.active.value).(fault := Some(InputStreamClosed)),
        InputStreamClosed);
    case NewDisplays(displays) =>
      var t := s.(displays := displays,
                  prepared := if s.prepared.Some? && s.prepared.value !in displays then None else s.prepared);
      ReleaseRecords(t.DropSession().(shown := None, fault := Some(LayoutChanged)), LayoutChanged);
    case Input(frame, peer, now) => InputBlames(s, frame, peer, now);
    case Motion(motion, peer, now) => MotionBlames(s, motion, peer, now);
    case Control(frame, peer, now) => EndRecordsNothing(s, frame, peer, now);
    case _ =>
  }

  lemma EndRecordsNothing(s: SessionState, frame: Handshakes.ControlFrame, peer: Peer, nowMs: u64)
    requires frame.EndSession? && s.active == Some(frame.sessionId)
    ensures var t := s.HandleControl(frame, peer, nowMs).state;
      t.fault == s.fault || (t.fault.Some? && t.fault.value.ReleaseFailed?)
  {
    hide Injected.SubmitAll, SessionState.FirstFailure, Handshakes.CheckFrame;
  }
}
