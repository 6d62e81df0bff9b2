/** Critical (reliable) and motion frames, and the gate that decides on the receiving
    side which critical frames belong to the session and come in order. */
module Inputs {
  import opened Base
  import opened Handshakes

  datatype CriticalButton = Left | Right | Middle | Back | Forward

  datatype CriticalEvent =
    | Key(keyCode: u16, scanCode: u16, extended: bool, down: bool)
    | Button(button: CriticalButton, down: bool, x: i32, y: i32, motionSequence: u64)
    | Scroll(deltaX: i32, deltaY: i32, x: i32, y: i32, motionSequence: u64)

  datatype CriticalFrame = CriticalFrame(sessionId: SessionId, sequence: u64, event: CriticalEvent)

  datatype MotionFrame = MotionFrame(sessionId: SessionId, displayId: string, layoutRevision: u64,
                                     sequence: u64, requiredReliableSequence: u64, x: i32, y: i32)

  function CheckEvent(event: CriticalEvent): Option<ProtocolError> {
    match event
    case Key(keyCode, scanCode, _, _) =>
      if keyCode == 0 && scanCode == 0 then Some(InvalidField("key_code")) else None
    case Button(_, _, _, _, motion) => if motion == 0 then Some(InvalidField("motion_sequence")) else None
    case Scroll(deltaX, deltaY, _, _, motion) =>
      if motion == 0 then Some(InvalidField("motion_sequence"))
      else if deltaX == 0 && deltaY == 0 then Some(InvalidField("scroll_delta"))
      else None
  }

  function CheckCritical(frame: CriticalFrame): Option<ProtocolError> {
    if CheckSession(frame.sessionId).Some? then CheckSession(frame.sessionId)
    else if frame.sequence == 0 then Some(InvalidField("sequence"))
    else CheckEvent(frame.event)
  }

  function CheckMotion(frame: MotionFrame): Option<ProtocolError> {
    if CheckSession(frame.sessionId).Some? then CheckSession(frame.sessionId)
    else if !ValidText(frame.displayId, MAX_PEER_ID_BYTES) then Some(InvalidField("display_id"))
    else if frame.layoutRevision == 0 then Some(InvalidField("layout_revision"))
    else if frame.sequence == 0 then Some(InvalidField("motion_sequence"))
    else None
  }

  /** An event does something: it names a key, or it is a click or a turn of the wheel
      after a motion. */
  predicate DoesSomething(event: CriticalEvent) {
    match event
    case Key(keyCode, scanCode, _, _) => keyCode > 0 || scanCode > 0
    case Button(_, _, _, _, motion) => motion > 0
    case Scroll(deltaX, deltaY, _, _, motion) => motion > 0 && (deltaX, deltaY) != (0, 0)
  }

  /** Input is valid if and only if it is numbered, belongs to a complete session, and does
      something, or shows a named display. */
  lemma ValidInput(frame: CriticalFrame, motion: MotionFrame)
    ensures CheckCritical(frame).None? <==>
      Complete(frame.sessionId) && frame.sequence > 0 && DoesSomething(frame.event)
    ensures CheckMotion(motion).None? <==>
      && Complete(motion.sessionId) && motion.sequence > 0
      && ValidText(motion.displayId, MAX_PEER_ID_BYTES) && motion.layoutRevision > 0
  {
  }

  /** The session whose stream is open and the number its next frame must carry. */
  datatype Stream = Stream(sessionId: SessionId, next: u64)

  datatype GateSide = GateSide(localBoot: Id128, active: Option<Stream>, ended: Option<SessionId>) {
    function Activate(session: SessionId): (GateSide, Option<ProtocolError>) {
      if CheckSession(session).Some? then (this, CheckSession(session))
      else if session.receiverBoot != localBoot then (this, Some(WrongBoot))
      else if ended == Some(session) then (this, Some(WrongSession))
      else (this.(active := Some(Stream(session, 1))), None)
    }

    function Accept(frame: CriticalFrame): (GateSide, Option<ProtocolError>) {
      if CheckCritical(frame).Some? then (this, CheckCritical(frame))
      else if active.None? then (this, Some(WrongSession))
      else if frame.sessionId.receiverBoot != localBoot then (this, Some(WrongBoot))
      else if frame.sessionId != active.value.sessionId || frame.sequence != active.value.next
      then (this, Some(WrongSession))
      else if active.value.next == U64_MAX then (this, Some(InvalidField("sequence")))
      else (this.(active := Some(active.value.(next := active.value.next + 1))), None)
    }

    function End(session: SessionId): (GateSide, Option<ProtocolError>) {
      if active.None? || active.value.sessionId != session then (this, Some(WrongSession))
      else (this.(active := None, ended := Some(session)), None)
    }
  }

  class InputSessionGate {
    const localBoot: Id128
    var active: Option<Stream>
    var ended: Option<SessionId>

    ghost function View(): GateSide reads this { GateSide(localBoot, active, ended) }

    constructor (localBoot: Id128)
      ensures View() == GateSide(localBoot, None, None)
    {
      this.localBoot, active, ended := localBoot, None, None;
    }

    method Activate(session: SessionId) returns (error: Option<ProtocolError>)
      modifies this
      ensures (View(), error) == old(View()).Activate(session)
    {
      error := CheckSession(session);
      if error.Some? { return; }
      if session.receiverBoot != localBoot { return Some(WrongBoot); }
      if ended == Some(session) { return Some(WrongSession); }
      active := Some(Stream(session, 1));
    }

    method Accept(frame: CriticalFrame) returns (error: Option<ProtocolError>)
      modifies this
      ensures (View(), error) == old(View()).Accept(frame)
    {
      error := CheckCritical(frame);
      if error.Some? { return; }
      if active.None? { return Some(WrongSession); }
      var Stream(session, next) := active.value;
      if frame.sessionId.receiverBoot != localBoot { return Some(WrongBoot); }
      if frame.sessionId != session || frame.sequence != next { return Some(WrongSession); }
      if next == U64_MAX { return Some(InvalidField("sequence")); }
      active := Some(Stream(session, next + 1));
    }

    method End(session: SessionId) returns (error: Option<ProtocolError>)
      modifies this
      ensures (View(), error) == old(View()).End(session)
    {
      if active.None? || active.value.sessionId != session { return Some(WrongSession); }
      active := None;
      ended := Some(session);
      error := None;
    }
  }

  // ----- what the gate lets through

  datatype GateEvent = Offer(frame: CriticalFrame) | Activating(sessionId: SessionId) | Ending(sessionId: SessionId)

  function Step(gate: GateSide, e: GateEvent): (GateSide, Option<ProtocolError>) {
    match e
    case Offer(frame) => gate.Accept(frame)
    case Activating(session) => gate.Activate(session)
    case Ending(session) => gate.End(session)
  }

  function Run(gate: GateSide, events: seq<GateEvent>): GateSide {
    if events == [] then gate else Step(Run(gate, events[..|events| - 1]), events[|events| - 1]).0
  }

  /** The frames accepted along the way, oldest first. */
  function Accepted(gate: GateSide, events: seq<GateEvent>): seq<CriticalFrame> {
    if events == [] then [] else
      var before := events[..|events| - 1];
      var e := events[|events| - 1];
      Accepted(gate, before)
      + (if e.Offer? && Run(gate, before).Accept(e.frame).1.None? then [e.frame] else [])
  }

  predicate Numbered(frames: seq<CriticalFrame>, session: SessionId) {
    forall i :: 0 <= i < |frames| ==> frames[i].sessionId == session && frames[i].sequence == i + 1
  }

  /** One offer: accepted or not, the gate keeps asking for the next number. */
  lemma OneStep(gate: GateSide, session: SessionId, e: GateEvent)
    requires gate.active.Some? && gate.active.value.sessionId == session && !e.Activating?
    ensures var (gate', error) := Step(gate, e);
      && gate'.localBoot == gate.localBoot
      && (e == Ending(session) ==> gate'.active.None?)
      && (e.Offer? && error.None? ==>
            && e.frame.sessionId == session && e.frame.sequence == gate.active.value.next
            && gate'.active.Some? && gate'.active.value.sessionId == session
            && gate'.active.value.next == gate.active.value.next + 1)
      && (e != Ending(session) && !(e.Offer? && error.None?) ==> gate' == gate)
  {
  }

  lemma ClosedStep(gate: GateSide, e: GateEvent)
    requires gate.active.None? && !e.Activating?
    ensures Step(gate, e).0 == gate && Step(gate, e).1.Some?
  {
  }

  /** Whatever is offered to a gate activated once for a session, the frames it accepts
      are that session's, numbered 1, 2, 3, ..., and nothing passes after the end. */
  lemma {:induction false} AcceptsOnlyInOrder(gate: GateSide, session: SessionId, events: seq<GateEvent>)
    requires gate.active == Some(Stream(session, 1))
    requires forall i :: 0 <= i < |events| ==> !events[i].Activating?
    ensures Numbered(Accepted(gate, events), session)
    ensures var active := Run(gate, events).active;
      if Ending(session) in events then active == None
      else active.Some? && active.value.sessionId == session && active.value.next == |Accepted(gate, events)| + 1
    ensures Run(gate, events).localBoot == gate.localBoot
  {
    hide Step, GateSide.Accept;
    if events != [] {
      var before, e := events[..|events| - 1], events[|events| - 1];
      AcceptsOnlyInOrder(gate, session, before);
      assert events == before + [e];
      StepIsAccept(Run(gate, before), e);
      if Ending(session) in before { ClosedStep(Run(gate, before), e); } else { OneStep(Run(gate, before), session, e); }
    }
  }

  lemma StepIsAccept(gate: GateSide, e: GateEvent)
    ensures e.Offer? ==> Step(gate, e) == gate.Accept(e.frame)
  {
  }

  /** Once the session has ended, no frame is accepted any more. */
  lemma {:induction false} NothingAfterEnd(gate: GateSide, session: SessionId, events: seq<GateEvent>, i: nat)
    requires gate.active == Some(Stream(session, 1))
    requires forall i :: 0 <= i < |events| ==> !events[i].Activating?
    requires i < |events| && events[i] == Ending(session)
    ensures Accepted(gate, events) == Accepted(gate, events[..i])
  {
    hide CheckCritical;
    var before := events[..|events| - 1];
    if i < |before| {
      NothingAfterEnd(gate, session, before, i);
      AcceptsOnlyInOrder(gate, session, before);
      assert before[..i] == events[..i];
    }
  }

  function Offers(frames: seq<CriticalFrame>): seq<GateEvent> { seq(|frames|, i requires 0 <= i < |frames| => Offer(frames[i])) }

  /** An in-order run of valid frames of the session is accepted whole, up to the
      largest sequence number, which the gate refuses. */
  lemma {:induction false} AcceptsInOrder(gate: GateSide, session: SessionId, frames: seq<CriticalFrame>)
    requires gate.active == Some(Stream(session, 1))
    requires session.receiverBoot == gate.localBoot
    requires Numbered(frames, session)
    requires forall i :: 0 <= i < |frames| ==> CheckCritical(frames[i]).None?
    ensures (Accepted(gate, Offers(frames)) == frames) <==> |frames| < U64_MAX
    ensures |frames| < U64_MAX ==> Run(gate, Offers(frames)).active == Some(Stream(session, |frames| + 1))
  {
    hide GateSide.Accept, CheckCritical, Accepted, Run, Numbered;
    AcceptsOnlyInOrder(gate, session, Offers(frames));
    if frames == [] {
      OffersNothing(gate);
    } else {
      var before, last := frames[..|frames| - 1], frames[|frames| - 1];
      NumberedBefore(frames, session);
      AcceptsInOrder(gate, session, before);
      AcceptsOnlyInOrder(gate, session, Offers(before));
      OffersMore(gate, before, last);
      assert frames == before + [last];
      BoundedAcceptance(gate, session, Offers(frames));
      if |frames| < U64_MAX { AcceptsNext(Run(gate, Offers(before)), session, last); }
    }
  }

  lemma OffersNothing(gate: GateSide)
    ensures Accepted(gate, Offers([])) == [] && Run(gate, Offers([])) == gate
  {
  }

  lemma NumberedBefore(frames: seq<CriticalFrame>, session: SessionId)
    requires Numbered(frames, session) && frames != []
    ensures Numbered(frames[..|frames| - 1], session)
    ensures frames[|frames| - 1].sessionId == session && frames[|frames| - 1].sequence == |frames|
  {
  }

  lemma OffersMore(gate: GateSide, frames: seq<CriticalFrame>, frame: CriticalFrame)
    ensures var met := Run(gate, Offers(frames)); var (gate', error) := met.Accept(frame);
      && Run(gate, Offers(frames + [frame])) == gate'
      && Accepted(gate, Offers(frames + [frame]))
      == Accepted(gate, Offers(frames)) + (if error.None? then [frame] else [])
  {
    hide GateSide.Accept;
    assert Offers(frames + [frame])[..|frames|] == Offers(frames);
  }

  lemma AcceptsNext(gate: GateSide, session: SessionId, frame: CriticalFrame)
    requires gate.active.Some? && gate.active.value.sessionId == session && session.receiverBoot == gate.localBoot
    requires frame.sessionId == session && frame.sequence == gate.active.value.next < U64_MAX
    requires CheckCritical(frame).None?
    ensures gate.Accept(frame) == (gate.(active := Some(Stream(session, frame.sequence + 1))), None)
  {
    hide CheckCritical;
  }

  /** The successor of the last accepted number is itself a machine word. */
  lemma BoundedAcceptance(gate: GateSide, session: SessionId, events: seq<GateEvent>)
    requires gate.active == Some(Stream(session, 1))
    requires forall i :: 0 <= i < |events| ==> events[i].Offer?
    ensures |Accepted(gate, events)| < U64_MAX
  {
    AcceptsOnlyInOrder(gate, session, events);
    assert Ending(session) !in events;
  }
}
