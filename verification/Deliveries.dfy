/** Both ends of the input streams together: a receiver that is fed what a sender issued,
    critical frames in order, motions in any order, late, twice or not at all, refuses
    exactly the critical frames that do not fit, and never applies a motion before what it
    refers to. */
module Deliveries {
  import opened Base
  import Handshakes
  import opened Inputs
  import opened InputRuns
  import opened Receivers
  import opened ReceiverRuns
  import Runtime
  import RuntimeRuns

  // ----- positions in the sender's log

  lemma {:induction false} CriticalPosition(log: seq<Issue>, c: nat) returns (i: nat)
    requires c < |Criticals(log)|
    ensures i < |log| && log[i] == Critical(Criticals(log)[c]) && |Criticals(log[..i])| == c
  {
    var init := log[..|log| - 1];
    if c < |Criticals(init)| {
      i := CriticalPosition(init, c);
      assert init[..i] == log[..i];
    } else {
      i := |log| - 1;
    }
  }

  lemma {:induction false} MotionPosition(log: seq<Issue>, m: MotionFrame) returns (i: nat)
    requires m in Motions(log)
    ensures i < |log| && log[i] == Issue.Motion(m)
  {
    var init := log[..|log| - 1];
    if m in Motions(init) { i := MotionPosition(init, m); } else { i := |log| - 1; }
  }

  /** From critical frame number c + 1 on, at least h motions had been issued. */
  ghost predicate Precede(log: seq<Issue>, c: nat, h: nat) {
    forall i :: 0 <= i < |log| && log[i].Critical? && |Criticals(log[..i])| >= c ==> h <= |Motions(log[..i])|
  }

  /** A motion that needs no more than c critical frames was issued before the next one. */
  lemma ReadyMotionPrecedes(log: seq<Issue>, c: nat, m: MotionFrame)
    requires Ordered(log) && m in Motions(log) && m.requiredReliableSequence <= c
    ensures Precede(log, c, m.sequence)
  {
    var p := MotionPosition(log, m);
    assert PlacedAt(log, p);
    forall i | 0 <= i < |log| && log[i].Critical? && |Criticals(log[..i])| >= c
      ensures m.sequence <= |Motions(log[..i])|
    {
      if p < i { CountsGrow(log, p, i); } else { CountsGrow(log, i, p); }
    }
  }

  /** So was the motion that critical frame number c + 1 is stamped with. */
  lemma StampPrecedes(log: seq<Issue>, c: nat)
    requires Ordered(log) && c < |Criticals(log)|
    ensures var f := Criticals(log)[c];
      && f.sequence == c + 1 && f.sessionId == log[0].Session()
      && (!f.event.Key? ==> Precede(log, c, f.event.motionSequence))
      && forall h: nat :: Precede(log, c, h) && !f.event.Key? ==> h <= f.event.motionSequence
  {
    var p := CriticalPosition(log, c);
    assert PlacedAt(log, p);
    forall i | 0 <= i < |log| && log[i].Critical? && |Criticals(log[..i])| >= c
      ensures |Motions(log[..p])| <= |Motions(log[..i])|
    {
      if i < p { CountsGrow(log, i, p); } else if p < i { CountsGrow(log, p, i); }
    }
  }

  // ----- feeding a receiver

  function InputCount(events: seq<SessionEvent>): nat {
    if events == [] then 0
    else InputCount(events[..|events| - 1]) + (if events[|events| - 1].Input? then 1 else 0)
  }

  /** After c critical frames: the next one is delivered, or some motion, or something else
      happens. */
  ghost predicate Delivery(log: seq<Issue>, peer: Peer, c: nat, e: SessionEvent) {
    match e
    case Input(frame, from, _) => from == peer && c < |Criticals(log)| && frame == Criticals(log)[c]
    case Motion(frame, _, _) => frame in Motions(log)
    case _ => true
  }

  /** The first n critical frames fit the display. */
  ghost predicate Deliverable(log: seq<Issue>, display: Display, n: nat) {
    n <= |Criticals(log)| && forall c :: 0 <= c < n ==> FrameFits(Criticals(log)[c], display)
  }

  /** The frame can be encoded, does not carry the largest number, and points into the display. */
  predicate FrameFits(frame: CriticalFrame, display: Display) {
    && CheckCritical(frame).None? && frame.sequence < U64_MAX
    && (frame.event.Key? || display.Map(frame.event.x, frame.event.y).Ok?)
  }

  /** The session has just opened, for this log's sender. */
  ghost predicate Ready(s: SessionState, log: seq<Issue>, peer: Peer) {
    && SessionInv(s) && Ordered(log) && log != [] && s.active == Some(log[0].Session()) && Opened(s)
    && s.binding == Some(peer) && peer.role == Handshakes.Controller
  }

  ghost predicate InStep(log: seq<Issue>, s: SessionState, peer: Peer, display: Option<Display>, c: nat) {
    && SessionInv(s) && s.active.Some? && s.binding == Some(peer) && s.shown == display
    && s.highestApplied == c && Precede(log, c, s.highestMotion)
    && (s.pending.Some? ==> s.pending.value in Motions(log))
  }

  /** The next critical frame is applied, or the injector fails and ends the session, if
      and only if it fits; otherwise it is refused and changes nothing. */
  lemma NextInput(log: seq<Issue>, s: SessionState, peer: Peer, display: Display, c: nat, nowMs: u64)
    requires Ordered(log) && c < |Criticals(log)| && peer.role == Handshakes.Controller
    requires InStep(log, s, peer, Some(display), c) && s.active == Some(log[0].Session())
    ensures var frame := Criticals(log)[c]; var out := s.HandleInput(frame, peer, nowMs);
      if FrameFits(frame, display) then
        (out.error.None? && InStep(log, out.state, peer, Some(display), c + 1) && out.state.active == s.active)
        || (out.error.Some? && out.error.value.Injector? && out.state.active.None?)
      else out.state == s && out.error.Some? && out.error.value.Protocol?
  {
    hide Safe, Ordered, CheckCritical, SessionState.HandleInput, Precede, Display.Map;
    var frame := Criticals(log)[c];
    StampPrecedes(log, c);
    if FrameFits(frame, display) {
      FittingInput(log, s, peer, display, c, nowMs);
    } else {
      UnfitInput(s, frame, peer, display, nowMs);
    }
  }

  lemma FittingInput(log: seq<Issue>, s: SessionState, peer: Peer, display: Display, c: nat, nowMs: u64)
    requires Ordered(log) && c < |Criticals(log)| && peer.role == Handshakes.Controller
    requires InStep(log, s, peer, Some(display), c) && s.active == Some(log[0].Session())
    requires FrameFits(Criticals(log)[c], display)
    ensures var out := s.HandleInput(Criticals(log)[c], peer, nowMs);
      (out.error.None? && InStep(log, out.state, peer, Some(display), c + 1) && out.state.active == s.active)
      || (out.error.Some? && out.error.value.Injector? && out.state.active.None?)
  {
    hide Safe, Ordered, CheckCritical, SessionState.HandleInput, Precede, Display.Map;
    var frame := Criticals(log)[c];
    StampPrecedes(log, c);
    InputOk(s, frame, peer, nowMs);
    var out := s.HandleInput(frame, peer, nowMs);
    if out.error.None? {
      LaterPrecede(log, c, s.highestMotion);
      if !frame.event.Key? { LaterPrecede(log, c, frame.event.motionSequence); }
      if s.pending.Some? && s.pending.value.requiredReliableSequence <= frame.sequence {
        ReadyMotionPrecedes(log, c + 1, s.pending.value);
      }
    }
  }

  /** A frame in order that cannot be encoded, is numbered last or points off the display. */
  lemma UnfitInput(s: SessionState, frame: CriticalFrame, peer: Peer, display: Display, nowMs: u64)
    requires SessionInv(s) && s.active == Some(frame.sessionId) && s.binding == Some(peer)
    requires peer.role == Handshakes.Controller && s.shown == Some(display) && frame.sequence == s.highestApplied + 1
    requires frame.event.Key? || frame.event.motionSequence >= s.highestMotion
    requires !FrameFits(frame, display)
    ensures var out := s.HandleInput(frame, peer, nowMs);
      out.state == s && out.error.Some? && out.error.value.Protocol?
  {
    hide Safe, CheckCritical, SessionState.Carry, Display.Map;
  }

  /** What becomes of a refused frame's session: its stream ends, and with it the session. */
  lemma StreamEnds(s: SessionState, peer: Peer)
    requires SessionInv(s) && s.active.Some? && s.binding == Some(peer)
    ensures var t := s.StreamClosed(peer).0.state; SessionInv(t) && t.active.None? && LetGo(t)
  {
    hide SessionInv, SessionState.ReleasePressed, SessionState.Leave, LetGo;
    EndsWithFault(s, InputStreamClosed);
    LeavesForGood(s, InputStreamClosed);
  }

  lemma LeavesForGood(s: SessionState, fault: Fault)
    requires s.active.Some?
    ensures s.Leave(s.active.value).(fault := Some(fault)).ReleasePressed().state.active.None?
  {
    hide Injected.SubmitAll;
  }

  lemma LaterPrecede(log: seq<Issue>, c: nat, h: nat)
    requires Precede(log, c, h)
    ensures Precede(log, c + 1, h)
  {
  }

  lemma MotionKeepsStep(log: seq<Issue>, s: SessionState, peer: Peer, display: Option<Display>, c: nat,
                        frame: MotionFrame, sender: Peer, nowMs: u64)
    requires Ordered(log) && InStep(log, s, peer, display, c) && frame in Motions(log)
    ensures var out := s.HandleMotion(frame, sender, nowMs).0;
      out.state.active == s.active ==> InStep(log, out.state, peer, display, c)
  {
    hide Safe, Ordered, SessionState.HandleMotion, Precede;
    MotionOk(s, frame, sender, nowMs);
    if frame.requiredReliableSequence <= c { ReadyMotionPrecedes(log, c, frame); }
  }

  /** Whether an open session went on or not, this much did not change. */
  ghost predicate Progress(s: SessionState, t: SessionState) {
    t.active == s.active ==>
      && t.highestApplied == s.highestApplied && t.highestMotion == s.highestMotion && t.pending == s.pending
      && t.shown == s.shown && t.binding == s.binding
  }

  lemma PassOnProgress(s: SessionState, frame: Handshakes.ControlFrame, nowMs: u64)
    requires s.active.Some? && s.handshake.Some? && s.handshake.value.state == Handshakes.InSession(s.active.value)
    ensures Progress(s, s.PassOn(frame, nowMs).state)
  {
    hide Injected.SubmitAll, SessionState.FirstFailure, Handshakes.CheckFrame;
  }

  lemma ControlProgress(s: SessionState, frame: Handshakes.ControlFrame, peer: Peer, nowMs: u64)
    requires s.active.Some? && s.handshake.Some? && s.handshake.value.state == Handshakes.InSession(s.active.value)
    ensures Progress(s, s.HandleControl(frame, peer, nowMs).state)
  {
    hide SessionState.PassOn, SessionState.ReleasePressed, FindDisplay;
    PassOnProgress(s, frame, nowMs);
    PassOnProgress(s.(injector := s.injector.(drawn := s.injector.drawn + 1),
                      prepared := FindDisplay(s.displays, if frame.Prepare? then frame.targetDisplay else "",
                                              if frame.Prepare? then frame.layoutRevision else 0)), frame, nowMs);
  }

  lemma SameProgress(s: SessionState, e: SessionEvent)
    requires SessionInv(s) && s.active.Some? && !e.Input? && !e.Motion?
    ensures Progress(s, ReceiverRuns.Step(s, e).state)
  {
    hide Safe, Injected.SubmitAll, SessionState.FirstFailure, SessionState.HandleControl;
    if e.Control? { ControlProgress(s, e.frame, e.peer, e.nowMs); }
  }

  ghost predicate DeliveryAt(log: seq<Issue>, peer: Peer, events: seq<SessionEvent>, k: nat)
    requires k < |events|
  {
    Delivery(log, peer, InputCount(events[..k]), events[k])
  }

  ghost predicate AllDeliver(log: seq<Issue>, peer: Peer, events: seq<SessionEvent>) {
    forall k :: 0 <= k < |events| ==> DeliveryAt(log, peer, events, k)
  }

  ghost predicate StaysOpen(s: SessionState, events: seq<SessionEvent>) {
    forall k :: 0 <= k <= |events| ==> ReceiverRuns.Run(s, events[..k]).active == s.active
  }

  lemma DeliverPrefix(log: seq<Issue>, s: SessionState, peer: Peer, events: seq<SessionEvent>, n: nat)
    requires n <= |events|
    ensures AllDeliver(log, peer, events) ==> AllDeliver(log, peer, events[..n])
    ensures StaysOpen(s, events) ==> StaysOpen(s, events[..n])
  {
    hide ReceiverRuns.Run;
    var init := events[..n];
    forall k | 0 <= k < n && DeliveryAt(log, peer, events, k)
      ensures DeliveryAt(log, peer, init, k)
    {
      assert init[..k] == events[..k];
    }
    forall k | 0 <= k <= n && ReceiverRuns.Run(s, events[..k]).active == s.active
      ensures ReceiverRuns.Run(s, init[..k]).active == s.active
    {
      assert init[..k] == events[..k];
    }
  }

  lemma {:induction false} ReceiverStaysInStep(log: seq<Issue>, s: SessionState, peer: Peer, display: Display,
                                               events: seq<SessionEvent>)
    requires Ready(s, log, peer) && s.shown == Some(display) && Deliverable(log, display, InputCount(events))
    requires AllDeliver(log, peer, events) && StaysOpen(s, events)
    ensures InStep(log, ReceiverRuns.Run(s, events), peer, Some(display), InputCount(events))
  {
    hide SessionInv, Ordered, ReceiverRuns.Step, AllDeliver, StaysOpen, FrameFits;
    if events == [] {
      NothingYet(log, s, peer);
    } else {
      var n := |events| - 1;
      var init, e := events[..n], events[n];
      DeliverPrefix(log, s, peer, events, n);
      ReceiverStaysInStep(log, s, peer, display, init);
      StillOpen(s, events, n);
      DeliversAt(log, peer, events, n);
      OneDelivery(log, ReceiverRuns.Run(s, init), peer, display, InputCount(init), e);
    }
  }

  lemma NothingYet(log: seq<Issue>, s: SessionState, peer: Peer)
    requires Ready(s, log, peer)
    ensures InStep(log, s, peer, s.shown, 0)
  {
    hide SessionInv, Ordered;
  }

  lemma StillOpen(s: SessionState, events: seq<SessionEvent>, n: nat)
    requires StaysOpen(s, events) && n + 1 == |events|
    ensures ReceiverRuns.Run(s, events[..n]).active == s.active && ReceiverRuns.Run(s, events).active == s.active
  {
    hide ReceiverRuns.Run;
    assert events[..n + 1] == events;
  }

  lemma DeliversAt(log: seq<Issue>, peer: Peer, events: seq<SessionEvent>, n: nat)
    requires AllDeliver(log, peer, events) && n < |events|
    ensures DeliveryAt(log, peer, events, n)
  {
  }

  lemma OneDelivery(log: seq<Issue>, s: SessionState, peer: Peer, display: Display, c: nat, e: SessionEvent)
    requires Ordered(log) && log != [] && peer.role == Handshakes.Controller
    requires Delivery(log, peer, c, e)
    requires InStep(log, s, peer, Some(display), c) && s.active == Some(log[0].Session())
    ensures var out := ReceiverRuns.Step(s, e);
      && (out.state.active == s.active && (e.Input? ==> FrameFits(e.critical, display)) ==>
            InStep(log, out.state, peer, Some(display), c + (if e.Input? then 1 else 0)))
      && (e.Input? ==>
            && (out.error.None? || out.error.value.Injector? <==> FrameFits(e.critical, display))
            && (!FrameFits(e.critical, display) ==> out.state == s))
  {
    hide SessionInv, Precede, Ordered, ReceiverRuns.Step, FrameFits;
    if e.Input? {
      NextInput(log, s, peer, display, c, e.nowMs);
      InputIsStep(s, e);
    } else if e.Motion? {
      MotionKeepsStep(log, s, peer, Some(display), c, e.motion, e.peer, e.nowMs);
      InputIsStep(s, e);
    } else {
      StepGoes(s, e);
      SameProgress(s, e);
    }
  }

  lemma InputIsStep(s: SessionState, e: SessionEvent)
    ensures e.Input? ==> ReceiverRuns.Step(s, e) == s.HandleInput(e.critical, e.peer, e.nowMs)
    ensures e.Motion? ==> ReceiverRuns.Step(s, e) == s.HandleMotion(e.motion, e.peer, e.nowMs).0
  {
  }

  // ----- main results

  /** Critical frame c + 1 of the log meets the receiver: it is refused if and only if it
      does not fit, and then it changes nothing and the end of its stream ends the session. */
  ghost predicate RefusedExactlyIfUnfit(met: SessionState, peer: Peer, display: Display, e: SessionEvent)
    requires e.Input?
  {
    var out := ReceiverRuns.Step(met, e);
    && (out.error.None? || out.error.value.Injector? <==> FrameFits(e.critical, display))
    && (!FrameFits(e.critical, display) ==>
          && out.state == met && out.error.value.Protocol?
          && out.state.StreamClosed(peer).0.state.active.None? && LetGo(out.state.StreamClosed(peer).0.state))
  }

  /** A receiver that is fed a sender's log refuses a critical frame for its own sake only:
      as long as the session lasts, one that fits is applied, or the injector fails and
      ends the session.  Motions may be lost, repeated, reordered and arrive at any time. */
  lemma CriticalsRefusedExactlyWhen(log: seq<Issue>, s: SessionState, peer: Peer, display: Display,
                                    events: seq<SessionEvent>, k: nat)
    requires Ready(s, log, peer) && s.shown == Some(display)
    requires k < |events| && Deliverable(log, display, InputCount(events[..k]))
    requires AllDeliver(log, peer, events) && StaysOpen(s, events[..k])
    requires events[k].Input?
    ensures RefusedExactlyIfUnfit(ReceiverRuns.Run(s, events[..k]), peer, display, events[k])
  {
    hide SessionInv, Ordered, Deliverable, ReceiverRuns.Step, AllDeliver, StaysOpen, ReceiverRuns.Run, FrameFits,
         SessionState.StreamClosed;
    DeliverPrefix(log, s, peer, events, k);
    DeliverPrefix(log, s, peer, events, k + 1);
    ReceiverStaysInStep(log, s, peer, display, events[..k]);
    assert events[..k + 1][..k] == events[..k];
    DeliversAt(log, peer, events[..k + 1], k);
    OpenAtTheEnd(s, events[..k]);
    var met := ReceiverRuns.Run(s, events[..k]);
    NextInput(log, met, peer, display, InputCount(events[..k]), events[k].nowMs);
    InputIsStep(met, events[k]);
    StreamEnds(met, peer);
  }

  lemma OpenAtTheEnd(s: SessionState, events: seq<SessionEvent>)
    requires StaysOpen(s, events)
    ensures ReceiverRuns.Run(s, events).active == s.active
  {
    hide ReceiverRuns.Run;
    assert events[..|events|] == events;
  }

  /** The same for any sender there is: whatever its runtime did before and during the
      session, the receiver of that session takes every critical frame it issued that fits. */
  lemma SenderMeetsReceiver(start: Runtime.RuntimeState, sending: seq<RuntimeRuns.RuntimeEvent>,
                            s: SessionState, peer: Peer, display: Display, events: seq<SessionEvent>, k: nat)
    requires RuntimeRuns.Initial(start) && SessionLog(start, sending) != []
    requires var log := SessionLog(start, sending);
      && SessionInv(s) && s.active == Some(log[0].Session()) && Opened(s)
      && s.binding == Some(peer) && peer.role == Handshakes.Controller
      && s.shown == Some(display) && AllDeliver(log, peer, events)
    requires k < |events| && StaysOpen(s, events[..k]) && events[k].Input?
    requires Deliverable(SessionLog(start, sending), display, InputCount(events[..k]))
    ensures RefusedExactlyIfUnfit(ReceiverRuns.Run(s, events[..k]), peer, display, events[k])
  {
    hide SessionInv, Ordered, Deliverable, ReceiverRuns.Step, AllDeliver, StaysOpen, ReceiverRuns.Run, Opened,
         SessionLog, RefusedExactlyIfUnfit;
    LogAlwaysOrdered(start, sending);
    CriticalsRefusedExactlyWhen(SessionLog(start, sending), s, peer, display, events, k);
  }

  /** A motion moves the pointer only when every critical frame it refers to has been
      applied, and only forward; apart from that only a critical frame's stamp does. */
  lemma MotionsWaitForTheirReferences(start: SessionState, before: seq<SessionEvent>, e: SessionEvent)
    requires Initial(start)
    requires var s := ReceiverRuns.Run(start, before); s.active.Some? && ReceiverRuns.Step(s, e).state.active == s.active
    ensures var s := ReceiverRuns.Run(start, before); var t := ReceiverRuns.Step(s, e).state;
      t.highestMotion != s.highestMotion ==>
        || (e.Input? && !e.critical.event.Key? && t.highestMotion == e.critical.event.motionSequence > s.highestMotion)
        || (e.Input? && s.pending.Some? && t.highestMotion == s.pending.value.sequence
            && s.pending.value.requiredReliableSequence <= t.highestApplied)
        || (e.Motion? && t.highestMotion == e.motion.sequence > s.highestMotion
            && e.motion.requiredReliableSequence <= t.highestApplied)
  {
    hide SessionInv, SessionState.HandleInput, SessionState.HandleMotion;
    AlwaysSessionInv(start, before);
    var s := ReceiverRuns.Run(start, before);
    if e.Input? {
      InputOk(s, e.critical, e.peer, e.nowMs);
    } else if e.Motion? {
      MotionOk(s, e.motion, e.peer, e.nowMs);
    } else {
      SameProgress(s, e);
    }
  }
}
