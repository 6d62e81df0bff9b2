/** Both ends and both kinds of streams: a handoff whose controller issues input, which
    travels to the receiver's session runtime on the same connection.  Critical frames
    arrive in order, until one is refused and their stream ends; motions arrive in any
    order, late, repeatedly or not at all. */
module Systems {
  import opened Base
  import Handshakes
  import opened Inputs
  import opened InputRuns
  import opened Links
  import opened Lines
  import RouterRuns
  import opened Runtime
  import RuntimeRuns
  import Worlds
  import Receivers
  import ReceiverRuns
  import opened Deliveries
  import opened Handoffs
  import Injections
  import Pressed

  /** `log` is what was issued on the connection dialled last, `arrived` how many of its
      critical frames have reached the receiver. */
  datatype System = System(handoff: Handoff, log: seq<Issue>, arrived: nat)

  datatype SystemEvent =
    | Other(event: HandoffEvent)
    | InputArrives(nowMs: u64)
    | MotionArrives(frame: MotionFrame, nowMs: u64)

  predicate Dialled(h: Handoff, event: HandoffEvent) {
    event.Dials? && h.runtime.CanBegin() && h.line.session.binding != Some(event.peer)
  }

  function Issued(h: Handoff, event: HandoffEvent): seq<Issue> {
    if event.Local? && !event.event.Begin? && !event.event.Control? then IssueOf(h.runtime, event.event) else []
  }

  /** Input on this connection comes from the log only. */
  predicate Feeds(event: HandoffEvent, peer: Receivers.Peer) {
    event.Happens? && (event.other.Input? || event.other.Motion?) && event.other.peer == peer
  }

  /** One critical frame reaches the receiver; a refused one ends its stream. */
  function Arrive(h: Handoff, frame: CriticalFrame, nowMs: u64): Handoff {
    var input := ReceiverRuns.Input(frame, h.line.peer, nowMs);
    var taken := Handoffs.Step(h, Happens(input));
    if ReceiverRuns.Step(h.line.session, input).error.None? then taken
    else Handoffs.Step(taken, Happens(ReceiverRuns.StreamCloses(h.line.peer)))
  }

  function Step(w: System, e: SystemEvent): System {
    match e
    case Other(event) =>
      if Feeds(event, w.handoff.line.peer) then w
      else
        System(Handoffs.Step(w.handoff, event),
               if Dialled(w.handoff, event) then [] else w.log + Issued(w.handoff, event),
               if Dialled(w.handoff, event) then 0 else w.arrived)
    case InputArrives(now) =>
      if w.arrived >= |Criticals(w.log)| then w
      else System(Arrive(w.handoff, Criticals(w.log)[w.arrived], now), w.log, w.arrived + 1)
    case MotionArrives(frame, now) =>
      if frame !in Motions(w.log) then w
      else w.(handoff := Handoffs.Step(w.handoff, Happens(ReceiverRuns.Motion(frame, w.handoff.line.peer, now))))
  }

  function Run(start: System, events: seq<SystemEvent>): System {
    if events == [] then start else Step(Run(start, events[..|events| - 1]), events[|events| - 1])
  }

  ghost predicate Initial(w: System) { Handoffs.Initial(w.handoff) && w.log == [] && w.arrived == 0 }

  // ----- the invariant

  predicate Spoken(c: Handshakes.ControllerSide) { c.state.Active? || c.state.Ended? }

  /** What was issued belongs to the session that was committed on this connection. */
  ghost predicate Belongs(log: seq<Issue>, c: Handshakes.ControllerSide, l: Line) {
    log != [] ==>
      && l.clean >= 2 && Spoken(c)
      && |l.channels.sent| >= 3 && l.channels.sent[2].Commit?
      && log[0].Session() == l.channels.sent[2].sessionId
  }

  /** An open session has applied exactly what arrived, and no motion issued after that. */
  ghost predicate Fed(log: seq<Issue>, l: Line, arrived: nat) {
    l.Ours() ==>
      && InStep(log, l.session, l.peer, l.session.shown, arrived)
      && l.session.highestMotion <= |Motions(log)|
  }

  ghost predicate SystemInv(w: System) {
    && HandoffInv(w.handoff)
    && LogInv(w.log, w.handoff.runtime)
    && Belongs(w.log, w.handoff.runtime.handshake, w.handoff.line)
    && w.arrived <= |Criticals(w.log)|
    && Fed(w.log, w.handoff.line, w.arrived)
  }

  // ----- the log grows

  lemma LongerLog(log: seq<Issue>, issue: Issue, l: Line, arrived: nat)
    requires Fed(log, l, arrived) && arrived <= |Criticals(log)|
    ensures Fed(log + [issue], l, arrived) && arrived <= |Criticals(log + [issue])|
  {
    hide ReceiverRuns.SessionInv;
    var more := log + [issue];
    assert more[..|log|] == log;
    if l.Ours() {
      var h := l.session.highestMotion;
      forall i | 0 <= i < |more| && more[i].Critical? && |Criticals(more[..i])| >= arrived
        ensures h <= |Motions(more[..i])|
      {
        assert more[..i] == if i < |log| then log[..i] else log;
      }
    }
  }

  /** Nothing but a dial or a frame of the peer opens a session. */
  lemma LocalOpensNothing(s: RuntimeState, event: RuntimeRuns.RuntimeEvent)
    requires RuntimeRuns.Coupled(s) && !event.Begin? && !event.Control?
    ensures !Opens(s, event)
  {
    hide RuntimeState.RouteEffects;
    if event.Advance? { RuntimeRuns.AdvanceCoupled(s, event.nowMs, event.keysReleased, event.env); }
    if event.GoLocal? { RuntimeRuns.GoLocalCoupled(s, event.reason, event.count); }
  }

  lemma SpokenStays(c: Handshakes.ControllerSide, c': Handshakes.ControllerSide, frames: seq<Frame>)
    requires Worlds.ByOp(c, c', frames)
    ensures Spoken(c) ==> Spoken(c')
    ensures c.state.Ended? ==> c'.state.Ended?
  {
  }

  lemma SpokenHandles(c: Handshakes.ControllerSide, frame: Frame, entropy: Option<Id128>)
    requires Spoken(c)
    ensures Spoken(c.Handle(frame, entropy).state)
    ensures c.state.Ended? ==> c.Handle(frame, entropy).state.state.Ended?
  {
    hide Handshakes.CheckFrame;
  }

  lemma ActiveHasCommitted(c: Handshakes.ControllerSide, l: Line)
    requires LineInv(c, l) && c.state.Active?
    ensures l.clean >= 2 && |l.channels.sent| >= 3 && l.channels.sent[2].Commit?
    ensures l.channels.sent[2].sessionId == c.state.sessionId
  {
    hide ReceiverRuns.SessionInv, SessionStands, Replies;
  }

  lemma HandoffHas(h: Handoff)
    requires HandoffInv(h)
    ensures RuntimeRuns.Coupled(h.runtime) && LineInv(h.runtime.handshake, h.line)
    ensures ReceiverRuns.SessionInv(h.line.session)
  {
    hide RuntimeRuns.Coupled, ReceiverRuns.SessionInv;
  }

  lemma IssuesOne(s: RuntimeState, event: RuntimeRuns.RuntimeEvent)
    ensures |IssueOf(s, event)| <= 1
    ensures IssueOf(s, event) != [] ==> s.IsActive() && IssueOf(s, event)[0].Session() == s.handshake.state.sessionId
  {
  }

  lemma BelongsStill(log: seq<Issue>, more: seq<Issue>, c: Handshakes.ControllerSide, l: Line,
                     c': Handshakes.ControllerSide, l': Line)
    requires Belongs(log, c, l) && l'.clean >= l.clean && l.channels.sent <= l'.channels.sent
    requires Spoken(c) ==> Spoken(c')
    requires more == [] || (LineInv(c, l) && c.state.Active? && more[0].Session() == c.state.sessionId)
    ensures Belongs(log + more, c', l')
  {
    hide LineInv;
    if log + more != [] && log == [] {
      ActiveHasCommitted(c, l);
      assert log + more == more;
    }
  }

  lemma FedStill(log: seq<Issue>, more: seq<Issue>, l: Line, l': Line, arrived: nat)
    requires Fed(log, l, arrived) && arrived <= |Criticals(log)| && |more| <= 1
    requires l'.session == l.session && l'.peer == l.peer
    ensures Fed(log + more, l', arrived) && arrived <= |Criticals(log + more)|
  {
    hide ReceiverRuns.SessionInv, Precede;
    if more == [] {
      assert log + more == log;
    } else {
      LongerLog(log, more[0], l, arrived);
      assert more == [more[0]];
    }
  }

  lemma LocalInv(w: System, event: HandoffEvent)
    requires SystemInv(w) && event.Local?
    ensures SystemInv(Step(w, Other(event)))
  {
    hide HandoffInv, LogInv, Belongs, Fed, LineInv, Worlds.ByOp, RuntimeRuns.Coupled, RuntimeRuns.Step, IssueOf, Spoken,
         Opens;
    var h, ev := w.handoff, event.event;
    Handoffs.StepInv(h, event);
    if ev.Begin? || ev.Control? {
      assert w.log + [] == w.log;
    } else {
      HandoffHas(h);
      Worlds.LocalByOp(h.runtime, ev);
      LogStep(w.log, h.runtime, ev);
      LocalOpensNothing(h.runtime, ev);
      IssuesOne(h.runtime, ev);
      var reply := RuntimeRuns.Step(h.runtime, ev);
      var h' := Handoffs.Step(h, event);
      SpokenStays(h.runtime.handshake, h'.runtime.handshake, FramesOf(reply.actions));
      BelongsStill(w.log, IssueOf(h.runtime, ev), h.runtime.handshake, h.line, h'.runtime.handshake, h'.line);
      FedStill(w.log, IssueOf(h.runtime, ev), h.line, h'.line, w.arrived);
    }
  }

  lemma DeliverInv(w: System, event: HandoffEvent)
    requires SystemInv(w) && event.Deliver?
    ensures SystemInv(Step(w, Other(event)))
  {
    hide HandoffInv, LogInv, Belongs, Fed, LineInv, Worlds.ByOp, RuntimeRuns.Coupled, RuntimeState.HandleControl,
         Handshakes.ControllerSide.Handle;
    var h := w.handoff;
    Handoffs.StepInv(h, event);
    assert w.log + [] == w.log;
    if h.line.channels.toController != [] {
      var frame := h.line.channels.toController[0];
      var ev := RuntimeRuns.Control(frame, event.nowMs, event.env);
      var c := h.runtime.handshake;
      var handled := c.Handle(frame, event.env.entropy).state;
      var h' := Handoffs.Step(h, event);
      HandoffHas(h);
      Worlds.ControlByOp(h.runtime, frame, event.nowMs, event.env);
      LogStep(w.log, h.runtime, ev);
      var actions := h.runtime.HandleControl(frame, event.nowMs, event.env).actions;
      SpokenStays(handled, h'.runtime.handshake, FramesOf(actions));
      if Spoken(c) { SpokenHandles(c, frame, event.env.entropy); }
      if Opens(h.runtime, ev) { OpensAnEmptyLog(w, handled, h'.runtime.handshake); }
      BelongsStill(w.log, [], c, h.line, h'.runtime.handshake, h'.line);
      FedStill(w.log, [], h.line, h'.line, w.arrived);
    }
  }

  /** A session that opens now opens before anything was issued on this connection. */
  lemma OpensAnEmptyLog(w: System, handled: Handshakes.ControllerSide, c': Handshakes.ControllerSide)
    requires Belongs(w.log, w.handoff.runtime.handshake, w.handoff.line)
    requires !w.handoff.runtime.IsActive() && c'.state.Active?
    requires w.handoff.runtime.handshake.state.Ended? ==> handled.state.Ended?
    requires handled.state.Ended? ==> c'.state.Ended?
    ensures w.log == []
  {
  }

  lemma DialInv(w: System, event: HandoffEvent)
    requires SystemInv(w) && event.Dials?
    ensures SystemInv(Step(w, Other(event)))
  {
    hide HandoffInv, Belongs, Fed, LineInv, RuntimeRuns.Coupled, RuntimeState.Begin;
    var h := w.handoff;
    Handoffs.StepInv(h, event);
    assert w.log + [] == w.log;
    if Dialled(h, event) {
      HandoffHas(h);
      BeginsAtRest(h.runtime, event.route, event.display, event.revision, event.nowMs, event.env);
      var h' := Handoffs.Step(h, event);
      NothingIssued(h.line.session, event.peer, h'.line, h'.runtime.handshake);
    }
  }

  lemma BeginsAtRest(s: RuntimeState, route: string, display: string, revision: u64, nowMs: u64, env: Env)
    requires RuntimeRuns.Coupled(s) && s.CanBegin()
    ensures !s.Begin(route, display, revision, nowMs, env).state.IsActive()
  {
    hide RouterRuns.RouterOk, ValidText;
  }

  lemma NothingIssued(session: Receivers.SessionState, peer: Receivers.Peer, l: Line, c: Handshakes.ControllerSide)
    requires session.binding != Some(peer) && l.session == session && l.peer == peer
    ensures Belongs([], c, l) && Fed([], l, 0) && Ordered([])
  {
  }

  // ----- the receiver's side

  /** The session of the connection is the same as before, fed to the same point; or it
      opened just now, before anything was issued. */
  ghost predicate Keeps(l: Line, l': Line) {
    && l'.peer == l.peer && l'.channels.sent == l.channels.sent && l.clean <= l'.clean
    && (l'.Ours() && l.Ours() ==>
          l'.session.active == l.session.active && Progress(l.session, l'.session))
    && (l'.Ours() && !l.Ours() ==> l.clean < 2 && ReceiverRuns.Opened(l'.session))
  }

  lemma KeptInv(w: System, l': Line)
    requires SystemInv(w) && Keeps(w.handoff.line, l') && ReceiverRuns.SessionInv(l'.session)
    requires HandoffInv(w.handoff.(line := l'))
    ensures SystemInv(w.(handoff := w.handoff.(line := l')))
  {
    hide HandoffInv, LogInv, ReceiverRuns.SessionInv;
    if l'.Ours() && !w.handoff.line.Ours() { assert w.log == []; }
  }

  lemma KeepsThen(a: Line, b: Line, c: Line)
    requires Keeps(a, b) && Keeps(b, c) && (b.Ours() ==> a.Ours()) && (a.Ours() ==> a.clean >= 2)
    ensures Keeps(a, c)
  {
    hide ReceiverRuns.Opened;
  }

  lemma ElsewhereKeeps(l: Line, e: ReceiverRuns.SessionEvent)
    requires ReceiverRuns.SessionInv(l.session) && Elsewhere(e, l.peer)
    requires e.Input? || e.Motion? ==> e.peer != l.peer
    ensures Keeps(l, l.Happens(e)) && (l.Happens(e).Ours() ==> l.Ours())
  {
    hide ReceiverRuns.SessionInv, ReceiverRuns.Step;
    ElsewhereFollows(l.session, e, l.peer);
    if l.Ours() {
      if e.Input? || e.Motion? { StrangersInput(l.session, l.peer, e); } else { SameProgress(l.session, e); }
    }
  }

  lemma StrangersInput(s: Receivers.SessionState, peer: Receivers.Peer, e: ReceiverRuns.SessionEvent)
    requires s.binding == Some(peer) && (e.Input? || e.Motion?) && e.peer != peer
    ensures ReceiverRuns.Step(s, e).state == s
  {
  }

  /** A frame of the connection keeps its session, ends it, or opens it with the commit. */
  lemma HandlesKeeps(c: Handshakes.ControllerSide, l: Line, nowMs: u64)
    requires LineInv(c, l) && l.channels.toReceiver != []
    ensures Keeps(l, l.Handles(nowMs))
  {
    hide ReceiverRuns.SessionInv, Receivers.SessionState.HandleControl, Replies, ControllerStands, ValidText, InFlight,
         Matches, Handshakes.CheckFrame;
    var s, frame := l.session, l.channels.toReceiver[0];
    NextFrame(c, l);
    NotYetAcknowledged(s.localBoot, l.channels, l.clean);
    ReceiverRuns.ControlOk(s, frame, l.peer, nowMs);
    if l.Ours() {
      ControlProgress(s, frame, l.peer, nowMs);
    } else {
      if l.Handles(nowMs).Ours() { OpensWithTheCommit(c, l, nowMs); }
    }
  }

  lemma OpensWithTheCommit(c: Handshakes.ControllerSide, l: Line, nowMs: u64)
    requires LineInv(c, l) && l.channels.toReceiver != [] && !l.Ours() && l.Handles(nowMs).Ours()
    ensures l.channels.taken == 2 && l.session.active.None?
  {
    hide ReceiverRuns.SessionInv, Receivers.SessionState.HandleControl, Replies, ControllerStands, ValidText, InFlight,
         Matches, Handshakes.CheckFrame;
    var s, frame := l.session, l.channels.toReceiver[0];
    NextFrame(c, l);
    if l.channels.taken == 0 {
      TakesHello(s, frame, l.peer, nowMs);
    } else if s.binding != Some(l.peer) {
      UnboundDeclines(s, frame, l.peer, nowMs);
    } else if l.channels.taken == 1 {
      TakesPrepare(s, frame, l.peer, nowMs);
    } else if l.channels.taken >= 3 {
      TakesLater(s, frame, l.peer, nowMs);
    }
  }

  lemma AnswerKeeps(l: Line, reply: seq<Frame>)
    requires l.channels.toReceiver != []
    ensures Keeps(l, l.Answer(reply)) && l.Answer(reply).session == l.session
  {
  }

  lemma TakesKeeps(c: Handshakes.ControllerSide, l: Line, serving: Serving)
    requires LineInv(c, l)
    ensures Keeps(l, l.Takes(serving))
  {
    hide LineInv, Line.Happens, Line.Handles, Line.Answer, ReceiverRuns.Step, ReceiverRuns.Opened, Progress;
    KeepsItself(l);
    if l.channels.toReceiver != [] {
      match serving
      case Disabled => AnswerKeeps(l, [RECEIVER_DISABLED]);
      case Swallowed => AnswerKeeps(l, []);
      case Serves(displays, now) =>
        var e := ReceiverRuns.NewDisplays(displays);
        var updated := l.Happens(e);
        HappensInv(c, l, e);
        OursIsAcknowledged(c, l);
        ElsewhereKeeps(l, e);
        AnswerKeeps(updated, [SESSION_REJECTED]);
        HandlesKeeps(c, updated, now);
        KeepsThen(l, updated, l.Takes(serving));
    }
  }

  lemma KeepsItself(l: Line)
    ensures Keeps(l, l)
  {
  }

  lemma OursIsAcknowledged(c: Handshakes.ControllerSide, l: Line)
    requires LineInv(c, l)
    ensures l.Ours() ==> l.clean >= 2
    ensures ReceiverRuns.SessionInv(l.session)
  {
    hide ReceiverRuns.SessionInv, Replies;
  }

  lemma FarInv(w: System, event: HandoffEvent)
    requires SystemInv(w) && !event.Dials? && !event.Local? && !event.Deliver?
    ensures SystemInv(Step(w, Other(event)))
  {
    hide SystemInv, HandoffInv, LineInv, Keeps, Line.Takes, Line.Happens, ReceiverRuns.SessionInv;
    var h := w.handoff;
    SystemHas(w);
    HandoffHas(h);
    Handoffs.StepInv(h, event);
    HandoffHas(Handoffs.Step(h, event));
    assert w.log + [] == w.log;
    KeepsItself(h.line);
    if !Feeds(event, h.line.peer) {
      if event.Takes? { TakesKeeps(h.runtime.handshake, h.line, event.serving); }
      if event.Happens? && Elsewhere(event.other, h.line.peer) { ElsewhereKeeps(h.line, event.other); }
      if event.CutForward? || event.CutBackward? { CutKeeps(h.line, event.keep); }
      KeptInv(w, Handoffs.Step(h, event).line);
    }
  }

  lemma SystemHas(w: System)
    requires SystemInv(w)
    ensures HandoffInv(w.handoff)
  {
  }

  lemma CutKeeps(l: Line, keep: nat)
    ensures Keeps(l, l.(channels := l.channels.CutForward(keep)))
    ensures Keeps(l, l.(channels := l.channels.CutBackward(keep)))
  {
  }

  // ----- input arrives

  lemma {:induction false} MotionsCount(log: seq<Issue>, n: nat, m: MotionFrame)
    requires Ordered(log) && n <= |log| && m in Motions(log[..n])
    ensures m.sequence <= |Motions(log)|
    decreases n
  {
    assert log[..n][..n - 1] == log[..n - 1];
    if m in Motions(log[..n - 1]) {
      MotionsCount(log, n - 1, m);
    } else {
      assert PlacedAt(log, n - 1);
      CountsGrow(log, n - 1, |log|);
      assert log[..|log|] == log;
    }
  }

  /** A critical frame is stamped with no motion that was not issued. */
  lemma StampCount(log: seq<Issue>, c: nat)
    requires Ordered(log) && c < |Criticals(log)|
    ensures !Criticals(log)[c].event.Key? ==> Criticals(log)[c].event.motionSequence <= |Motions(log)|
  {
    var p := CriticalPosition(log, c);
    assert PlacedAt(log, p);
    CountsGrow(log, p, |log|);
    assert log[..|log|] == log;
  }

  lemma OursIsCommitted(c: Handshakes.ControllerSide, l: Line)
    requires LineInv(c, l) && l.Ours()
    ensures |l.channels.sent| >= 3 && l.channels.sent[2].Commit? && l.peer.role == Handshakes.Controller
    ensures l.session.active == Some(l.channels.sent[2].sessionId) && l.session.shown.Some?
  {
    hide ReceiverRuns.Safe, Replies, Handshakes.CheckFrame;
  }

  lemma StaysForeign(l: Line, e: ReceiverRuns.SessionEvent)
    requires ReceiverRuns.SessionInv(l.session) && Elsewhere(e, l.peer)
    ensures l.Happens(e).Ours() ==> l.Ours()
  {
    hide ReceiverRuns.SessionInv, ReceiverRuns.Step;
    ElsewhereFollows(l.session, e, l.peer);
  }

  lemma InputFeeds(log: seq<Issue>, l: Line, arrived: nat, nowMs: u64)
    requires Ordered(log) && arrived < |Criticals(log)| && Fed(log, l, arrived) && l.Ours()
    requires l.session.shown.Some? && l.peer.role == Handshakes.Controller
    requires l.session.active == Some(log[0].Session())
    ensures var e := ReceiverRuns.Input(Criticals(log)[arrived], l.peer, nowMs);
      && RefusedExactlyIfUnfit(l.session, l.peer, l.session.shown.value, e)
      && (ReceiverRuns.Step(l.session, e).error.None? ==> Fed(log, l.Happens(e), arrived + 1))
      && (ReceiverRuns.Step(l.session, e).error.Some? ==>
            !l.Happens(e).Happens(ReceiverRuns.StreamCloses(l.peer)).Ours())
  {
    hide ReceiverRuns.SessionInv, Ordered, Precede, Receivers.SessionState.HandleInput, FrameFits, ReceiverRuns.Goes,
         Receivers.SessionState.StreamClosed;
    var frame, s := Criticals(log)[arrived], l.session;
    NextInput(log, s, l.peer, s.shown.value, arrived, nowMs);
    ReceiverRuns.InputOk(s, frame, l.peer, nowMs);
    StampCount(log, arrived);
    StreamEnds(s, l.peer);
    assert log[..|log|] == log;
    if s.pending.Some? { MotionsCount(log, |log|, s.pending.value); }
    var t := s.HandleInput(frame, l.peer, nowMs).state;
    if t.active.None? { ClosedAlready(t, l.peer); }
  }

  lemma ClosedAlready(s: Receivers.SessionState, peer: Receivers.Peer)
    requires s.active.None?
    ensures s.StreamClosed(peer).0.state == s
  {
    hide Receivers.SessionState.ReleasePressed;
  }

  lemma InputInv(w: System, nowMs: u64)
    requires SystemInv(w)
    ensures SystemInv(Step(w, InputArrives(nowMs)))
  {
    hide HandoffInv, LogInv, Fed, LineInv, ReceiverRuns.SessionInv, Line.Happens, ReceiverRuns.Step,
         RefusedExactlyIfUnfit;
    if w.arrived < |Criticals(w.log)| {
      var h := w.handoff;
      var frame := Criticals(w.log)[w.arrived];
      var input := ReceiverRuns.Input(frame, h.line.peer, nowMs);
      var closes := ReceiverRuns.StreamCloses(h.line.peer);
      var h1 := Handoffs.Step(h, Happens(input));
      Handoffs.StepInv(h, Happens(input));
      Handoffs.StepInv(h1, Happens(closes));
      HandoffHas(h);
      HandoffHas(h1);
      StaysForeign(h.line, input);
      StaysForeign(h1.line, closes);
      HappensKeepsTheRest(h.line, input);
      HappensKeepsTheRest(h1.line, closes);
      if h.line.Ours() {
        OursIsCommitted(h.runtime.handshake, h.line);
        LogIsOrdered(w.log, h.runtime);
        InputFeeds(w.log, h.line, w.arrived, nowMs);
      }
      FedUnlessOurs(w.log, Step(w, InputArrives(nowMs)).handoff.line, w.arrived + 1);
    }
  }

  lemma HappensKeepsTheRest(l: Line, e: ReceiverRuns.SessionEvent)
    ensures var l' := l.Happens(e); l'.peer == l.peer && l'.channels == l.channels && l'.clean == l.clean
  {
    hide ReceiverRuns.Step;
  }

  lemma LogIsOrdered(log: seq<Issue>, s: RuntimeState)
    requires LogInv(log, s)
    ensures Ordered(log)
    ensures s.IsActive() ==> s.inputSequence == |Criticals(log)| && s.motionSequence == |Motions(log)|
  {
  }

  lemma FedUnlessOurs(log: seq<Issue>, l: Line, n: nat)
    ensures !l.Ours() ==> Fed(log, l, n)
  {
  }

  lemma MotionFeeds(log: seq<Issue>, l: Line, arrived: nat, frame: MotionFrame, nowMs: u64)
    requires Ordered(log) && Fed(log, l, arrived) && l.Ours() && frame in Motions(log)
    ensures Fed(log, l.Happens(ReceiverRuns.Motion(frame, l.peer, nowMs)), arrived)
  {
    hide ReceiverRuns.SessionInv, Ordered, Precede, Receivers.SessionState.HandleMotion, ReceiverRuns.Goes;
    var s := l.session;
    MotionKeepsStep(log, s, l.peer, s.shown, arrived, frame, l.peer, nowMs);
    ReceiverRuns.MotionOk(s, frame, l.peer, nowMs);
    StaysOrLeaves(s, ReceiverRuns.Motion(frame, l.peer, nowMs));
    assert log[..|log|] == log;
    MotionsCount(log, |log|, frame);
  }

  lemma StaysOrLeaves(s: Receivers.SessionState, e: ReceiverRuns.SessionEvent)
    requires ReceiverRuns.SessionInv(s) && s.active.Some?
    ensures var t := ReceiverRuns.Step(s, e).state; t.active.Some? ==> t.active == s.active
  {
    hide ReceiverRuns.SessionInv, ReceiverRuns.Step;
    ReceiverRuns.StepGoes(s, e);
  }

  lemma MotionInv(w: System, frame: MotionFrame, nowMs: u64)
    requires SystemInv(w)
    ensures SystemInv(Step(w, MotionArrives(frame, nowMs)))
  {
    hide HandoffInv, LogInv, Fed, LineInv, ReceiverRuns.SessionInv, Line.Happens, ReceiverRuns.Step;
    if frame in Motions(w.log) {
      var h := w.handoff;
      var e := ReceiverRuns.Motion(frame, h.line.peer, nowMs);
      Handoffs.StepInv(h, Happens(e));
      HandoffHas(h);
      StaysForeign(h.line, e);
      HappensKeepsTheRest(h.line, e);
      LogIsOrdered(w.log, h.runtime);
      if h.line.Ours() { MotionFeeds(w.log, h.line, w.arrived, frame, nowMs); }
      FedUnlessOurs(w.log, h.line.Happens(e), w.arrived);
    }
  }

  lemma {:induction false} AlwaysSystemInv(start: System, events: seq<SystemEvent>)
    requires Initial(start)
    ensures SystemInv(Run(start, events))
  {
    hide SystemInv, Step, Initial;
    if events == [] {
      InitialSystemInv(start);
    } else {
      AlwaysSystemInv(start, events[..|events| - 1]);
      StepInv(Run(start, events[..|events| - 1]), events[|events| - 1]);
    }
  }

  lemma StepInv(w: System, e: SystemEvent)
    requires SystemInv(w)
    ensures SystemInv(Step(w, e))
  {
    hide SystemInv, Step;
    match e
    case Other(event) =>
      if event.Dials? { DialInv(w, event); }
      else if event.Local? { LocalInv(w, event); }
      else if event.Deliver? { DeliverInv(w, event); }
      else { FarInv(w, event); }
    case InputArrives(now) => InputInv(w, now);
    case MotionArrives(frame, now) => MotionInv(w, frame, now);
  }

  lemma InitialSystemInv(start: System)
    requires Initial(start)
    ensures SystemInv(start)
  {
    hide HandoffInv;
    Handoffs.InitialInv(start.handoff);
  }

  // ----- main results

  /** While input goes to the peer and the receiver has not left: what the controller
      believes applied, what is applied, what has arrived and what was issued come in this
      order, and no motion is applied that was not issued. */
  lemma AppliedIsWhatArrived(start: System, events: seq<SystemEvent>)
    requires Initial(start)
    requires var h := Run(start, events).handoff; !h.runtime.router.gate.IsLocal() && !h.line.left
    ensures var w := Run(start, events); var h := w.handoff;
      && EndToEnd(h)
      && h.runtime.handshake.highestApplied <= h.line.session.highestApplied == w.arrived <= h.runtime.inputSequence
      && h.line.session.highestMotion <= h.runtime.motionSequence
  {
    hide Run, Initial, HandoffInv, LogInv, ReceiverRuns.SessionInv, Precede;
    AlwaysSystemInv(start, events);
    var w := Run(start, events);
    RemoteIsEndToEnd(w.handoff);
    LogIsOrdered(w.log, w.handoff.runtime);
  }

  /** As long as the session is open at the receiver, the next critical frame to arrive is
      refused if and only if it does not fit, whatever happened at both ends before. */
  lemma ArrivingInputIsRefusedOnlyIfUnfit(start: System, events: seq<SystemEvent>, nowMs: u64)
    requires Initial(start)
    requires var w := Run(start, events); w.handoff.line.Ours() && w.arrived < |Criticals(w.log)|
    ensures var w := Run(start, events); var l := w.handoff.line;
      && l.session.shown.Some? && Criticals(w.log)[w.arrived].sequence == w.arrived + 1
      && RefusedExactlyIfUnfit(l.session, l.peer, l.session.shown.value,
                               ReceiverRuns.Input(Criticals(w.log)[w.arrived], l.peer, nowMs))
  {
    hide Run, Initial, HandoffInv, LogInv, Fed, LineInv, Ordered, RefusedExactlyIfUnfit, ReceiverRuns.SessionInv;
    AlwaysSystemInv(start, events);
    var w := Run(start, events);
    HandoffHas(w.handoff);
    OursIsCommitted(w.handoff.runtime.handshake, w.handoff.line);
    LogIsOrdered(w.log, w.handoff.runtime);
    StampPrecedes(w.log, w.arrived);
    InputFeeds(w.log, w.handoff.line, w.arrived, nowMs);
  }

  /** The motion issued next is never stale: it is refused if and only if its point is off
      the display; otherwise it is applied at once if all input issued before has been, and
      waits if not, unless the injector fails. */
  lemma NextMotionIsFresh(start: System, events: seq<SystemEvent>, x: i32, y: i32, nowMs: u64)
    requires Initial(start)
    requires var h := Run(start, events).handoff;
      !h.runtime.router.gate.IsLocal() && !h.line.left && h.runtime.motionSequence < U64_MAX
    ensures var h := Run(start, events).handoff; var s := h.line.session;
      && h.runtime.NextMotion(x, y).1.Ok? && s.shown.Some?
      && var (out, disposition) := s.HandleMotion(h.runtime.NextMotion(x, y).1.value, h.line.peer, nowMs);
      && (out.error.Some? && out.error.value.Protocol? <==> s.shown.value.Map(x, y).Err?)
      && (out.error.Some? ==> out.error.value.Protocol? || out.error.value.Injector?)
      && (out.error.None? ==>
            disposition == if s.highestApplied == h.runtime.inputSequence then Receivers.MotionApplied
                           else Receivers.MotionBuffered)
  {
    hide Run, Initial, SystemInv, HandoffInv, ReceiverRuns.SessionInv, Receivers.SessionState.HandleMotion,
         Receivers.Display.Map;
    AppliedIsWhatArrived(start, events);
    AlwaysSystemInv(start, events);
    var h := Run(start, events).handoff;
    SystemHas(Run(start, events));
    ServesAController(h);
    FreshMotion(h.line.session, h.runtime.NextMotion(x, y).1.value, h.line.peer, nowMs);
  }

  lemma FreshMotion(s: Receivers.SessionState, frame: MotionFrame, peer: Receivers.Peer, nowMs: u64)
    requires ReceiverRuns.SessionInv(s) && s.binding == Some(peer) && peer.role == Handshakes.Controller
    requires s.active == Some(frame.sessionId) && frame.sequence > s.highestMotion
    requires s.shown.Some? && s.shown.value.id == frame.displayId && s.shown.value.revision == frame.layoutRevision
    ensures var (out, disposition) := s.HandleMotion(frame, peer, nowMs);
      && (out.error.Some? && out.error.value.Protocol? <==> s.shown.value.Map(frame.x, frame.y).Err?)
      && (out.error.Some? ==> out.error.value.Protocol? || out.error.value.Injector?)
      && (out.error.None? ==>
            disposition == if frame.requiredReliableSequence > s.highestApplied then Receivers.MotionBuffered
                           else Receivers.MotionApplied)
  {
    hide ReceiverRuns.Safe, Receivers.SessionState.ReleasePressed, Receivers.Display.Map;
  }

  // ----- from the hand to the machine

  /** What was done with success on the connection dialled last, told from the local calls
      and their outcome alone. */
  function Done(start: System, events: seq<SystemEvent>): seq<Deed> {
    if events == [] then []
    else
      var before := events[..|events| - 1];
      var h, e := Run(start, before).handoff, events[|events| - 1];
      if !e.Other? || Feeds(e.event, h.line.peer) then Done(start, before)
      else if Dialled(h, e.event) then []
      else Done(start, before) + DoneBy(h, e.event)
  }

  function DoneBy(h: Handoff, event: HandoffEvent): seq<Deed> {
    if event.Local? then DeedOf(event.event, RuntimeRuns.Step(h.runtime, event.event).error) else []
  }

  lemma MirrorsOn(w: System, e: SystemEvent, done: seq<Deed>)
    requires SystemInv(w) && Mirrors(w.log, done)
    ensures var h := w.handoff;
      Mirrors(Step(w, e).log,
              if !e.Other? || Feeds(e.event, h.line.peer) then done
              else if Dialled(h, e.event) then [] else done + DoneBy(h, e.event))
  {
    hide Mirrors, HandoffInv, LogInv, Handoffs.Step, IssueOf, DeedOf, RuntimeRuns.Step, Belongs, Fed;
    NothingMirrorsNothing();
    assert w.log + [] == w.log && done + [] == done;
    if e.Other? && !Feeds(e.event, w.handoff.line.peer) && !Dialled(w.handoff, e.event) && e.event.Local? {
      if e.event.event.Begin? || e.event.event.Control? {
        NothingDone(e.event.event, RuntimeRuns.Step(w.handoff.runtime, e.event.event).error);
      } else {
        MirrorStep(w.log, done, w.handoff.runtime, e.event.event);
      }
    }
  }

  lemma NothingDone(e: RuntimeRuns.RuntimeEvent, error: Option<RuntimeError>)
    requires e.Begin? || e.Control?
    ensures DeedOf(e, error) == []
  {
  }

  /** The log says, frame by frame, what was done. */
  lemma {:induction false} LogMirrorsDone(start: System, events: seq<SystemEvent>)
    requires Initial(start)
    ensures Mirrors(Run(start, events).log, Done(start, events))
  {
    hide Mirrors, SystemInv, Step, Initial, DoneBy;
    if events == [] {
      StartsWithNothing(start);
    } else {
      LogMirrorsDone(start, events[..|events| - 1]);
      AlwaysSystemInv(start, events[..|events| - 1]);
      MirrorsOn(Run(start, events[..|events| - 1]), events[|events| - 1], Done(start, events[..|events| - 1]));
    }
  }

  lemma StartsWithNothing(start: System)
    requires Initial(start)
    ensures Mirrors(start.log, [])
  {
    NothingMirrorsNothing();
  }

  /** Critical frame number c + 1 is that of stroke number c + 1. */
  lemma NthStroke(log: seq<Issue>, done: seq<Deed>, c: nat) returns (i: nat)
    requires Mirrors(log, done) && c < |Criticals(log)|
    ensures i < |done| && done[i].Struck? && StruckCount(done[..i]) == c
    ensures Conveys(Criticals(log)[c].event, done[i].event, MovedCount(done[..i]))
  {
    hide Conveys, StruckCount, MovedCount;
    i := CriticalPosition(log, c);
    forall j | 0 <= j < i ensures done[..i][..j] == done[..j] && log[..i][j] == log[j] {}
    MirrorsCounts(log[..i], done[..i]);
    assert IssuedFor(log[i], done[i], StruckCount(done[..i]), MovedCount(done[..i]));
  }

  lemma InjectsTheSame(s: Receivers.SessionState, sent: CriticalEvent, given: CriticalEvent, stamp: nat,
                       mine: seq<Receivers.InputCommand>, mid: Pressed.Ledger)
    requires Conveys(sent, given, stamp)
    ensures Injections.Injects(s, sent, mine, mid) <==> Injections.Injects(s, given, mine, mid)
  {
    hide Injections.Strokes, Injections.Clicks, Injections.MovesTo, Injections.HeldAt, Injections.Lands,
         Pressed.Buttons;
  }

  /** What a stroke comes to on the receiver's machine. */
  ghost predicate Reaches(s: Receivers.SessionState, frame: CriticalFrame, t: Receivers.SessionState,
                          stroke: CriticalEvent)
  {
    exists mine, mid ::
      Injections.Posts(s, frame, t, mine, mid) && Injections.Injects(s, stroke, mine, mid)
  }

  /** From end to end: when the n-th critical frame to arrive in an open session is taken,
      the receiver's machine is made to do what the n-th stroke on the connection was. */
  lemma StrokesReachTheMachine(start: System, events: seq<SystemEvent>, nowMs: u64) returns (i: nat)
    requires Initial(start)
    requires var w := Run(start, events); w.handoff.line.Ours() && w.arrived < |Criticals(w.log)|
    requires var w := Run(start, events); var l := w.handoff.line;
      l.session.HandleInput(Criticals(w.log)[w.arrived], l.peer, nowMs).error.None?
    ensures var w := Run(start, events); var l := w.handoff.line; var done := Done(start, events);
      var frame := Criticals(w.log)[w.arrived];
      && i < |done| && done[i].Struck? && StruckCount(done[..i]) == w.arrived == l.session.highestApplied
      && Reaches(l.session, frame, l.session.HandleInput(frame, l.peer, nowMs).state, done[i].event)
  {
    hide Run, Initial, HandoffInv, LogInv, LineInv, Mirrors, ReceiverRuns.SessionInv, Precede, Conveys, StruckCount,
         Receivers.SessionState.HandleInput, Injections.Posts, Injections.Injects;
    AlwaysSystemInv(start, events);
    LogMirrorsDone(start, events);
    var w := Run(start, events);
    var frame, l := Criticals(w.log)[w.arrived], w.handoff.line;
    HandoffHas(w.handoff);
    i := NthStroke(w.log, Done(start, events), w.arrived);
    var mine, mid := Injections.InputPosts(l.session, frame, l.peer, nowMs);
    PostsInject(l.session, frame, l.session.HandleInput(frame, l.peer, nowMs).state, mine, mid);
    InjectsTheSame(l.session, frame.event, Done(start, events)[i].event, MovedCount(Done(start, events)[..i]), mine,
        mid);
  }

  lemma PostsInject(s: Receivers.SessionState, frame: CriticalFrame, t: Receivers.SessionState,
                    mine: seq<Receivers.InputCommand>, mid: Pressed.Ledger)
    requires Injections.Posts(s, frame, t, mine, mid)
    ensures Injections.Injects(s, frame.event, mine, mid)
  {
    hide Injections.Injects, Injections.Follows;
  }

  lemma MotionDeed(log: seq<Issue>, done: seq<Deed>, m: MotionFrame) returns (i: nat)
    requires Mirrors(log, done) && m in Motions(log)
    ensures i < |done| && done[i] == Moved(m.x, m.y) && m.sequence == MovedCount(done[..i]) + 1
    ensures m.requiredReliableSequence == StruckCount(done[..i])
  {
    hide StruckCount, MovedCount;
    i := MotionPosition(log, m);
    assert IssuedFor(log[i], done[i], StruckCount(done[..i]), MovedCount(done[..i]));
  }

  /** A motion that is applied when it arrives moves the pointer to where the hand was:
      to the place of a movement on the connection, before which exactly the strokes were
      made that it waits for. */
  lemma MovementsReachTheMachine(start: System, events: seq<SystemEvent>, frame: MotionFrame, nowMs: u64)
    returns (i: nat)
    requires Initial(start)
    requires var w := Run(start, events); w.handoff.line.Ours() && frame in Motions(w.log)
    requires var l := Run(start, events).handoff.line;
      l.session.HandleMotion(frame, l.peer, nowMs).0.error.None?
      && l.session.HandleMotion(frame, l.peer, nowMs).1 == Receivers.MotionApplied
    ensures var s := Run(start, events).handoff.line.session; var done := Done(start, events);
      var t := s.HandleMotion(frame, Run(start, events).handoff.line.peer, nowMs).0.state;
      && i < |done| && done[i] == Moved(frame.x, frame.y) && frame.sequence == MovedCount(done[..i]) + 1
      && StruckCount(done[..i]) <= s.highestApplied
      && s.shown.Some? && s.injector.posted <= t.injector.posted
      && Injections.MovesPointer(s.shown.value, frame, s.pressed, t.injector.posted[|s.injector.posted|..], t.pressed)
  {
    hide Run, Initial, HandoffInv, LogInv, LineInv, Mirrors, ReceiverRuns.SessionInv, StruckCount,
         Injections.MovesPointer,
         Receivers.SessionState.ApplyMotion;
    AlwaysSystemInv(start, events);
    LogMirrorsDone(start, events);
    var w := Run(start, events);
    HandoffHas(w.handoff);
    i := MotionDeed(w.log, Done(start, events), frame);
    Injections.MotionMoves(w.handoff.line.session, frame, w.handoff.line.peer, nowMs);
  }
}
