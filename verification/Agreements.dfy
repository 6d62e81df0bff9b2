/** What stands behind an open session on the controller's side: it was asked for, the peer
    said it was ready for just that, and it acknowledged just that session. */
module Agreements {
  import opened Base
  import Gates
  import Routing
  import RouterRuns
  import opened Handshakes
  import opened Runtime
  import opened RuntimeRuns
  import Clients

  /** The peer, display and revision of the handoff asked for last. */
  function AskedFor(start: RuntimeState, events: seq<RuntimeEvent>): Option<Clients.Target> {
    if events == [] then None
    else
      var before, e := events[..|events| - 1], events[|events| - 1];
      var s := RuntimeRuns.Run(start, before);
      if e.Begin? && s.CanBegin() && RuntimeRuns.Step(s, e).error.None?
      then Some(Clients.Target(e.peer, e.display, e.revision))
      else AskedFor(start, before)
  }

  /** The last frame of the peer that was taken as its answer to a preparation. */
  function ReadyHeard(start: RuntimeState, events: seq<RuntimeEvent>): Option<Frame> {
    if events == [] then None
    else
      var before, e := events[..|events| - 1], events[|events| - 1];
      if e.Control? && e.frame.Ready? && RuntimeRuns.Step(RuntimeRuns.Run(start, before), e).error.None?
      then Some(e.frame)
      else ReadyHeard(start, before)
  }

  /** The session that the peer acknowledged last. */
  function AckHeard(start: RuntimeState, events: seq<RuntimeEvent>): Option<SessionId> {
    if events == [] then None
    else
      var before, e := events[..|events| - 1], events[|events| - 1];
      if e.Control? && e.frame.CommitAck? && RuntimeRuns.Step(RuntimeRuns.Run(start, before), e).error.None?
      then Some(e.frame.sessionId)
      else AckHeard(start, before)
  }

  /** The peer can take input on the display that was asked for. */
  predicate Answers(ready: Option<Frame>, asked: Option<Clients.Target>, boot: Id128) {
    && asked.Some? && ready.Some? && ready.value.Ready? && ready.value.inputReady
    && ready.value.targetDisplay == asked.value.display && ready.value.layoutRevision == asked.value.revision
    && ready.value.receiverBoot == boot
  }

  ghost predicate Agreed(s: RuntimeState, asked: Option<Clients.Target>, ready: Option<Frame>,
                         acked: Option<SessionId>)
  {
    && (!s.router.route.Local() ==>
          && asked.Some? && (s.router.route.PreparingRemote? || s.router.route.RemoteActive?)
          && s.router.route.peer == asked.value.peerId
          && s.display == Some((asked.value.display, asked.value.revision)))
    && match s.handshake.state
       case Prepared(_, session) => Answers(ready, asked, session.receiverBoot)
       case AwaitCommitAck(session) => Answers(ready, asked, session.receiverBoot)
       case Active(session) => Answers(ready, asked, session.receiverBoot) && acked == Some(session)
       case _ => true
  }

  lemma LocalAgrees(s: RuntimeState, asked: Option<Clients.Target>, ready: Option<Frame>, acked: Option<SessionId>)
    requires Coupled(s) && s.router.route.Local()
    ensures Agreed(s, asked, ready, acked)
  {
    hide RouterRuns.RouterOk, Answers;
  }

  lemma BeginAgrees(s: RuntimeState, e: RuntimeEvent, asked: Option<Clients.Target>, ready: Option<Frame>,
                    acked: Option<SessionId>)
    requires Coupled(s) && e.Begin? && Agreed(s, asked, ready, acked)
    ensures Agreed(RuntimeRuns.Step(s, e).state,
                   if s.CanBegin() && RuntimeRuns.Step(s, e).error.None?
                   then Some(Clients.Target(e.peer, e.display, e.revision)) else asked, ready, acked)
  {
    hide RouterRuns.RouterOk, Answers, ValidText, Gates.Gate.Hooked, Gates.Gate.Reserve, Gates.Gate.RequestLocal, Agree;
    BeginCoupled(s, e.peer, e.display, e.revision, e.nowMs, e.env);
    var t := RuntimeRuns.Step(s, e).state;
    if s.CanBegin() {
      if t.router.route.Local() { LocalAgrees(t, Some(Clients.Target(e.peer, e.display, e.revision)), ready, acked); }
      if t.router.route.Local() { LocalAgrees(t, asked, ready, acked); }
    }
  }

  lemma ReadyAgrees(s: RuntimeState, e: RuntimeEvent, asked: Option<Clients.Target>, ready: Option<Frame>,
                    acked: Option<SessionId>)
    requires Coupled(s) && e.Control? && e.frame.Ready? && Agreed(s, asked, ready, acked)
    ensures Agreed(RuntimeRuns.Step(s, e).state, asked,
                   if RuntimeRuns.Step(s, e).error.None? then Some(e.frame) else ready, acked)
  {
    hide RouterRuns.RouterOk, ValidText, Gates.Gate.Hooked, Gates.Gate.RequestLocal, CheckFrame;
    ReadyCoupled(s, e.frame, e.nowMs, e.env);
    var reply := RuntimeRuns.Step(s, e);
    if reply.error.Some? {
      hide RuntimeState.HandleControl, Agreed;
      LocalAgrees(reply.state, asked, ready, acked);
    }
  }

  lemma AckAgrees(s: RuntimeState, e: RuntimeEvent, asked: Option<Clients.Target>, ready: Option<Frame>,
                  acked: Option<SessionId>)
    requires Coupled(s) && e.Control? && e.frame.CommitAck? && Agreed(s, asked, ready, acked)
    ensures Agreed(RuntimeRuns.Step(s, e).state, asked, ready,
                   if RuntimeRuns.Step(s, e).error.None? then Some(e.frame.sessionId) else acked)
  {
    hide RouterRuns.RouterOk, ValidText, Gates.Gate.Hooked, Gates.Gate.RequestLocal, Gates.Gate.Activate, CheckFrame;
    AckCoupled(s, e.frame, e.nowMs, e.env);
    var reply := RuntimeRuns.Step(s, e);
    if reply.state.router.route.Local() {
      LocalAgrees(reply.state, asked, ready, acked);
      LocalAgrees(reply.state, asked, ready, Some(e.frame.sessionId));
    }
  }

  lemma OtherFramesAgree(s: RuntimeState, e: RuntimeEvent, asked: Option<Clients.Target>, ready: Option<Frame>,
                         acked: Option<SessionId>)
    requires Coupled(s) && e.Control? && !e.frame.Ready? && !e.frame.CommitAck? && Agreed(s, asked, ready, acked)
    ensures Agreed(RuntimeRuns.Step(s, e).state, asked, ready, acked)
  {
    hide RouterRuns.RouterOk, ValidText, Gates.Gate.Hooked, Gates.Gate.RequestLocal, CheckFrame, Answers;
    ControlCoupled(s, e.frame, e.nowMs, e.env);
    var t := RuntimeRuns.Step(s, e).state;
    if t.router.route.Local() { LocalAgrees(t, asked, ready, acked); }
  }

  /** An advance that stays away from home stays with its peer, and commits at most. */
  lemma AdvanceStaysAway(s: Routing.RouterState, nowMs: u64, keysReleased: bool, answers: Routing.Answers,
                         hooks: Routing.Hooks)
    ensures var out := s.Advance(nowMs, keysReleased, answers, hooks);
      !out.state.route.Local() ==>
        && (s.route.PreparingRemote? && out.state.route.PreparingRemote? ==> out.state.route.peer == s.route.peer)
        && (s.route.PreparingRemote? <==> out.state.route.PreparingRemote?)
        && (!s.route.PreparingRemote? ==> out.state.route == s.route)
        && (out.effects == [] || (|out.effects| == 1 && out.effects[0].Commit?))
  {
    hide ValidText, Gates.Gate.Hooked, Gates.Gate.RequestLocal, Routing.RouterState.GiveUp;
  }

  lemma CommitKeepsTheRest(s: RuntimeState, effect: Routing.RouteEffect)
    requires effect.Commit?
    ensures var t := s.OneEffect(effect).state;
      && t.router == s.router && t.display == s.display
      && (t.handshake == s.handshake
          || (s.handshake.state.Prepared? && t.handshake.state == AwaitCommitAck(s.handshake.state.sessionId)))
  {
  }

  lemma AdvanceAgrees(s: RuntimeState, e: RuntimeEvent, asked: Option<Clients.Target>, ready: Option<Frame>,
                      acked: Option<SessionId>)
    requires Coupled(s) && e.Advance? && Agreed(s, asked, ready, acked)
    ensures Agreed(RuntimeRuns.Step(s, e).state, asked, ready, acked)
  {
    hide Coupled, RuntimeState.RouteEffects, RuntimeState.OneEffect, Answers, Routing.RouterState.Advance;
    AdvanceCoupled(s, e.nowMs, e.keysReleased, e.env);
    AdvanceStaysAway(s.router, e.nowMs, e.keysReleased, e.env.answers, e.env.hooks);
    var out := s.router.Advance(e.nowMs, e.keysReleased, e.env.answers, e.env.hooks);
    var u := s.(router := out.state);
    var effect := if out.effects == [] then Routing.Cancel(0) else out.effects[0];
    OneEffectAlone(u, effect);
    var t := RuntimeRuns.Step(s, e).state;
    CoupledAfter(s, e);
    if t.router.route.Local() {
      LocalAgrees(t, asked, ready, acked);
    } else if out.state.route.Local() {
      EffectsKeepTheRouter(u, out.effects);
    } else if out.effects != [] {
      assert out.effects == [effect];
      CommitKeepsTheRest(u, effect);
    }
  }

  lemma {:induction false} EffectsKeepTheRouter(s: RuntimeState, effects: seq<Routing.RouteEffect>)
    ensures forall done :: s.RouteEffects(effects, done).state.router == s.router
    decreases |effects|
  {
    forall done ensures s.RouteEffects(effects, done).state.router == s.router {
      if effects != [] {
        assert s.OneEffect(effects[0]).state.router == s.router;
        EffectsKeepTheRouter(s.OneEffect(effects[0]).state, effects[1..]);
      }
    }
  }

  lemma StepAgrees(s: RuntimeState, e: RuntimeEvent, asked: Option<Clients.Target>, ready: Option<Frame>,
                   acked: Option<SessionId>)
    requires Coupled(s) && Agreed(s, asked, ready, acked)
    ensures var reply := RuntimeRuns.Step(s, e);
      Agreed(reply.state,
             if e.Begin? && s.CanBegin() && reply.error.None?
             then Some(Clients.Target(e.peer, e.display, e.revision)) else asked,
             if e.Control? && e.frame.Ready? && reply.error.None? then Some(e.frame) else ready,
             if e.Control? && e.frame.CommitAck? && reply.error.None? then Some(e.frame.sessionId) else acked)
  {
    hide Coupled, RuntimeState.HandleControl, RuntimeState.Begin, RuntimeState.Advance, RuntimeState.GoLocal,
         Gates.Gate.Hooked, Answers;
    match e
    case Begin(_, _, _, _, _) => BeginAgrees(s, e, asked, ready, acked);
    case Control(frame, now, env) =>
      if frame.Ready? { ReadyAgrees(s, e, asked, ready, acked); }
      else if frame.CommitAck? { AckAgrees(s, e, asked, ready, acked); }
      else { OtherFramesAgree(s, e, asked, ready, acked); }
    case Advance(_, _, _) => AdvanceAgrees(s, e, asked, ready, acked);
    case GoLocal(reason, count) =>
      GoLocalCoupled(s, reason, count);
      CoupledAfter(s, e);
      LocalAgrees(RuntimeRuns.Step(s, e).state, asked, ready, acked);
    case _ =>
  }

  lemma CoupledAfter(s: RuntimeState, e: RuntimeEvent)
    requires Coupled(s)
    ensures Coupled(RuntimeRuns.Step(s, e).state)
  {
    hide Coupled, RuntimeRuns.Step;
    StepCoupled(s, e);
  }

  lemma {:induction false} AlwaysAgreed(start: RuntimeState, events: seq<RuntimeEvent>)
    requires RuntimeRuns.Initial(start)
    ensures Agreed(RuntimeRuns.Run(start, events), AskedFor(start, events), ReadyHeard(start, events), AckHeard(start,
        events))
  {
    hide Coupled, Agreed, RuntimeRuns.Step;
    if events == [] {
      AlwaysCoupled(start, []);
      StartsLocal(start);
      LocalAgrees(start, None, None, None);
    } else {
      var before, e := events[..|events| - 1], events[|events| - 1];
      AlwaysAgreed(start, before);
      AlwaysCoupled(start, before);
      StepAgrees(RuntimeRuns.Run(start, before), e, AskedFor(start, before), ReadyHeard(start, before),
          AckHeard(start, before));
    }
  }

  lemma StartsLocal(start: RuntimeState)
    requires RuntimeRuns.Initial(start)
    ensures start.router.route.Local() && RuntimeRuns.Run(start, []) == start
  {
  }

  /** An open session is with the peer asked for last; that peer said it can take input on
      the display and revision asked for, from the boot that the session names; and it
      acknowledged this very session. */
  lemma ActiveMeansAnswered(start: RuntimeState, events: seq<RuntimeEvent>)
    requires RuntimeRuns.Initial(start) && RuntimeRuns.Run(start, events).IsActive()
    ensures var s := RuntimeRuns.Run(start, events); var session := s.handshake.state.sessionId;
      && session.controllerBoot == start.handshake.localBoot && session.nonce != 0
      && Answers(ReadyHeard(start, events), AskedFor(start, events), session.receiverBoot)
      && AckHeard(start, events) == Some(session)
      && s.router.route.RemoteActive? && s.router.route.peer == AskedFor(start, events).value.peerId
      && s.display == Some((AskedFor(start, events).value.display, AskedFor(start, events).value.revision))
  {
    hide RuntimeRuns.Run, RuntimeRuns.Initial, RouterRuns.RouterOk, AskedFor, ReadyHeard, AckHeard;
    AlwaysCoupled(start, events);
    AlwaysAgreed(start, events);
  }
}
