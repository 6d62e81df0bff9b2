/** The lease of an open session: it ends for silence exactly when nothing was taken in it
    for the lease time, so that pings keep it and a silent one is over. */
module Leases {
  import opened Base
  import Clients
  import Handshakes
  import Inputs
  import Pressed
  import opened Receivers
  import opened ReceiverRuns

  /** A sign of life of the controller, told from the event and its outcome: a commit or a
      ping that was taken, an input that was accepted, a motion newer than the pointer's. */
  predicate IsSign(s: SessionState, e: SessionEvent, error: Option<SessionError>) {
    match e
    case Control(frame, _, _) => error.None? && (frame.Commit? || frame.Ping?)
    case Input(_, _, _) => error.None?
    case Motion(motion, _, _) => error.None? && motion.sequence > s.highestMotion
    case _ => false
  }

  function TimeOf(e: SessionEvent): u64 {
    match e
    case Control(_, _, now) => now
    case Input(_, _, now) => now
    case Motion(_, _, now) => now
    case Expire(now) => now
    case _ => 0
  }

  /** When the last sign of life came in the session that is open. */
  function LastSeen(start: SessionState, events: seq<SessionEvent>): Option<u64> {
    if events == [] then None
    else
      var before := events[..|events| - 1];
      var s, e := Run(start, before), events[|events| - 1];
      var out := Step(s, e);
      if out.state.active.None? then None
      else if IsSign(s, e, out.error) then Some(TimeOf(e))
      else LastSeen(start, before)
  }

  lemma CarryRenews(s: SessionState, frame: Inputs.CriticalFrame, ledger: Pressed.Ledger, commands: seq<InputCommand>,
                    nowMs: u64)
    ensures var out := s.Carry(frame, ledger, commands, nowMs);
      out.error.None? ==> out.state.lastActivity == Some(nowMs)
  {
    hide SessionState.FailInjection, Injected.Submit, Display.Map;
  }

  lemma InputRenews(s: SessionState, frame: Inputs.CriticalFrame, peer: Peer, nowMs: u64)
    ensures var out := s.HandleInput(frame, peer, nowMs); out.error.None? ==> out.state.lastActivity == Some(nowMs)
  {
    hide SessionState.Carry, Display.Map, Inputs.GateSide.Accept, Pressed.Ledger.Apply, Pressed.Ledger.UpdatePointer;
    var (gate', refused) := s.gate.Accept(frame);
    if frame.event.Key? {
      var out := s.pressed.Apply(frame.event.(keyCode := s.remap(frame.event.keyCode)));
      CarryRenews(s.(gate := gate'), frame, out.ledger, Acts(out.commands), nowMs);
    } else {
      var point := s.MapPointer(frame.event.x, frame.event.y);
      if point.Ok? {
        var (x, y) := point.value;
        var out := s.pressed.UpdatePointer(x, y).Apply(frame.event.(x := x, y := y));
        var moves := if frame.event.Scroll? then [MouseMove(x, y, DragOf(s.pressed))] else [];
        var commands := moves + Acts(out.commands);
        CarryRenews(s.(gate := gate'), frame, out.ledger,
                    if commands == [] then [MouseMove(x, y, DragOf(out.ledger))] else commands, nowMs);
      }
    }
  }

  /** A motion renews the lease if and only if it is newer than the pointer's, whether it
      is applied or waits. */
  lemma MotionRenews(s: SessionState, motion: Inputs.MotionFrame, peer: Peer, nowMs: u64)
    requires s.HandleMotion(motion, peer, nowMs).0.error.None?
    ensures s.HandleMotion(motion, peer, nowMs).0.state.lastActivity
         == if motion.sequence > s.highestMotion then Some(nowMs) else s.lastActivity
  {
    hide SessionState.FailInjection, Display.Map;
  }

  lemma SignStep(s: SessionState, e: SessionEvent)
    requires SessionInv(s) && Step(s, e).state.active.Some?
    ensures var out := Step(s, e);
      && (s.active.Some? ==>
            out.state.lastActivity == if IsSign(s, e, out.error) then Some(TimeOf(e)) else s.lastActivity)
      && (s.active.None? ==> IsSign(s, e, out.error) && out.state.lastActivity == Some(TimeOf(e)))
  {
    hide SessionInv, SessionState.HandleControl, SessionState.HandleInput, SessionState.HandleMotion,
         SessionState.UpdateDisplays, CarriedOn;
    StepGoes(s, e);
    match e
    case Input(frame, peer, now) =>
      InputOk(s, frame, peer, now);
      InputRenews(s, frame, peer, now);
    case Motion(motion, peer, now) =>
      MotionOk(s, motion, peer, now);
      if s.HandleMotion(motion, peer, now).0.error.None? { MotionRenews(s, motion, peer, now); }
    case _ =>
      if s.active.Some? { QuietIsUndisturbed(s, e); } else { OpensByCommit(s, e); }
  }

  lemma OpensByCommit(s: SessionState, e: SessionEvent)
    requires SessionInv(s) && s.active.None? && !e.Input? && !e.Motion? && Step(s, e).state.active.Some?
    ensures IsSign(s, e, Step(s, e).error) && Step(s, e).state.lastActivity == Some(TimeOf(e))
  {
    hide Safe, Injected.SubmitAll, SessionState.FirstFailure, Handshakes.CheckFrame, Inputs.GateSide.Activate,
         FindDisplay;
  }

  /** The runtime's clock is that of the last sign of life. */
  lemma {:induction false} ActivityIsLastSeen(start: SessionState, events: seq<SessionEvent>)
    requires Initial(start)
    ensures var s := Run(start, events);
      s.active.Some? ==> s.lastActivity.Some? && s.lastActivity == LastSeen(start, events)
  {
    hide SessionInv, Step, IsSign;
    if events != [] {
      var before, e := events[..|events| - 1], events[|events| - 1];
      ActivityIsLastSeen(start, before);
      AlwaysSessionInv(start, before);
      if Run(start, events).active.Some? { SignStep(Run(start, before), e); }
    }
  }

  /** An expiry check ends an open session if and only if the last sign of life is the
      lease time ago or more; otherwise it changes nothing. */
  lemma ExpiresExactlyWhenSilent(start: SessionState, events: seq<SessionEvent>, nowMs: u64)
    requires Initial(start) && Run(start, events).active.Some?
    ensures var s := Run(start, events); var t := Step(s, Expire(nowMs)).state;
      && LastSeen(start, events).Some?
      && (t.active.None? <==> nowMs - LastSeen(start, events).value >= INPUT_LEASE_TIMEOUT_MS)
      && (t.active.Some? ==> t == s)
  {
    hide SessionInv, Run, LastSeen, Initial;
    ActivityIsLastSeen(start, events);
    AlwaysSessionInv(start, events);
    var s := Run(start, events);
    Releasing(s.Leave(s.active.value).(fault := Some(LeaseExpired)));
  }

  lemma Releasing(s: SessionState)
    ensures s.ReleasePressed().state.active == s.active
  {
    hide Injected.SubmitAll, SessionState.FirstFailure;
  }

  // ----- signs one by one

  /** Event k is a sign of life in the session that is open at the end. */
  ghost predicate SignAt(start: SessionState, events: seq<SessionEvent>, k: nat)
    requires k < |events|
  {
    && IsSign(Run(start, events[..k]), events[k], Step(Run(start, events[..k]), events[k]).error)
    && forall j :: k < j <= |events| ==> Run(start, events[..j]).active.Some?
  }

  /** The clock never runs backwards. */
  ghost predicate Monotone(events: seq<SessionEvent>) {
    forall i, j :: 0 <= i < j < |events| && HasTime(events[i]) && HasTime(events[j]) ==>
      TimeOf(events[i]) <= TimeOf(events[j])
  }

  predicate HasTime(e: SessionEvent) { e.Control? || e.Input? || e.Motion? || e.Expire? }

  lemma SignStays(start: SessionState, events: seq<SessionEvent>, k: nat)
    requires k < |events| - 1 && Run(start, events).active.Some?
    ensures SignAt(start, events, k) <==> SignAt(start, events[..|events| - 1], k)
  {
    hide Run, Step, IsSign;
    var before := events[..|events| - 1];
    assert events[..|events|] == events;
    assert before[..k] == events[..k];
    if SignAt(start, before, k) {
      forall j | k < j <= |events| ensures Run(start, events[..j]).active.Some? {
        if j <= |before| { assert events[..j] == before[..j]; }
      }
    }
    if SignAt(start, events, k) {
      forall j | k < j <= |before| ensures Run(start, before[..j]).active.Some? { assert before[..j] == events[..j]; }
    }
  }

  /** The last of the signs gives the time, and there is one in every open session. */
  lemma {:induction false} LastSign(start: SessionState, events: seq<SessionEvent>) returns (k: nat)
    requires Initial(start) && Run(start, events).active.Some?
    ensures k < |events| && SignAt(start, events, k) && LastSeen(start, events) == Some(TimeOf(events[k]))
    ensures forall j :: k < j < |events| ==> !SignAt(start, events, j)
  {
    hide SessionInv, Step, IsSign, SignAt;
    assert events != [];
    var n := |events| - 1;
    var before, e := events[..n], events[n];
    AlwaysSessionInv(start, before);
    SignStep(Run(start, before), e);
    assert events[..n + 1] == events;
    if IsSign(Run(start, before), e, Step(Run(start, before), e).error) {
      k := n;
      assert SignAt(start, events, n) by { NewestSign(start, events); }
    } else {
      k := LastSign(start, before);
      SignStays(start, events, k);
      assert !SignAt(start, events, n) by { NewestSign(start, events); }
      forall j | k < j < |events| ensures !SignAt(start, events, j) {
        if j < n { SignStays(start, events, j); }
      }
    }
  }

  lemma NewestSign(start: SessionState, events: seq<SessionEvent>)
    requires events != [] && Run(start, events).active.Some?
    ensures var n := |events| - 1; var s := Run(start, events[..n]);
      SignAt(start, events, n) <==> IsSign(s, events[n], Step(s, events[n]).error)
  {
    hide Run, Step, IsSign;
    assert events[..|events|] == events;
  }

  /** On a clock that never runs backwards: an open session ends for silence if and only
      if none of the commit, the pings, the accepted inputs and the fresh motions handled
      in it came within the lease time before now. */
  lemma ExpiresExactlyWithoutSigns(start: SessionState, events: seq<SessionEvent>, nowMs: u64)
    requires Initial(start) && Run(start, events).active.Some? && Monotone(events + [Expire(nowMs)])
    ensures Step(Run(start, events), Expire(nowMs)).state.active.None? <==>
      forall k :: 0 <= k < |events| && SignAt(start, events, k) ==>
        nowMs - TimeOf(events[k]) >= INPUT_LEASE_TIMEOUT_MS
  {
    hide Run, Step, SignAt, Initial;
    ExpiresExactlyWhenSilent(start, events, nowMs);
    var last := LastSign(start, events);
    forall k | 0 <= k < |events| && SignAt(start, events, k)
      ensures TimeOf(events[k]) <= TimeOf(events[last])
    {
      SignIsTimed(start, events, k);
      SignIsTimed(start, events, last);
      var all := events + [Expire(nowMs)];
      assert k <= last && all[k] == events[k] && all[last] == events[last];
    }
  }

  lemma SignIsTimed(start: SessionState, events: seq<SessionEvent>, k: nat)
    requires k < |events| && SignAt(start, events, k)
    ensures HasTime(events[k])
  {
    hide Run, Step;
  }

  // ----- what keeps a session, and what does not

  /** Before event j, a ping was taken in the session that is open then, at most an
      interval earlier. */
  ghost predicate PingedInTime(start: SessionState, events: seq<SessionEvent>, j: nat)
    requires j < |events|
  {
    exists k :: 0 <= k < j && SignAt(start, events[..j], k) && events[k].Control? && events[k].frame.Ping?
                && TimeOf(events[j]) - TimeOf(events[k]) <= Clients.PING_INTERVAL_MS
  }

  /** A session that is pinged at least every interval never expires. */
  lemma PingedSessionNeverExpires(start: SessionState, events: seq<SessionEvent>)
    requires Initial(start) && Monotone(events)
    requires forall j :: 0 <= j < |events| && events[j].Expire? && Run(start, events[..j]).active.Some? ==>
      PingedInTime(start, events, j)
    ensures forall j :: 0 <= j < |events| && events[j].Expire? ==>
      Run(start, events[..j + 1]).active == Run(start, events[..j]).active
  {
    hide Run, Step, SignAt, Initial, PingedInTime, Monotone;
    forall j | 0 <= j < |events| && events[j].Expire?
      ensures Run(start, events[..j + 1]).active == Run(start, events[..j]).active
    {
      OneMore(start, events, j);
      if Run(start, events[..j]).active.Some? { PingedIsKept(start, events, j); }
      else { NothingExpires(Run(start, events[..j]), events[j].nowMs); }
    }
  }

  lemma OneMore(start: SessionState, events: seq<SessionEvent>, j: nat)
    requires j < |events|
    ensures Run(start, events[..j + 1]) == Step(Run(start, events[..j]), events[j]).state
  {
    hide Step;
    assert events[..j + 1][..j] == events[..j];
  }

  lemma PingedIsKept(start: SessionState, events: seq<SessionEvent>, j: nat)
    requires Initial(start) && Monotone(events) && j < |events| && events[j].Expire?
    requires Run(start, events[..j]).active.Some? && PingedInTime(start, events, j)
    ensures Step(Run(start, events[..j]), events[j]).state == Run(start, events[..j])
  {
    hide Run, Step, SignAt, Initial;
    var now := events[j].nowMs;
    var k :| 0 <= k < j && SignAt(start, events[..j], k) && events[k].Control? && events[k].frame.Ping?
             && TimeOf(events[j]) - TimeOf(events[k]) <= Clients.PING_INTERVAL_MS;
    SignIsTimed(start, events[..j], k);
    assert events[..j] + [Expire(now)] == events[..j + 1];
    assert Monotone(events[..j + 1]);
    ExpiresExactlyWithoutSigns(start, events[..j], now);
    ExpiresExactlyWhenSilent(start, events[..j], now);
    assert events[..j][k] == events[k];
  }

  lemma NothingExpires(s: SessionState, nowMs: u64)
    requires s.active.None?
    ensures Step(s, Expire(nowMs)).state == s
  {
    hide SessionState.ReleasePressed;
  }

  /** A session in which nothing is taken any more is over at the first expiry check after
      the lease, whatever else arrives meanwhile. */
  lemma SilentSessionExpires(start: SessionState, events: seq<SessionEvent>, i: nat, nowMs: u64)
    requires Initial(start) && i <= |events| && LastSeen(start, events[..i]).Some?
    requires forall j :: i <= j < |events| ==>
      !IsSign(Run(start, events[..j]), events[j], Step(Run(start, events[..j]), events[j]).error)
    requires nowMs >= LastSeen(start, events[..i]).value + INPUT_LEASE_TIMEOUT_MS
    ensures Step(Run(start, events), Expire(nowMs)).state.active.None?
  {
    hide Run, Step, IsSign, Initial, LastSeen;
    if Run(start, events).active.Some? {
      QuietKeepsTheClock(start, events, i, |events|);
      assert events[..|events|] == events;
      ExpiresExactlyWhenSilent(start, events, nowMs);
    } else {
      NothingExpires(Run(start, events), nowMs);
    }
  }

  lemma {:induction false} QuietKeepsTheClock(start: SessionState, events: seq<SessionEvent>, i: nat, n: nat)
    requires Initial(start) && i <= n <= |events|
    requires forall j :: i <= j < n ==>
      !IsSign(Run(start, events[..j]), events[j], Step(Run(start, events[..j]), events[j]).error)
    ensures LastSeen(start, events[..n]).Some? ==> LastSeen(start, events[..n]) == LastSeen(start, events[..i])
    decreases n
  {
    hide Run, Step, IsSign, Initial;
    if i < n {
      QuietKeepsTheClock(start, events, i, n - 1);
      assert events[..n][..n - 1] == events[..n - 1];
    }
  }
}
