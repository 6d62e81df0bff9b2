/** Errors of an open session that end nothing, as runs: a click before the first motion,
    and what happens when the numbers of pings, keys or motions are used up. */
module LastNumbers {
  import opened Base
  import Handshakes
  import Inputs
  import opened Runtime
  import opened Clients
  import opened ClientRuns
  import opened SecondAcks

  const LatePoll := Poll(U64_MAX, true, Willing, [])

  /** A handoff, then n times the same call. */
  function Repeating(e: ClientEvent, n: nat): seq<ClientEvent> { DoubleAck[..5] + seq(n, _ => e) }

  lemma RepeatingMore(e: ClientEvent, n: nat)
    ensures Run(FirstBoot, Repeating(e, n + 1)) == Step(Run(FirstBoot, Repeating(e, n)), e).state
    ensures Repeating(e, 0) == DoubleAck[..5]
  {
    hide Step;
    assert Repeating(e, n + 1)[..n + 5] == Repeating(e, n);
  }

  /** The open session after its first n pings, on a transport that takes everything. */
  ghost predicate Pinged(s: ClientState, n: nat) {
    && s.inbound == [] && !s.overflowed && s.wire.connected && IsLucky(s)
    && s.runtime.router.route.RemoteActive? && s.runtime.router.gate.word == 2
    && s.runtime.handshake.state == Handshakes.Active(Agreed) && s.runtime.handshake.pingSequence == n
  }

  lemma PollsNothing(s: ClientState)
    requires s.inbound == [] && !s.overflowed
    ensures s.Poll(U64_MAX, true, Willing, []) == s.AdvanceNow(U64_MAX, true, Willing)
  {
    hide ClientState.AdvanceNow;
  }

  lemma RestsLate(s: RuntimeState)
    requires s.router.route.RemoteActive? && s.router.gate.word == 2
    ensures s.Advance(U64_MAX, true, CalmEnv) == Reply(s, [], None)
  {
  }

  lemma PingsOnce(s: ClientState, n: nat)
    requires Pinged(s, n) && n <= U64_MAX
    ensures var r := Step(s, LatePoll);
      if n < U64_MAX then r.error.None? && Pinged(r.state, n + 1)
      else r.error == Some(ExhaustedPing) && Pinged(r.state, n)
  {
    hide ClientState.Poll, RuntimeState.Advance;
    PollsNothing(s);
    RestsLate(s.runtime);
    var t := s.Draw();
    assert s.NextEnv(Willing) == CalmEnv;
    assert t.Apply([]) == ClientReply(t, None);
    assert s.AdvanceNow(U64_MAX, true, Willing) == t.PollPing(U64_MAX);
    PingsNow(t, n);
  }

  lemma PingsNow(s: ClientState, n: nat)
    requires Pinged(s, n) && n <= U64_MAX
    ensures var r := s.PollPing(U64_MAX);
      if n < U64_MAX then r.error.None? && Pinged(r.state, n + 1)
      else r.error == Some(ExhaustedPing) && Pinged(r.state, n)
  {
    hide ClientState.Apply;
    var ping := s.runtime.Ping();
    LuckySends(s.(nextPing := Some(Due(s, U64_MAX)), runtime := ping.state), ping.actions);
  }

  lemma {:induction false} PingsOnAndOn(n: nat)
    requires n <= U64_MAX
    ensures Pinged(Run(FirstBoot, Repeating(LatePoll, n)), n)
  {
    hide ClientState.Poll, Run, Step;
    if n == 0 {
      RepeatingMore(LatePoll, 0);
      SessionOpens();
    } else {
      PingsOnAndOn(n - 1);
      RepeatingMore(LatePoll, n - 1);
      PingsOnce(Run(FirstBoot, Repeating(LatePoll, n - 1)), n - 1);
    }
  }

  /** After the last ping number a poll fails, and nothing ends: the machine stays remote
      in a session that stays open, on a transport that is still there. */
  lemma LastPingLeavesTheSessionOpen()
    ensures Initial(FirstBoot)
    ensures var r := Step(Run(FirstBoot, Repeating(LatePoll, U64_MAX)), LatePoll);
      && r.error == Some(ExhaustedPing)
      && r.state.runtime.IsActive() && r.state.wire.connected && !r.state.runtime.router.gate.IsLocal()
  {
    hide ClientState.Poll, Run, Step;
    SecondAckLeavesTheGateRemote();
    PingsOnAndOn(U64_MAX);
    PingsOnce(Run(FirstBoot, Repeating(LatePoll, U64_MAX)), U64_MAX);
  }

  // ----- sending input

  const KeyDown := Inputs.CriticalEvent.Key(65, 0, false, true)

  /** The open session after so many keys and motions, on a transport that takes everything. */
  ghost predicate Sending(s: ClientState, keys: nat, motions: nat) {
    && s.wire.connected && s.wire.inputOpen && IsLucky(s) && !s.runtime.router.gate.IsLocal()
    && s.runtime.handshake.state == Handshakes.Active(Agreed) && s.runtime.display == Some(("mac-main", 1))
    && s.runtime.inputSequence == keys && s.runtime.motionSequence == motions
  }

  lemma Sends(s: ClientState, keys: nat, motions: nat)
    requires Sending(s, keys, motions)
    ensures keys < U64_MAX ==>
      var r := s.SendInput(KeyDown); r.error.None? && Sending(r.state, keys + 1, motions)
    ensures motions < U64_MAX ==>
      var r := s.SendMotion(1, 1); r.error.None? && Sending(r.state, keys, motions + 1)
  {
    hide ValidText, ClientState.FailTransport;
    PlainTextIsValid("mac-main", Handshakes.MAX_PEER_ID_BYTES);
  }

  lemma {:induction false} SendsOnAndOn(n: nat)
    requires n <= U64_MAX
    ensures Sending(Run(FirstBoot, Repeating(SendInput(KeyDown), n)), n, 0)
    ensures Sending(Run(FirstBoot, Repeating(SendMotion(1, 1), n)), 0, n)
  {
    hide ClientState.SendInput, ClientState.SendMotion, Run;
    if n == 0 {
      RepeatingMore(SendInput(KeyDown), 0);
      RepeatingMore(SendMotion(1, 1), 0);
      SessionOpens();
    } else {
      SendsOnAndOn(n - 1);
      RepeatingMore(SendInput(KeyDown), n - 1);
      RepeatingMore(SendMotion(1, 1), n - 1);
      Sends(Run(FirstBoot, Repeating(SendInput(KeyDown), n - 1)), n - 1, 0);
      Sends(Run(FirstBoot, Repeating(SendMotion(1, 1), n - 1)), 0, n - 1);
    }
  }

  /** The call fails with this error, and session, transport and remote gate stay. */
  ghost predicate FailsInTheSession(events: seq<ClientEvent>, e: ClientEvent, error: RuntimeError) {
    var s := Run(FirstBoot, events);
    && Step(s, e) == ClientReply(s, Some(RuntimeFailed(error)))
    && s.runtime.IsActive() && s.wire.connected && s.wire.inputOpen && !s.runtime.router.gate.IsLocal()
  }

  /** A click or a scroll right after the handoff, before the pointer has moved. */
  lemma ClickBeforeTheFirstMotion(event: Inputs.CriticalEvent)
    requires !event.Key?
    ensures FailsInTheSession(DoubleAck[..5], SendInput(event),
                              Protocol(Handshakes.InvalidField("motion_sequence")))
  {
    hide Run;
    SessionOpens();
  }

  /** The input or the motion after the last number of its stream. */
  lemma NumbersRunOut(event: Inputs.CriticalEvent, x: i32, y: i32)
    requires event.Key?
    ensures FailsInTheSession(Repeating(SendInput(KeyDown), U64_MAX), SendInput(event),
                              Protocol(Handshakes.InvalidField("sequence")))
    ensures FailsInTheSession(Repeating(SendMotion(1, 1), U64_MAX), SendMotion(x, y),
                              Protocol(Handshakes.InvalidField("motion_sequence")))
  {
    hide Run;
    SendsOnAndOn(U64_MAX);
  }
}
