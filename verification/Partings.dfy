/** The ways in which the receiver's handshake and its session part, as runs: a release
    fails when a session expires, and the next commit arrives while that key is still held;
    a commit names the session that ended last; or a preparation that the handshake refuses
    changes the display that the session will be on. */
module Partings {
  import opened Base
  import Routing
  import opened Handshakes
  import opened Inputs
  import opened Pressed
  import opened Receivers
  import ReceiverRuns

  const Desk := Peer("windows", Controller, 1)
  const Screen := Display("main", 1, 100, 100, 0, 0, 100, 100)
  const First := SessionId(1, 2, 7)
  const Second := SessionId(1, 2, 8)
  const Same: u16 -> u16 := (key: u16) => key

  /** The third call into the injector fails, every other one works. */
  const ThirdFails: nat -> Option<PortError> := (n: nat) => if n == 2 then Some(Routing.Unavailable) else None

  const Greeting := Hello(1, "windows", Controller, REQUIRED_CAPABILITIES)
  const KeyDown := CriticalFrame(First, 1, Key(65, 0, false, true))

  const Handover: seq<ReceiverRuns.SessionEvent> := [
    ReceiverRuns.Control(Greeting, Desk, 0),
    ReceiverRuns.Control(Prepare(3, "main", 1), Desk, 1),
    ReceiverRuns.Control(Commit(3, First), Desk, 2),
    ReceiverRuns.Input(KeyDown, Desk, 3),
    ReceiverRuns.Expire(3003),
    ReceiverRuns.Control(Prepare(5, "main", 1), Desk, 4000),
    ReceiverRuns.Control(Commit(5, Second), Desk, 4001)]

  /** The second preparation ends in a commit of the first session. */
  const Revival: seq<ReceiverRuns.SessionEvent> := Handover[..3] + [
    ReceiverRuns.Control(EndSession(First, "user"), Desk, 3),
    ReceiverRuns.Control(Prepare(5, "main", 1), Desk, 4),
    ReceiverRuns.Control(Commit(5, First), Desk, 5)]

  // ----- the states in between

  const Booted := InitialSession(2, [Screen], Same, ThirdFails)

  const Bound := Booted.Bind(Desk, ReceiverSide("windows", 2, Greeted(1)))

  const Offered := Bound.(handshake := Some(ReceiverSide("windows", 2, PreparedFor(1, 3))), prepared := Some(Screen),
                          injector := Booted.injector.(drawn := 1))

  const Open := Offered.(handshake := Some(ReceiverSide("windows", 2, InSession(First))), prepared := None,
                         shown := Some(Screen), active := Some(First), lastActivity := Some(2),
                         gate := GateSide(2, Some(Stream(First, 1)), None))

  const Holding := Open.(gate := GateSide(2, Some(Stream(First, 2)), None), highestApplied := 1,
                         lastActivity := Some(3), pressed := Ledger([HeldKey(VirtualKey(65), 65)], []),
                         injector := Injected([Act(KeyStroke(65, true))], Machine({65}, {}), 2, ThirdFails))

  const Owing := Holding.(gate := GateSide(2, None, Some(First)), active := None, lastActivity := None,
                          handshake := Some(ReceiverSide("windows", 2, Over(First))),
                          fault := Some(ReleaseFailed(Routing.Unavailable)),
                          injector := Holding.injector.(drawn := 3))

  const OfferedAgain := Owing.(handshake := Some(ReceiverSide("windows", 2, PreparedFor(1, 5))),
                               prepared := Some(Screen), injector := Owing.injector.(drawn := 4))

  const Ahead := OfferedAgain.(handshake := Some(ReceiverSide("windows", 2, InSession(Second))))

  const Ended := Open.(handshake := Some(ReceiverSide("windows", 2, Over(First))), active := None, shown := None,
                       lastActivity := None, gate := GateSide(2, None, Some(First)))

  const Reoffered := Ended.(handshake := Some(ReceiverSide("windows", 2, PreparedFor(1, 5))), prepared := Some(Screen),
                            injector := Booted.injector.(drawn := 2))

  const Revived := Reoffered.(handshake := Some(ReceiverSide("windows", 2, InSession(First))))

  // ----- step by step

  lemma TextsAreValid()
    ensures ValidText("windows", MAX_PEER_ID_BYTES) && ValidText("main", MAX_PEER_ID_BYTES)
    ensures ValidText("control_v2", MAX_CAPABILITY_BYTES) && ValidText("input_v2", MAX_CAPABILITY_BYTES)
  {
    PlainTextIsValid("windows", MAX_PEER_ID_BYTES);
    PlainTextIsValid("main", MAX_PEER_ID_BYTES);
    PlainTextIsValid("control_v2", MAX_CAPABILITY_BYTES);
    PlainTextIsValid("input_v2", MAX_CAPABILITY_BYTES);
  }

  lemma NothingToRelease(s: SessionState)
    requires s.pressed == Ledger([], [])
    ensures s.ReleasePressed() == After(s, None)
  {
    assert Acts([]) == [];
    assert s.pressed.ReleaseAll().commands == [];
  }

  lemma Greets()
    ensures ReceiverRuns.Step(Booted, Handover[0]) == After(Bound, None)
  {
    hide ValidText, SessionState.ReleasePressed;
    TextsAreValid();
    NothingToRelease(Booted);
    assert REQUIRED_CAPABILITIES[0] == "control_v2" && REQUIRED_CAPABILITIES[1] == "input_v2";
    assert CheckFrame(Greeting).None?;
  }

  lemma Prepares()
    ensures ReceiverRuns.Step(Bound, Handover[1]) == After(Offered, None)
  {
    hide ValidText;
    TextsAreValid();
    assert FindDisplay([Screen], "main", 1) == Some(Screen);
  }

  lemma Opens()
    ensures ReceiverRuns.Step(Offered, Handover[2]) == After(Open, None)
  {
  }

  lemma Presses()
    ensures ReceiverRuns.Step(Open, Handover[3]) == After(Holding, None)
  {
    var out := Ledger([], []).Apply(Key(65, 0, false, true));
    assert out == Applied(Ledger([HeldKey(VirtualKey(65), 65)], []), [KeyStroke(65, true)]);
    assert Acts(out.commands) == [Act(KeyStroke(65, true))];
    var (posted, failure) := Open.injector.Submit([Act(KeyStroke(65, true))]);
    assert posted == Holding.injector && failure.None?;
  }

  lemma Expires()
    ensures ReceiverRuns.Step(Holding, Handover[4]) == After(Owing, Some(Injector(Routing.Unavailable)))
  {
    var left := Holding.Leave(First).(fault := Some(LeaseExpired));
    var commands := left.pressed.ReleaseAll().commands;
    assert commands == [KeyStroke(65, false)];
    assert Acts(commands) == [Act(KeyStroke(65, false))];
    var released := [Act(KeyStroke(65, false))];
    assert released[1..] == [];
    assert left.injector.Post(released[0]) == (Owing.injector, Some(Routing.Unavailable));
    assert left.injector.SubmitAll(released, None) == (Owing.injector, Some(Routing.Unavailable));
    assert FirstOf(left.injector, released) == Some(Routing.Unavailable);
    assert left.ReleasePressed() == After(Owing, Some(Injector(Routing.Unavailable)));
  }

  lemma PreparesAgain()
    ensures ReceiverRuns.Step(Owing, Handover[5]) == After(OfferedAgain, None)
  {
    hide ValidText;
    TextsAreValid();
    assert FindDisplay([Screen], "main", 1) == Some(Screen);
  }

  lemma RefusesToOpen()
    ensures ReceiverRuns.Step(OfferedAgain, Handover[6]) == After(Ahead, Some(Protocol(InvalidTransition)))
  {
  }

  lemma Ends()
    ensures ReceiverRuns.Step(Open, Revival[3]) == After(Ended, None)
  {
    hide ValidText, SessionState.ReleasePressed;
    PlainTextIsValid("user", MAX_DETAIL_BYTES);
    NothingToRelease(Ended);
  }

  lemma Reoffers()
    ensures ReceiverRuns.Step(Ended, Revival[4]) == After(Reoffered, None)
  {
    hide ValidText;
    TextsAreValid();
    assert FindDisplay([Screen], "main", 1) == Some(Screen);
  }

  lemma RefusesToReopen()
    ensures ReceiverRuns.Step(Reoffered, Revival[5]) == After(Revived, Some(Protocol(WrongSession)))
  {
  }

  lemma RunStarts()
    ensures ReceiverRuns.Run(Booted, Handover[..0]) == Booted
    ensures ReceiverRuns.Held(Ahead.injector.posted) == Machine({65}, {})
  {
    ReceiverRuns.HeldMore([], Act(KeyStroke(65, true)));
    assert Ahead.injector.posted == [] + [Act(KeyStroke(65, true))];
  }

  lemma RunStep(start: SessionState, events: seq<ReceiverRuns.SessionEvent>, k: nat)
    requires k < |events|
    ensures ReceiverRuns.Run(start, events[..k + 1])
         == ReceiverRuns.Step(ReceiverRuns.Run(start, events[..k]), events[k]).state
  {
    hide ReceiverRuns.Step;
    assert events[..k + 1][..k] == events[..k];
  }

  /** A reachable parting: the handshake is in the second session, the runtime is in none,
      and the key of the first one is still down. */
  lemma HandshakeGetsAhead()
    ensures ReceiverRuns.Initial(Booted)
    ensures var s := ReceiverRuns.Run(Booted, Handover);
      && s.handshake == Some(ReceiverSide("windows", 2, InSession(Second))) && s.active.None?
      && ReceiverRuns.Held(s.injector.posted) == Machine({65}, {})
    ensures ReceiverRuns.Step(ReceiverRuns.Run(Booted, Handover[..6]), Handover[6]).error
         == Some(Protocol(InvalidTransition))
  {
    hide ReceiverRuns.Step, ReceiverRuns.Run;
    Greets(); Prepares(); Opens(); Presses(); Expires(); PreparesAgain(); RefusesToOpen();
    RunStarts();
    RunStep(Booted, Handover, 0);
    RunStep(Booted, Handover, 1);
    RunStep(Booted, Handover, 2);
    RunStep(Booted, Handover, 3);
    RunStep(Booted, Handover, 4);
    RunStep(Booted, Handover, 5);
    RunStep(Booted, Handover, 6);
    assert Handover[..7] == Handover;
  }

  /** The other one: nothing is held, but the commit names the session that ended last. */
  lemma HandshakeRevivesASession()
    ensures var s := ReceiverRuns.Run(Booted, Revival);
      && s.handshake == Some(ReceiverSide("windows", 2, InSession(First))) && s.active.None?
      && s.pressed == Ledger([], [])
    ensures ReceiverRuns.Step(ReceiverRuns.Run(Booted, Revival[..5]), Revival[5]).error == Some(Protocol(WrongSession))
  {
    hide ReceiverRuns.Step, ReceiverRuns.Run;
    Greets(); Prepares(); Opens(); Ends(); Reoffers(); RefusesToReopen();
    RunStarts();
    assert Revival[..0] == Handover[..0];
    RunStep(Booted, Revival, 0);
    RunStep(Booted, Revival, 1);
    RunStep(Booted, Revival, 2);
    RunStep(Booted, Revival, 3);
    RunStep(Booted, Revival, 4);
    RunStep(Booted, Revival, 5);
    assert Revival[..6] == Revival;
  }

  // ----- a refused preparation

  const Side := Display("side", 1, 50, 50, 100, 0, 50, 50)

  const Detour: seq<ReceiverRuns.SessionEvent> := [
    ReceiverRuns.Control(Greeting, Desk, 0),
    ReceiverRuns.Control(Prepare(3, "main", 1), Desk, 1),
    ReceiverRuns.Control(Prepare(4, "side", 1), Desk, 2),
    ReceiverRuns.Control(Commit(3, First), Desk, 3)]

  const WideBooted := Booted.(displays := [Screen, Side])

  const WideBound := Bound.(displays := [Screen, Side])

  const WideOffered := Offered.(displays := [Screen, Side])

  const Diverted := WideOffered.(prepared := Some(Side), injector := Booted.injector.(drawn := 2))

  lemma WideGreets()
    ensures ReceiverRuns.Step(WideBooted, Detour[0]) == After(WideBound, None)
  {
    hide ValidText, SessionState.ReleasePressed;
    TextsAreValid();
    NothingToRelease(WideBooted);
    assert REQUIRED_CAPABILITIES[0] == "control_v2" && REQUIRED_CAPABILITIES[1] == "input_v2";
    assert CheckFrame(Greeting).None?;
  }

  lemma WidePrepares()
    ensures ReceiverRuns.Step(WideBound, Detour[1]) == After(WideOffered, None)
  {
    hide ValidText;
    TextsAreValid();
    assert FindDisplay([Screen, Side], "main", 1) == Some(Screen);
  }

  lemma Diverts()
    ensures ReceiverRuns.Step(WideOffered, Detour[2]) == After(Diverted, Some(Protocol(InvalidTransition)))
  {
    hide ValidText;
    PlainTextIsValid("side", MAX_PEER_ID_BYTES);
    assert FindDisplay([Side], "side", 1) == Some(Side);
    assert [Screen, Side][1..] == [Side];
    assert FindDisplay([Screen, Side], "side", 1) == Some(Side);
  }

  lemma OpensBeside()
    ensures var out := ReceiverRuns.Step(Diverted, Detour[3]);
      out.error.None? && out.state.active == Some(First) && out.state.shown == Some(Side)
  {
  }

  /** A second preparation, which the handshake refuses, still changes the display: the
      session of the accepted one opens on the display of the refused one. */
  lemma RefusedPreparationChangesTheDisplay()
    ensures ReceiverRuns.Initial(WideBooted)
    ensures ReceiverRuns.Run(WideBooted, Detour[..2]).prepared == Some(Screen)
    ensures ReceiverRuns.Step(ReceiverRuns.Run(WideBooted, Detour[..2]),
        Detour[2]).error == Some(Protocol(InvalidTransition))
    ensures var s := ReceiverRuns.Run(WideBooted, Detour); s.active == Some(First) && s.shown == Some(Side)
  {
    hide ReceiverRuns.Step, ReceiverRuns.Run;
    WideGreets(); WidePrepares(); Diverts(); OpensBeside();
    assert ReceiverRuns.Run(WideBooted, Detour[..0]) == WideBooted by { RunsFromTheStart(WideBooted); }
    RunStep(WideBooted, Detour, 0);
    RunStep(WideBooted, Detour, 1);
    RunStep(WideBooted, Detour, 2);
    RunStep(WideBooted, Detour, 3);
    assert Detour[..4] == Detour;
  }

  lemma RunsFromTheStart(start: SessionState)
    ensures ReceiverRuns.Run(start, Detour[..0]) == start
  {
  }
}
