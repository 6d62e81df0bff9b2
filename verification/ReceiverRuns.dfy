/** What the receiver's session runtime keeps over every run, whatever arrives and however
    injection fails: no key is left held unknown to the ledger, none is pressed twice, and
    the frames of a well-behaved sender are never refused for their order. */
module ReceiverRuns {
  import opened Base
  import Handshakes
  import opened Inputs
  import opened Pressed
  import opened Receivers

  datatype SessionEvent =
    | Control(frame: Handshakes.ControlFrame, peer: Peer, nowMs: u64)
    | Input(critical: CriticalFrame, peer: Peer, nowMs: u64)
    | Motion(motion: MotionFrame, peer: Peer, nowMs: u64)
    | Expire(nowMs: u64)
    | StreamCloses(peer: Peer)
    | NewDisplays(displays: seq<Display>)
    | NewMapping(remap: u16 -> u16)

  function Step(s: SessionState, e: SessionEvent): After {
    match e
    case Control(frame, peer, now) => var reply := s.HandleControl(frame, peer, now); After(reply.state, reply.error)
    case Input(frame, peer, now) => s.HandleInput(frame, peer, now)
    case Motion(frame, peer, now) => s.HandleMotion(frame, peer, now).0
    case Expire(now) => s.ExpireIfNeeded(now).0
    case StreamCloses(peer) => s.StreamClosed(peer).0
    case NewDisplays(displays) => s.UpdateDisplays(displays).0
    case NewMapping(remap) => After(s.(remap := remap), None)
  }

  function Run(start: SessionState, events: seq<SessionEvent>): SessionState {
    if events == [] then start else Step(Run(start, events[..|events| - 1]), events[|events| - 1]).state
  }

  ghost predicate Initial(s: SessionState) {
    s == InitialSession(s.localBoot, s.displays, s.remap, s.injector.tape)
  }

  // ----- the machine behind the injector

  const Idle := Machine({}, {})

  predicate Within(m: Machine, n: Machine) { m.keys <= n.keys && m.buttons <= n.buttons }

  function Held(posted: seq<InputCommand>): Machine {
    if posted == [] then Idle
    else
      var before := Held(posted[..|posted| - 1]);
      var last := posted[|posted| - 1];
      if last.Act? then before.Do(last.command) else before
  }

  predicate IsPress(c: Command) { (c.KeyStroke? || c.MouseButton?) && c.down }

  /** Nothing that is held is ever pressed. */
  predicate PressesFit(posted: seq<InputCommand>) {
    forall i :: 0 <= i < |posted| && posted[i].Act? && IsPress(posted[i].command) ==>
      Held(posted[..i]).Fits(posted[i].command)
  }

  ghost predicate Truthful(injector: Injected) {
    injector.machine == Held(injector.posted) && PressesFit(injector.posted)
  }

  lemma HeldMore(posted: seq<InputCommand>, command: InputCommand)
    ensures Held(posted + [command]) == if command.Act? then Held(posted).Do(command.command) else Held(posted)
  {
    hide Machine.Do;
    assert (posted + [command])[..|posted|] == posted;
  }

  lemma PressesFitMore(posted: seq<InputCommand>, command: InputCommand)
    requires PressesFit(posted)
    requires command.Act? && IsPress(command.command) ==> Held(posted).Fits(command.command)
    ensures PressesFit(posted + [command])
  {
    hide Held, Machine.Fits, IsPress;
    var more := posted + [command];
    assert more[..|posted|] == posted;
    forall i | 0 <= i < |more| && more[i].Act? && IsPress(more[i].command)
      ensures Held(more[..i]).Fits(more[i].command)
    {
      if i < |posted| { assert more[..i] == posted[..i] && more[i] == posted[i]; }
    }
  }

  lemma PostIsTruthful(injector: Injected, command: InputCommand)
    requires Truthful(injector)
    requires command.Act? && IsPress(command.command) ==> injector.machine.Fits(command.command)
    ensures Truthful(injector.Post(command).0)
  {
    hide Held, PressesFit, Machine.Fits, Machine.Do, IsPress;
    HeldMore(injector.posted, command);
    PressesFitMore(injector.posted, command);
  }

  // ----- submitting

  /** Pointer movements, then at most one command that fits. */
  ghost predicate Orderly(m: Machine, commands: seq<InputCommand>) {
    forall i :: 0 <= i < |commands| ==>
      !commands[i].Act? || (i == |commands| - 1 && m.Fits(commands[i].command))
  }

  function Effect(m: Machine, commands: seq<InputCommand>): Machine {
    if commands != [] && commands[|commands| - 1].Act? then m.Do(commands[|commands| - 1].command) else m
  }

  /** Either everything was posted, or the machine holds what it held before. */
  lemma {:induction false} SubmitOrderly(injector: Injected, commands: seq<InputCommand>)
    requires Truthful(injector) && Orderly(injector.machine, commands)
    ensures var (after, failure) := injector.Submit(commands);
      && Truthful(after)
      && after.machine == if failure.None? then Effect(injector.machine, commands) else injector.machine
    decreases |commands|
  {
    hide Truthful, Machine.Fits, Machine.Do;
    if commands != [] {
      PostIsTruthful(injector, commands[0]);
      var (s, failure) := injector.Post(commands[0]);
      if failure.None? {
        if |commands| == 1 {
          assert commands[1..] == [];
        } else {
          assert commands[1..][|commands| - 2] == commands[|commands| - 1];
          SubmitOrderly(s, commands[1..]);
        }
      }
    }
  }

  predicate Releases(commands: seq<Command>) {
    forall i :: 0 <= i < |commands| ==> (commands[i].KeyStroke? || commands[i].MouseButton?) && !commands[i].down
  }

  lemma ReplayFront(m: Machine, c: Command, rest: seq<Command>)
    ensures Replay(m, [c] + rest) == Replay(m.Do(c), rest)
  {
    ReplayAppend(m, [c], rest);
    ReplayOne(m, c);
  }

  lemma {:induction false} ReplayIsMonotone(m: Machine, n: Machine, commands: seq<Command>)
    requires Within(m, n) && Releases(commands)
    ensures Within(Replay(m, commands), Replay(n, commands))
  {
    if commands != [] { ReplayIsMonotone(m, n, commands[..|commands| - 1]); }
  }

  /** Releases only let go; if none failed, all of them took effect. */
  lemma {:induction false} SubmitReleases(injector: Injected, commands: seq<Command>, last: Option<PortError>)
    requires Truthful(injector) && Releases(commands)
    ensures var (after, failure) := injector.SubmitAll(Acts(commands), last);
      && Truthful(after) && Within(after.machine, injector.machine)
      && (failure.None? ==> last.None? && after.machine == Replay(injector.machine, commands))
    decreases |commands|
  {
    hide Truthful;
    if commands != [] {
      assert Acts(commands)[1..] == Acts(commands[1..]);
      assert commands == [commands[0]] + commands[1..];
      PostIsTruthful(injector, Act(commands[0]));
      var (s, failure) := injector.Post(Act(commands[0]));
      SubmitReleases(s, commands[1..], if failure.Some? then failure else last);
      ReplayFront(injector.machine, commands[0], commands[1..]);
    } else {
      assert Acts(commands) == [];
    }
  }

  lemma {:induction false} KeyReleasesRelease(keys: seq<HeldKey>)
    ensures Releases(KeyReleases(keys))
    decreases |keys|
  {
    if keys != [] { KeyReleasesRelease(keys[..|keys| - 1]); }
  }

  lemma {:induction false} ButtonReleasesRelease(buttons: seq<HeldButton>)
    ensures Releases(ButtonReleases(buttons))
    decreases |buttons|
  {
    if buttons != [] { ButtonReleasesRelease(buttons[..|buttons| - 1]); }
  }

  ghost predicate Safe(s: SessionState) {
    s.pressed.Distinct() && Truthful(s.injector) && Within(s.injector.machine, s.pressed.Image())
  }

  /** Fields that letting go does not touch. */
  ghost predicate SameSession(s: SessionState, t: SessionState) {
    && t.localBoot == s.localBoot && t.binding == s.binding && t.handshake == s.handshake && t.gate == s.gate
    && t.active == s.active && t.highestApplied == s.highestApplied && t.highestMotion == s.highestMotion
    && t.pending == s.pending && t.displays == s.displays && t.prepared == s.prepared && t.shown == s.shown
    && t.remap == s.remap && t.lastActivity == s.lastActivity
  }

  lemma ReleaseIsSafe(s: SessionState)
    requires Safe(s)
    ensures var out := s.ReleasePressed();
      && Safe(out.state) && SameSession(s, out.state)
      && (out.error.None? ==> out.state.pressed == Ledger([], []) && out.state.injector.machine == Idle
                              && out.state.fault == s.fault)
      && (out.error.Some? ==> out.error.value.Injector? && out.state.fault.Some? && out.state.fault.value.ReleaseFailed?)
  {
    hide Truthful, Ledger.Distinct, Targets, Buttons;
    var commands := s.pressed.ReleaseAll().commands;
    KeyReleasesRelease(s.pressed.keys);
    ButtonReleasesRelease(s.pressed.buttons);
    SubmitReleases(s.injector, commands, None);
    ReleaseAllFreesMachine(s.pressed);
    ReplayIsMonotone(s.injector.machine, s.pressed.Image(), commands);
    EmptyIsDistinct();
    var out := s.ReleasePressed();
    if out.error.Some? {
      assert out.state.pressed == s.pressed;
      WithinTransitive(out.state.injector.machine, s.injector.machine, s.pressed.Image());
    } else {
      assert out.state.injector == s.injector.SubmitAll(Acts(commands), None).0;
      assert out.state.injector.machine == Replay(s.injector.machine, commands);
      assert Agrees(s.pressed.Image(), commands, Machine({}, {}));
      assert Replay(s.pressed.Image(), commands) == Idle;
      NothingWithinIdle(out.state.injector.machine);
    }
  }

  lemma WithinTransitive(a: Machine, b: Machine, c: Machine)
    requires Within(a, b) && Within(b, c)
    ensures Within(a, c)
  {
  }

  lemma NothingWithinIdle(m: Machine)
    requires Within(m, Idle)
    ensures m == Idle
  {
    assert m.keys == {} && m.buttons == {};
  }

  lemma EmptyIsDistinct()
    ensures Ledger([], []).Distinct() && Ledger([], []).Image() == Idle
  {
  }

  predicate Answered(tape: nat -> Option<PortError>, k: nat, answer: Option<PortError>) { tape(k) == answer }

  /** Among the answers from one attempt to another: none is a failure, the first failure,
      the last one. */
  ghost predicate NoneFails(tape: nat -> Option<PortError>, from: nat, to: nat) {
    forall k: nat :: from <= k < to ==> Answered(tape, k, None)
  }

  ghost predicate FirstFails(tape: nat -> Option<PortError>, from: nat, to: nat, error: PortError) {
    exists k: nat :: from <= k < to && Answered(tape, k, Some(error)) && NoneFails(tape, from, k)
  }

  ghost predicate LastFails(tape: nat -> Option<PortError>, from: nat, to: nat, error: PortError) {
    exists k: nat :: from <= k < to && Answered(tape, k, Some(error)) && NoneFails(tape, k + 1, to)
  }

  /** Every command is tried, whatever fails. */
  lemma {:induction false} AllAreTried(injector: Injected, commands: seq<InputCommand>, last: Option<PortError>)
    ensures var (after, failure) := injector.SubmitAll(commands, last); var first := FirstOf(injector, commands);
      var from, to := injector.drawn, injector.drawn + |commands|;
      && after.drawn == to && after.tape == injector.tape
      && (first.None? ==> NoneFails(injector.tape, from, to) && failure == last)
      && (first.Some? ==> FirstFails(injector.tape, from, to, first.value)
                          && failure.Some? && LastFails(injector.tape, from, to, failure.value))
    decreases |commands|
  {
    if commands != [] {
      var (s, answer) := injector.Post(commands[0]);
      AllAreTried(s, commands[1..], if answer.Some? then answer else last);
      var tape, from, to := injector.tape, injector.drawn, injector.drawn + |commands|;
      assert Answered(tape, from, answer);
      if answer.None? {
        var first := FirstOf(s, commands[1..]);
        if first.Some? {
          var k: nat :| from < k < to && Answered(tape, k, first) && NoneFails(tape, from + 1, k);
          assert NoneFails(tape, from, k);
        }
      } else {
        assert NoneFails(tape, from, from);
      }
    }
  }

  /** Letting go tries every release; it fails if and only if one of them does, reports the
      first failure and leaves the last one as the fault. */
  lemma ReleaseReports(s: SessionState)
    ensures var out := s.ReleasePressed();
      var tape, from, to := s.injector.tape, s.injector.drawn, s.injector.drawn + |s.pressed.ReleaseAll().commands|;
      && out.state.injector.drawn == to
      && (out.error.None? <==> NoneFails(tape, from, to))
      && (out.error.Some? ==>
            && out.error.value.Injector? && FirstFails(tape, from, to, out.error.value.port)
            && out.state.fault.Some? && out.state.fault.value.ReleaseFailed?
            && LastFails(tape, from, to, out.state.fault.value.release) && out.state.pressed == s.pressed)
  {
    hide Injected.SubmitAll, Ledger.ReleaseAll, FirstOf, NoneFails, FirstFails, LastFails;
    var commands := Acts(s.pressed.ReleaseAll().commands);
    AllAreTried(s.injector, commands, None);
    FirstIsSome(s.injector, commands, None);
    FailureIsNotNone(s.injector.tape, s.injector.drawn, s.injector.drawn + |commands|);
  }

  lemma FailureIsNotNone(tape: nat -> Option<PortError>, from: nat, to: nat)
    ensures forall error :: FirstFails(tape, from, to, error) ==> !NoneFails(tape, from, to)
  {
    forall error | FirstFails(tape, from, to, error)
      ensures !NoneFails(tape, from, to)
    {
      var k: nat :| from <= k < to && Answered(tape, k, Some(error));
      assert !Answered(tape, k, None);
    }
  }

  // ----- the invariant

  /** A session is open: handshake, gate and ledger agree about it, and the machine holds
      exactly what the ledger says. */
  ghost predicate InSessionOk(s: SessionState)
    requires s.active.Some?
  {
    && s.binding.Some? && s.shown.Some? && s.lastActivity.Some? && s.active.value.receiverBoot == s.localBoot
    && s.handshake.Some? && s.handshake.value.state == Handshakes.InSession(s.active.value)
    && s.gate.active.Some? && s.gate.active.value.sessionId == s.active.value
    && s.gate.active.value.next == s.highestApplied + 1
    && s.injector.machine == s.pressed.Image()
    && (s.pending.Some? ==>
          s.pending.value.sessionId == s.active.value && s.MapPointer(s.pending.value.x, s.pending.value.y).Ok?)
  }

  ghost predicate NotReady(s: SessionState) {
    s.pending.Some? ==> s.pending.value.requiredReliableSequence > s.highestApplied
  }

  /** The handshake is in no session of another boot. */
  predicate OwnBoot(hs: Handshakes.ReceiverSide) {
    hs.state.InSession? ==> hs.state.sessionId.receiverBoot == hs.localBoot
  }

  ghost predicate SessionInv(s: SessionState) {
    && Safe(s)
    && s.gate.localBoot == s.localBoot
    && (s.handshake.Some? ==> s.handshake.value.localBoot == s.localBoot && OwnBoot(s.handshake.value))
    && (if s.active.Some? then InSessionOk(s) && NotReady(s)
        else s.gate.active.None? && s.pending.None? && s.highestMotion == 0)
  }

  /** The session is over and nothing is held, unless letting go failed. */
  ghost predicate LetGo(s: SessionState) {
    || s.injector.machine == Idle
    || (s.fault.Some? && s.fault.value.ReleaseFailed?)
  }

  /** What a step may do to a session: keep it, end it and let go, or open a fresh one. */
  ghost predicate Goes(s: SessionState, t: SessionState) {
    && SessionInv(t)
    && (t.active.None? && s.active.Some? ==> LetGo(t))
    && (t.active.Some? ==> t.active == s.active || (s.active.None? && Opened(t)))
  }

  ghost predicate Opened(t: SessionState) {
    t.highestApplied == 0 && t.highestMotion == 0 && t.pending.None? && t.injector.machine == Idle
  }

  lemma DepartsOk(s: SessionState, t: SessionState)
    requires SessionInv(s) && s.active.Some? && Safe(t)
    requires t.gate.active.Some? && t.gate.active.value.sessionId == s.active.value && t.gate.localBoot == s.localBoot
    requires t.localBoot == s.localBoot && t.handshake == s.handshake
    ensures Goes(s, t.Leave(s.active.value).ReleasePressed().state)
    ensures t.Leave(s.active.value).ReleasePressed().state.active.None?
  {
    hide Safe;
    var left := t.Leave(s.active.value);
    assert Safe(left) by { SafeApart(t, left); }
    ReleaseIsSafe(left);
  }

  lemma SafeApart(s: SessionState, t: SessionState)
    requires Safe(s) && t.pressed == s.pressed && t.injector == s.injector
    ensures Safe(t)
  {
  }

  // ----- the session's own steps

  lemma ApplyMotionOk(s: SessionState, t: SessionState, frame: MotionFrame)
    requires SessionInv(s) && s.active == Some(frame.sessionId) == t.active && t.MapPointer(frame.x, frame.y).Ok?
    requires Safe(t) && InSessionOk(t) && NotReady(t)
    requires t.gate.localBoot == s.localBoot == t.localBoot && t.handshake == s.handshake
    ensures var out := t.ApplyMotion(frame);
      && Goes(s, out.state)
      && (out.error.None? ==> out.state.active == s.active && out.state == t.(injector := out.state.injector,
                              pressed := out.state.pressed, highestMotion := frame.sequence))
      && (out.error.Some? ==> out.error.value.Injector? && out.state.active.None?)
  {
    hide Truthful, Targets, Buttons, SessionState.ReleasePressed;
    var (x, y) := t.MapPointer(frame.x, frame.y).value;
    var moved := t.pressed.UpdatePointer(x, y);
    PointerKeepsImage(t.pressed, x, y);
    var move := MouseMove(x, y, DragOf(moved));
    PostIsTruthful(t.injector, move);
    var (injector', failure) := t.injector.Post(move);
    if failure.Some? { DepartsOk(s, t.(injector := injector', fault := Some(InjectorFault(failure.value)))); }
  }

  lemma PointerKeepsImage(ledger: Ledger, x: i32, y: i32)
    requires ledger.Distinct()
    ensures ledger.UpdatePointer(x, y).Image() == ledger.Image() && ledger.UpdatePointer(x, y).Distinct()
  {
    hide Targets, Buttons;
    SameButtons(ledger.buttons, ledger.UpdatePointer(x, y).buttons);
  }

  lemma FlushOk(s: SessionState, t: SessionState)
    requires SessionInv(s) && s.active.Some? && t.active == s.active
    requires Safe(t) && InSessionOk(t)
    requires t.gate.localBoot == s.localBoot == t.localBoot && t.handshake == s.handshake
    ensures var out := t.FlushPending();
      && Goes(s, out.state)
      && (out.error.None? ==> out.state.active == s.active && out.state.highestApplied == t.highestApplied
                              && (out.state.highestMotion == t.highestMotion
                                  || (t.pending.Some? && out.state.highestMotion == t.pending.value.sequence
                                      && t.pending.value.requiredReliableSequence <= t.highestApplied))
                              && (out.state.pending == t.pending || out.state.pending.None?)
                              && out.state.shown == t.shown && out.state.binding == t.binding)
      && (out.error.Some? ==> out.error.value.Injector? && out.state.active.None?)
  {
    hide SessionState.ApplyMotion, Truthful, Targets, Buttons;
    var u := t.(pending := None);
    assert Safe(u) by { SafeApart(t, u); }
    if t.pending.Some? { ApplyMotionOk(s, u, t.pending.value); }
  }

  lemma CarryOk(s: SessionState, frame: CriticalFrame, gate': GateSide, ledger: Ledger,
                commands: seq<InputCommand>, nowMs: u64)
    requires SessionInv(s) && s.gate.Accept(frame) == (gate', None)
    requires ledger.Distinct() && Orderly(s.injector.machine, commands)
    requires s.active.Some? ==> Effect(s.injector.machine, commands) == ledger.Image()
    ensures s.active == Some(frame.sessionId) && frame.sequence == s.highestApplied + 1
    ensures var out := s.(gate := gate').Carry(frame, ledger, commands, nowMs);
      && Goes(s, out.state)
      && (out.error.None? ==> CarriedOn(s, frame, out.state))
      && (out.error.Some? ==> out.error.value.Injector? && out.state.active.None?)
  {
    hide Truthful, Targets, Buttons, SessionState.ReleasePressed, SessionState.FlushPending, CheckCritical;
    SubmitOrderly(s.injector, commands);
    var (injector', failure) := s.injector.Submit(commands);
    if failure.Some? {
      DepartsOk(s, s.(gate := gate', injector := injector', fault := Some(InjectorFault(failure.value))));
    } else {
      var t := s.(gate := gate', injector := injector', pressed := ledger, highestApplied := frame.sequence,
                  highestMotion := Stamped(s, frame), lastActivity := Some(nowMs));
      FlushOk(s, t);
    }
  }

  function Stamped(s: SessionState, frame: CriticalFrame): u64 {
    if !frame.event.Key? && frame.event.motionSequence > s.highestMotion then frame.event.motionSequence
    else s.highestMotion
  }

  /** After an accepted frame: one more applied, and the pointer as far as that allows. */
  ghost predicate CarriedOn(s: SessionState, frame: CriticalFrame, t: SessionState) {
    && t.active == s.active && t.highestApplied == frame.sequence && t.shown == s.shown && t.binding == s.binding
    && (t.pending == s.pending || t.pending.None?)
    && (t.highestMotion == Stamped(s, frame)
        || (s.pending.Some? && t.highestMotion == s.pending.value.sequence
            && s.pending.value.requiredReliableSequence <= frame.sequence))
  }

  // ----- the operations

  lemma FewCommands(ledger: Ledger, event: CriticalEvent)
    ensures |ledger.Apply(event).commands| <= 1
  {
    hide Targets, Buttons;
  }

  /** What an event asks for is orderly, and leads from the ledger's image to the next. */
  lemma AppliedIsOrderly(ledger: Ledger, event: CriticalEvent, moves: seq<InputCommand>)
    requires ledger.Distinct() && forall i :: 0 <= i < |moves| ==> moves[i].MouseMove?
    ensures var out := ledger.Apply(event);
      && out.ledger.Distinct() && Orderly(ledger.Image(), moves + Acts(out.commands))
      && Effect(ledger.Image(), moves + Acts(out.commands)) == out.ledger.Image()
  {
    hide Targets, Buttons, Machine.Fits, Machine.Do, Ledger.Distinct, Ledger.Apply;
    var out := ledger.Apply(event);
    FewCommands(ledger, event);
    StepAgrees(ledger, PressedEvent.Arrives(event));
    assert Pressed.Step(ledger, PressedEvent.Arrives(event)) == out;
    if out.commands == [] {
      assert Acts(out.commands) == [] && moves + Acts(out.commands) == moves;
      assert Replay(ledger.Image(), []) == ledger.Image();
    } else {
      assert out.commands == [out.commands[0]] && Acts(out.commands) == [Act(out.commands[0])];
      ReplayOne(ledger.Image(), out.commands[0]);
    }
  }

  /** An input: it is carried on, or it changes nothing, or a failed injection ends the
      session. */
  ghost predicate InputGoes(s: SessionState, frame: CriticalFrame, out: After) {
    && Goes(s, out.state)
    && (out.error.None? ==> s.active == Some(frame.sessionId) && frame.sequence == s.highestApplied + 1
                            && CarriedOn(s, frame, out.state))
    && (out.error.Some? ==> if out.error.value.Injector? then out.state.active.None? else out.state == s)
  }

  lemma KeyOk(s: SessionState, frame: CriticalFrame, nowMs: u64)
    requires SessionInv(s) && frame.event.Key?
    ensures InputGoes(s, frame, s.AcceptKey(frame, nowMs))
    ensures s.gate.Accept(frame).1.None? ==>
      s.AcceptKey(frame, nowMs).error.None? || s.AcceptKey(frame, nowMs).error.value.Injector?
  {
    hide Truthful, Targets, Buttons, CheckCritical, SessionState.Carry, Ledger.Apply;
    var (gate', refused) := s.gate.Accept(frame);
    if refused.None? {
      var event := frame.event.(keyCode := s.remap(frame.event.keyCode));
      var out := s.pressed.Apply(event);
      AppliedIsOrderly(s.pressed, event, []);
      assert [] + Acts(out.commands) == Acts(out.commands);
      CarryOk(s, frame, gate', out.ledger, Acts(out.commands), nowMs);
    }
  }

  lemma PointerOk(s: SessionState, frame: CriticalFrame, x: i32, y: i32, nowMs: u64)
    requires SessionInv(s) && !frame.event.Key?
    ensures InputGoes(s, frame, s.AcceptPointer(frame, x, y, nowMs))
    ensures s.gate.Accept(frame).1.None? ==>
      s.AcceptPointer(frame, x, y, nowMs).error.None? || s.AcceptPointer(frame, x, y, nowMs).error.value.Injector?
  {
    hide Truthful, Targets, Buttons, CheckCritical, SessionState.Carry, Ledger.Apply, Ledger.UpdatePointer;
    var (gate', refused) := s.gate.Accept(frame);
    if refused.None? {
      var moved := s.pressed.UpdatePointer(x, y);
      PointerKeepsImage(s.pressed, x, y);
      var out := moved.Apply(frame.event.(x := x, y := y));
      var moves := if frame.event.Scroll? then [MouseMove(x, y, DragOf(s.pressed))] else [];
      AppliedIsOrderly(moved, frame.event.(x := x, y := y), moves);
      var commands := moves + Acts(out.commands);
      var all := if commands == [] then [MouseMove(x, y, DragOf(out.ledger))] else commands;
      CarryOk(s, frame, gate', out.ledger, all, nowMs);
    }
  }

  /** Why a pointer event would be turned away before the gate. */
  ghost predicate PointerFits(s: SessionState, frame: CriticalFrame) {
    frame.event.Key? ||
      ((frame.event.motionSequence == 0 || frame.event.motionSequence >= s.highestMotion)
       && s.MapPointer(frame.event.x, frame.event.y).Ok?)
  }

  lemma InputOk(s: SessionState, frame: CriticalFrame, peer: Peer, nowMs: u64)
    requires SessionInv(s)
    ensures InputGoes(s, frame, s.HandleInput(frame, peer, nowMs))
    ensures s.binding == Some(peer) && peer.role == Handshakes.Controller
            && PointerFits(s, frame) && s.gate.Accept(frame).1.None? ==>
      s.HandleInput(frame, peer, nowMs).error.None? || s.HandleInput(frame, peer, nowMs).error.value.Injector?
  {
    hide Truthful, Safe, SessionState.AcceptKey, SessionState.AcceptPointer, GateSide.Accept;
    if frame.event.Key? {
      KeyOk(s, frame, nowMs);
    } else {
      var point := s.MapPointer(frame.event.x, frame.event.y);
      if point.Ok? { PointerOk(s, frame, point.value.0, point.value.1, nowMs); }
    }
  }

  /** A motion: applied when what it refers to has been, kept if it is the newest to wait. */
  ghost predicate MotionGoes(s: SessionState, frame: MotionFrame, out: After) {
    && Goes(s, out.state)
    && (out.error.Some? ==> if out.error.value.Injector? then out.state.active.None? else out.state == s)
    && (out.error.None? ==>
          && out.state.active == s.active && out.state.highestApplied == s.highestApplied
          && out.state.shown == s.shown && out.state.binding == s.binding
          && (out.state.pending == s.pending || out.state.pending == Some(frame))
          && (out.state.highestMotion == s.highestMotion
              || (out.state.highestMotion == frame.sequence > s.highestMotion
                  && frame.requiredReliableSequence <= s.highestApplied)))
  }

  lemma MotionOk(s: SessionState, frame: MotionFrame, peer: Peer, nowMs: u64)
    requires SessionInv(s)
    ensures MotionGoes(s, frame, s.HandleMotion(frame, peer, nowMs).0)
  {
    hide Truthful, Targets, Buttons, SessionState.ApplyMotion;
    var t := s.(lastActivity := Some(nowMs));
    assert Safe(t) by { SafeApart(s, t); }
    if s.active == Some(frame.sessionId) && s.MapPointer(frame.x, frame.y).Ok? { ApplyMotionOk(s, t, frame); }
  }

  lemma EndsWithFault(s: SessionState, fault: Fault)
    requires SessionInv(s) && s.active.Some?
    ensures Goes(s, s.Leave(s.active.value).(fault := Some(fault)).ReleasePressed().state)
  {
    hide SessionState.ReleasePressed;
    assert Safe(s.(fault := Some(fault))) by { SafeApart(s, s.(fault := Some(fault))); }
    DepartsOk(s, s.(fault := Some(fault)));
    assert s.Leave(s.active.value).(fault := Some(fault)) == s.(fault := Some(fault)).Leave(s.active.value);
  }

  lemma DisplaysOk(s: SessionState, displays: seq<Display>)
    requires SessionInv(s)
    ensures Goes(s, s.UpdateDisplays(displays).0.state)
  {
    hide Truthful, Targets, Buttons, SessionState.ReleasePressed;
    var u := s.(displays := displays,
                prepared := if s.prepared.Some? && s.prepared.value !in displays then None else s.prepared,
                shown := None, fault := Some(LayoutChanged));
    if s.active.Some? {
      DepartsOk(s, u);
    } else {
      ReleaseIsSafe(u.(lastActivity := None).ResetMotion());
    }
  }

  lemma GreetOk(s: SessionState, frame: Handshakes.ControlFrame, peer: Peer)
    requires SessionInv(s) && frame.Hello?
    ensures Goes(s, s.Greet(frame, peer).state)
  {
    hide Safe, SessionState.ReleasePressed, ValidText;
    ReleaseIsSafe(s);
    var out := s.ReleasePressed();
    if s.active.None? && out.error.None? {
      var hs := Handshakes.ReceiverSide(peer.peerId, s.localBoot, Handshakes.AwaitHello).Handle(frame);
      SafeApart(out.state, out.state.Bind(peer, hs.state));
    }
  }

  lemma OpenOk(s: SessionState, t: SessionState, session: Handshakes.SessionId, nowMs: u64)
    requires SessionInv(s) && s.active.None? && s.binding.Some? && s.prepared.Some?
    requires t == s.(handshake := t.handshake) && t.handshake.Some? && t.handshake.value.localBoot == s.localBoot
    requires OwnBoot(t.handshake.value)
    requires t.handshake.value.state == Handshakes.InSession(session)
    ensures var out := t.Open(session, nowMs);
      && Goes(s, out.state) && out.state.localBoot == s.localBoot
      && (out.error.None? ==> out.state.active == Some(session))
      && (out.error.Some? ==> out.state == t)
  {
    hide Truthful, Targets, Buttons;
    if s.pressed.keys == [] && s.pressed.buttons == [] {
      EmptyIsDistinct();
      assert s.pressed == Ledger([], []);
      NothingWithinIdle(s.injector.machine);
    }
  }

  lemma EndOrderedOk(s: SessionState, t: SessionState, session: Handshakes.SessionId)
    requires SessionInv(s) && t == s.(handshake := t.handshake) && t.handshake.Some?
    requires t.handshake.value.localBoot == s.localBoot && OwnBoot(t.handshake.value)
    requires s.active.Some? ==> s.active == Some(session)
    ensures var out := t.EndOrdered(session); Goes(s, out.state) && out.state.active.None?
  {
    hide Truthful, Targets, Buttons, SessionState.ReleasePressed;
    var left := if s.active == Some(session)
      then t.(gate := t.gate.End(session).0, active := None, shown := None, lastActivity := None).ResetMotion() else t;
    assert Safe(left) by { SafeApart(s, left); }
    ReleaseIsSafe(left);
  }

  lemma PassOnOk(s: SessionState, frame: Handshakes.ControlFrame, nowMs: u64)
    requires SessionInv(s) && s.binding.Some? && !frame.Hello?
    requires s.active.None? && frame.Commit? ==> s.prepared.Some?
    ensures Goes(s, s.PassOn(frame, nowMs).state)
  {
    hide Safe, SessionState.Open, SessionState.EndOrdered, Handshakes.CheckFrame;
    if s.handshake.Some? {
      var hs := s.handshake.value.Handle(frame);
      var t := s.(handshake := Some(hs.state));
      assert Safe(t) by { SafeApart(s, t); }
      if hs.error.None? {
        if frame.Commit? {
          if s.active.None? { OpenOk(s, t, frame.sessionId, nowMs); } else { assert t == s; OpenAgain(s, frame.sessionId, nowMs); }
        }
        if frame.EndSession? { EndOrderedOk(s, t, frame.sessionId); }
        ActivityOk(s, t, nowMs);
        if frame.Commit? { ActivityOk(s, t.Open(frame.sessionId, nowMs).state, nowMs); }
      }
    }
  }

  lemma OpenAgain(s: SessionState, session: Handshakes.SessionId, nowMs: u64)
    requires s.active == Some(session)
    ensures s.Open(session, nowMs) == After(s, None)
  {
  }

  lemma ActivityOk(s: SessionState, t: SessionState, nowMs: u64)
    ensures Goes(s, t) && t.active.Some? ==> Goes(s, t.(lastActivity := Some(nowMs)))
  {
    hide Truthful, Targets, Buttons, Ledger.Distinct;
  }

  lemma ControlOk(s: SessionState, frame: Handshakes.ControlFrame, peer: Peer, nowMs: u64)
    requires SessionInv(s)
    ensures Goes(s, s.HandleControl(frame, peer, nowMs).state)
  {
    hide Goes, SessionState.PassOn, SessionState.Greet;
    assert Goes(s, s) by { StaysOk(s, s); }
    if peer.role == Handshakes.Controller && frame.Hello? && frame.role == Handshakes.Controller {
      GreetOk(s, frame, peer);
    } else if peer.role == Handshakes.Controller && s.binding == Some(peer) {
      if frame.Prepare? {
        var drawn := s.(injector := s.injector.(drawn := s.injector.drawn + 1));
        var t := drawn.(prepared := FindDisplay(s.displays, frame.targetDisplay, frame.layoutRevision));
        StaysOk(s, drawn);
        StaysOk(s, t);
        PassOnOk(t, frame, nowMs);
        GoesFrom(s, t, t.PassOn(frame, nowMs).state);
      } else if !frame.Hello? {
        if !(s.active.None? && frame.Commit? && s.prepared.None?) { PassOnOk(s, frame, nowMs); }
      } else {
        HelloRefused(s, frame, nowMs);
      }
    }
  }

  /** Drawing an answer and preparing a display leave the session as it is. */
  lemma StaysOk(s: SessionState, t: SessionState)
    requires SessionInv(s)
    requires t == s.(injector := t.injector, prepared := t.prepared)
    requires t.injector == s.injector.(drawn := t.injector.drawn)
    ensures Goes(s, t) && SessionInv(t)
  {
    hide Targets, Buttons, Ledger.Distinct;
  }

  lemma GoesFrom(s: SessionState, t: SessionState, u: SessionState)
    requires t.active == s.active && Goes(t, u)
    ensures Goes(s, u)
  {
    hide SessionInv;
  }

  lemma HelloRefused(s: SessionState, frame: Handshakes.ControlFrame, nowMs: u64)
    requires SessionInv(s) && frame.Hello? && frame.role != Handshakes.Controller
    ensures Goes(s, s.PassOn(frame, nowMs).state)
  {
    hide Safe, Handshakes.CheckFrame, SessionState.Open, SessionState.EndOrdered;
    if s.handshake.Some? {
      var t := s.(handshake := Some(s.handshake.value.Handle(frame).state));
      assert Safe(t) by { SafeApart(s, t); }
    }
  }

  // ----- an open session that stays open

  /** A commit or a ping that is taken renews the lease. */
  predicate RenewsByControl(e: SessionEvent, error: Option<SessionError>) {
    e.Control? && (e.frame.Commit? || e.frame.Ping?) && error.None?
  }

  /** Everything else that is not input leaves an open session as it is, or ends it. */
  ghost predicate Undisturbed(s: SessionState, e: SessionEvent, out: After) {
    out.state.active == s.active ==>
      && out.state.pressed == s.pressed && out.state.injector.posted == s.injector.posted
      && out.state.shown == s.shown && out.state.pending == s.pending
      && out.state.highestApplied == s.highestApplied && out.state.highestMotion == s.highestMotion
      && out.state.lastActivity == if RenewsByControl(e, out.error) then Some(e.nowMs) else s.lastActivity
  }

  lemma PassOnUndisturbed(s: SessionState, frame: Handshakes.ControlFrame, peer: Peer, nowMs: u64)
    requires s.active.Some? && s.handshake.Some? && s.handshake.value.state == Handshakes.InSession(s.active.value)
    ensures var reply := s.PassOn(frame, nowMs);
      Undisturbed(s, Control(frame, peer, nowMs), After(reply.state, reply.error))
  {
    hide Injected.SubmitAll, SessionState.FirstFailure, Handshakes.CheckFrame;
  }

  lemma ControlUndisturbed(s: SessionState, frame: Handshakes.ControlFrame, peer: Peer, nowMs: u64)
    requires s.active.Some? && s.handshake.Some? && s.handshake.value.state == Handshakes.InSession(s.active.value)
    ensures Undisturbed(s, Control(frame, peer, nowMs), Step(s, Control(frame, peer, nowMs)))
  {
    hide SessionState.PassOn, SessionState.ReleasePressed, FindDisplay;
    PassOnUndisturbed(s, frame, peer, nowMs);
    if frame.Prepare? {
      PassOnUndisturbed(s.(injector := s.injector.(drawn := s.injector.drawn + 1),
                           prepared := FindDisplay(s.displays, frame.targetDisplay, frame.layoutRevision)),
                        frame, peer, nowMs);
    }
  }

  lemma QuietIsUndisturbed(s: SessionState, e: SessionEvent)
    requires SessionInv(s) && s.active.Some? && !e.Input? && !e.Motion?
    ensures Undisturbed(s, e, Step(s, e))
  {
    hide Safe, SessionState.ReleasePressed, SessionState.HandleControl;
    if e.Control? { ControlUndisturbed(s, e.frame, e.peer, e.nowMs); }
    else { OthersUndisturbed(s, e); }
  }

  lemma OthersUndisturbed(s: SessionState, e: SessionEvent)
    requires SessionInv(s) && s.active.Some? && !e.Input? && !e.Motion? && !e.Control?
    ensures Undisturbed(s, e, Step(s, e))
  {
    hide Safe, Injected.SubmitAll, SessionState.FirstFailure;
  }

  // ----- whole runs

  lemma StepGoes(s: SessionState, e: SessionEvent)
    requires SessionInv(s)
    ensures Goes(s, Step(s, e).state)
  {
    hide SessionInv, SessionState.HandleControl, SessionState.HandleInput, SessionState.HandleMotion,
         SessionState.UpdateDisplays, SessionState.ReleasePressed, SessionState.Leave, CarriedOn;
    match e
    case Control(frame, peer, now) => ControlOk(s, frame, peer, now);
    case Input(frame, peer, now) => InputOk(s, frame, peer, now);
    case Motion(frame, peer, now) => MotionOk(s, frame, peer, now);
    case Expire(now) => StaysOk(s, s); if s.active.Some? { EndsWithFault(s, LeaseExpired); }
    case StreamCloses(peer) => StaysOk(s, s); if s.active.Some? { EndsWithFault(s, InputStreamClosed); }
    case NewDisplays(displays) => DisplaysOk(s, displays);
    case NewMapping(remap) => RemapOk(s, remap);
  }

  lemma RemapOk(s: SessionState, remap: u16 -> u16)
    requires SessionInv(s)
    ensures Goes(s, s.(remap := remap))
  {
    hide Truthful, Targets, Buttons, Ledger.Distinct;
  }

  lemma {:induction false} AlwaysSessionInv(start: SessionState, events: seq<SessionEvent>)
    requires Initial(start)
    ensures SessionInv(Run(start, events))
  {
    hide SessionInv, Step;
    if events == [] {
      assert SessionInv(start) by { InitialInv(start); }
    } else {
      AlwaysSessionInv(start, events[..|events| - 1]);
      StepGoes(Run(start, events[..|events| - 1]), events[|events| - 1]);
    }
  }

  lemma InitialInv(start: SessionState)
    requires Initial(start)
    ensures SessionInv(start)
  {
    EmptyIsDistinct();
  }

  // ----- main results

  /** No stuck keys.  In every reachable state the machine holds nothing the ledger does not
      know; exactly the ledger's targets while a session is open; and nothing was ever
      pressed while it was held. */
  lemma NothingHeldUnknown(start: SessionState, events: seq<SessionEvent>)
    requires Initial(start)
    ensures var s := Run(start, events);
      && Held(s.injector.posted).keys <= Targets(s.pressed.keys)
      && Held(s.injector.posted).buttons <= Buttons(s.pressed.buttons)
      && (s.active.Some? ==> Held(s.injector.posted) == s.pressed.Image())
      && PressesFit(s.injector.posted)
  {
    hide Targets, Buttons;
    AlwaysSessionInv(start, events);
  }

  /** However a session ends, everything held is let go, unless the injector refused a
      release; and a session only opens on a machine that holds nothing. */
  lemma EndingLetsGo(start: SessionState, events: seq<SessionEvent>, e: SessionEvent)
    requires Initial(start)
    ensures var s := Run(start, events); var t := Step(s, e).state;
      && (s.active.Some? && t.active.None? ==> LetGo(t))
      && (t.active.Some? && t.active != s.active ==> s.active.None? && t.injector.machine == Idle)
  {
    hide SessionInv, Step;
    AlwaysSessionInv(start, events);
    StepGoes(Run(start, events), e);
  }

  /** Session, gate and handshake agree in every reachable state. */
  lemma SessionGateAndHandshakeAgree(start: SessionState, events: seq<SessionEvent>)
    requires Initial(start)
    ensures var s := Run(start, events);
      && (s.active.Some? <==> s.gate.active.Some?)
      && (s.active.Some? ==>
            && s.gate.active.value.sessionId == s.active.value && s.gate.active.value.next == s.highestApplied + 1
            && s.active.value.receiverBoot == s.localBoot
            && s.handshake.Some? && s.handshake.value.state == Handshakes.InSession(s.active.value)
            && (s.pending.Some? ==> s.pending.value.requiredReliableSequence > s.highestApplied))
  {
    hide Safe;
    AlwaysSessionInv(start, events);
  }

  /** Where handshake and session part ways: a commit that the handshake accepts while
      something is still held, or for the session that ended last, is refused by the
      session only. */
  lemma RefusedCommitLeavesTheHandshakeAhead(s: SessionState, frame: Handshakes.ControlFrame, peer: Peer, nowMs: u64)
    requires s.binding == Some(peer) && peer.role == Handshakes.Controller && s.active.None? && s.prepared.Some?
    requires s.handshake.Some? && frame.Commit? && s.handshake.value.Handle(frame).error.None?
    ensures var reply := s.HandleControl(frame, peer, nowMs);
      && reply.state.handshake.value.state == Handshakes.InSession(frame.sessionId)
      && (s.pressed != Ledger([], []) ==>
            reply.error == Some(Protocol(Handshakes.InvalidTransition)) && reply.state.active.None?)
      && (reply.state.active.Some? <==> s.pressed == Ledger([], []) && s.gate.Activate(frame.sessionId).1.None?)
  {
    hide Handshakes.CheckFrame, SessionState.ReleasePressed;
  }

  /** The handshake takes a commit: the one it is prepared for, or that of the session it
      is in already. */
  predicate TakesCommit(hs: Handshakes.ReceiverSide, requestId: u64, session: Handshakes.SessionId) {
    match hs.state
    case PreparedFor(boot, request) =>
      requestId == request && session.controllerBoot == boot && session.receiverBoot == hs.localBoot
    case InSession(current) => session == current
    case _ => false
  }

  /** In every reachable state, a commit that the handshake takes opens the session if and
      only if nothing is held and it does not name the session that ended last. */
  lemma CommitOpensExactlyWhen(start: SessionState, events: seq<SessionEvent>, frame: Handshakes.ControlFrame,
                               peer: Peer, nowMs: u64)
    requires Initial(start) && frame.Commit? && Handshakes.CheckFrame(frame).None?
    requires var s := Run(start, events);
      && s.binding == Some(peer) && peer.role == Handshakes.Controller && s.active.None? && s.prepared.Some?
      && s.handshake.Some? && TakesCommit(s.handshake.value, frame.requestId, frame.sessionId)
    ensures var s := Run(start, events); var reply := s.HandleControl(frame, peer, nowMs);
      && reply.state.handshake.value.state == Handshakes.InSession(frame.sessionId)
      && (reply.state.active.Some? <==> s.pressed == Ledger([], []) && s.gate.ended != Some(frame.sessionId))
      && (s.pressed == Ledger([], []) && s.gate.ended == Some(frame.sessionId) ==>
            reply.error == Some(Protocol(Handshakes.WrongSession)))
  {
    hide Safe, SessionState.HandleControl;
    AlwaysSessionInv(start, events);
    var s := Run(start, events);
    RefusedCommitLeavesTheHandshakeAhead(s, frame, peer, nowMs);
    GateIsWilling(s.gate, frame);
    if s.pressed == Ledger([], []) && s.gate.ended == Some(frame.sessionId) { RefusedByTheGate(s, frame, peer, nowMs); }
  }

  lemma GateIsWilling(gate: GateSide, frame: Handshakes.ControlFrame)
    requires frame.Commit? && Handshakes.CheckFrame(frame).None? && frame.sessionId.receiverBoot == gate.localBoot
    ensures gate.Activate(frame.sessionId).1 ==
            if gate.ended == Some(frame.sessionId) then Some(Handshakes.WrongSession) else None
  {
  }

  lemma RefusedByTheGate(s: SessionState, frame: Handshakes.ControlFrame, peer: Peer, nowMs: u64)
    requires s.binding == Some(peer) && peer.role == Handshakes.Controller && s.active.None? && s.prepared.Some?
    requires s.handshake.Some? && frame.Commit? && s.handshake.value.Handle(frame).error.None?
    requires s.pressed == Ledger([], []) && s.gate.Activate(frame.sessionId).1.Some?
    ensures s.HandleControl(frame, peer, nowMs).error == Some(Protocol(s.gate.Activate(frame.sessionId).1.value))
  {
    hide Handshakes.CheckFrame, SessionState.ReleasePressed, GateSide.Activate;
  }

  // ----- the newest motion

  /** The newest motion taken in the open session, applied or made to wait. */
  function NewestTaken(start: SessionState, events: seq<SessionEvent>): nat {
    if events == [] then 0
    else
      var before := events[..|events| - 1];
      var s, e := Run(start, before), events[|events| - 1];
      var n := if s.active.None? then 0 else NewestTaken(start, before);
      if e.Motion? && Step(s, e).error.None? && e.motion.sequence > n then e.motion.sequence else n
  }

  /** The motion is where the pointer is, has been overtaken, or waits with none newer. */
  ghost predicate NotForgotten(s: SessionState, n: nat) {
    n <= s.highestMotion || (s.pending.Some? && n <= s.pending.value.sequence)
  }

  lemma FlushForgetsNothing(s: SessionState, n: nat)
    requires NotForgotten(s, n) && s.FlushPending().error.None?
    ensures NotForgotten(s.FlushPending().state, n)
  {
    hide SessionState.FailInjection, Display.Map;
  }

  lemma CarryForgetsNothing(s: SessionState, frame: CriticalFrame, ledger: Ledger, commands: seq<InputCommand>,
                            nowMs: u64, n: nat)
    requires NotForgotten(s, n) && s.Carry(frame, ledger, commands, nowMs).error.None?
    ensures NotForgotten(s.Carry(frame, ledger, commands, nowMs).state, n)
  {
    hide SessionState.FlushPending, SessionState.FailInjection, Injected.Submit;
    var injector' := s.injector.Submit(commands).0;
    FlushForgetsNothing(s.(injector := injector', pressed := ledger, highestApplied := frame.sequence,
                           highestMotion := Stamped(s, frame), lastActivity := Some(nowMs)), n);
  }

  lemma InputForgetsNothing(s: SessionState, frame: CriticalFrame, peer: Peer, nowMs: u64, n: nat)
    requires NotForgotten(s, n) && s.HandleInput(frame, peer, nowMs).error.None?
    ensures NotForgotten(s.HandleInput(frame, peer, nowMs).state, n)
  {
    hide SessionState.Carry, Display.Map, GateSide.Accept, Ledger.Apply, Ledger.UpdatePointer;
    var (gate', refused) := s.gate.Accept(frame);
    if frame.event.Key? {
      var out := s.pressed.Apply(frame.event.(keyCode := s.remap(frame.event.keyCode)));
      CarryForgetsNothing(s.(gate := gate'), frame, out.ledger, Acts(out.commands), nowMs, n);
    } else {
      var (x, y) := s.MapPointer(frame.event.x, frame.event.y).value;
      var out := s.pressed.UpdatePointer(x, y).Apply(frame.event.(x := x, y := y));
      var moves := if frame.event.Scroll? then [MouseMove(x, y, DragOf(s.pressed))] else [];
      var commands := moves + Acts(out.commands);
      CarryForgetsNothing(s.(gate := gate'), frame, out.ledger,
                          if commands == [] then [MouseMove(x, y, DragOf(out.ledger))] else commands, nowMs, n);
    }
  }

  lemma MotionForgetsNothing(s: SessionState, motion: MotionFrame, peer: Peer, nowMs: u64, n: nat)
    requires NotForgotten(s, n) && s.HandleMotion(motion, peer, nowMs).0.error.None?
    ensures NotForgotten(s.HandleMotion(motion, peer, nowMs).0.state, if motion.sequence > n then motion.sequence else n)
  {
    hide SessionState.FailInjection, Display.Map;
  }

  /** A motion that was taken never gives way to an older one: the newest of them is where
      the pointer is, has been overtaken by a click, or is the one that waits. */
  lemma {:induction false} NewestMotionIsKept(start: SessionState, events: seq<SessionEvent>)
    requires Initial(start)
    ensures var s := Run(start, events); s.active.Some? ==> NotForgotten(s, NewestTaken(start, events))
  {
    hide SessionInv, SessionState.HandleControl, SessionState.HandleInput, SessionState.HandleMotion,
         SessionState.UpdateDisplays, CarriedOn, NotForgotten;
    if events != [] {
      var before, e := events[..|events| - 1], events[|events| - 1];
      NewestMotionIsKept(start, before);
      AlwaysSessionInv(start, before);
      var s, t := Run(start, before), Run(start, events);
      StepGoes(s, e);
      if t.active.Some? {
        if s.active.None? {
          OpensFresh(s, e);
        } else {
          var n := NewestTaken(start, before);
          match e
          case Input(frame, peer, now) =>
            InputOk(s, frame, peer, now);
            if s.HandleInput(frame, peer, now).error.None? { InputForgetsNothing(s, frame, peer, now, n); }
          case Motion(motion, peer, now) =>
            MotionOk(s, motion, peer, now);
            if s.HandleMotion(motion, peer, now).0.error.None? { MotionForgetsNothing(s, motion, peer, now, n); }
          case _ =>
            QuietIsUndisturbed(s, e);
            SameMotions(s, t, n);
        }
      }
    }
  }

  lemma SameMotions(s: SessionState, t: SessionState, n: nat)
    requires t.highestMotion == s.highestMotion && t.pending == s.pending
    ensures NotForgotten(t, n) <==> NotForgotten(s, n)
  {
  }

  lemma OpensFresh(s: SessionState, e: SessionEvent)
    requires SessionInv(s) && s.active.None? && Step(s, e).state.active.Some?
    ensures NotForgotten(Step(s, e).state, 0) && !(e.Motion? && Step(s, e).error.None?)
  {
    hide Safe, SessionState.HandleControl, SessionState.HandleInput, SessionState.UpdateDisplays, CarriedOn;
    StepGoes(s, e);
  }
}
