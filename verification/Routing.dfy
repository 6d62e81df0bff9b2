/** The router: who controls the peer, under which request, and until when.

    `RouterState` is the router as a value, one function per operation; the class
    `Router` runs the same operations on its fields, on the shared gate and on the
    platform ports, and is proved to do exactly what the functions say.  Hook
    threads may call for local control before each access to the gate: a `Hooks`
    value says how many do, and nothing bounds it. */
module Routing {
  import opened Base
  import opened Gates

  const HANDOFF_TIMEOUT_MS: u64 := 2500
  const KEYS_RELEASE_TIMEOUT_MS: u64 := 1500
  const MAX_PEER_ID_BYTES: nat := 256

  datatype PortError = PermissionDenied | Unavailable | QueueFull | SubmissionFailed

  datatype ReturnReason =
    | User | Emergency | Timeout | KeysHeld | FocusUnavailable | CaptureFailed | NetworkFailed | QueueFull

  datatype RouteError = InvalidPeer | Busy | StaleReply | Exhausted | Capture(port: PortError) | Cancelled

  datatype RouteState =
    | LocalDesktop
    | LocalGame
    | PreparingRemote(peer: string, request: u64, deadlineMs: u64, keysDeadlineMs: u64,
                      keysReleasedSeen: bool, session: Option<Id128>, commitSent: bool)
    | RemoteActive(peer: string, activeSession: Id128)
    | ReturningLocal(reason: ReturnReason)
  {
    predicate Local() { LocalDesktop? || LocalGame? }
  }

  datatype RouteEffect =
    | Prepare(peer: string, request: u64)
    | Commit(request: u64, session: Id128)
    | Cancel(request: u64)
    | End(session: Id128, reason: ReturnReason)

  /** Hook threads that fire before the first gate access of an operation, before a
      second one, before the restoring one, and before a restore by the caller. */
  datatype Hooks = Hooks(load: nat, recheck: nat, restore: nat, again: nat)

  /** How often each platform port was called. */
  datatype Calls = Calls(prepared: nat, activated: nat, restored: nat, focused: nat)

  /** What the platform answers this time. */
  datatype Answers = Answers(prepare: Option<PortError>, activate: Option<PortError>, focus: Option<PortError>)

  datatype Outcome = Outcome(state: RouterState, effects: seq<RouteEffect>, error: Option<RouteError>)

  datatype RouterState = RouterState(route: RouteState, gameMode: bool, gate: Gate,
                                     lastReturn: Option<ReturnReason>, calls: Calls)
  {
    function LocalRoute(): RouteState { if gameMode then LocalGame else LocalDesktop }

    function SetGameMode(enabled: bool): RouterState {
      var s := this.(gameMode := enabled);
      if route.Local() then s.(route := s.LocalRoute()) else s
    }

    function RunHooks(count: nat): RouterState { this.(gate := gate.Hooked(count)) }

    function GoRemote(peer: string, nowMs: u64, answers: Answers, hooks: Hooks): Outcome {
      if !ValidText(peer, MAX_PEER_ID_BYTES) then Outcome(this, [], Some(InvalidPeer))
      else if route.PreparingRemote? || route.RemoteActive? then
        Outcome(this, [], if route.peer == peer then None else Some(Busy))
      else if route.ReturningLocal? then Outcome(this, [], Some(Busy))
      else if nowMs + HANDOFF_TIMEOUT_MS > U64_MAX then Outcome(this, [], Some(Exhausted))
      else
        var (reserved, ticket) := gate.Hooked(hooks.load).Reserve();
        if ticket.None? then Outcome(this.(gate := reserved), [], Some(Exhausted))
        else
          var request := ticket.value;
          var s := this.(
            route := PreparingRemote(peer, request, nowMs + HANDOFF_TIMEOUT_MS,
                                     nowMs + KEYS_RELEASE_TIMEOUT_MS, false, None, false),
            gate := reserved,
            calls := calls.(prepared := calls.prepared + 1));
          if answers.prepare.Some? then
            Outcome(s.GoLocal(CaptureFailed, hooks.restore).state, [], Some(Capture(answers.prepare.value)))
          else
            var s := s.RunHooks(hooks.recheck);
            if !s.gate.StillPreparing(request) then
              Outcome(s.GoLocal(Emergency, hooks.restore).state, [], Some(Cancelled))
            else Outcome(s, [Prepare(peer, request)], None)
    }

    function Ready(request: u64, offered: Id128, hooks: Hooks): Outcome {
      if offered == 0 then Outcome(this, [], Some(StaleReply))
      else
        var s := RunHooks(hooks.load);
        if !s.gate.StillPreparing(request) || !route.PreparingRemote? || request != route.request
           || (route.session.Some? && route.session.value != offered)
        then Outcome(s, [], Some(StaleReply))
        else Outcome(s.(route := route.(session := Some(offered))), [], None)
    }

    /** Why a preparation must be given up now, if it must. */
    function GiveUp(nowMs: u64, keysReleased: bool): Option<ReturnReason>
      requires route.PreparingRemote?
    {
      if !gate.StillPreparing(route.request) then Some(Emergency)
      else if nowMs >= route.deadlineMs then Some(Timeout)
      else if (!keysReleased && route.commitSent)
           || ((!keysReleased || !route.keysReleasedSeen) && nowMs >= route.keysDeadlineMs) then Some(KeysHeld)
      else None
    }

    function Advance(nowMs: u64, keysReleased: bool, answers: Answers, hooks: Hooks): Outcome {
      if !route.PreparingRemote? then
        var s := if route.RemoteActive? then RunHooks(hooks.load) else this;
        if route.RemoteActive? && s.gate.IsLocal() then s.GoLocal(Emergency, hooks.restore)
        else Outcome(s, [], None)
      else
        var s := RunHooks(hooks.load);
        var reason := s.GiveUp(nowMs, keysReleased);
        if reason.Some? then s.GoLocal(reason.value, hooks.restore)
        else
          var s := s.(route := route.(keysReleasedSeen := keysReleased));
          if route.commitSent || !keysReleased || route.session.None? then Outcome(s, [], None)
          else
            var s := s.(calls := calls.(focused := calls.focused + 1));
            if answers.focus.Some? then s.GoLocal(FocusUnavailable, hooks.restore)
            else
              var s := s.RunHooks(hooks.recheck);
              if !s.gate.StillPreparing(route.request) then s.GoLocal(Emergency, hooks.restore)
              else Outcome(s.(route := s.route.(commitSent := true)),
                           [Commit(route.request, route.session.value)], None)
    }

    function CommitAck(request: u64, session: Id128, nowMs: u64, answers: Answers, hooks: Hooks): Outcome {
      if !route.PreparingRemote? || route.request != request || route.session != Some(session) || !route.commitSent
      then Outcome(this, [], Some(StaleReply))
      else if nowMs >= route.deadlineMs then
        Outcome(GoLocal(Timeout, hooks.restore).state, [], Some(Cancelled))
      else
        var s := RunHooks(hooks.load);
        if !s.gate.StillPreparing(request) then
          Outcome(s.GoLocal(Emergency, hooks.restore).state, [], Some(Cancelled))
        else
          var s := s.(calls := calls.(activated := calls.activated + 1));
          if answers.activate.Some? then
            Outcome(s.GoLocal(CaptureFailed, hooks.restore).state, [], Some(Capture(answers.activate.value)))
          else
            var s := s.RunHooks(hooks.recheck);
            var (gate', activated) := s.gate.Activate(request);
            if !activated then Outcome(s.GoLocal(Emergency, hooks.restore).state, [], Some(Cancelled))
            else Outcome(s.(route := RemoteActive(route.peer, session), gate := gate'), [], None)
    }

    function GoLocal(reason: ReturnReason, hooks: nat): Outcome {
      var effects :=
        if route.RemoteActive? then [End(route.activeSession, reason)]
        else if route.PreparingRemote? && route.session.Some? then [End(route.session.value, reason)]
        else if route.PreparingRemote? then [Cancel(route.request)]
        else [];
      Outcome(
        this.(route := LocalRoute(), gate := gate.Hooked(hooks).RequestLocal(), lastReturn := Some(reason),
              calls := if route.Local() then calls else calls.(restored := calls.restored + 1)),
        effects, None)
    }
  }

  const InitialCalls := Calls(0, 0, 0, 0)
  const InitialRouter := RouterState(LocalDesktop, false, Fresh, None, InitialCalls)

  /** The capture and focus ports.  Their answers are fields nothing constrains. */
  class Ports {
    var prepared: nat
    var activated: nat
    var restored: nat
    var focused: nat
    var prepareAnswer: Option<PortError>
    var activateAnswer: Option<PortError>
    var focusAnswer: Option<PortError>

    function Counted(): Calls reads this { Calls(prepared, activated, restored, focused) }
    function Replies(): Answers reads this { Answers(prepareAnswer, activateAnswer, focusAnswer) }

    constructor ()
      ensures Counted() == InitialCalls
    {
      prepared, activated, restored, focused := 0, 0, 0, 0;
      prepareAnswer, activateAnswer, focusAnswer := None, None, None;
    }

    method PrepareCapture() returns (failure: Option<PortError>)
      modifies this`prepared
      ensures prepared == old(prepared) + 1 && failure == prepareAnswer
    {
      prepared := prepared + 1;
      failure := prepareAnswer;
    }

    method ActivateCapture() returns (failure: Option<PortError>)
      modifies this`activated
      ensures activated == old(activated) + 1 && failure == activateAnswer
    {
      activated := activated + 1;
      failure := activateAnswer;
    }

    method RequestLocalRestore()
      modifies this`restored
      ensures restored == old(restored) + 1
    {
      restored := restored + 1;
    }

    method PrepareFocus() returns (failure: Option<PortError>)
      modifies this`focused
      ensures focused == old(focused) + 1 && failure == focusAnswer
    {
      focused := focused + 1;
      failure := focusAnswer;
    }
  }

  class Router {
    var route: RouteState
    var gameMode: bool
    var lastReturn: Option<ReturnReason>
    const gate: LocalOverride

    ghost function View(ports: Ports): RouterState
      reads this, gate, ports
    {
      RouterState(route, gameMode, gate.View(), lastReturn, ports.Counted())
    }

    constructor (gate: LocalOverride)
      ensures this.gate == gate
      ensures route == LocalDesktop && !gameMode && lastReturn == None
    {
      this.gate := gate;
      route, gameMode, lastReturn := LocalDesktop, false, None;
    }

    method SetGameMode(enabled: bool, ghost ports: Ports)
      modifies this
      ensures View(ports) == old(View(ports)).SetGameMode(enabled)
    {
      gameMode := enabled;
      if route.LocalDesktop? || route.LocalGame? {
        route := if gameMode then LocalGame else LocalDesktop;
      }
    }

    method GoRemote(peer: string, nowMs: u64, ports: Ports, hooks: Hooks)
      returns (effects: seq<RouteEffect>, error: Option<RouteError>)
      modifies this, gate, ports
      ensures Outcome(View(ports), effects, error)
           == old(View(ports).GoRemote(peer, nowMs, ports.Replies(), hooks))
      ensures ports.Replies() == old(ports.Replies())
    {
      hide ValidText, Gate.Hooked, Gate.Reserve, Gate.StillPreparing, RouterState.GoLocal;
      effects, error := [], None;
      if !ValidText(peer, MAX_PEER_ID_BYTES) { return [], Some(InvalidPeer); }
      match route {
        case PreparingRemote(current, _, _, _, _, _, _) =>
          return [], if current == peer then None else Some(Busy);
        case RemoteActive(current, _) =>
          return [], if current == peer then None else Some(Busy);
        case ReturningLocal(_) => return [], Some(Busy);
        case _ =>
      }
      if nowMs > U64_MAX - HANDOFF_TIMEOUT_MS || nowMs > U64_MAX - KEYS_RELEASE_TIMEOUT_MS {
        return [], Some(Exhausted);
      }
      gate.RunHooks(hooks.load);
      var ticket := gate.Reserve();
      if ticket.None? { return [], Some(Exhausted); }
      var request := ticket.value;
      route := PreparingRemote(peer, request, nowMs + HANDOFF_TIMEOUT_MS,
                               nowMs + KEYS_RELEASE_TIMEOUT_MS, false, None, false);
      var failure := ports.PrepareCapture();
      if failure.Some? {
        var _ := GoLocal(CaptureFailed, ports, hooks.restore);
        return [], Some(Capture(failure.value));
      }
      gate.RunHooks(hooks.recheck);
      var still := gate.StillPreparing(request);
      if !still {
        var _ := GoLocal(Emergency, ports, hooks.restore);
        return [], Some(Cancelled);
      }
      effects := [Prepare(peer, request)];
    }

    method Ready(request: u64, offered: Id128, ghost ports: Ports, hooks: Hooks) returns (error: Option<RouteError>)
      modifies this, gate
      ensures Outcome(View(ports), [], error) == old(View(ports)).Ready(request, offered, hooks)
    {
      if offered == 0 { return Some(StaleReply); }
      gate.RunHooks(hooks.load);
      var still := gate.StillPreparing(request);
      if !still || !route.PreparingRemote? { return Some(StaleReply); }
      if request != route.request || (route.session.Some? && route.session.value != offered) {
        return Some(StaleReply);
      }
      route := route.(session := Some(offered));
      error := None;
    }

    method Advance(nowMs: u64, keysReleased: bool, ports: Ports, hooks: Hooks) returns (effects: seq<RouteEffect>)
      modifies this, gate, ports
      ensures Outcome(View(ports), effects, None)
           == old(View(ports).Advance(nowMs, keysReleased, ports.Replies(), hooks))
      ensures ports.Replies() == old(ports.Replies())
    {
      hide Gate.Hooked, Gate.StillPreparing, Gate.IsLocal, RouterState.GoLocal;
      effects := [];
      if !route.PreparingRemote? {
        if route.RemoteActive? {
          gate.RunHooks(hooks.load);
          var local := gate.IsLocal();
          if local { effects := GoLocal(Emergency, ports, hooks.restore); }
        }
        return;
      }
      var entered := route;
      gate.RunHooks(hooks.load);
      var still := gate.StillPreparing(entered.request);
      var reason: Option<ReturnReason> := None;
      if !still {
        reason := Some(Emergency);
      } else if nowMs >= entered.deadlineMs {
        reason := Some(Timeout);
      } else if (!keysReleased && entered.commitSent)
             || ((!keysReleased || !entered.keysReleasedSeen) && nowMs >= entered.keysDeadlineMs) {
        reason := Some(KeysHeld);
      }
      if reason.Some? {
        effects := GoLocal(reason.value, ports, hooks.restore);
        return;
      }
      route := route.(keysReleasedSeen := keysReleased);
      if entered.commitSent || !keysReleased || entered.session.None? { return; }
      var failure := ports.PrepareFocus();
      if failure.Some? {
        effects := GoLocal(FocusUnavailable, ports, hooks.restore);
        return;
      }
      gate.RunHooks(hooks.recheck);
      still := gate.StillPreparing(entered.request);
      if !still {
        effects := GoLocal(Emergency, ports, hooks.restore);
        return;
      }
      route := route.(commitSent := true);
      effects := [Commit(entered.request, entered.session.value)];
    }

    method CommitAck(request: u64, session: Id128, nowMs: u64, ports: Ports, hooks: Hooks)
      returns (error: Option<RouteError>)
      modifies this, gate, ports
      ensures Outcome(View(ports), [], error)
           == old(View(ports).CommitAck(request, session, nowMs, ports.Replies(), hooks))
      ensures ports.Replies() == old(ports.Replies())
    {
      hide Gate.Hooked, Gate.StillPreparing, RouterState.GoLocal;
      if !route.PreparingRemote? { return Some(StaleReply); }
      var entered := route;
      if entered.request != request || entered.session != Some(session) || !entered.commitSent {
        return Some(StaleReply);
      }
      if nowMs >= entered.deadlineMs {
        var _ := GoLocal(Timeout, ports, hooks.restore);
        return Some(Cancelled);
      }
      gate.RunHooks(hooks.load);
      var still := gate.StillPreparing(request);
      if !still {
        var _ := GoLocal(Emergency, ports, hooks.restore);
        return Some(Cancelled);
      }
      var failure := ports.ActivateCapture();
      if failure.Some? {
        var _ := GoLocal(CaptureFailed, ports, hooks.restore);
        return Some(Capture(failure.value));
      }
      gate.RunHooks(hooks.recheck);
      var activated := gate.Activate(request);
      if !activated {
        var _ := GoLocal(Emergency, ports, hooks.restore);
        return Some(Cancelled);
      }
      route := RemoteActive(entered.peer, session);
      error := None;
    }

    method GoLocal(reason: ReturnReason, ports: Ports, hooks: nat) returns (effects: seq<RouteEffect>)
      modifies this, gate, ports
      ensures Outcome(View(ports), effects, None) == old(View(ports)).GoLocal(reason, hooks)
      ensures ports.Replies() == old(ports.Replies())
    {
      hide Gate.Hooked, Gate.RequestLocal;
      gate.RunHooks(hooks);
      gate.RequestLocal();
      var before := route;
      route := ReturningLocal(reason);
      if !before.LocalDesktop? && !before.LocalGame? { ports.RequestLocalRestore(); }
      lastReturn := Some(reason);
      route := if gameMode then LocalGame else LocalDesktop;
      match before {
        case RemoteActive(_, session) => effects := [End(session, reason)];
        case PreparingRemote(_, request, _, _, _, session, _) =>
          effects := [if session.Some? then End(session.value, reason) else Cancel(request)];
        case _ => effects := [];
      }
    }
  }
}
