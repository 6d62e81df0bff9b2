/** What the router keeps over whole runs: any operations, in any order, with any
    platform answers and any number of local requests between two gate accesses. */
module RouterRuns {
  import opened Base
  import opened Gates
  import opened Routing

  datatype RouterEvent =
    | HookFires
    | SetGameMode(enabled: bool)
    | GoRemote(peer: string, nowMs: u64, answers: Answers, hooks: Hooks)
    | Ready(request: u64, offered: Id128, hooks: Hooks)
    | Advance(nowMs: u64, keysReleased: bool, answers: Answers, hooks: Hooks)
    | CommitAck(request: u64, session: Id128, nowMs: u64, answers: Answers, hooks: Hooks)
    | GoLocal(reason: ReturnReason, count: nat)

  function Step(s: RouterState, e: RouterEvent): Outcome {
    match e
    case HookFires => Outcome(s.RunHooks(1), [], None)
    case SetGameMode(enabled) => Outcome(s.SetGameMode(enabled), [], None)
    case GoRemote(peer, now, answers, hooks) => s.GoRemote(peer, now, answers, hooks)
    case Ready(request, offered, hooks) => s.Ready(request, offered, hooks)
    case Advance(now, released, answers, hooks) => s.Advance(now, released, answers, hooks)
    case CommitAck(request, session, now, answers, hooks) => s.CommitAck(request, session, now, answers, hooks)
    case GoLocal(reason, count) => s.GoLocal(reason, count)
  }

  function Run(events: seq<RouterEvent>): RouterState {
    if events == [] then InitialRouter
    else Step(Run(events[..|events| - 1]), events[|events| - 1]).state
  }

  lemma RunOne(events: seq<RouterEvent>, k: nat)
    requires k < |events|
    ensures Run(events[..k + 1]) == Step(Run(events[..k]), events[k]).state
  {
    assert events[..k + 1][..k] == events[..k];
  }

  /** The generation of the latest reservation, or 0. */
  function LastReserved(log: seq<GateEvent>): u64 {
    if log == [] then 0
    else if log[|log| - 1].Reserved? then log[|log| - 1].generation
    else LastReserved(log[..|log| - 1])
  }

  ghost predicate OddActivations(log: seq<GateEvent>) {
    forall i :: 0 <= i < |log| && log[i].Activated? ==> log[i].generation % 2 == 1
  }

  ghost predicate RouterOk(s: RouterState) {
    && s.gate.Consistent()
    && OddActivations(s.gate.log)
    && !s.route.ReturningLocal?
    && (!s.gate.IsLocal() ==> s.route.RemoteActive? && s.gate.word + 1 == LastReserved(s.gate.log))
    && (s.route.PreparingRemote? ==>
          && s.route.request == LastReserved(s.gate.log)
          && 0 < s.route.request <= s.gate.word && s.route.request < U64_MAX && s.route.request % 2 == 1
          && s.route.deadlineMs == s.route.keysDeadlineMs + (HANDOFF_TIMEOUT_MS - KEYS_RELEASE_TIMEOUT_MS)
          && (s.route.session.Some? ==> s.route.session.value != 0)
          && (s.route.commitSent ==> s.route.session.Some?))
    && (s.route.RemoteActive? ==> LastReserved(s.gate.log) <= Generation(s.gate.word))
    && s.calls.prepared == s.calls.restored + (if s.route.Local() then 0 else 1)
  }

  /** The gate only adds to its log and never returns to an older generation. */
  ghost predicate Forward(before: Gate, after: Gate) {
    before.log <= after.log && Generation(before.word) <= Generation(after.word)
  }

  lemma LastReservedStep(log: seq<GateEvent>, event: GateEvent)
    ensures LastReserved(log + [event]) == if event.Reserved? then event.generation else LastReserved(log)
    ensures OddActivations(log) && (event.Activated? ==> event.generation % 2 == 1) ==> OddActivations(log + [event])
  {
    assert (log + [event])[..|log|] == log;
  }

  lemma {:induction false} HookedKeeps(gate: Gate, count: nat)
    requires gate.Consistent()
    ensures LastReserved(gate.Hooked(count).log) == LastReserved(gate.log)
    ensures OddActivations(gate.log) ==> OddActivations(gate.Hooked(count).log)
    decreases count
  {
    if count > 0 {
      RequestLocalConsistent(gate);
      LastReservedStep(gate.log, LocalRequested);
      HookedKeeps(gate.RequestLocal(), count - 1);
    }
  }

  lemma RunHooksOk(from: Gate, s: RouterState, count: nat)
    requires RouterOk(s) && Forward(from, s.gate)
    ensures RouterOk(s.RunHooks(count)) && Forward(from, s.RunHooks(count).gate)
    ensures LastReserved(s.RunHooks(count).gate.log) == LastReserved(s.gate.log)
    ensures count > 0 ==> s.RunHooks(count).gate.IsLocal()
  {
    HookedConsistent(s.gate, count);
    HookedKeeps(s.gate, count);
  }

  /** Every way home: the gate is local and one restore answers the one preparation. */
  lemma GoLocalOk(from: Gate, s: RouterState, reason: ReturnReason, hooks: nat)
    requires s.gate.Consistent() && OddActivations(s.gate.log) && Forward(from, s.gate)
    requires s.calls.prepared == s.calls.restored + (if s.route.Local() then 0 else 1)
    ensures var s' := s.GoLocal(reason, hooks).state;
      RouterOk(s') && s'.route.Local() && s'.gate.IsLocal() && Forward(from, s'.gate)
      && LastReserved(s'.gate.log) == LastReserved(s.gate.log)
  {
    var gate := s.gate.Hooked(hooks);
    HookedConsistent(s.gate, hooks);
    HookedKeeps(s.gate, hooks);
    RequestLocalConsistent(gate);
    LastReservedStep(gate.log, LocalRequested);
  }

  lemma ForwardReflexive(gate: Gate)
    ensures Forward(gate, gate)
  {
  }

  /** A successful reservation leaves the router preparing the newest request. */
  lemma OpenedOk(s: RouterState, peer: string, nowMs: u64, hooks: nat)
    requires RouterOk(s) && s.route.Local() && nowMs + HANDOFF_TIMEOUT_MS <= U64_MAX
    ensures var (reserved, ticket) := s.gate.Hooked(hooks).Reserve();
      && RouterOk(s.(gate := reserved)) && Forward(s.gate, reserved)
      && (ticket.Some? ==>
            RouterOk(s.(route := PreparingRemote(peer, ticket.value, nowMs + HANDOFF_TIMEOUT_MS,
                                                 nowMs + KEYS_RELEASE_TIMEOUT_MS, false, None, false),
                        gate := reserved, calls := s.calls.(prepared := s.calls.prepared + 1))))
  {
    hide Gate.Consistent, LastReserved, OddActivations, Gate.Hooked, Gate.RequestLocal;
    var gate := s.gate.Hooked(hooks);
    HookedConsistent(s.gate, hooks);
    HookedKeeps(s.gate, hooks);
    ReserveConsistent(gate);
    var ticket := gate.Reserve().1;
    if ticket.Some? { LastReservedStep(gate.log, Reserved(ticket.value)); }
  }

  lemma StepOkGoRemote(s: RouterState, peer: string, nowMs: u64, answers: Answers, hooks: Hooks)
    requires RouterOk(s)
    ensures var s' := s.GoRemote(peer, nowMs, answers, hooks).state; RouterOk(s') && Forward(s.gate, s'.gate)
  {
    hide Gate.Consistent, LastReserved, OddActivations, ValidText, Gate.Hooked, Gate.RequestLocal, Forward, Gate.Reserve;
    ForwardReflexive(s.gate);
    if s.route.Local() && nowMs + HANDOFF_TIMEOUT_MS <= U64_MAX {
      OpenedOk(s, peer, nowMs, hooks.load);
      var (reserved, ticket) := s.gate.Hooked(hooks.load).Reserve();
      if ticket.Some? {
        var prep := s.(
          route := PreparingRemote(peer, ticket.value, nowMs + HANDOFF_TIMEOUT_MS,
                                   nowMs + KEYS_RELEASE_TIMEOUT_MS, false, None, false),
          gate := reserved,
          calls := s.calls.(prepared := s.calls.prepared + 1));
        GoLocalOk(s.gate, prep, CaptureFailed, hooks.restore);
        RunHooksOk(s.gate, prep, hooks.recheck);
        var checked := prep.RunHooks(hooks.recheck);
        GoLocalOk(s.gate, checked, Emergency, hooks.restore);
      }
    }
  }

  lemma StepOkAdvance(s: RouterState, nowMs: u64, released: bool, answers: Answers, hooks: Hooks)
    requires RouterOk(s)
    ensures var s' := s.Advance(nowMs, released, answers, hooks).state;
      RouterOk(s') && Forward(s.gate, s'.gate) && LastReserved(s'.gate.log) == LastReserved(s.gate.log)
  {
    hide Gate.Consistent, LastReserved, OddActivations, Gate.Hooked, Forward, RouterState.GoLocal;
    ForwardReflexive(s.gate);
    RunHooksOk(s.gate, s, hooks.load);
    var loaded := s.RunHooks(hooks.load);
    if !s.route.PreparingRemote? {
      GoLocalOk(s.gate, loaded, Emergency, hooks.restore);
    } else {
      var reason := loaded.GiveUp(nowMs, released);
      if reason.Some? {
        GoLocalOk(s.gate, loaded, reason.value, hooks.restore);
      } else {
        var tried := loaded.(route := s.route.(keysReleasedSeen := released),
                             calls := s.calls.(focused := s.calls.focused + 1));
        GoLocalOk(s.gate, tried, FocusUnavailable, hooks.restore);
        RunHooksOk(s.gate, tried, hooks.recheck);
        GoLocalOk(s.gate, tried.RunHooks(hooks.recheck), Emergency, hooks.restore);
      }
    }
  }

  lemma ActivateOk(from: Gate, gate: Gate, request: u64)
    requires gate.Consistent() && OddActivations(gate.log) && Forward(from, gate) && request % 2 == 1
    ensures var gate' := gate.Activate(request).0;
      && gate'.Consistent() && OddActivations(gate'.log) && Forward(from, gate')
      && LastReserved(gate'.log) == LastReserved(gate.log)
  {
    ActivateConsistent(gate, request);
    LastReservedStep(gate.log, Activated(request));
  }

  lemma StepOkCommitAck(s: RouterState, request: u64, session: Id128, nowMs: u64, answers: Answers, hooks: Hooks)
    requires RouterOk(s)
    ensures var s' := s.CommitAck(request, session, nowMs, answers, hooks).state;
      RouterOk(s') && Forward(s.gate, s'.gate) && LastReserved(s'.gate.log) == LastReserved(s.gate.log)
  {
    hide Gate.Consistent, LastReserved, OddActivations, Gate.Hooked, Forward, RouterState.GoLocal;
    ForwardReflexive(s.gate);
    if s.route.PreparingRemote? {
      GoLocalOk(s.gate, s, Timeout, hooks.restore);
      RunHooksOk(s.gate, s, hooks.load);
      var loaded := s.RunHooks(hooks.load);
      GoLocalOk(s.gate, loaded, Emergency, hooks.restore);
      var active := loaded.(calls := s.calls.(activated := s.calls.activated + 1));
      GoLocalOk(s.gate, active, CaptureFailed, hooks.restore);
      RunHooksOk(s.gate, active, hooks.recheck);
      var last := active.RunHooks(hooks.recheck);
      ActivateOk(s.gate, last.gate, s.route.request);
      GoLocalOk(s.gate, last, Emergency, hooks.restore);
    }
  }

  lemma StepOk(s: RouterState, e: RouterEvent)
    requires RouterOk(s)
    ensures RouterOk(Step(s, e).state) && Forward(s.gate, Step(s, e).state.gate)
    ensures !e.GoRemote? ==> LastReserved(Step(s, e).state.gate.log) == LastReserved(s.gate.log)
  {
    hide Gate.Hooked, RouterState.GoRemote, RouterState.Advance, RouterState.CommitAck, RouterState.GoLocal;
    match e
    case HookFires => RunHooksOk(s.gate, s, 1);
    case SetGameMode(_) =>
    case GoRemote(peer, now, answers, hooks) => StepOkGoRemote(s, peer, now, answers, hooks);
    case Ready(request, offered, hooks) => RunHooksOk(s.gate, s, hooks.load);
    case Advance(now, released, answers, hooks) => StepOkAdvance(s, now, released, answers, hooks);
    case CommitAck(request, session, now, answers, hooks) =>
      StepOkCommitAck(s, request, session, now, answers, hooks);
    case GoLocal(reason, count) => GoLocalOk(s.gate, s, reason, count);
  }

  lemma {:induction false} RunOk(events: seq<RouterEvent>)
    ensures RouterOk(Run(events))
  {
    if events != [] {
      RunOk(events[..|events| - 1]);
      StepOk(Run(events[..|events| - 1]), events[|events| - 1]);
    }
  }

  // ----- main results

  /** Capture is conserved and `ReturningLocal` is never seen between operations. */
  lemma CaptureConserved(events: seq<RouterEvent>)
    ensures var s := Run(events);
      && s.calls.prepared == s.calls.restored + (if s.route.Local() then 0 else 1)
      && !s.route.ReturningLocal?
  {
    RunOk(events);
  }

  /** The gate points to the peer only while the router is active, and only for the
      request reserved last. */
  lemma RemoteGateMeansActive(events: seq<RouterEvent>)
    requires !Run(events).gate.IsLocal()
    ensures var s := Run(events);
      && s.route.RemoteActive?
      && s.gate.log != [] && s.gate.log[|s.gate.log| - 1] == Activated(LastReserved(s.gate.log))
      && s.gate.word == LastReserved(s.gate.log) - 1
  {
    RunOk(events);
    RemoteMeansJustActivated(Run(events).gate.log);
  }

  /** Once any thread asked for local control after request g was reserved, the gate
      never points to the peer for g. */
  lemma LocalRequestEndsRequest(events: seq<RouterEvent>, p: nat, q: nat)
    requires p < q < |Run(events).gate.log|
    requires Run(events).gate.log[p].Reserved? && Run(events).gate.log[q].LocalRequested?
    ensures Run(events).gate.word != Run(events).gate.log[p].generation - 1
  {
    hide ValidText, LastReserved, Gate.Hooked, Run;
    RunOk(events);
    var log := Run(events).gate.log;
    ReservedWord(log, p);
    if Run(events).gate.word == log[p].generation - 1 {
      RemoteMeansJustActivated(log);
      LocalRequestWins(log, p, q, |log| - 1);
      assert false;
    }
  }

  predicate Emits(events: seq<RouterEvent>, k: nat, request: u64)
    requires k < |events|
  {
    exists effect :: effect in Step(Run(events[..k]), events[k]).effects && effect.Commit? && effect.request == request
  }

  lemma CommitStep(s: RouterState, e: RouterEvent, effect: RouteEffect)
    requires RouterOk(s) && effect in Step(s, e).effects && effect.Commit?
    ensures e.Advance? && e.keysReleased && s.route.PreparingRemote? && !s.route.commitSent
    ensures effect == Commit(s.route.request, s.route.session.value)
    ensures e.nowMs < s.route.deadlineMs
    ensures s.route.keysReleasedSeen || e.nowMs < s.route.keysDeadlineMs
    ensures Step(s, e).state.route == s.route.(keysReleasedSeen := true, commitSent := true)
    ensures Step(s, e).state.calls == s.calls.(focused := s.calls.focused + 1)
  {
  }

  ghost predicate Preparing(s: RouterState, request: u64, startMs: u64) {
    && s.route.PreparingRemote? && s.route.request == request
    && s.route.deadlineMs == startMs + HANDOFF_TIMEOUT_MS
    && s.route.keysDeadlineMs == startMs + KEYS_RELEASE_TIMEOUT_MS
  }

  /** Event i opened the preparation that lasts at least until event k. */
  ghost predicate OpenedAt(events: seq<RouterEvent>, i: nat, k: nat, request: u64)
    requires k <= |events|
  {
    && i < k && events[i].GoRemote? && Run(events[..i]).route.Local()
    && (forall m :: i < m <= k ==> Preparing(Run(events[..m]), request, events[i].nowMs))
    && (!Run(events[..k]).route.commitSent ==>
          Run(events[..k]).calls.focused == Run(events[..i + 1]).calls.focused)
  }

  lemma StaysPreparing(s: RouterState, e: RouterEvent)
    requires RouterOk(s) && Step(s, e).state.route.PreparingRemote? && s.route.PreparingRemote?
    ensures var s' := Step(s, e).state;
      && s'.route.request == s.route.request
      && s'.route.deadlineMs == s.route.deadlineMs && s'.route.keysDeadlineMs == s.route.keysDeadlineMs
      && (s.route.commitSent ==> s'.route.commitSent)
      && (!s'.route.commitSent ==> s'.calls.focused == s.calls.focused)
      && s'.calls.activated == s.calls.activated
      && (!e.Advance? ==> s'.route.keysReleasedSeen == s.route.keysReleasedSeen)
      && (e.Advance? ==>
            && s'.route.keysReleasedSeen == e.keysReleased
            && (!e.keysReleased || !s.route.keysReleasedSeen ==> e.nowMs < s.route.keysDeadlineMs))
  {
  }

  lemma StartsPreparing(s: RouterState, e: RouterEvent)
    requires RouterOk(s) && Step(s, e).state.route.PreparingRemote? && !s.route.PreparingRemote?
    ensures e.GoRemote? && s.route.Local()
    ensures var s' := Step(s, e).state;
      && Preparing(s', s'.route.request, e.nowMs)
      && !s'.route.keysReleasedSeen && !s'.route.commitSent && s'.route.session == None
      && Generation(s.gate.word) < s'.route.request
      && s'.calls == s.calls.(prepared := s.calls.prepared + 1)
  {
    if e.GoRemote? && s.route.Local() {
      HookedConsistent(s.gate, e.hooks.load);
      ReserveConsistent(s.gate.Hooked(e.hooks.load));
    }
  }

  lemma {:induction false} PreparationWasOpened(events: seq<RouterEvent>, k: nat)
    requires k <= |events| && Run(events[..k]).route.PreparingRemote?
    ensures exists i: nat :: OpenedAt(events, i, k, Run(events[..k]).route.request)
    decreases k
  {
    hide RouterOk, Step, Gate.Consistent, ValidText;
    assert k > 0;
    RunOne(events, k - 1);
    RunOk(events[..k - 1]);
    var s, e := Run(events[..k - 1]), events[k - 1];
    var request := Run(events[..k]).route.request;
    if s.route.PreparingRemote? {
      StaysPreparing(s, e);
      PreparationWasOpened(events, k - 1);
      var i: nat :| OpenedAt(events, i, k - 1, request);
      assert OpenedAt(events, i, k, request);
    } else {
      StartsPreparing(s, e);
      assert OpenedAt(events, k - 1, k, request);
    }
  }

  /** Every sample taken by the events j, j+1, ..., k-1 saw all keys released. */
  ghost predicate ReleasedThroughout(events: seq<RouterEvent>, j: nat, k: nat)
    requires k <= |events|
  {
    forall i :: j <= i < k && events[i].Advance? ==> events[i].keysReleased
  }

  ghost predicate SampledInTime(events: seq<RouterEvent>, j: nat, k: nat, keysDeadlineMs: u64)
    requires k <= |events|
  {
    && j < k && events[j].Advance? && events[j].nowMs < keysDeadlineMs
    && ReleasedThroughout(events, j, k)
    && forall m :: j <= m <= k ==> Run(events[..m]).route.PreparingRemote?
  }

  lemma {:induction false} SeenMeansSampledInTime(events: seq<RouterEvent>, k: nat)
    requires k <= |events|
    requires Run(events[..k]).route.PreparingRemote? && Run(events[..k]).route.keysReleasedSeen
    ensures exists j: nat :: SampledInTime(events, j, k, Run(events[..k]).route.keysDeadlineMs)
    decreases k
  {
    hide RouterOk, Step, Gate.Consistent, ValidText;
    assert k > 0;
    RunOne(events, k - 1);
    RunOk(events[..k - 1]);
    var s, e := Run(events[..k - 1]), events[k - 1];
    var limit := Run(events[..k]).route.keysDeadlineMs;
    if !s.route.PreparingRemote? { StartsPreparing(s, e); }
    StaysPreparing(s, e);
    if s.route.keysReleasedSeen {
      SeenMeansSampledInTime(events, k - 1);
      var j: nat :| SampledInTime(events, j, k - 1, limit);
      assert SampledInTime(events, j, k, limit);
    } else {
      assert SampledInTime(events, k - 1, k, limit);
    }
  }

  /** Why request r could be committed by event k: it was opened by event `start`, all
      samples from event `sample` on saw the keys released, the first of them before
      the key deadline, and focus was asked for exactly once. */
  ghost predicate CommitJustified(events: seq<RouterEvent>, start: nat, sample: nat, k: nat, request: u64)
    requires k < |events|
  {
    && start < sample <= k && events[start].GoRemote? && events[sample].Advance? && events[k].Advance?
    && (forall m :: start < m <= k ==> Preparing(Run(events[..m]), request, events[start].nowMs))
    && events[sample].nowMs < events[start].nowMs + KEYS_RELEASE_TIMEOUT_MS
    && events[k].nowMs < events[start].nowMs + HANDOFF_TIMEOUT_MS
    && ReleasedThroughout(events, sample, k + 1)
    && Run(events[..k + 1]).calls.focused == Run(events[..start + 1]).calls.focused + 1
  }

  /** The key-release rule, over every run. */
  lemma KeyReleaseRule(events: seq<RouterEvent>, k: nat, request: u64)
    requires k < |events| && Emits(events, k, request)
    ensures exists start: nat, sample: nat :: CommitJustified(events, start, sample, k, request)
  {
    hide RouterOk, Step, Gate.Consistent, ValidText;
    RunOk(events[..k]);
    RunOne(events, k);
    var s, e := Run(events[..k]), events[k];
    var effect :| effect in Step(s, e).effects && effect.Commit? && effect.request == request;
    CommitStep(s, e, effect);
    PreparationWasOpened(events, k);
    var start: nat :| OpenedAt(events, start, k, request);
    var sample: nat := k;
    if s.route.keysReleasedSeen {
      SeenMeansSampledInTime(events, k);
      sample :| SampledInTime(events, sample, k, s.route.keysDeadlineMs);
      if sample <= start {
        assert false;
      }
    }
    assert CommitJustified(events, start, sample, k, request);
  }

  /** The request is behind the router: it can no longer be committed. */
  ghost predicate Spent(s: RouterState, request: u64) {
    && request <= Generation(s.gate.word)
    && (s.route.PreparingRemote? && s.route.request == request ==> s.route.commitSent)
  }

  /** The router no longer prepares this request and never will again. */
  ghost predicate Left(s: RouterState, request: u64) {
    && request <= Generation(s.gate.word)
    && !(s.route.PreparingRemote? && s.route.request == request)
  }

  lemma SpentStep(s: RouterState, e: RouterEvent, request: u64)
    requires RouterOk(s)
    ensures Spent(s, request) ==> Spent(Step(s, e).state, request)
    ensures Left(s, request) ==> Left(Step(s, e).state, request)
  {
    StepOk(s, e);
    var s' := Step(s, e).state;
    if s'.route.PreparingRemote? {
      if s.route.PreparingRemote? { StaysPreparing(s, e); } else { StartsPreparing(s, e); }
    }
  }

  lemma {:induction false} SpentForever(events: seq<RouterEvent>, j: nat, k: nat, request: u64)
    requires j <= k <= |events|
    ensures Spent(Run(events[..j]), request) ==> Spent(Run(events[..k]), request)
    ensures Left(Run(events[..j]), request) ==> Left(Run(events[..k]), request)
    decreases k
  {
    hide RouterOk, Step, Spent, Left;
    if j < k {
      SpentForever(events, j, k - 1, request);
      RunOne(events, k - 1);
      RunOk(events[..k - 1]);
      SpentStep(Run(events[..k - 1]), events[k - 1], request);
    }
  }

  /** A request is committed at most once. */
  lemma CommittedAtMostOnce(events: seq<RouterEvent>, j: nat, k: nat, request: u64)
    requires j < k < |events| && Emits(events, j, request)
    ensures !Emits(events, k, request)
  {
    RunOk(events[..j]);
    RunOk(events[..j + 1]);
    RunOne(events, j);
    var effect :| effect in Step(Run(events[..j]), events[j]).effects && effect.Commit? && effect.request == request;
    CommitStep(Run(events[..j]), events[j], effect);
    SpentForever(events, j + 1, k, request);
    if Emits(events, k, request) {
      RunOk(events[..k]);
      var again :| again in Step(Run(events[..k]), events[k]).effects && again.Commit? && again.request == request;
      CommitStep(Run(events[..k]), events[k], again);
      assert false;
    }
  }

  /** Event k asks the platform to activate capture. */
  ghost predicate Activates(events: seq<RouterEvent>, k: nat)
    requires k < |events|
  {
    Run(events[..k + 1]).calls.activated != Run(events[..k]).calls.activated
  }

  lemma ActivateStep(s: RouterState, e: RouterEvent)
    requires RouterOk(s) && Step(s, e).state.calls.activated != s.calls.activated
    ensures e.CommitAck? && s.route.PreparingRemote? && s.route.commitSent && s.route.request == e.request
    ensures Step(s, e).state.calls.activated == s.calls.activated + 1
    ensures !Step(s, e).state.route.PreparingRemote?
  {
  }

  /** Capture is activated at most once per request. */
  lemma ActivatedAtMostOncePerRequest(events: seq<RouterEvent>, j: nat, k: nat)
    requires j < k < |events| && Activates(events, j) && Activates(events, k)
    ensures Run(events[..j]).route.PreparingRemote? && Run(events[..k]).route.PreparingRemote?
    ensures Run(events[..j]).route.request != Run(events[..k]).route.request
  {
    RunOk(events[..j]);
    RunOk(events[..k]);
    RunOne(events, j);
    RunOne(events, k);
    ActivateStep(Run(events[..j]), events[j]);
    ActivateStep(Run(events[..k]), events[k]);
    StepOk(Run(events[..j]), events[j]);
    SpentForever(events, j + 1, k, Run(events[..j]).route.request);
  }

  /** A key held between commit and acknowledgement ends the handoff at once. */
  lemma HeldSampleReturnsLocal(events: seq<RouterEvent>, k: nat)
    requires k < |events| && events[k].Advance? && !events[k].keysReleased
    requires Run(events[..k]).route.PreparingRemote? && Run(events[..k]).route.commitSent
    ensures var s := Run(events[..k + 1]);
      && s.route.Local() && s.gate.IsLocal()
      && s.lastReturn in {Some(KeysHeld), Some(Timeout), Some(Emergency)}
  {
    RunOne(events, k);
    var s := Run(events[..k]);
    RunOk(events[..k]);
    RunHooksOk(s.gate, s, events[k].hooks.load);
    var loaded := s.RunHooks(events[k].hooks.load);
    GoLocalOk(s.gate, loaded, loaded.GiveUp(events[k].nowMs, false).value, events[k].hooks.restore);
  }
}
