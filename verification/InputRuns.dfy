/** The two input streams of one session: how critical and motion frames refer to each
    other, and how the sender's numbering meets the receiver's gate. */
module InputRuns {
  import opened Base
  import Gates
  import RouterRuns
  import opened Inputs
  import opened Runtime
  import RuntimeRuns

  datatype Issue = Critical(critical: CriticalFrame) | Motion(motion: MotionFrame) {
    function Session(): SessionId { if Critical? then critical.sessionId else motion.sessionId }
  }

  /** The frame an event makes the runtime issue, if any. */
  function IssueOf(s: RuntimeState, e: RuntimeRuns.RuntimeEvent): seq<Issue> {
    match e
    case Input(event) =>
      var frame := s.NextInput(event).1;
      if frame.Ok? then [Critical(frame.value)] else []
    case Motion(x, y) =>
      var frame := s.NextMotion(x, y).1;
      if frame.Ok? then [Issue.Motion(frame.value)] else []
    case _ => []
  }

  predicate Opens(s: RuntimeState, e: RuntimeRuns.RuntimeEvent) {
    !s.IsActive() && RuntimeRuns.Step(s, e).state.IsActive()
  }

  /** Everything issued since the latest session opened, oldest first. */
  function SessionLog(start: RuntimeState, events: seq<RuntimeRuns.RuntimeEvent>): seq<Issue> {
    if events == [] then []
    else
      var before := events[..|events| - 1];
      var s, e := RuntimeRuns.Run(start, before), events[|events| - 1];
      if Opens(s, e) then [] else SessionLog(start, before) + IssueOf(s, e)
  }

  function Criticals(log: seq<Issue>): seq<CriticalFrame> {
    if log == [] then []
    else Criticals(log[..|log| - 1]) + (if log[|log| - 1].Critical? then [log[|log| - 1].critical] else [])
  }

  function Motions(log: seq<Issue>): seq<MotionFrame> {
    if log == [] then []
    else Motions(log[..|log| - 1]) + (if log[|log| - 1].Motion? then [log[|log| - 1].motion] else [])
  }

  /** Each frame carries the next number of its stream and names how far the other
      stream had come. */
  ghost predicate Placed(issue: Issue, criticals: nat, motions: nat) {
    match issue
    case Critical(f) => f.sequence == criticals + 1 && (f.event.Key? || f.event.motionSequence == motions >= 1)
    case Motion(f) => f.sequence == motions + 1 && f.requiredReliableSequence == criticals
  }

  ghost predicate PlacedAt(log: seq<Issue>, i: nat)
    requires i < |log|
  {
    log[i].Session() == log[0].Session() && Placed(log[i], |Criticals(log[..i])|, |Motions(log[..i])|)
  }

  ghost predicate Ordered(log: seq<Issue>) {
    forall i :: 0 <= i < |log| ==> PlacedAt(log, i)
  }

  ghost predicate LogInv(log: seq<Issue>, s: RuntimeState) {
    && Ordered(log)
    && (s.IsActive() ==>
          && s.inputSequence == |Criticals(log)| && s.motionSequence == |Motions(log)|
          && (log != [] ==> log[0].Session() == s.handshake.state.sessionId))
  }

  lemma OrderedGrows(log: seq<Issue>, issue: Issue)
    requires Ordered(log)
    requires log != [] ==> issue.Session() == log[0].Session()
    requires Placed(issue, |Criticals(log)|, |Motions(log)|)
    ensures Ordered(log + [issue])
  {
    var more := log + [issue];
    forall i | 0 <= i < |more|
      ensures PlacedAt(more, i)
    {
      assert more[..i] == log[..i];
      if i == |log| { assert log[..i] == log; } else { assert PlacedAt(log, i); }
    }
  }

  ghost predicate SessionStays(s: RuntimeState, s': RuntimeState, issued: bool) {
    && (s.IsActive() && s'.IsActive() ==> s'.handshake.state == s.handshake.state)
    && (s.IsActive() && s'.IsActive() && !issued ==>
          s'.inputSequence == s.inputSequence && s'.motionSequence == s.motionSequence)
    && (!s.IsActive() && s'.IsActive() ==> s'.inputSequence == 0 && s'.motionSequence == 0)
  }

  lemma ControlStays(s: RuntimeState, frame: Frame, nowMs: u64, env: Env)
    requires RuntimeRuns.Coupled(s)
    ensures SessionStays(s, s.HandleControl(frame, nowMs, env).state, false)
  {
    hide RouterRuns.RouterOk, Gates.Gate.Hooked, Gates.Gate.RequestLocal, Gates.Gate.Activate, ValidText;
    RuntimeRuns.ControlCoupled(s, frame, nowMs, env);
  }

  /** A session that stays open keeps its identity and, but for issued frames, its counters. */
  lemma OpenSessionStays(s: RuntimeState, e: RuntimeRuns.RuntimeEvent)
    requires RuntimeRuns.Coupled(s)
    ensures SessionStays(s, RuntimeRuns.Step(s, e).state, e.Input? || e.Motion?)
    ensures !s.IsActive() ==> IssueOf(s, e) == []
  {
    hide RouterRuns.RouterOk, Gates.Gate.Hooked, Gates.Gate.RequestLocal, ValidText, RuntimeState.HandleControl;
    match e
    case Begin(peer, display, revision, now, env) => RuntimeRuns.BeginCoupled(s, peer, display, revision, now, env);
    case Control(frame, now, env) => ControlStays(s, frame, now, env);
    case Advance(now, released, env) => RuntimeRuns.AdvanceCoupled(s, now, released, env);
    case GoLocal(reason, count) => RuntimeRuns.GoLocalCoupled(s, reason, count);
    case _ =>
  }

  lemma {:induction false} LogAlwaysOrdered(start: RuntimeState, events: seq<RuntimeRuns.RuntimeEvent>)
    requires RuntimeRuns.Initial(start)
    ensures LogInv(SessionLog(start, events), RuntimeRuns.Run(start, events))
  {
    if events != [] {
      var before := events[..|events| - 1];
      var s, e := RuntimeRuns.Run(start, before), events[|events| - 1];
      LogAlwaysOrdered(start, before);
      RuntimeRuns.AlwaysCoupled(start, before);
      LogStep(SessionLog(start, before), s, e);
    }
  }

  lemma LogStep(log: seq<Issue>, s: RuntimeState, e: RuntimeRuns.RuntimeEvent)
    requires LogInv(log, s) && RuntimeRuns.Coupled(s)
    ensures LogInv(if Opens(s, e) then [] else log + IssueOf(s, e), RuntimeRuns.Step(s, e).state)
  {
    hide RuntimeRuns.Coupled, Ordered, RuntimeState.HandleControl, RuntimeState.Advance, RuntimeState.Begin, RuntimeState.GoLocal;
    OpenSessionStays(s, e);
    assert Ordered([]) by { EmptyOrdered(); }
    var more := IssueOf(s, e);
    if more == [] {
      assert log + more == log;
    } else {
      assert more == [more[0]];
      OrderedGrows(log, more[0]);
      assert (log + more)[..|log|] == log;
    }
  }

  lemma EmptyOrdered()
    ensures Ordered([])
  {
  }

  // ----- main results

  /** Frame i of the log cannot be applied before frame j. */
  predicate DependsOn(log: seq<Issue>, i: nat, j: nat)
    requires i < |log| && j < |log|
  {
    || (log[i].Motion? && log[j].Critical? && log[j].critical.sequence <= log[i].motion.requiredReliableSequence)
    || (log[i].Critical? && !log[i].critical.event.Key? && log[j].Motion?
        && log[j].motion.sequence <= log[i].critical.event.motionSequence)
  }

  lemma {:induction false} CountsGrow(log: seq<Issue>, i: nat, j: nat)
    requires i < j <= |log|
    ensures |Criticals(log[..i])| + (if log[i].Critical? then 1 else 0) <= |Criticals(log[..j])|
    ensures |Motions(log[..i])| + (if log[i].Motion? then 1 else 0) <= |Motions(log[..j])|
    decreases j
  {
    assert log[..j][..j - 1] == log[..j - 1];
    if i < j - 1 { CountsGrow(log, i, j - 1); }
  }

  /** No reference points forward: the dependencies over both streams only lead back in
      the order of issue, so they have no cycle. */
  lemma DependenciesPointBack(start: RuntimeState, events: seq<RuntimeRuns.RuntimeEvent>, i: nat, j: nat)
    requires RuntimeRuns.Initial(start)
    requires i < |SessionLog(start, events)| && j < |SessionLog(start, events)|
    requires DependsOn(SessionLog(start, events), i, j)
    ensures j < i
  {
    LogAlwaysOrdered(start, events);
    var log := SessionLog(start, events);
    assert PlacedAt(log, i);
    assert PlacedAt(log, j);
    if i < j { CountsGrow(log, i, j); }
  }

  lemma {:induction false} EarlierCritical(log: seq<Issue>, i: nat, q: nat) returns (j: nat)
    requires Ordered(log) && i <= |log| && 1 <= q <= |Criticals(log[..i])|
    ensures j < i && log[j].Critical? && log[j].critical.sequence == q
    decreases i
  {
    assert log[..i][..i - 1] == log[..i - 1];
    if q <= |Criticals(log[..i - 1])| {
      j := EarlierCritical(log, i - 1, q);
    } else {
      j := i - 1;
      assert PlacedAt(log, j);
    }
  }

  lemma {:induction false} EarlierMotion(log: seq<Issue>, i: nat, q: nat) returns (j: nat)
    requires Ordered(log) && i <= |log| && 1 <= q <= |Motions(log[..i])|
    ensures j < i && log[j].Motion? && log[j].motion.sequence == q
    decreases i
  {
    assert log[..i][..i - 1] == log[..i - 1];
    if q <= |Motions(log[..i - 1])| {
      j := EarlierMotion(log, i - 1, q);
    } else {
      j := i - 1;
      assert PlacedAt(log, j);
    }
  }

  /** Critical frame number q was issued before position i. */
  predicate CriticalBefore(log: seq<Issue>, i: nat, q: int)
    requires i <= |log|
  {
    exists j :: 0 <= j < i && log[j].Critical? && log[j].critical.sequence == q
  }

  predicate MotionBefore(log: seq<Issue>, i: nat, q: int)
    requires i <= |log|
  {
    exists j :: 0 <= j < i && log[j].Motion? && log[j].motion.sequence == q
  }

  /** Every reference resolves: the frame it names was issued before. */
  lemma ReferencesResolve(start: RuntimeState, events: seq<RuntimeRuns.RuntimeEvent>, i: nat)
    requires RuntimeRuns.Initial(start) && i < |SessionLog(start, events)|
    ensures var log := SessionLog(start, events);
      && (log[i].Motion? ==> 
            forall q :: 1 <= q <= log[i].motion.requiredReliableSequence ==> CriticalBefore(log, i, q))
      && (log[i].Critical? && !log[i].critical.event.Key? ==>
            MotionBefore(log, i, log[i].critical.event.motionSequence))
  {
    LogAlwaysOrdered(start, events);
    var log := SessionLog(start, events);
    assert PlacedAt(log, i);
    if log[i].Motion? {
      forall q | 1 <= q <= log[i].motion.requiredReliableSequence
        ensures CriticalBefore(log, i, q)
      {
        var j := EarlierCritical(log, i, q);
      }
    } else if !log[i].critical.event.Key? {
      var j := EarlierMotion(log, i, log[i].critical.event.motionSequence);
    }
  }

  lemma {:induction false} CriticalsNumbered(log: seq<Issue>, n: nat)
    requires Ordered(log) && log != [] && n <= |log|
    ensures Numbered(Criticals(log[..n]), log[0].Session())
    decreases n
  {
    if n > 0 {
      assert log[..n][..n - 1] == log[..n - 1];
      CriticalsNumbered(log, n - 1);
      assert PlacedAt(log, n - 1);
    }
  }

  /** Sender meets receiver: a gate activated once for the session accepts the issued
      critical frames in full, as long as they are encodable and fewer than the largest
      sequence number. */
  lemma GateAcceptsTheSession(start: RuntimeState, events: seq<RuntimeRuns.RuntimeEvent>, gate: GateSide)
    requires RuntimeRuns.Initial(start) && SessionLog(start, events) != []
    requires var session := SessionLog(start, events)[0].Session();
      gate.active == Some(Stream(session, 1)) && session.receiverBoot == gate.localBoot
    requires var frames := Criticals(SessionLog(start, events));
      |frames| < U64_MAX && forall i :: 0 <= i < |frames| ==> CheckCritical(frames[i]).None?
    ensures var frames := Criticals(SessionLog(start, events)); Accepted(gate, Offers(frames)) == frames
  {
    LogAlwaysOrdered(start, events);
    var log := SessionLog(start, events);
    CriticalsNumbered(log, |log|);
    assert log[..|log|] == log;
    AcceptsInOrder(gate, log[0].Session(), Criticals(log));
  }

  // ----- what was issued is what was done

  /** What the caller did with success: struck a key, a button or the wheel, or moved. */
  datatype Deed = Struck(event: CriticalEvent) | Moved(x: i32, y: i32)

  /** Told from the call and its outcome alone. */
  function DeedOf(e: RuntimeRuns.RuntimeEvent, error: Option<RuntimeError>): seq<Deed> {
    match e
    case Input(event) => if error.None? then [Struck(event)] else []
    case Motion(x, y) => if error.None? then [Moved(x, y)] else []
    case _ => []
  }

  /** Everything done since the latest session opened, oldest first. */
  function Deeds(start: RuntimeState, events: seq<RuntimeRuns.RuntimeEvent>): seq<Deed> {
    if events == [] then []
    else
      var before := events[..|events| - 1];
      var s, e := RuntimeRuns.Run(start, before), events[|events| - 1];
      if Opens(s, e) then [] else Deeds(start, before) + DeedOf(e, RuntimeRuns.Step(s, e).error)
  }

  function StruckCount(deeds: seq<Deed>): nat {
    if deeds == [] then 0
    else StruckCount(deeds[..|deeds| - 1]) + if deeds[|deeds| - 1].Struck? then 1 else 0
  }

  function MovedCount(deeds: seq<Deed>): nat {
    if deeds == [] then 0
    else MovedCount(deeds[..|deeds| - 1]) + if deeds[|deeds| - 1].Moved? then 1 else 0
  }

  /** `sent` is the event that was given, a click or a scroll stamped with a motion. */
  predicate Conveys(sent: CriticalEvent, given: CriticalEvent, stamp: nat) {
    match given
    case Key(_, _, _, _) => sent == given
    case Button(button, down, x, y, _) =>
      sent.Button? && sent.button == button && sent.down == down && sent.x == x && sent.y == y
      && sent.motionSequence == stamp
    case Scroll(deltaX, deltaY, x, y, _) =>
      sent.Scroll? && sent.deltaX == deltaX && sent.deltaY == deltaY && sent.x == x && sent.y == y
      && sent.motionSequence == stamp
  }

  /** The frame issued for a deed, after `struck` strokes and `moved` motions of the session. */
  predicate IssuedFor(issue: Issue, deed: Deed, struck: nat, moved: nat) {
    match deed
    case Struck(event) =>
      issue.Critical? && issue.critical.sequence == struck + 1 && Conveys(issue.critical.event, event, moved)
    case Moved(x, y) =>
      issue.Motion? && issue.motion.sequence == moved + 1 && issue.motion.requiredReliableSequence == struck
      && issue.motion.x == x && issue.motion.y == y
  }

  ghost predicate Mirrors(log: seq<Issue>, deeds: seq<Deed>) {
    && |log| == |deeds|
    && forall i :: 0 <= i < |deeds| ==>
         IssuedFor(log[i], deeds[i], StruckCount(deeds[..i]), MovedCount(deeds[..i]))
  }

  lemma {:induction false} MirrorsCounts(log: seq<Issue>, deeds: seq<Deed>)
    requires Mirrors(log, deeds)
    ensures |Criticals(log)| == StruckCount(deeds) && |Motions(log)| == MovedCount(deeds)
    decreases |log|
  {
    hide Conveys;
    if log != [] {
      var n := |log| - 1;
      forall i | 0 <= i < n ensures deeds[..n][..i] == deeds[..i] && log[..n][i] == log[i] {}
      MirrorsCounts(log[..n], deeds[..n]);
      assert IssuedFor(log[n], deeds[n], StruckCount(deeds[..n]), MovedCount(deeds[..n]));
    }
  }

  lemma MirrorsMore(log: seq<Issue>, deeds: seq<Deed>, issue: Issue, deed: Deed)
    requires Mirrors(log, deeds) && IssuedFor(issue, deed, StruckCount(deeds), MovedCount(deeds))
    ensures Mirrors(log + [issue], deeds + [deed])
  {
    hide IssuedFor, StruckCount, MovedCount;
    var more := deeds + [deed];
    forall i | 0 <= i < |more|
      ensures IssuedFor((log + [issue])[i], more[i], StruckCount(more[..i]), MovedCount(more[..i]))
    {
      if i < |deeds| { assert more[..i] == deeds[..i]; } else { assert more[..i] == deeds; }
    }
  }

  /** One call: it issues a frame exactly if it succeeds, and the frame says what was done. */
  lemma IssueConveys(s: RuntimeState, e: RuntimeRuns.RuntimeEvent)
    ensures var deed := DeedOf(e, RuntimeRuns.Step(s, e).error);
      && |IssueOf(s, e)| == |deed| <= 1
      && (deed != [] ==>
            s.IsActive() && IssuedFor(IssueOf(s, e)[0], deed[0], s.inputSequence, s.motionSequence)
            && IssueOf(s, e)[0].Session() == s.handshake.state.sessionId)
  {
  }

  lemma MirrorStep(log: seq<Issue>, deeds: seq<Deed>, s: RuntimeState, e: RuntimeRuns.RuntimeEvent)
    requires Mirrors(log, deeds) && LogInv(log, s)
    ensures Mirrors(log + IssueOf(s, e), deeds + DeedOf(e, RuntimeRuns.Step(s, e).error))
  {
    hide Mirrors, IssuedFor, IssueOf, DeedOf, RuntimeRuns.Step, Ordered;
    IssueConveys(s, e);
    MirrorsCounts(log, deeds);
    var more, done := IssueOf(s, e), DeedOf(e, RuntimeRuns.Step(s, e).error);
    if done == [] {
      assert more == [] && log + more == log && deeds + done == deeds;
    } else {
      assert more == [more[0]] && done == [done[0]];
      MirrorsMore(log, deeds, more[0], done[0]);
    }
  }

  /** What a session issued is, frame by frame, what was done in it: a stroke goes out
      unchanged but for the number of the last motion, a motion to its own point. */
  lemma {:induction false} LogIsWhatWasDone(start: RuntimeState, events: seq<RuntimeRuns.RuntimeEvent>)
    requires RuntimeRuns.Initial(start)
    ensures Mirrors(SessionLog(start, events), Deeds(start, events))
  {
    hide Mirrors, IssueOf, DeedOf, RuntimeRuns.Step, LogInv;
    if events == [] {
      NothingMirrorsNothing();
    } else {
      var before := events[..|events| - 1];
      var s, e := RuntimeRuns.Run(start, before), events[|events| - 1];
      LogIsWhatWasDone(start, before);
      LogAlwaysOrdered(start, before);
      NothingMirrorsNothing();
      MirrorStep(SessionLog(start, before), Deeds(start, before), s, e);
    }
  }

  lemma NothingMirrorsNothing()
    ensures Mirrors([], [])
  {
  }
}
