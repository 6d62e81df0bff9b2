/** The clipboard engine at work: many engines exchanging operations, and one engine
    beside the operating system's clipboard. */
module ClipboardRuns {
  import opened Base
  import opened Clipboard

  // ----- a network of engines

  /** `seen[i]` is what engine i has dealt with, `pool` every operation ever created. */
  datatype Network = Network(engines: seq<Engine>, seen: seq<set<Operation>>, pool: set<Operation>)

  datatype NetworkEvent = NetworkEvent(peer: nat, event: Event)

  /** A received operation is one that was created; anything else is not delivered. */
  function NetStep(n: Network, e: NetworkEvent): Network
    requires |n.seen| == |n.engines|
    ensures |NetStep(n, e).seen| == |NetStep(n, e).engines| == |n.engines|
  {
    if e.peer >= |n.engines| || (e.event.Received? && e.event.operation !in n.pool) then n
    else
      var engine := n.engines[e.peer];
      var adds := Adds(engine, e.event);
      Network(n.engines[e.peer := Step(engine, e.event)], n.seen[e.peer := n.seen[e.peer] + adds], n.pool + adds)
  }

  function NetRun(start: Network, events: seq<NetworkEvent>): Network
    requires |start.seen| == |start.engines|
    ensures |NetRun(start, events).seen| == |NetRun(start, events).engines| == |start.engines|
  {
    if events == [] then start else NetStep(NetRun(start, events[..|events| - 1]), events[|events| - 1])
  }

  /** Freshly started engines of different peers. */
  ghost predicate Starting(n: Network) {
    && |n.seen| == |n.engines| && n.pool == {}
    && (forall i :: 0 <= i < |n.engines| ==> n.engines[i].currentOrder.None? && n.seen[i] == {}
                                              && n.engines[i].localSequence == 0)
    && (forall i, j :: 0 <= i < j < |n.engines| ==> n.engines[i].config.localPeer != n.engines[j].config.localPeer)
  }

  /** No engine creates an operation with its Lamport counter at the limit. */
  ghost predicate NetUnsaturated(start: Network, events: seq<NetworkEvent>)
    requires |start.seen| == |start.engines|
  {
    forall k :: 0 <= k < |events| ==> Unstuck(NetRun(start, events[..k]), events[k])
  }

  predicate Unstuck(n: Network, e: NetworkEvent) {
    e.peer < |n.engines| && !e.event.Received? && Adds(n.engines[e.peer], e.event) != {} ==>
      n.engines[e.peer].lamport < U64_MAX
  }

  /** The engine that created an operation still counts past it. */
  predicate CreatedBy(op: Operation, engine: Engine) {
    op.origin == engine.config.localPeer && op.id.localSequence <= engine.localSequence
  }

  ghost predicate Traceable(n: Network, op: Operation) {
    exists i :: 0 <= i < |n.engines| && CreatedBy(op, n.engines[i])
  }

  ghost predicate NetInv(n: Network) {
    && |n.seen| == |n.engines|
    && (forall i :: 0 <= i < |n.engines| ==>
          && HoldsMaximum(n.engines[i], n.seen[i]) && n.seen[i] <= n.pool
          && n.engines[i].localSequence <= n.engines[i].lamport)
    && (forall i, j :: 0 <= i < j < |n.engines| ==> n.engines[i].config.localPeer != n.engines[j].config.localPeer)
    && (forall op :: op in n.pool ==> Traceable(n, op))
    && (forall a, b :: a in n.pool && b in n.pool && a.Rank() == b.Rank() ==> a == b)
  }

  lemma StepKeepsIdentity(s: Engine, e: Event)
    requires s.localSequence <= s.lamport
    ensures var s' := Step(s, e);
      && s'.config == s.config && s.localSequence <= s'.localSequence <= s'.lamport
    ensures !e.Received? && s.lamport < U64_MAX ==> forall op :: op in Adds(s, e) ==>
      op.origin == s.config.localPeer && op.id.localSequence == s.localSequence + 1 == Step(s, e).localSequence
  {
    hide Utf8Length, ValidText;
  }

  lemma MaximumStep(s: Engine, seen: set<Operation>, e: Event)
    requires HoldsMaximum(s, seen)
    requires !e.Received? && Adds(s, e) != {} ==> s.lamport < U64_MAX
    ensures HoldsMaximum(Step(s, e), seen + Adds(s, e))
  {
    hide HoldsMaximum;
    match e
    case Observed(revision, content, limit) => ObserveMaximum(s, seen, revision, content, limit);
    case Resent(revision, content, limit) => CreatesMaximum(s, seen, revision, content, limit);
    case Received(operation, written) => ReceivesMaximum(s, seen, operation, written);
  }

  lemma ReceivedAddsItself(s: Engine, e: Event)
    requires e.Received?
    ensures Adds(s, e) <= {e.operation}
  {
  }

  lemma OneAdded(s: Engine, e: Event)
    ensures forall a, b :: a in Adds(s, e) && b in Adds(s, e) ==> a == b
  {
  }

  /** A new operation's number is beyond every operation its creator made before. */
  lemma FreshRank(n: Network, e: NetworkEvent, op: Operation, former: Operation)
    requires NetInv(n) && Unstuck(n, e) && e.peer < |n.engines| && !e.event.Received?
    requires op in Adds(n.engines[e.peer], e.event) && former in n.pool
    ensures op.Rank() != former.Rank()
  {
    hide HoldsMaximum, Step, Adds;
    StepKeepsIdentity(n.engines[e.peer], e.event);
    assert Traceable(n, former);
    var i :| 0 <= i < |n.engines| && CreatedBy(former, n.engines[i]);
    if i != e.peer { assert n.engines[i].config.localPeer != n.engines[e.peer].config.localPeer; }
  }

  lemma StaysTraceable(n: Network, e: NetworkEvent, op: Operation)
    requires NetInv(n) && Unstuck(n, e) && op in NetStep(n, e).pool
    ensures Traceable(NetStep(n, e), op)
  {
    hide HoldsMaximum, Step, Adds;
    var n' := NetStep(n, e);
    if n' != n {
      StepKeepsIdentity(n.engines[e.peer], e.event);
      if e.event.Received? { ReceivedAddsItself(n.engines[e.peer], e.event); }
      if op in n.pool {
        var i :| 0 <= i < |n.engines| && CreatedBy(op, n.engines[i]);
        assert CreatedBy(op, n'.engines[i]);
      } else {
        assert CreatedBy(op, n'.engines[e.peer]);
      }
    }
  }

  lemma NetStepInv(n: Network, e: NetworkEvent)
    requires NetInv(n) && Unstuck(n, e)
    ensures NetInv(NetStep(n, e))
  {
    hide HoldsMaximum, Step, Adds, Traceable, CreatedBy;
    var n' := NetStep(n, e);
    if n' != n {
      var engine := n.engines[e.peer];
      StepKeepsIdentity(engine, e.event);
      MaximumStep(engine, n.seen[e.peer], e.event);
      OneAdded(engine, e.event);
      if e.event.Received? { ReceivedAddsItself(engine, e.event); }
      forall op | op in n'.pool ensures Traceable(n', op) { StaysTraceable(n, e, op); }
      forall a, b | a in n'.pool && b in n.pool && a !in n.pool ensures a.Rank() != b.Rank() { FreshRank(n, e, a, b); }
    }
  }

  lemma {:induction false} NetAlways(start: Network, events: seq<NetworkEvent>)
    requires Starting(start) && NetUnsaturated(start, events)
    ensures NetInv(NetRun(start, events))
  {
    if events != [] {
      var before := events[..|events| - 1];
      forall k | 0 <= k < |before| ensures Unstuck(NetRun(start, before[..k]), before[k]) {
        assert before[..k] == events[..k];
        assert Unstuck(NetRun(start, events[..k]), events[k]);
      }
      NetAlways(start, before);
      assert Unstuck(NetRun(start, events[..|before|]), events[|before|]);
      NetStepInv(NetRun(start, before), events[|events| - 1]);
    }
  }

  /** Convergence of a whole network: any two engines that have dealt with the same
      operations, in whatever order and however often, hold the same one, and it is the
      greatest of them. */
  lemma NetworkConverges(start: Network, events: seq<NetworkEvent>, i: nat, j: nat)
    requires Starting(start) && NetUnsaturated(start, events)
    requires i < |start.engines| && j < |start.engines|
    requires NetRun(start, events).seen[i] == NetRun(start, events).seen[j] != {}
    ensures var n := NetRun(start, events);
      exists op :: op in n.seen[i]
        && n.engines[i].currentOrder == n.engines[j].currentOrder == Some(op.Rank())
        && n.engines[i].currentDigest == n.engines[j].currentDigest == Some(op.digest)
        && forall other :: other in n.seen[i] ==> AtMost(other.Rank(), op.Rank())
  {
    NetAlways(start, events);
    var n := NetRun(start, events);
    var seen := n.seen[i];
    var p :| p in seen && p.Rank() == n.engines[i].currentOrder.value && n.engines[i].currentDigest == Some(p.digest);
    var q :| q in seen && q.Rank() == n.engines[j].currentOrder.value && n.engines[j].currentDigest == Some(q.digest);
    TotalOrder(p.Rank(), q.Rank(), p.Rank());
  }

  // ----- every operation of the network is taken where it is new

  /** Peers with valid identities that hash alike. */
  ghost predicate Alike(n: Network, hash: string -> Digest) {
    forall i :: 0 <= i < |n.engines| ==> ValidConfig(n.engines[i].config) && n.engines[i].config.hash == hash
  }

  ghost predicate AllGenuine(n: Network, hash: string -> Digest) {
    forall op :: op in n.pool ==> Genuine(op, hash)
  }

  lemma StepKeepsConfig(s: Engine, e: Event)
    ensures Step(s, e).config == s.config
  {
    hide Utf8Length, ValidText, Below;
  }

  lemma StepAllGenuine(n: Network, e: NetworkEvent, hash: string -> Digest)
    requires |n.seen| == |n.engines| && Alike(n, hash) && AllGenuine(n, hash)
    ensures Alike(NetStep(n, e), hash) && AllGenuine(NetStep(n, e), hash)
  {
    hide Step, Adds, Genuine, ValidConfig;
    if e.peer < |n.engines| {
      var engine := n.engines[e.peer];
      StepKeepsConfig(engine, e.event);
      if e.event.Received? { ReceivedAddsItself(engine, e.event); }
      forall op | op in NetStep(n, e).pool && op !in n.pool ensures Genuine(op, hash) {
        SentIsTaken(engine, e.event, op, engine);
      }
    }
  }

  lemma {:induction false} PoolIsGenuine(start: Network, events: seq<NetworkEvent>, hash: string -> Digest)
    requires |start.seen| == |start.engines| && start.pool == {} && Alike(start, hash)
    ensures Alike(NetRun(start, events), hash) && AllGenuine(NetRun(start, events), hash)
  {
    hide Alike, AllGenuine;
    if events == [] {
      assert AllGenuine(start, hash) by { NothingIsFalse(start, hash); }
    } else {
      PoolIsGenuine(start, events[..|events| - 1], hash);
      StepAllGenuine(NetRun(start, events[..|events| - 1]), events[|events| - 1], hash);
    }
  }

  lemma NothingIsFalse(n: Network, hash: string -> Digest)
    requires n.pool == {}
    ensures AllGenuine(n, hash)
  {
  }

  /** Delivered to any engine of the network at any time, an operation that somebody
      created is rejected only if that engine's limits forbid it; it is applied if and only
      if the engine holds less; and once written it is what the engine holds. */
  lemma PoolIsTaken(start: Network, events: seq<NetworkEvent>, hash: string -> Digest, i: nat, op: Operation,
                    revision: u64)
    requires |start.seen| == |start.engines| && start.pool == {} && Alike(start, hash)
    requires i < |start.engines| && op in NetRun(start, events).pool
    ensures var n := NetRun(start, events); var engine := n.engines[i]; var decision := engine.ConsiderRemote(op).1;
      && (decision == RejectInvalid <==> !Admits(engine.config, op.content))
      && (decision == Apply <==> Admits(engine.config, op.content) && HoldsLess(engine, op))
      && (decision == Apply ==>
            var n' := NetStep(n, NetworkEvent(i, Received(op, Some(revision))));
            && n'.engines[i].currentOrder == Some(op.Rank())
            && n'.engines[i].currentDigest == Some(hash(op.content.Data())))
  {
    hide Alike, NetRun, Admits, HoldsLess, Config.Accepts;
    PoolIsGenuine(start, events, hash);
    var n := NetRun(start, events);
    assert n.engines[i].config.hash == hash by { AlikeAt(n, hash, i); }
    GenuineIsTaken(n.engines[i], op);
  }

  lemma AlikeAt(n: Network, hash: string -> Digest, i: nat)
    requires Alike(n, hash) && i < |n.engines|
    ensures n.engines[i].config.hash == hash
  {
  }

  // ----- one engine beside the system clipboard

  datatype Author = Nobody | TheUser | APeer

  /** The system clipboard: a revision that grows with every write, what was written
      last and by whom.  `copies` are the revisions of the user's copies, `sent` those
      of the automatic sends, oldest first. */
  datatype Host = Host(engine: Engine, revision: u64, content: Content, author: Author,
                       copies: set<u64>, sent: seq<u64>)

  datatype HostEvent =
    | UserCopies(content: Content, gap: u64)
    | Watch(limit: nat)
    | ResendByHand(limit: nat)
    | PeerSends(operation: Operation, works: bool, gap: u64)

  /** A write moves the revision forward by at least one; when it cannot, nothing is written. */
  function Next(h: Host, gap: u64): Option<u64> {
    if h.revision + 1 + gap > U64_MAX then None else Some(h.revision + 1 + gap)
  }

  function HostStep(h: Host, e: HostEvent): Host {
    match e
    case UserCopies(content, gap) =>
      var next := Next(h, gap);
      if next.None? then h
      else h.(revision := next.value, content := content, author := TheUser, copies := h.copies + {next.value})
    case Watch(limit) =>
      var (engine, decision) := h.engine.ObserveLocal(h.revision, h.content, limit);
      h.(engine := engine, sent := if decision.Send? then h.sent + [h.revision] else h.sent)
    case ResendByHand(limit) => h.(engine := h.engine.ManualResend(h.revision, h.content, limit).0)
    case PeerSends(operation, works, gap) =>
      var next := if works then Next(h, gap) else None;
      var s := h.(engine := Receive(h.engine, operation, next));
      if h.engine.ConsiderRemote(operation).1 == Apply && next.Some?
      then s.(revision := next.value, content := operation.content, author := APeer)
      else s
  }

  function HostRun(start: Host, events: seq<HostEvent>): Host {
    if events == [] then start else HostStep(HostRun(start, events[..|events| - 1]), events[|events| - 1])
  }

  ghost predicate StartingHost(h: Host) {
    h.engine == InitialEngine(h.engine.config, h.revision) && h.author == Nobody && h.copies == {} && h.sent == []
  }

  /** The engine knows that the clipboard's content needs no sending. */
  predicate Settled(h: Host) {
    || h.engine.lastLocalRevision == h.revision
    || (h.engine.echo.Some? && h.engine.echo.value.revision == h.revision
        && h.engine.echo.value.digest == h.engine.config.hash(h.content.Data()))
  }

  ghost predicate HostInv(h: Host) {
    && (h.author != TheUser ==> Settled(h))
    && (h.author == TheUser ==> h.revision in h.copies)
    && h.engine.lastLocalRevision <= h.revision
    && (h.engine.echo.Some? ==> h.engine.echo.value.revision <= h.revision)
    && (forall r :: r in h.copies ==> r <= h.revision)
    && (forall i :: 0 <= i < |h.sent| ==> h.sent[i] in h.copies && h.sent[i] <= h.engine.lastLocalRevision)
    && (forall i, j :: 0 <= i < j < |h.sent| ==> h.sent[i] < h.sent[j])
  }

  lemma HostStepInv(h: Host, e: HostEvent)
    requires HostInv(h)
    ensures HostInv(HostStep(h, e))
    ensures |HostStep(h, e).sent| > |h.sent| ==> e.Watch? && h.author == TheUser
    ensures HostStep(h, e).engine.config == h.engine.config
  {
    hide Below, ValidText, Utf8Length;
  }

  lemma {:induction false} HostAlways(start: Host, events: seq<HostEvent>)
    requires StartingHost(start)
    ensures HostInv(HostRun(start, events)) && HostRun(start, events).engine.config == start.engine.config
  {
    if events != [] {
      HostAlways(start, events[..|events| - 1]);
      HostStepInv(HostRun(start, events[..|events| - 1]), events[|events| - 1]);
    }
  }

  /** No ping-pong: the automatic sends belong to different copies by the user, so there
      are never more of them than copies. */
  lemma SendsAreUserCopies(start: Host, events: seq<HostEvent>)
    requires StartingHost(start)
    ensures var h := HostRun(start, events);
      && (forall i :: 0 <= i < |h.sent| ==> h.sent[i] in h.copies)
      && (forall i, j :: 0 <= i < j < |h.sent| ==> h.sent[i] != h.sent[j])
      && |h.sent| <= |h.copies|
  {
    HostAlways(start, events);
    var h := HostRun(start, events);
    DistinctMembers(h.sent, h.copies);
  }

  lemma {:induction false} DistinctMembers(s: seq<u64>, all: set<u64>)
    requires forall i :: 0 <= i < |s| ==> s[i] in all
    requires forall i, j :: 0 <= i < j < |s| ==> s[i] != s[j]
    ensures |s| <= |all|
  {
    if s != [] { DistinctMembers(s[1..], all - {s[0]}); }
  }

  /** What a peer wrote here is never sent automatically, however often it is looked at. */
  lemma PeerContentIsNeverSent(start: Host, events: seq<HostEvent>, limit: nat)
    requires StartingHost(start) && HostRun(start, events).author == APeer
    ensures var h := HostRun(start, events);
      !h.engine.ObserveLocal(h.revision, h.content, limit).1.Send?
      && HostStep(h, Watch(limit)).sent == h.sent
  {
    HostAlways(start, events);
  }

  /** A user's copy that fits is sent the first time it is looked at. */
  lemma UserCopyIsSentOnce(start: Host, events: seq<HostEvent>, content: Content, gap: u64, limit: nat)
    requires StartingHost(start) && Next(HostRun(start, events), gap).Some?
    requires Utf8Length(content.Data()) <= (if content.Text? then start.engine.config.textLimit else limit)
    ensures var copied := HostStep(HostRun(start, events), UserCopies(content, gap));
      var once := HostStep(copied, Watch(limit));
      && once.sent == copied.sent + [copied.revision]
      && HostStep(once, Watch(limit)).sent == once.sent
  {
    HostAlways(start, events);
  }
}
