/** The clipboard engine: a last-writer-wins register ordered by Lamport time, peer and
    operation, with suppression of the echo a remote write causes on this machine. */
module Clipboard {
  import opened Base

  const MAX_PEER_ID_BYTES: nat := 256

  type Digest = nat

  datatype OperationId = OperationId(bootId: Id128, localSequence: u64)

  datatype Content = Text(text: string) | Image(width: nat, height: nat, rgba: string) {
    /** The bytes that are hashed and measured. */
    function Data(): string { if Text? then text else rgba }
  }

  datatype Operation = Operation(id: OperationId, origin: string, systemRevision: u64, lamport: u64,
                                 digest: Digest, content: Content)
  {
    function Rank(): Order { Order(lamport, origin, id) }
  }

  // ----- the order of operations

  datatype Order = Order(lamport: u64, origin: string, id: OperationId)

  /** Strings compare by code point, as their UTF-8 bytes do. */
  predicate StringBelow(a: string, b: string) {
    if b == [] then false
    else if a == [] then true
    else if a[0] != b[0] then a[0] as int < b[0] as int
    else StringBelow(a[1..], b[1..])
  }

  predicate IdBelow(a: OperationId, b: OperationId) {
    a.bootId < b.bootId || (a.bootId == b.bootId && a.localSequence < b.localSequence)
  }

  predicate TieBelow(origin: string, id: OperationId, origin': string, id': OperationId) {
    StringBelow(origin, origin') || (origin == origin' && IdBelow(id, id'))
  }

  predicate Below(a: Order, b: Order) {
    a.lamport < b.lamport || (a.lamport == b.lamport && TieBelow(a.origin, a.id, b.origin, b.id))
  }

  lemma {:induction false} StringOrder(a: string, b: string, c: string)
    ensures !(StringBelow(a, b) && StringBelow(b, a)) && !StringBelow(a, a)
    ensures StringBelow(a, b) || StringBelow(b, a) || a == b
    ensures StringBelow(a, b) && StringBelow(b, c) ==> StringBelow(a, c)
    decreases |a|
  {
    if a != [] && b != [] && a[0] == b[0] {
      assert a == [a[0]] + a[1..] && b == [b[0]] + b[1..];
      StringOrder(a[1..], b[1..], if c != [] then c[1..] else []);
    } else if a != [] {
      StringOrder(a[1..], a[1..], a[1..]);
    }
  }

  /** Alike up to i, where one ends or is the smaller. */
  predicate FirstDifference(a: string, b: string, i: nat) {
    && i <= |a| && i < |b| && a[..i] == b[..i] && (i < |a| ==> a[i] as int < b[i] as int)
  }

  /** Strings are ordered by the first character in which they differ. */
  lemma {:induction false} FirstDifferenceDecides(a: string, b: string)
    ensures StringBelow(a, b) <==> exists i :: FirstDifference(a, b, i)
    decreases |a|
  {
    if a == [] {
      if b != [] { assert FirstDifference(a, b, 0); }
    } else if b != [] {
      if a[0] == b[0] {
        FirstDifferenceDecides(a[1..], b[1..]);
        if StringBelow(a[1..], b[1..]) {
          var i: nat :| FirstDifference(a[1..], b[1..], i);
          assert a[..i + 1] == [a[0]] + a[1..][..i] && b[..i + 1] == [b[0]] + b[1..][..i];
          assert FirstDifference(a, b, i + 1);
        }
        if i: nat :| FirstDifference(a, b, i) {
          assert a[..i][0] == a[0];
          assert a[1..][..i - 1] == a[..i][1..] && b[1..][..i - 1] == b[..i][1..];
          assert FirstDifference(a[1..], b[1..], i - 1);
        }
      } else {
        if StringBelow(a, b) { assert FirstDifference(a, b, 0); }
        if i: nat :| FirstDifference(a, b, i) {
          if i > 0 { assert a[..i][0] == b[..i][0]; }
        }
      }
    }
  }

  /** The order is total. */
  lemma TotalOrder(a: Order, b: Order, c: Order)
    ensures !(Below(a, b) && Below(b, a)) && !Below(a, a)
    ensures Below(a, b) || Below(b, a) || a == b
    ensures Below(a, b) && Below(b, c) ==> Below(a, c)
  {
    StringOrder(a.origin, b.origin, c.origin);
  }

  // ----- the engine

  datatype Config = Config(localPeer: string, bootId: Id128, textLimit: nat, hash: string -> Digest) {
    predicate Accepts(operation: Operation) {
      && ValidText(operation.origin, MAX_PEER_ID_BYTES)
      && operation.id.localSequence != 0 && operation.lamport != 0
      && operation.content.Data() != ""
      && (operation.content.Text? ==> Utf8Length(operation.content.text) <= textLimit)
      && (operation.content.Image? ==> operation.content.width != 0 && operation.content.height != 0)
      && operation.digest == hash(operation.content.Data())
    }
  }

  datatype Echo = Echo(revision: u64, digest: Digest, id: OperationId)

  datatype LocalDecision = Send(operation: Operation) | IsEcho | Unchanged | Oversized(bytes: nat, limit: nat)

  datatype RemoteDecision = Apply | IgnoreDuplicate | IgnoreStale | RejectInvalid

  datatype Engine = Engine(config: Config, lastLocalRevision: u64, localSequence: u64, lamport: u64,
                           currentOrder: Option<Order>, currentDigest: Option<Digest>, echo: Option<Echo>)
  {
    /** `limit` is what the caller allows an image; texts have the engine's own limit. */
    function ObserveLocal(revision: u64, content: Content, limit: nat): (Engine, LocalDecision) {
      var digest := config.hash(content.Data());
      if echo.Some? && echo.value.revision == revision && echo.value.digest == digest
      then (this.(lastLocalRevision := revision, echo := None), IsEcho)
      else if revision == lastLocalRevision then (this, Unchanged)
      else ManualResend(revision, content, limit)
    }

    function ManualResend(revision: u64, content: Content, limit: nat): (Engine, LocalDecision) {
      var s := this.(lastLocalRevision := revision, echo := None);
      var max := if content.Text? then config.textLimit else limit;
      if Utf8Length(content.Data()) > max then (s, Oversized(Utf8Length(content.Data()), max))
      else
        var operation := Operation(OperationId(config.bootId, SaturatingAdd(localSequence, 1)), config.localPeer,
                                   revision, SaturatingAdd(lamport, 1), config.hash(content.Data()), content);
        (s.(localSequence := operation.id.localSequence, lamport := operation.lamport,
            currentOrder := Some(operation.Rank()), currentDigest := Some(operation.digest)),
         Send(operation))
    }

    function ConsiderRemote(operation: Operation): (Engine, RemoteDecision) {
      if !config.Accepts(operation) then (this, RejectInvalid)
      else
        var s := this.(lamport := if lamport < operation.lamport then operation.lamport else lamport);
        (s, if currentOrder == Some(operation.Rank()) then IgnoreDuplicate
            else if currentOrder.Some? && Below(operation.Rank(), currentOrder.value) then IgnoreStale
            else Apply)
    }

    function CommitRemote(operation: Operation, revision: u64): Engine {
      this.(currentOrder := Some(operation.Rank()), currentDigest := Some(operation.digest),
            echo := Some(Echo(revision, operation.digest, operation.id)))
    }
  }

  predicate ValidConfig(config: Config) { ValidText(config.localPeer, MAX_PEER_ID_BYTES) && config.textLimit != 0 }

  function InitialEngine(config: Config, baseline: u64): Engine { Engine(config, baseline, 0, 0, None, None, None) }

  class ClipboardSyncEngine {
    const config: Config
    var lastLocalRevision: u64
    var localSequence: u64
    var lamport: u64
    var currentOrder: Option<Order>
    var currentDigest: Option<Digest>
    var echo: Option<Echo>

    ghost function View(): Engine reads this {
      Engine(config, lastLocalRevision, localSequence, lamport, currentOrder, currentDigest, echo)
    }

    constructor (config: Config, baseline: u64)
      requires ValidConfig(config)
      ensures View() == InitialEngine(config, baseline)
    {
      this.config := config;
      lastLocalRevision, localSequence, lamport := baseline, 0, 0;
      currentOrder, currentDigest, echo := None, None, None;
    }

    static method New(config: Config, baseline: u64) returns (engine: Result<ClipboardSyncEngine, string>)
      ensures engine.Ok? <==> ValidConfig(config)
      ensures engine.Ok? ==> fresh(engine.value) && engine.value.View() == InitialEngine(config, baseline)
      ensures engine.Err? ==>
        engine.error == if !ValidText(config.localPeer, MAX_PEER_ID_BYTES) then "invalid local peer id"
                        else "text limit must be positive"
    {
      if !ValidText(config.localPeer, MAX_PEER_ID_BYTES) { return Err("invalid local peer id"); }
      if config.textLimit == 0 { return Err("text limit must be positive"); }
      var made := new ClipboardSyncEngine(config, baseline);
      engine := Ok(made);
    }

    method ObserveLocal(revision: u64, content: Content, limit: nat) returns (decision: LocalDecision)
      modifies this
      ensures (View(), decision) == old(View()).ObserveLocal(revision, content, limit)
    {
      var digest := config.hash(content.Data());
      if echo.Some? && echo.value.revision == revision && echo.value.digest == digest {
        lastLocalRevision := revision;
        echo := None;
        return IsEcho;
      }
      if revision == lastLocalRevision { return Unchanged; }
      lastLocalRevision := revision;
      echo := None;
      decision := NewLocalOperation(revision, content, limit, digest);
    }

    method ManualResend(revision: u64, content: Content, limit: nat) returns (decision: LocalDecision)
      modifies this
      ensures (View(), decision) == old(View()).ManualResend(revision, content, limit)
    {
      lastLocalRevision := revision;
      echo := None;
      decision := NewLocalOperation(revision, content, limit, config.hash(content.Data()));
    }

    method NewLocalOperation(revision: u64, content: Content, limit: nat, digest: Digest)
      returns (decision: LocalDecision)
      requires lastLocalRevision == revision && echo == None && digest == config.hash(content.Data())
      modifies this
      ensures (View(), decision) == old(View()).ManualResend(revision, content, limit)
    {
      var max := if content.Text? then config.textLimit else limit;
      var bytes := Utf8Length(content.Data());
      if bytes > max { return Oversized(bytes, max); }
      localSequence := SaturatingAdd(localSequence, 1);
      lamport := SaturatingAdd(lamport, 1);
      var operation := Operation(OperationId(config.bootId, localSequence), config.localPeer,
                                 revision, lamport, digest, content);
      currentOrder := Some(operation.Rank());
      currentDigest := Some(operation.digest);
      decision := Send(operation);
    }

    method ConsiderRemote(operation: Operation) returns (decision: RemoteDecision)
      modifies this
      ensures (View(), decision) == old(View()).ConsiderRemote(operation)
    {
      if !config.Accepts(operation) { return RejectInvalid; }
      if lamport < operation.lamport { lamport := operation.lamport; }
      var incoming := operation.Rank();
      if currentOrder.None? { return Apply; }
      if incoming == currentOrder.value { return IgnoreDuplicate; }
      decision := if Below(incoming, currentOrder.value) then IgnoreStale else Apply;
    }

    method CommitRemote(operation: Operation, revision: u64)
      modifies this
      ensures View() == old(View()).CommitRemote(operation, revision)
    {
      currentOrder := Some(operation.Rank());
      currentDigest := Some(operation.digest);
      echo := Some(Echo(revision, operation.digest, operation.id));
    }
  }

  // ----- whole runs

  datatype Event =
    | Observed(revision: u64, content: Content, limit: nat)
    | Resent(revision: u64, content: Content, limit: nat)
    | Received(operation: Operation, written: Option<u64>)  // the revision of the write, if it worked

  /** Consider, write and commit are one step: the engine stays locked throughout. */
  function Receive(s: Engine, operation: Operation, written: Option<u64>): Engine {
    var (considered, decision) := s.ConsiderRemote(operation);
    if decision == Apply && written.Some? then considered.CommitRemote(operation, written.value) else considered
  }

  function Step(s: Engine, e: Event): Engine {
    match e
    case Observed(revision, content, limit) => s.ObserveLocal(revision, content, limit).0
    case Resent(revision, content, limit) => s.ManualResend(revision, content, limit).0
    case Received(operation, written) => Receive(s, operation, written)
  }

  /** The operation an event adds to those the engine has dealt with: one it created, or a
      valid one it received and did not fail to write. */
  function Adds(s: Engine, e: Event): set<Operation> {
    match e
    case Observed(revision, content, limit) =>
      var decision := s.ObserveLocal(revision, content, limit).1;
      if decision.Send? then {decision.operation} else {}
    case Resent(revision, content, limit) =>
      var decision := s.ManualResend(revision, content, limit).1;
      if decision.Send? then {decision.operation} else {}
    case Received(operation, written) =>
      var decision := s.ConsiderRemote(operation).1;
      if decision == RejectInvalid || (decision == Apply && written.None?) then {} else {operation}
  }

  function Run(start: Engine, events: seq<Event>): Engine {
    if events == [] then start else Step(Run(start, events[..|events| - 1]), events[|events| - 1])
  }

  function Seen(start: Engine, events: seq<Event>): set<Operation> {
    if events == [] then {}
    else
      var before := events[..|events| - 1];
      Seen(start, before) + Adds(Run(start, before), events[|events| - 1])
  }

  /** No operation was created with the Lamport counter at its limit. */
  ghost predicate Unsaturated(start: Engine, events: seq<Event>) {
    forall k :: 0 <= k < |events| && !events[k].Received? && Adds(Run(start, events[..k]), events[k]) != {} ==>
      Run(start, events[..k]).lamport < U64_MAX
  }

  predicate AtMost(a: Order, b: Order) { a == b || Below(a, b) }

  /** The engine holds the greatest operation it has seen. */
  ghost predicate HoldsMaximum(s: Engine, seen: set<Operation>) {
    && (s.currentOrder.None? <==> seen == {})
    && (s.currentOrder.Some? ==> Holds(s, seen))
    && forall op :: op in seen ==> op.lamport <= s.lamport && s.currentOrder.Some? && AtMost(op.Rank(), s.currentOrder.value)
  }

  ghost predicate Holds(s: Engine, seen: set<Operation>)
    requires s.currentOrder.Some?
  {
    exists op :: op in seen && op.Rank() == s.currentOrder.value && s.currentDigest == Some(op.digest)
  }

  lemma CreatesMaximum(s: Engine, seen: set<Operation>, revision: u64, content: Content, limit: nat)
    requires HoldsMaximum(s, seen)
    requires s.ManualResend(revision, content, limit).1.Send? ==> s.lamport < U64_MAX
    ensures var (s', decision) := s.ManualResend(revision, content, limit);
      HoldsMaximum(s', seen + (if decision.Send? then {decision.operation} else {}))
      && (decision.Send? ==> forall op :: op in seen ==> Below(op.Rank(), decision.operation.Rank()))
  {
    hide StringBelow, Utf8Length;
    var (s', decision) := s.ManualResend(revision, content, limit);
    if decision.Send? {
      assert decision.operation in seen + {decision.operation};
    } else {
      assert seen + {} == seen;
    }
  }

  lemma ReceivesMaximum(s: Engine, seen: set<Operation>, operation: Operation, written: Option<u64>)
    requires HoldsMaximum(s, seen)
    ensures HoldsMaximum(Receive(s, operation, written), seen + Adds(s, Received(operation, written)))
  {
    hide StringBelow, Utf8Length, Config.Accepts, Below;
    var more := Adds(s, Received(operation, written));
    if s.currentOrder.Some? {
      TotalOrder(operation.Rank(), s.currentOrder.value, s.currentOrder.value);
      forall op | op in seen
        ensures Below(s.currentOrder.value, operation.Rank()) ==> AtMost(op.Rank(), operation.Rank())
      {
        TotalOrder(op.Rank(), s.currentOrder.value, operation.Rank());
      }
      var held :| held in seen && held.Rank() == s.currentOrder.value && s.currentDigest == Some(held.digest);
      assert held in seen + more;
    }
    assert operation in more ==> operation in seen + more;
  }

  lemma {:induction false} AlwaysHoldsMaximum(start: Engine, events: seq<Event>)
    requires start.currentOrder.None? && Unsaturated(start, events)
    ensures HoldsMaximum(Run(start, events), Seen(start, events))
  {
    if events != [] {
      var before, e := events[..|events| - 1], events[|events| - 1];
      forall k | 0 <= k < |before| ensures before[..k] == events[..k] {}
      assert Unsaturated(start, before);
      AlwaysHoldsMaximum(start, before);
      var s, seen := Run(start, before), Seen(start, before);
      hide HoldsMaximum;
      match e
      case Observed(revision, content, limit) => ObserveMaximum(s, seen, revision, content, limit);
      case Resent(revision, content, limit) => CreatesMaximum(s, seen, revision, content, limit);
      case Received(operation, written) => ReceivesMaximum(s, seen, operation, written);
    }
  }

  lemma ObserveMaximum(s: Engine, seen: set<Operation>, revision: u64, content: Content, limit: nat)
    requires HoldsMaximum(s, seen)
    requires Adds(s, Observed(revision, content, limit)) != {} ==> s.lamport < U64_MAX
    ensures HoldsMaximum(s.ObserveLocal(revision, content, limit).0,
                         seen + Adds(s, Observed(revision, content, limit)))
  {
    if s.ObserveLocal(revision, content, limit) == s.ManualResend(revision, content, limit) {
      CreatesMaximum(s, seen, revision, content, limit);
    } else {
      assert seen + {} == seen;
    }
  }

  // ----- what is sent, and who takes it

  /** What the user asked for, or what the system clipboard was seen to hold, as sent. */
  ghost predicate SentFor(s: Engine, revision: u64, content: Content, operation: Operation) {
    && operation.content == content && operation.systemRevision == revision
    && operation.origin == s.config.localPeer && operation.id.bootId == s.config.bootId
    && operation.digest == s.config.hash(content.Data())
    && operation.id.localSequence == (if s.localSequence == U64_MAX then U64_MAX else s.localSequence + 1)
    && operation.lamport == (if s.lamport == U64_MAX then U64_MAX else s.lamport + 1)
  }

  /** The engine's limits admit the content: it is not empty, a text is short enough, an
      image has a size. */
  predicate Admits(config: Config, content: Content) {
    && content.Data() != ""
    && match content
       case Text(text) => Utf8Length(text) <= config.textLimit
       case Image(width, height, _) => width != 0 && height != 0
  }

  /** What an operation claims about its origin and content is true. */
  ghost predicate Genuine(operation: Operation, hash: string -> Digest) {
    && ValidText(operation.origin, MAX_PEER_ID_BYTES) && operation.id.localSequence != 0 && operation.lamport != 0
    && operation.digest == hash(operation.content.Data())
  }

  /** The engine has nothing yet, or something older. */
  predicate HoldsLess(s: Engine, operation: Operation) {
    s.currentOrder.None? || Below(s.currentOrder.value, operation.Rank())
  }

  /** Whatever engine is asked: it rejects an operation if and only if it is not genuine or
      its limits do not admit the content, and applies the others if and only if it holds
      less. */
  lemma GenuineIsTaken(s: Engine, operation: Operation)
    ensures var decision := s.ConsiderRemote(operation).1;
      var welcome := Genuine(operation, s.config.hash) && Admits(s.config, operation.content);
      && (decision == RejectInvalid <==> !welcome)
      && (decision == Apply <==> welcome && HoldsLess(s, operation))
      && (!welcome ==> s.ConsiderRemote(operation).0 == s)
  {
    hide ValidText, Utf8Length, Below;
    if s.currentOrder.Some? { TotalOrder(operation.Rank(), s.currentOrder.value, operation.Rank()); }
  }

  /** An event of this machine sends at most what it is about, if that is within the limit;
      the engine then holds it, and every engine with the same hash takes it unless its
      limits forbid or it holds something as new. */
  lemma SentIsTaken(s: Engine, e: Event, operation: Operation, other: Engine)
    requires ValidConfig(s.config) && other.config.hash == s.config.hash
    requires !e.Received? && operation in Adds(s, e)
    ensures SentFor(s, e.revision, e.content, operation) && Genuine(operation, s.config.hash)
    ensures Utf8Length(e.content.Data()) <= if e.content.Text? then s.config.textLimit else e.limit
    ensures Step(s, e).currentOrder == Some(operation.Rank()) && Step(s, e).currentDigest == Some(operation.digest)
    ensures var decision := other.ConsiderRemote(operation).1;
      && (decision == RejectInvalid <==> !Admits(other.config, e.content))
      && (decision == Apply <==> Admits(other.config, e.content) && HoldsLess(other, operation))
  {
    hide ValidText, Utf8Length, Below, Engine.ConsiderRemote;
    GenuineIsTaken(other, operation);
  }

  // ----- convergence

  /** No two different contents go by the same order. */
  ghost predicate Unambiguous(seen: set<Operation>) {
    forall a, b :: a in seen && b in seen && a.Rank() == b.Rank() ==> a.digest == b.digest
  }

  /** Engines that dealt with the same operations, in any order and any number of times,
      hold the same one. */
  lemma Convergence(a: Engine, atA: seq<Event>, b: Engine, atB: seq<Event>)
    requires a.currentOrder.None? && b.currentOrder.None?
    requires Unsaturated(a, atA) && Unsaturated(b, atB)
    requires Seen(a, atA) == Seen(b, atB) && Unambiguous(Seen(a, atA))
    ensures Run(a, atA).currentOrder == Run(b, atB).currentOrder
    ensures Seen(a, atA) != {} ==> Run(a, atA).currentDigest == Run(b, atB).currentDigest
  {
    AlwaysHoldsMaximum(a, atA);
    AlwaysHoldsMaximum(b, atB);
    var seen := Seen(a, atA);
    if seen != {} {
      var x := Run(a, atA);
      var y := Run(b, atB);
      var p :| p in seen && p.Rank() == x.currentOrder.value && x.currentDigest == Some(p.digest);
      var q :| q in seen && q.Rank() == y.currentOrder.value && y.currentDigest == Some(q.digest);
      TotalOrder(p.Rank(), q.Rank(), p.Rank());
    }
  }

  /** An operation created here is above everything seen before exactly when the clock can
      still advance or the tie falls its way. */
  lemma NewOperationIsAbove(start: Engine, events: seq<Event>, revision: u64, content: Content, limit: nat)
    requires start.currentOrder.None? && Unsaturated(start, events)
    requires Run(start, events).ManualResend(revision, content, limit).1.Send?
    ensures var s := Run(start, events);
      var created := s.ManualResend(revision, content, limit).1.operation;
      (forall op :: op in Seen(start, events) ==> Below(op.Rank(), created.Rank()))
      <==>
      (s.lamport < U64_MAX || s.currentOrder.None? || s.currentOrder.value.lamport < U64_MAX
       || TieBelow(s.currentOrder.value.origin, s.currentOrder.value.id, s.config.localPeer, created.id))
  {
    hide StringBelow, Utf8Length;
    AlwaysHoldsMaximum(start, events);
    var s := Run(start, events);
    var created := s.ManualResend(revision, content, limit).1.operation;
    if s.currentOrder.Some? {
      var held :| held in Seen(start, events) && held.Rank() == s.currentOrder.value;
      forall op | op in Seen(start, events)
        ensures Below(held.Rank(), created.Rank()) ==> Below(op.Rank(), created.Rank())
      {
        TotalOrder(op.Rank(), held.Rank(), created.Rank());
      }
    }
  }

  /** At the limit the register can go back: a peer's last possible operation is replaced
      by a local copy that every other engine ranks below it. */
  lemma SaturationGoesBack(hash: string -> Digest)
    ensures
      var remote := Operation(OperationId(2, 1), "b", 1, U64_MAX, hash("x"), Text("x"));
      var start := InitialEngine(Config("a", 1, 10, hash), 0);
      var events := [Received(remote, Some(1)), Observed(2, Text("y"), 0)];
      && Run(start, events[..1]).currentOrder == Some(remote.Rank())
      && Run(start, events).currentOrder.Some?
      && Below(Run(start, events).currentOrder.value, remote.Rank())
  {
    var remote := Operation(OperationId(2, 1), "b", 1, U64_MAX, hash("x"), Text("x"));
    var start := InitialEngine(Config("a", 1, 10, hash), 0);
    var events := [Received(remote, Some(1)), Observed(2, Text("y"), 0)];
    Utf8LengthBound("x");
    Utf8LengthBound("y");
    Utf8LengthBound("b");
    PlainTextIsValid("b", MAX_PEER_ID_BYTES);
    assert events[..1][..0] == [] && events[..|events| - 1] == events[..1];
    assert Run(start, []) == start;
    assert start.config.Accepts(remote);
    assert Run(start, events[..1]) == Receive(start, remote, Some(1));
    assert StringBelow("a", "b");
  }
}
