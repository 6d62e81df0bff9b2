/** The one atomic word that both the actor and the operating-system hook threads
    write: a cancellation generation together with a local/remote bit.

    A `Gate` value carries the word and the log of every write that changed or
    could have changed it.  A log in the order the atomic operations took effect
    is an arbitrary interleaving of all threads, so a theorem about every legal
    log is a theorem about every interleaving. */
module Gates {
  import opened Base

  datatype GateEvent =
    | Reserved(generation: u64)
    | LocalRequested
    | Activated(generation: u64)

  datatype Gate = Gate(word: u64, log: seq<GateEvent>) {
    predicate IsLocal() { word % 2 == 1 }

    function RequestLocal(): Gate {
      Gate(Generation(SaturatingAdd(word, 2)), log + [LocalRequested])
    }

    /** `count` hook threads ask for local control, one after the other. */
    function Hooked(count: nat): Gate
      decreases count
    {
      if count == 0 then this else RequestLocal().Hooked(count - 1)
    }

    function Reserve(): (Gate, Option<u64>) {
      if word + 2 > U64_MAX then (this, None)
      else
        var next := Generation(word + 2);
        if next < U64_MAX then (Gate(next, log + [Reserved(next)]), Some(next)) else (this, None)
    }

    predicate StillPreparing(generation: u64) { word == generation }

    /** Compare-and-exchange of the generation for the same word with its low bit cleared. */
    function Activate(generation: u64): (Gate, bool) {
      if generation != U64_MAX && word == generation
      then (Gate(generation - generation % 2, log + [Activated(generation)]), true)
      else (this, false)
    }

    /** The word is what the log leaves behind. */
    predicate Consistent() { LegalLog(log) && word == WordAfter(log) }
  }

  /** `v | 1`: the generation a word belongs to, whichever side it points to. */
  function Generation(word: u64): u64 { if word % 2 == 0 then word + 1 else word }

  const Fresh := Gate(1, [])

  function WordAfter(log: seq<GateEvent>): u64 {
    if log == [] then 1 else
      match log[|log| - 1]
      case Reserved(g) => g
      case LocalRequested => Generation(SaturatingAdd(WordAfter(log[..|log| - 1]), 2))
      case Activated(g) => g - g % 2
  }

  /** Each event is one the atomic operations could have produced at its place. */
  predicate LegalLog(log: seq<GateEvent>) {
    log == [] ||
    var before := log[..|log| - 1];
    LegalLog(before) &&
    match log[|log| - 1]
    case Reserved(g) => WordAfter(before) + 2 <= U64_MAX && g == Generation(WordAfter(before) + 2) && g < U64_MAX
    case LocalRequested => true
    case Activated(g) => g != U64_MAX && WordAfter(before) == g
  }

  lemma OneMoreEvent(log: seq<GateEvent>, event: GateEvent)
    ensures (log + [event])[..|log|] == log
  {
  }

  lemma RequestLocalConsistent(gate: Gate)
    requires gate.Consistent()
    ensures gate.RequestLocal().Consistent() && gate.RequestLocal().IsLocal()
    ensures if gate.word < U64_MAX - 1 then Generation(gate.word) < gate.RequestLocal().word
            else gate.RequestLocal().word == U64_MAX
  {
    OneMoreEvent(gate.log, LocalRequested);
  }

  lemma ReserveConsistent(gate: Gate)
    requires gate.Consistent()
    ensures gate.Reserve().0.Consistent()
    ensures gate.Reserve().1.Some? ==>
      var g := gate.Reserve().1.value;
      && gate.Reserve().0.word == g && g % 2 == 1 && Generation(gate.word) < g < U64_MAX
      && gate.Reserve().0.log == gate.log + [Reserved(g)]
  {
    if gate.Reserve().1.Some? { OneMoreEvent(gate.log, Reserved(gate.Reserve().1.value)); }
  }

  lemma ActivateConsistent(gate: Gate, generation: u64)
    requires gate.Consistent()
    ensures gate.Activate(generation).0.Consistent()
  {
    OneMoreEvent(gate.log, Activated(generation));
  }

  lemma {:induction false} HookedConsistent(gate: Gate, count: nat)
    requires gate.Consistent()
    ensures var after := gate.Hooked(count);
      && after.Consistent()
      && (count == 0 ==> after == gate)
      && Generation(gate.word) <= Generation(after.word)
      && (count > 0 ==> after.IsLocal() && gate.word <= after.word)
      && (count > 0 && gate.word < U64_MAX - 1 ==> gate.word < after.word)
      && |after.log| == |gate.log| + count && after.log[..|gate.log|] == gate.log
      && (forall i :: |gate.log| <= i < |after.log| ==> after.log[i] == LocalRequested)
    decreases count
  {
    if count > 0 {
      RequestLocalConsistent(gate);
      HookedConsistent(gate.RequestLocal(), count - 1);
      assert gate.RequestLocal().log[..|gate.log|] == gate.log;
      var after := gate.Hooked(count);
      assert after.log[..|gate.log|] == after.log[..|gate.log| + 1][..|gate.log|];
      assert after.log[..|gate.log| + 1] == gate.RequestLocal().log;
    }
  }

  // ----- what every interleaving keeps

  lemma {:induction false} LegalPrefix(log: seq<GateEvent>, n: nat)
    requires LegalLog(log) && n <= |log|
    ensures LegalLog(log[..n])
  {
    if n < |log| {
      LegalPrefix(log[..|log| - 1], n);
      assert log[..|log| - 1][..n] == log[..n];
    } else {
      assert log[..n] == log;
    }
  }

  /** What one event does to the word it meets. */
  predicate StepsTo(before: u64, event: GateEvent, after: u64) {
    match event
    case Reserved(g) => before + 2 <= U64_MAX && g == Generation(before + 2) < U64_MAX && after == g
    case LocalRequested => after == Generation(SaturatingAdd(before, 2))
    case Activated(g) => g != U64_MAX && before == g && after == g - g % 2
  }

  lemma StepAt(log: seq<GateEvent>, i: nat)
    requires LegalLog(log) && i < |log|
    ensures StepsTo(WordAfter(log[..i]), log[i], WordAfter(log[..i + 1]))
  {
    LegalPrefix(log, i + 1);
    assert log[..i + 1][..i] == log[..i];
  }

  /** The generation never goes back. */
  lemma {:induction false} GenerationNeverDecreases(log: seq<GateEvent>, i: nat, j: nat)
    requires LegalLog(log) && i <= j <= |log|
    ensures Generation(WordAfter(log[..i])) <= Generation(WordAfter(log[..j]))
    decreases j
  {
    hide LegalLog, WordAfter;
    if i < j {
      GenerationNeverDecreases(log, i, j - 1);
      StepAt(log, j - 1);
    }
  }

  /** A local request or a new reservation leaves every older generation behind. */
  lemma RequestsOvertake(log: seq<GateEvent>, i: nat, j: nat)
    requires LegalLog(log) && i < j <= |log|
    requires log[i].LocalRequested? || log[i].Reserved?
    requires Generation(WordAfter(log[..i])) < U64_MAX
    ensures Generation(WordAfter(log[..i])) < Generation(WordAfter(log[..j]))
  {
    hide LegalLog, WordAfter;
    StepAt(log, i);
    GenerationNeverDecreases(log, i + 1, j);
  }

  lemma ReservedWord(log: seq<GateEvent>, i: nat)
    requires LegalLog(log) && i < |log| && log[i].Reserved?
    ensures WordAfter(log[..i + 1]) == log[i].generation
    ensures log[i].generation % 2 == 1 && log[i].generation < U64_MAX
    ensures Generation(WordAfter(log[..i])) < log[i].generation
  {
    hide LegalLog, WordAfter;
    StepAt(log, i);
  }

  lemma ActivatedWord(log: seq<GateEvent>, k: nat)
    requires LegalLog(log) && k < |log| && log[k].Activated?
    ensures WordAfter(log[..k]) == log[k].generation
    ensures WordAfter(log[..k + 1]) == log[k].generation - log[k].generation % 2
  {
    hide LegalLog, WordAfter;
    StepAt(log, k);
  }

  /** Local requests win: once any thread has asked for local control after
      generation g was reserved, g is never activated, whatever happens in between. */
  lemma LocalRequestWins(log: seq<GateEvent>, i: nat, j: nat, k: nat)
    requires LegalLog(log) && i < j < k < |log|
    requires log[i].Reserved? && log[j].LocalRequested?
    ensures log[k] != Activated(log[i].generation)
  {
    hide LegalLog, WordAfter;
    var g := log[i].generation;
    if log[k] == Activated(g) {
      ReservedWord(log, i);
      ActivatedWord(log, k);
      GenerationNeverDecreases(log, i + 1, j);
      GenerationNeverDecreases(log, j, k);
      RequestsOvertake(log, j, k);
      assert false;
    }
  }

  /** A reservation also retires every reservation before it. */
  lemma NewestReservationWins(log: seq<GateEvent>, i: nat, j: nat, k: nat)
    requires LegalLog(log) && i < j < k < |log|
    requires log[i].Reserved? && log[j].Reserved?
    ensures log[k] != Activated(log[i].generation) && log[i].generation < log[j].generation
  {
    hide LegalLog, WordAfter;
    ReservedWord(log, i);
    ReservedWord(log, j);
    GenerationNeverDecreases(log, i + 1, j);
    if log[k] == Activated(log[i].generation) {
      ActivatedWord(log, k);
      GenerationNeverDecreases(log, j + 1, k);
      assert false;
    }
  }

  /** A reserved generation is activated at most once. */
  lemma ActivatedAtMostOnce(log: seq<GateEvent>, j: nat, k: nat)
    requires LegalLog(log) && j < k < |log|
    requires log[j].Activated? && log[j].generation % 2 == 1
    ensures log[k] != log[j]
  {
    hide LegalLog, WordAfter;
    if log[k] == log[j] {
      var g := log[j].generation;
      ActivatedWord(log, j);
      ActivatedWord(log, k);
      StepAt(log, j);
      StaysRemoteOrMovesOn(log, j + 1, k, g);
      assert false;
    }
  }

  /** After g was activated the word is g with its low bit cleared, or a newer generation. */
  lemma {:induction false} StaysRemoteOrMovesOn(log: seq<GateEvent>, i: nat, j: nat, g: u64)
    requires LegalLog(log) && i <= j <= |log| && g % 2 == 1 && g < U64_MAX
    requires WordAfter(log[..i]) == g - 1 || WordAfter(log[..i]) > g
    ensures WordAfter(log[..j]) == g - 1 || WordAfter(log[..j]) > g
    decreases j
  {
    hide LegalLog, WordAfter;
    if i < j {
      StaysRemoteOrMovesOn(log, i, j - 1, g);
      StepAt(log, j - 1);
    }
  }

  /** A remote word is the doing of the latest write: nothing was requested after it. */
  lemma RemoteMeansJustActivated(log: seq<GateEvent>)
    requires LegalLog(log) && WordAfter(log) % 2 == 0
    ensures log != [] && log[|log| - 1].Activated?
    ensures WordAfter(log) == Generation(WordAfter(log)) - 1
  {
  }

  /** Exhaustion is final: at the largest word no operation ever points to the peer again. */
  lemma {:induction false} ExhaustedStaysLocal(log: seq<GateEvent>, i: nat, j: nat)
    requires LegalLog(log) && i <= j <= |log| && WordAfter(log[..i]) == U64_MAX
    ensures WordAfter(log[..j]) == U64_MAX
    decreases j
  {
    hide LegalLog, WordAfter;
    if i < j {
      ExhaustedStaysLocal(log, i, j - 1);
      StepAt(log, j - 1);
    }
  }

  /** The shared word itself.  The actor and the hooks reach it only through these methods. */
  class LocalOverride {
    var word: u64
    ghost var log: seq<GateEvent>

    ghost function View(): Gate reads this { Gate(word, log) }

    constructor ()
      ensures View() == Fresh
    {
      word, log := 1, [];
    }

    method IsLocal() returns (local: bool)
      ensures local == View().IsLocal()
    {
      local := word % 2 != 0;
    }

    method RequestLocal()
      modifies this
      ensures View() == old(View()).RequestLocal()
    {
      var sum := if word > U64_MAX - 2 then U64_MAX else word + 2;
      word := if sum % 2 == 0 then sum + 1 else sum;
      log := log + [LocalRequested];
    }

    /** Hook threads that run before the actor's next access. */
    method RunHooks(count: nat)
      modifies this
      ensures View() == old(View()).Hooked(count)
    {
      var n := 0;
      while n < count
        invariant n <= count
        invariant View().Hooked(count - n) == old(View()).Hooked(count)
      {
        RequestLocal();
        n := n + 1;
      }
    }

    method Reserve() returns (request: Option<u64>)
      modifies this
      ensures (View(), request) == old(View()).Reserve()
    {
      if word > U64_MAX - 2 { return None; }
      var next: u64 := if word % 2 == 0 then word + 3 else word + 2;
      if next == U64_MAX { return None; }
      word := next;
      log := log + [Reserved(next)];
      request := Some(next);
    }

    method StillPreparing(generation: u64) returns (same: bool)
      ensures same == View().StillPreparing(generation)
    {
      same := word == generation;
    }

    method Activate(generation: u64) returns (done: bool)
      modifies this
      ensures (View(), done) == old(View()).Activate(generation)
    {
      if generation == U64_MAX || word != generation { return false; }
      word := generation - generation % 2;
      log := log + [Activated(generation)];
      done := true;
    }
  }
}
