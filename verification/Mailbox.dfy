/** The latest-wins motion mailbox.  Any number of sender threads store a payload and
    schedule a flush; one transport loop takes the payload and may schedule again.  The
    state holds one program counter per thread, a step is one atomic access, and a run is
    any interleaving. */
module Mailbox {
  import opened Base

  type Payload = seq<byte>

  /** A stored payload and its place in the history of stores. */
  datatype Entry = Entry(index: nat, payload: Payload)

  datatype Sender =
    | Outside               // not in a call
    | Storing(payload: Payload)  // found the handle open
    | Scheduling            // stored, about to test `closed` again
    | Swapping              // about to swap `scheduled`
    | Queueing              // won the swap, about to queue a flush
    | Undoing               // queueing failed, about to reset `scheduled`

  datatype Flusher =
    | Waiting               // no flush command in hand
    | Checking              // took a command, about to test `closed`
    | Quitting              // found it closed, about to reset `scheduled`
    | Taking                // about to take the payload
    | Delivering(taken: Option<Entry>)
    | Resetting             // about to reset `scheduled`
    | Looking               // about to look for a newer payload
    | Rechecking            // saw one, about to test `closed`
    | Rescheduling          // found it open, about to test `closed` once more
    | Reswapping            // about to swap `scheduled`
    | Requeueing            // won the swap, about to queue a flush
    | Reundoing             // queueing failed, about to reset `scheduled`

  /** Who answers for `scheduled` being set. */
  datatype Holder = Nobody | TheQueue | TheFlusher | TheSender(id: nat)

  datatype Slot = Slot(latest: Option<Entry>, scheduled: bool, closed: bool, stopped: bool, queued: nat,
                       senders: map<nat, Sender>, flusher: Flusher,
                       stored: seq<Payload>, flushed: seq<nat>, holder: Holder)
  {
    function At(id: nat): Sender { if id in senders then senders[id] else Outside }

    function Move(id: nat, sender: Sender): Slot { this.(senders := senders[id := sender]) }

    /** One access by a sender; `payload` is what it wants to send if it starts a call. */
    function SenderStep(id: nat, payload: Payload): Slot {
      match At(id)
      case Outside => if closed then this else Move(id, Storing(payload))
      case Storing(p) => Move(id, Scheduling).(latest := Some(Entry(|stored|, p)), stored := stored + [p])
      case Scheduling => Move(id, if closed then Outside else Swapping)
      case Swapping =>
        if scheduled then Move(id, Outside) else Move(id, Queueing).(scheduled := true, holder := TheSender(id))
      case Queueing =>
        if stopped then Move(id, Undoing) else Move(id, Outside).(queued := queued + 1, holder := TheQueue)
      case Undoing => Move(id, Outside).(scheduled := false, holder := Nobody)
    }

    /** One access by the transport loop. */
    function FlusherStep(): Slot {
      match flusher
      case Waiting =>
        if queued == 0 || stopped then this else this.(queued := queued - 1, flusher := Checking, holder := TheFlusher)
      case Checking => this.(flusher := if closed then Quitting else Taking)
      case Quitting => this.(scheduled := false, flusher := Waiting, holder := Nobody)
      case Taking => this.(latest := None, flusher := Delivering(latest))
      case Delivering(taken) =>
        this.(flushed := if taken.Some? && !closed then flushed + [taken.value.index] else flushed, flusher := Resetting)
      case Resetting => this.(scheduled := false, flusher := Looking, holder := Nobody)
      case Looking => this.(flusher := if latest.Some? then Rechecking else Waiting)
      case Rechecking => this.(flusher := if closed then Waiting else Rescheduling)
      case Rescheduling => this.(flusher := if closed then Waiting else Reswapping)
      case Reswapping =>
        if scheduled then this.(flusher := Waiting)
        else this.(scheduled := true, flusher := Requeueing, holder := TheFlusher)
      case Requeueing =>
        if stopped then this.(flusher := Reundoing)
        else this.(queued := queued + 1, flusher := Waiting, holder := TheQueue)
      case Reundoing => this.(scheduled := false, flusher := Waiting, holder := Nobody)
    }
  }

  datatype Action =
    | Send(id: nat, payload: Payload)
    | Flush
    | Close         // the handle is dropped: `closed` is set ...
    | Clear         // ... and then the slot is emptied
    | Stop          // the transport loop ends with the commands still queued

  function Step(s: Slot, a: Action): Slot {
    match a
    case Send(id, payload) => s.SenderStep(id, payload)
    case Flush => s.FlusherStep()
    case Close => s.(closed := true)
    case Clear => if s.closed then s.(latest := None) else s
    case Stop => if s.flusher.Waiting? then s.(stopped := true, queued := 0) else s
  }

  const Fresh := Slot(None, false, false, false, 0, map[], Waiting, [], [], Nobody)

  function Run(actions: seq<Action>): Slot {
    if actions == [] then Fresh else Step(Run(actions[..|actions| - 1]), actions[|actions| - 1])
  }

  // ----- the invariant

  /** While the loop runs, `scheduled` has exactly one holder. */
  ghost predicate OneHolder(s: Slot) {
    && (s.scheduled <==> s.holder != Nobody)
    && s.queued == (if s.holder == TheQueue then 1 else 0)
    && (forall id :: id in s.senders && (s.senders[id].Queueing? || s.senders[id].Undoing?) ==> s.holder == TheSender(id))
    && (s.holder.TheSender? ==> s.At(s.holder.id).Queueing?)
    && (s.holder == TheFlusher <==>
          s.flusher.Checking? || s.flusher.Quitting? || s.flusher.Taking? || s.flusher.Delivering?
          || s.flusher.Resetting? || s.flusher.Requeueing?)
    && !s.flusher.Reundoing?
    && (s.flusher.Quitting? ==> s.closed)
  }

  predicate WillSwap(s: Slot, id: nat) { s.At(id).Scheduling? || s.At(id).Swapping? }

  /** Somebody is still going to look at the slot. */
  ghost predicate Attended(s: Slot) {
    || s.holder != Nobody
    || s.flusher.Looking? || s.flusher.Rechecking? || s.flusher.Rescheduling? || s.flusher.Reswapping?
    || exists id :: WillSwap(s, id)
  }

  /** The index of the payload in the loop's hands, or else of the last one flushed. */
  function Latest(s: Slot): int {
    if s.flusher.Delivering? && s.flusher.taken.Some? then s.flusher.taken.value.index
    else if s.flushed != [] then s.flushed[|s.flushed| - 1]
    else -1
  }

  predicate Genuine(s: Slot, e: Entry) { e.index < |s.stored| && s.stored[e.index] == e.payload }

  ghost predicate InOrder(s: Slot) {
    && (forall i, j :: 0 <= i < j < |s.flushed| ==> s.flushed[i] < s.flushed[j])
    && (forall i :: 0 <= i < |s.flushed| ==> s.flushed[i] <= Latest(s))
    && (s.flusher.Delivering? && s.flusher.taken.Some? ==>
          Genuine(s, s.flusher.taken.value) && forall i :: 0 <= i < |s.flushed| ==> s.flushed[i] < Latest(s))
    && (s.latest.Some? ==> Genuine(s, s.latest.value) && s.latest.value.index == |s.stored| - 1)
    && Latest(s) < |s.stored|
    && (s.latest.Some? ==> Latest(s) < |s.stored| - 1)
    && (!s.closed && s.latest.None? ==> Latest(s) == |s.stored| - 1)
  }

  ghost predicate Inv(s: Slot) {
    && (!s.stopped ==> OneHolder(s))
    && (!s.stopped && !s.closed && s.latest.Some? ==> Attended(s))
    && InOrder(s)
  }

  lemma SenderHolds(s: Slot, id: nat, payload: Payload)
    requires !s.stopped && OneHolder(s)
    ensures OneHolder(s.SenderStep(id, payload))
  {
  }

  lemma FlusherHolds(s: Slot)
    requires !s.stopped && OneHolder(s)
    ensures OneHolder(s.FlusherStep())
  {
  }

  lemma OneHolderStep(s: Slot, a: Action)
    requires !s.stopped && OneHolder(s)
    ensures !Step(s, a).stopped ==> OneHolder(Step(s, a))
  {
    hide Slot.SenderStep, Slot.FlusherStep;
    match a
    case Send(id, payload) => SenderHolds(s, id, payload);
    case Flush => FlusherHolds(s);
    case _ =>
  }

  lemma StoreInOrder(s: Slot, p: Payload)
    requires InOrder(s)
    ensures InOrder(s.(latest := Some(Entry(|s.stored|, p)), stored := s.stored + [p]))
  {
  }

  lemma DeliverInOrder(s: Slot)
    requires InOrder(s) && (s.flusher.Delivering? || s.flusher.Taking?)
    ensures InOrder(s.FlusherStep())
  {
  }

  lemma InOrderStep(s: Slot, a: Action)
    requires InOrder(s)
    ensures InOrder(Step(s, a))
  {
    hide InOrder;
    match a
    case Send(id, payload) =>
      if s.At(id).Storing? {
        var stored := s.(latest := Some(Entry(|s.stored|, s.At(id).payload)), stored := s.stored + [s.At(id).payload]);
        StoreInOrder(s, s.At(id).payload);
        SameOrder(stored, Step(s, a));
      } else {
        SameOrder(s, Step(s, a));
      }
    case Flush =>
      if s.flusher.Delivering? || s.flusher.Taking? { DeliverInOrder(s); } else { SameOrder(s, Step(s, a)); }
    case _ => EndInOrder(s, a);
  }

  lemma EndInOrder(s: Slot, a: Action)
    requires InOrder(s) && !a.Send? && !a.Flush?
    ensures InOrder(Step(s, a))
  {
  }

  lemma SameOrder(s: Slot, s': Slot)
    requires InOrder(s) && s'.stored == s.stored && s'.flushed == s.flushed && s'.latest == s.latest
    requires s'.closed == s.closed
    requires s'.flusher == s.flusher || (!s.flusher.Delivering? && !s'.flusher.Delivering?)
    ensures InOrder(s')
  {
  }

  lemma AttendedStep(s: Slot, a: Action)
    requires !s.stopped && OneHolder(s) && (!s.closed && s.latest.Some? ==> Attended(s))
    ensures var s' := Step(s, a); !s'.stopped && !s'.closed && s'.latest.Some? ==> Attended(s')
  {
    var s' := Step(s, a);
    if !s'.stopped && !s'.closed && s'.latest.Some? {
      if a.Send? {
        if s.At(a.id).Storing? || s.At(a.id).Scheduling? {
          assert WillSwap(s', a.id);
        } else if id :| WillSwap(s, id) && id != a.id {
          assert WillSwap(s', id);
        }
      } else if id :| WillSwap(s, id) {
        assert WillSwap(s', id);
      }
    }
  }

  lemma StepInv(s: Slot, a: Action)
    requires Inv(s)
    ensures Inv(Step(s, a))
  {
    hide OneHolder, InOrder, Attended;
    InOrderStep(s, a);
    if !s.stopped {
      OneHolderStep(s, a);
      AttendedStep(s, a);
    }
  }

  lemma FreshInv()
    ensures Inv(Fresh)
  {
  }

  lemma {:induction false} RunInv(actions: seq<Action>)
    ensures Inv(Run(actions))
  {
    hide Inv, Step;
    if actions == [] {
      FreshInv();
    } else {
      RunInv(actions[..|actions| - 1]);
      StepInv(Run(actions[..|actions| - 1]), actions[|actions| - 1]);
    }
  }

  // ----- main results

  ghost predicate Quiescent(s: Slot) {
    s.flusher.Waiting? && s.queued == 0 && forall id :: s.At(id).Outside?
  }

  /** No payload is stranded: whenever every thread of an open, running mailbox is done,
      the slot is empty, the latest payload has been flushed and the flag is down. */
  lemma NothingIsStranded(actions: seq<Action>)
    requires Quiescent(Run(actions)) && !Run(actions).closed && !Run(actions).stopped
    ensures var s := Run(actions);
      && s.latest.None? && !s.scheduled
      && (s.stored == [] || (s.flushed != [] && s.flushed[|s.flushed| - 1] == |s.stored| - 1))
  {
    RunInv(actions);
    var s := Run(actions);
    forall id ensures !WillSwap(s, id) { assert s.At(id).Outside?; }
    assert s.holder.TheSender? ==> s.At(s.holder.id).Outside?;
  }

  /** While the loop runs, at most one flush command is queued, and the flag is up exactly
      while one is queued, about to be queued, or not yet past its reset. */
  lemma ScheduledMeansOneFlush(actions: seq<Action>)
    requires !Run(actions).stopped
    ensures var s := Run(actions);
      && s.queued <= 1
      && (forall i, j :: s.At(i).Queueing? && s.At(j).Queueing? ==> i == j)
      && (s.scheduled <==>
            || s.queued == 1
            || (exists id :: s.At(id).Queueing?)
            || s.flusher.Requeueing?
            || s.flusher.Checking? || s.flusher.Quitting? || s.flusher.Taking?
            || s.flusher.Delivering? || s.flusher.Resetting?)
  {
    RunInv(actions);
  }

  /** Flushed payloads are a subsequence of the stored ones, in the order they were stored. */
  lemma FlushedIsSubsequence(actions: seq<Action>)
    ensures var s := Run(actions);
      && (forall i :: 0 <= i < |s.flushed| ==> s.flushed[i] < |s.stored|)
      && (forall i, j :: 0 <= i < j < |s.flushed| ==> s.flushed[i] < s.flushed[j])
  {
    RunInv(actions);
  }

  /** What the loop takes is the payload stored last at that moment. */
  lemma TakesTheLatest(actions: seq<Action>)
    requires Run(actions).flusher.Taking? && Run(actions).latest.Some?
    ensures var s := Run(actions); var s' := Step(s, Flush);
      && s.stored != []
      && s'.flusher == Delivering(Some(Entry(|s.stored| - 1, s.stored[|s.stored| - 1])))
      && s'.latest.None?
  {
    RunInv(actions);
  }
}
