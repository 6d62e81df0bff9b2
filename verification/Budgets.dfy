/** Byte budgets shared by many threads: a load, then compare-and-exchange until it works
    or the limit is hit, and a subtraction when the reservation is dropped.  The bulk
    memory budget and the critical-input budget run the same loop.

    A run is any interleaving of single accesses; the exchange may also fail for no reason. */
module Budgets {
  const USIZE_MAX: nat := 0xFFFF_FFFF_FFFF_FFFF
  const MAX_BULK_MEMORY_BYTES: nat := 128 * 1024 * 1024
  const INBOUND_BULK_RESERVATION_BYTES: nat := 124 * 1024 * 1024
  const INPUT_QUEUE_BYTES: nat := 256 * 1024
  const INPUT_QUEUE_FRAMES: nat := 256

  datatype Attempt =
    | Trying(observed: nat, wanted: nat)   // inside the loop
    | Live(bytes: nat)                     // a reservation somebody holds

  /** `attempts` maps each reservation, finished or not, to where it stands; `queue`
      holds the ones waiting in the bounded channel. */
  datatype Budget = Budget(limit: nat, used: nat, attempts: map<nat, Attempt>, queue: seq<nat>) {
    function Held(): map<nat, nat> { map id | id in attempts && attempts[id].Live? :: attempts[id].bytes }

    function Start(id: nat, bytes: nat): Budget {
      if id in attempts then this else this.(attempts := attempts[id := Trying(used, bytes)])
    }

    /** One turn of the loop. */
    function Exchange(id: nat, spurious: bool): Budget {
      if id !in attempts || !attempts[id].Trying? then this
      else
        var next := attempts[id].observed + attempts[id].wanted;
        if next > USIZE_MAX || next > limit then this.(attempts := attempts - {id})
        else if used == attempts[id].observed && !spurious then
          this.(used := next, attempts := attempts[id := Live(attempts[id].wanted)])
        else this.(attempts := attempts[id := attempts[id].(observed := used)])
    }

    /** The subtraction wraps around like the machine's. */
    function Drop(id: nat): Budget {
      if id !in attempts || !attempts[id].Live? || id in queue then this
      else
        var left := used - attempts[id].bytes;
        this.(used := if left >= 0 then left else left % (USIZE_MAX + 1), attempts := attempts - {id})
    }

    /** A live reservation is offered to the channel; a refused offer drops it. */
    function Offer(id: nat, open: bool): Budget {
      if id !in attempts || !attempts[id].Live? || id in queue then this
      else if open && |queue| < INPUT_QUEUE_FRAMES then this.(queue := queue + [id])
      else Drop(id)
    }

    /** The consumer takes the oldest entry; it drops the reservation when it is done. */
    function Take(): Budget { if queue == [] then this else this.(queue := queue[1..]) }
  }

  // ----- the loop of one thread

  /** What the other threads have made of the counter when an exchange is tried, and
      whether the exchange then fails for no reason. */
  datatype Turn = Turn(used: nat, spurious: bool)

  /** The counter as the n-th exchange meets it. */
  function Met(start: nat, turns: seq<Turn>, n: nat): nat {
    if n < |turns| then turns[n].used else if turns == [] then start else turns[|turns| - 1].used
  }

  /** The counter as the thread knows it before the n-th exchange. */
  function Known(start: nat, turns: seq<Turn>, n: nat): nat { if n == 0 then start else Met(start, turns, n - 1) }

  predicate Lost(start: nat, turns: seq<Turn>, n: nat) {
    n < |turns| && (turns[n].spurious || Met(start, turns, n) != Known(start, turns, n))
  }

  class SharedCounter {
    const limit: nat
    var used: nat

    constructor (limit: nat)
      ensures this.limit == limit && used == 0
    {
      this.limit, used := limit, 0;
    }

    /** The n-th exchange decides: it adds exactly the bytes to the very value it was
        computed from, or the known value leaves no room and the counter is untouched.
        Every exchange before it was lost with room to spare. */
    method Reserve(bytes: nat, turns: seq<Turn>) returns (ok: bool, n: nat)
      modifies this
      ensures forall k :: 0 <= k < n ==> Lost(old(used), turns, k) && Known(old(used), turns, k) + bytes <= limit
      ensures ok <==> Known(old(used), turns, n) + bytes <= limit && Known(old(used), turns, n) + bytes <= USIZE_MAX
      ensures ok ==> !Lost(old(used), turns, n) && used == Met(old(used), turns, n) + bytes <= limit
      ensures !ok ==> used == Known(old(used), turns, n)
    {
      var current := used;
      n := 0;
      while true
        invariant n <= |turns| && current == used == Known(old(used), turns, n)
        invariant forall k :: 0 <= k < n ==> Lost(old(used), turns, k) && Known(old(used), turns, k) + bytes <= limit
        decreases |turns| - n
      {
        var next := current + bytes;
        if next > USIZE_MAX || next > limit { return false, n; }
        if n < |turns| { used := turns[n].used; }
        if used == current && !(n < |turns| && turns[n].spurious) {
          used := next;
          return true, n;
        }
        current := used;
        n := n + 1;
      }
    }

    /** Dropping a reservation of no more than the counter holds. */
    method Release(bytes: nat)
      requires bytes <= used
      modifies this
      ensures used == old(used) - bytes
    {
      used := used - bytes;
    }
  }

  // ----- all threads together

  datatype Action =
    | Start(id: nat, bytes: nat)
    | Exchange(id: nat, spurious: bool)
    | Drop(id: nat)
    | Offer(id: nat, open: bool)
    | Take

  function Step(s: Budget, a: Action): Budget {
    match a
    case Start(id, bytes) => s.Start(id, bytes)
    case Exchange(id, spurious) => s.Exchange(id, spurious)
    case Drop(id) => s.Drop(id)
    case Offer(id, open) => s.Offer(id, open)
    case Take => s.Take()
  }

  function Run(limit: nat, actions: seq<Action>): Budget {
    if actions == [] then Budget(limit, 0, map[], [])
    else Step(Run(limit, actions[..|actions| - 1]), actions[|actions| - 1])
  }

  ghost function Sum(m: map<nat, nat>): nat
    decreases |m|
  {
    if m == map[] then 0
    else
      var id :| id in m;
      m[id] + Sum(m - {id})
  }

  lemma {:induction false} SumWithout(m: map<nat, nat>, id: nat)
    requires id in m
    ensures Sum(m) == m[id] + Sum(m - {id})
    decreases |m|
  {
    var first :| first in m && Sum(m) == m[first] + Sum(m - {first});
    if first != id {
      SumWithout(m - {first}, id);
      SumWithout(m - {id}, first);
      assert m - {first} - {id} == m - {id} - {first};
    }
  }

  ghost predicate Inv(s: Budget) {
    && s.used == Sum(s.Held()) <= s.limit <= USIZE_MAX
    && |s.queue| <= INPUT_QUEUE_FRAMES
    && (forall i :: 0 <= i < |s.queue| ==> s.queue[i] in s.attempts && s.attempts[s.queue[i]].Live?)
    && (forall i, j :: 0 <= i < j < |s.queue| ==> s.queue[i] != s.queue[j])
  }

  lemma DropInv(s: Budget, id: nat)
    requires Inv(s)
    ensures Inv(s.Drop(id))
    ensures id in s.attempts && s.attempts[id].Live? && id !in s.queue ==> s.Drop(id).used == s.used - s.attempts[id].bytes
  {
    if id in s.attempts && s.attempts[id].Live? && id !in s.queue {
      SumWithout(s.Held(), id);
      assert s.Drop(id).Held() == s.Held() - {id};
    }
  }

  lemma StepInv(s: Budget, a: Action)
    requires Inv(s)
    ensures Inv(Step(s, a)) && Step(s, a).limit == s.limit
  {
    var s' := Step(s, a);
    match a
    case Start(id, bytes) => assert s'.Held() == s.Held();
    case Exchange(id, spurious) =>
      if id in s'.attempts && s'.attempts[id].Live? && s'.attempts != s.attempts {
        SumWithout(s'.Held(), id);
        assert s'.Held() - {id} == s.Held();
      } else {
        assert s'.Held() == s.Held();
      }
    case Drop(id) => DropInv(s, id);
    case Offer(id, open) =>
      DropInv(s, id);
      assert s'.attempts == s.attempts ==> s'.Held() == s.Held();
    case Take => assert s'.Held() == s.Held();
  }

  // ----- main results

  /** Under every interleaving the counter is the sum of the live reservations and stays
      within the limit. */
  lemma {:induction false} BudgetIsConserved(limit: nat, actions: seq<Action>)
    requires limit <= USIZE_MAX
    ensures Inv(Run(limit, actions)) && Run(limit, actions).limit == limit
  {
    if actions != [] {
      BudgetIsConserved(limit, actions[..|actions| - 1]);
      StepInv(Run(limit, actions[..|actions| - 1]), actions[|actions| - 1]);
    } else {
      assert Run(limit, actions).Held() == map[];
    }
  }

  /** A refused offer gives exactly its bytes back and leaves the queue alone. */
  lemma RefusedOfferGivesBack(limit: nat, actions: seq<Action>, id: nat, open: bool)
    requires limit <= USIZE_MAX
    requires var s := Run(limit, actions);
      id in s.attempts && s.attempts[id].Live? && id !in s.queue && (!open || |s.queue| == INPUT_QUEUE_FRAMES)
    ensures var s := Run(limit, actions); var s' := s.Offer(id, open);
      && s'.used == s.used - s.attempts[id].bytes && s'.queue == s.queue
      && s'.attempts == s.attempts - {id}
  {
    BudgetIsConserved(limit, actions);
    DropInv(Run(limit, actions), id);
  }

  /** At most one inbound bulk payload is reserved at a time, and at most 4 MiB beside it. */
  lemma OneInboundPayload(actions: seq<Action>, id: nat)
    requires var s := Run(MAX_BULK_MEMORY_BYTES, actions);
      id in s.attempts && s.attempts[id] == Live(INBOUND_BULK_RESERVATION_BYTES)
    ensures var s := Run(MAX_BULK_MEMORY_BYTES, actions);
      && Sum(s.Held() - {id}) <= 4 * 1024 * 1024
      && forall other :: other in s.attempts && other != id ==> s.attempts[other] != Live(INBOUND_BULK_RESERVATION_BYTES)
  {
    BudgetIsConserved(MAX_BULK_MEMORY_BYTES, actions);
    var s := Run(MAX_BULK_MEMORY_BYTES, actions);
    SumWithout(s.Held(), id);
    forall other | other in s.attempts && other != id
      ensures s.attempts[other] != Live(INBOUND_BULK_RESERVATION_BYTES)
    {
      if s.attempts[other].Live? { SumWithout(s.Held() - {id}, other); }
    }
  }

  /** The bytes of some reservations, one after the other. */
  function Bytes(m: map<nat, nat>, ids: seq<nat>): nat
    requires forall i :: 0 <= i < |ids| ==> ids[i] in m
  {
    if ids == [] then 0 else Bytes(m, ids[..|ids| - 1]) + m[ids[|ids| - 1]]
  }

  lemma {:induction false} BytesElsewhere(m: map<nat, nat>, id: nat, ids: seq<nat>)
    requires id !in ids && forall i :: 0 <= i < |ids| ==> ids[i] in m
    ensures Bytes(m - {id}, ids) == Bytes(m, ids)
  {
    if ids != [] { BytesElsewhere(m, id, ids[..|ids| - 1]); }
  }

  lemma {:induction false} DistinctWithinSum(m: map<nat, nat>, ids: seq<nat>)
    requires forall i :: 0 <= i < |ids| ==> ids[i] in m
    requires forall i, j :: 0 <= i < j < |ids| ==> ids[i] != ids[j]
    ensures Bytes(m, ids) <= Sum(m)
    decreases |ids|
  {
    if ids != [] {
      var rest, last := ids[..|ids| - 1], ids[|ids| - 1];
      SumWithout(m, last);
      BytesElsewhere(m, last, rest);
      DistinctWithinSum(m - {last}, rest);
    }
  }

  /** What waits for the receiver's input thread is at most 256 KiB in 256 frames. */
  lemma InputQueueIsBounded(actions: seq<Action>)
    ensures var s := Run(INPUT_QUEUE_BYTES, actions);
      && |s.queue| <= INPUT_QUEUE_FRAMES
      && (forall i :: 0 <= i < |s.queue| ==> s.queue[i] in s.Held())
      && Bytes(s.Held(), s.queue) <= INPUT_QUEUE_BYTES
  {
    BudgetIsConserved(INPUT_QUEUE_BYTES, actions);
    var s := Run(INPUT_QUEUE_BYTES, actions);
    DistinctWithinSum(s.Held(), s.queue);
  }
}
