/** The limit on control frames per second.  Its window starts anew once a second has
    passed, which bounds any second by twice the limit, and by no less. */
module Rates {
  const MAX_CONTROL_FRAMES_PER_SECOND: nat := 128
  const SECOND: nat := 1_000_000_000
  const U32_MAX: nat := 0xFFFF_FFFF

  /** `started` is an instant in nanoseconds. */
  datatype Window = Window(started: nat, frames: nat) {
    /** `seen` is the instant the age is read, `restarted` the instant a new window takes. */
    function Enforce(seen: nat, restarted: nat, added: nat): (Window, bool) {
      var w := if seen >= started + SECOND then Window(restarted, 0) else this;
      var frames' := if w.frames + added > U32_MAX then U32_MAX else w.frames + added;
      (w.(frames := frames'), frames' <= MAX_CONTROL_FRAMES_PER_SECOND)
    }
  }

  class ControlRate {
    var started: nat
    var frames: nat

    ghost function View(): Window reads this { Window(started, frames) }

    constructor (now: nat)
      ensures View() == Window(now, 0)
    {
      started, frames := now, 0;
    }

    method Enforce(seen: nat, restarted: nat, added: nat) returns (ok: bool)
      requires frames <= U32_MAX
      modifies this
      ensures (View(), ok) == old(View()).Enforce(seen, restarted, added) && frames <= U32_MAX
    {
      if seen >= started + SECOND { started, frames := restarted, 0; }
      frames := if added > U32_MAX - frames then U32_MAX else frames + added;
      ok := frames <= MAX_CONTROL_FRAMES_PER_SECOND;
    }
  }

  /** The frames of one read from the stream, and the two clock readings around them. */
  datatype Batch = Batch(seen: nat, restarted: nat, added: nat)

  function Run(start: Window, batches: seq<Batch>): Window {
    if batches == [] then start
    else
      var last := batches[|batches| - 1];
      Run(start, batches[..|batches| - 1]).Enforce(last.seen, last.restarted, last.added).0
  }

  /** The clock never goes back: no reading is before the batch's predecessor or the start
      of the window it meets.  The second reading counts only where it starts a window. */
  ghost predicate ReadInOrder(start: Window, batches: seq<Batch>, i: nat)
    requires i < |batches|
  {
    && Run(start, batches[..i]).started <= batches[i].seen <= batches[i].restarted
    && (i > 0 ==> batches[i - 1].seen <= batches[i].seen)
  }

  ghost predicate Clocked(start: Window, batches: seq<Batch>) {
    forall i :: 0 <= i < |batches| ==> ReadInOrder(start, batches, i)
  }

  predicate Passes(start: Window, batches: seq<Batch>, i: nat)
    requires i < |batches|
  {
    Run(start, batches[..i]).Enforce(batches[i].seen, batches[i].restarted, batches[i].added).1
  }

  /** The stream is closed at the first refusal, so all batches of a run passed. */
  ghost predicate AllPass(start: Window, batches: seq<Batch>) {
    forall i :: 0 <= i < |batches| ==> Passes(start, batches, i)
  }

  /** Frames in batches i to j - 1. */
  function Total(batches: seq<Batch>, i: nat, j: nat): nat
    requires i <= j <= |batches|
    decreases j
  {
    if i == j then 0 else Total(batches, i, j - 1) + batches[j - 1].added
  }

  lemma RunStep(start: Window, batches: seq<Batch>, j: nat)
    requires j < |batches|
    ensures Run(start, batches[..j + 1])
         == Run(start, batches[..j]).Enforce(batches[j].seen, batches[j].restarted, batches[j].added).0
  {
    assert batches[..j + 1][..j] == batches[..j];
  }

  /** What batch j, after batch i, does to the window it meets. */
  lemma {:induction false} At(start: Window, batches: seq<Batch>, i: nat, j: nat)
    requires Clocked(start, batches) && AllPass(start, batches) && i <= j < |batches|
    ensures var b := batches[j];
      && Run(start, batches[..j]).started <= b.seen <= b.restarted
      && batches[i].seen <= b.seen && (i < j ==> batches[j - 1].seen <= b.seen)
      && Run(start, batches[..j]).Enforce(b.seen, b.restarted, b.added) == (Run(start, batches[..j + 1]), true)
    decreases j
  {
    hide Run;
    RunStep(start, batches, j);
    assert Passes(start, batches, j) && ReadInOrder(start, batches, j);
    if i < j { At(start, batches, i, j - 1); }
  }

  /** Less than a second after batch i, either its window still counts everything since,
      or one window has started in between. */
  lemma {:induction false} CountedSince(start: Window, batches: seq<Batch>, i: nat, j: nat)
    requires Clocked(start, batches) && AllPass(start, batches) && i <= j < |batches|
    requires batches[j].seen < batches[i].seen + SECOND
    ensures var first, w := Run(start, batches[..i + 1]), Run(start, batches[..j + 1]);
      && first.frames <= MAX_CONTROL_FRAMES_PER_SECOND && w.frames <= MAX_CONTROL_FRAMES_PER_SECOND
      && if w.started == first.started then Total(batches, i, j + 1) <= w.frames
         else batches[i].seen <= w.started && Total(batches, i, j + 1) <= MAX_CONTROL_FRAMES_PER_SECOND + w.frames
    decreases j
  {
    hide Run, Clocked, AllPass;
    At(start, batches, i, j);
    if i < j { CountedSince(start, batches, i, j - 1); } else { assert Total(batches, i, i) == 0; }
  }

  /** Any second lets at most twice the limit through, and at most the limit when no
      window starts within it. */
  lemma AnySecond(start: Window, batches: seq<Batch>, i: nat, j: nat)
    requires Clocked(start, batches) && AllPass(start, batches) && i <= j < |batches|
    requires batches[j].seen < batches[i].seen + SECOND
    ensures Total(batches, i, j + 1) <= 2 * MAX_CONTROL_FRAMES_PER_SECOND
    ensures Run(start, batches[..i + 1]).started == Run(start, batches[..j + 1]).started ==>
      Total(batches, i, j + 1) <= MAX_CONTROL_FRAMES_PER_SECOND
  {
    CountedSince(start, batches, i, j);
  }

  // ----- when a second keeps the limit

  /** The run goes on, and all of it passes within a second of its last batch so far. */
  ghost predicate GoesOn(start: Window, batches: seq<Batch>, more: seq<Batch>)
    requires batches != []
  {
    && Clocked(start, batches + more) && AllPass(start, batches + more)
    && forall k :: 0 <= k < |more| ==> more[k].seen < batches[|batches| - 1].seen + SECOND
  }

  /** The window counts from the last batch on, or it has no room left. */
  predicate CountsOrFull(window: Window, last: Batch) {
    window.started >= last.seen || (last.added == 0 && window.frames == MAX_CONTROL_FRAMES_PER_SECOND)
  }

  lemma Extended(start: Window, batches: seq<Batch>, b: Batch)
    requires Clocked(start, batches) && AllPass(start, batches)
    requires Run(start, batches).started <= b.seen <= b.restarted
    requires batches != [] ==> batches[|batches| - 1].seen <= b.seen
    requires Run(start, batches).Enforce(b.seen, b.restarted, b.added).1
    ensures Clocked(start, batches + [b]) && AllPass(start, batches + [b])
  {
    hide Run, Passes, ReadInOrder;
    var all := batches + [b];
    forall i | 0 <= i < |all| ensures ReadInOrder(start, all, i) && Passes(start, all, i) {
      if i < |batches| { SameBefore(start, batches, [b], i); } else { LastFits(start, batches, b); }
    }
  }

  lemma RunExtended(start: Window, batches: seq<Batch>, b: Batch)
    ensures Run(start, batches + [b]) == Run(start, batches).Enforce(b.seen, b.restarted, b.added).0
  {
    assert (batches + [b])[..|batches|] == batches;
  }

  lemma SameBefore(start: Window, batches: seq<Batch>, more: seq<Batch>, i: nat)
    requires i < |batches|
    ensures ReadInOrder(start, batches, i) ==> ReadInOrder(start, batches + more, i)
    ensures Passes(start, batches, i) ==> Passes(start, batches + more, i)
  {
    hide Run;
    assert (batches + more)[..i] == batches[..i];
  }

  lemma LastFits(start: Window, batches: seq<Batch>, b: Batch)
    requires Run(start, batches).started <= b.seen <= b.restarted
    requires batches != [] ==> batches[|batches| - 1].seen <= b.seen
    requires Run(start, batches).Enforce(b.seen, b.restarted, b.added).1
    ensures ReadInOrder(start, batches + [b], |batches|) && Passes(start, batches + [b], |batches|)
  {
    hide Run;
    assert (batches + [b])[..|batches|] == batches;
  }

  lemma {:induction false} TotalExtended(batches: seq<Batch>, b: Batch, i: nat)
    requires i <= |batches|
    ensures Total(batches + [b], i, |batches| + 1) == Total(batches, i, |batches|) + b.added
  {
    TotalPrefix(batches, [b], i, |batches|);
  }

  lemma {:induction false} TotalPrefix(batches: seq<Batch>, more: seq<Batch>, i: nat, j: nat)
    requires i <= j <= |batches|
    ensures Total(batches + more, i, j) == Total(batches, i, j)
    decreases j
  {
    if i < j { TotalPrefix(batches, more, i, j - 1); }
  }

  /** From the last batch on: everything is in one window, or nothing is before the next. */
  lemma {:induction false} StaysCounted(start: Window, batches: seq<Batch>, n: nat, j: nat)
    requires Clocked(start, batches) && AllPass(start, batches) && n <= j < |batches|
    requires forall k :: n <= k <= j ==> batches[k].seen < batches[n].seen + SECOND
    requires CountsOrFull(Run(start, batches[..n + 1]), batches[n])
    ensures var first, w := Run(start, batches[..n + 1]), Run(start, batches[..j + 1]);
      && w.frames <= MAX_CONTROL_FRAMES_PER_SECOND && Total(batches, n, j + 1) <= w.frames
      && if first.started >= batches[n].seen then w.started == first.started
         else (w == first && Total(batches, n, j + 1) == 0) || w.started >= batches[n].seen
    decreases j
  {
    hide Run, Clocked, AllPass;
    At(start, batches, n, j);
    if n < j { StaysCounted(start, batches, n, j - 1); } else { assert Total(batches, n, n) == 0; }
  }

  /** A window that started before the last batch is less than a second older. */
  lemma LastMet(start: Window, batches: seq<Batch>)
    requires batches != [] && Clocked(start, batches) && AllPass(start, batches)
    ensures var w, last := Run(start, batches), batches[|batches| - 1];
      && last.added <= w.frames <= MAX_CONTROL_FRAMES_PER_SECOND
      && (w.started < last.seen ==> last.seen < w.started + SECOND)
  {
    hide Run, Clocked, AllPass;
    At(start, batches, |batches| - 1, |batches| - 1);
    assert batches[..|batches|] == batches;
  }

  /** A run after which a second can pass the limit, and what comes next. */
  lemma PassesTheLimit(start: Window, batches: seq<Batch>) returns (more: seq<Batch>)
    requires batches != [] && Clocked(start, batches) && AllPass(start, batches)
    requires !CountsOrFull(Run(start, batches), batches[|batches| - 1])
    ensures GoesOn(start, batches, more)
    ensures Total(batches + more, |batches| - 1, |batches| + |more|) > MAX_CONTROL_FRAMES_PER_SECOND
  {
    hide Run, Clocked, AllPass;
    var n := |batches| - 1;
    var w, last := Run(start, batches), batches[n];
    LastMet(start, batches);
    assert Total(batches, n, n) == 0;
    var anew := Batch(w.started + SECOND, w.started + SECOND, MAX_CONTROL_FRAMES_PER_SECOND);
    if last.added > 0 {
      more := [anew];
      Extended(start, batches, anew);
      TotalExtended(batches, anew, n);
    } else {
      var single := Batch(last.seen, last.seen, 1);
      more := [single, anew];
      Extended(start, batches, single);
      RunExtended(start, batches, single);
      TotalExtended(batches, single, n);
      Extended(start, batches + [single], anew);
      TotalExtended(batches + [single], anew, n);
      assert batches + more == batches + [single] + [anew];
    }
  }

  /** The limit holds for every second that begins with the last batch, however the run
      goes on, if and only if that batch's window counts from it, or is full without it. */
  lemma LimitHoldsExactlyWhen(start: Window, batches: seq<Batch>)
    requires batches != [] && Clocked(start, batches) && AllPass(start, batches)
    ensures CountsOrFull(Run(start, batches), batches[|batches| - 1]) <==>
      forall more :: GoesOn(start, batches, more) ==>
        Total(batches + more, |batches| - 1, |batches| + |more|) <= MAX_CONTROL_FRAMES_PER_SECOND
  {
    hide Run, Clocked, AllPass, CountsOrFull;
    var n := |batches| - 1;
    if CountsOrFull(Run(start, batches), batches[n]) {
      forall more | GoesOn(start, batches, more)
        ensures Total(batches + more, n, |batches| + |more|) <= MAX_CONTROL_FRAMES_PER_SECOND
      {
        var all := batches + more;
        assert all[..n + 1] == batches && all[..|all|] == all;
        StaysCounted(start, all, n, |all| - 1);
      }
    } else {
      var more := PassesTheLimit(start, batches);
    }
  }

  const Burst := [Batch(SECOND - 1, SECOND - 1, 128), Batch(SECOND, SECOND, 128)]

  /** The limit per second is not kept across the start of a window. */
  lemma TwiceTheLimitPasses()
    ensures Clocked(Window(0, 0), Burst) && AllPass(Window(0, 0), Burst)
    ensures Burst[1].seen < Burst[0].seen + SECOND
    ensures Total(Burst, 0, 2) == 2 * MAX_CONTROL_FRAMES_PER_SECOND
  {
    RunStep(Window(0, 0), Burst, 0);
    assert Run(Window(0, 0), Burst[..0]) == Window(0, 0);
    assert Total(Burst, 0, 1) == 128;
    assert Passes(Window(0, 0), Burst, 0) && Passes(Window(0, 0), Burst, 1);
  }
}
