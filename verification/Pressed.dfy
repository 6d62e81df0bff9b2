/** The receiver's ledger of held keys and buttons, and its agreement with the machine it
    drives.  Several physical keys may drive one target key, and the mapping may change
    between a key's press and its release. */
module Pressed {
  import opened Base
  import opened Inputs

  datatype KeySource = ScanCode(scanCode: u16, extended: bool) | VirtualKey(keyCode: u16)

  function SourceOf(keyCode: u16, scanCode: u16, extended: bool): KeySource {
    if scanCode == 0 then VirtualKey(keyCode) else ScanCode(scanCode, extended)
  }

  datatype HeldKey = HeldKey(source: KeySource, target: u16)
  datatype HeldButton = HeldButton(button: CriticalButton, x: i32, y: i32)

  datatype Command =
    | MouseButton(button: CriticalButton, down: bool, x: i32, y: i32)
    | ScrollBy(deltaX: i32, deltaY: i32)
    | KeyStroke(keyCode: u16, down: bool)

  // ----- the machine

  /** What the operating system believes to be held. */
  datatype Machine = Machine(keys: set<u16>, buttons: set<CriticalButton>) {
    /** A command fits if it presses nothing held and releases nothing free. */
    predicate Fits(c: Command) {
      match c
      case KeyStroke(key, down) => down == (key !in keys)
      case MouseButton(button, down, _, _) => down == (button !in buttons)
      case ScrollBy(_, _) => true
    }

    function Do(c: Command): Machine {
      match c
      case KeyStroke(key, down) => this.(keys := if down then keys + {key} else keys - {key})
      case MouseButton(button, down, _, _) => this.(buttons := if down then buttons + {button} else buttons - {button})
      case ScrollBy(_, _) => this
    }
  }

  function Replay(m: Machine, commands: seq<Command>): Machine {
    if commands == [] then m else Replay(m, commands[..|commands| - 1]).Do(commands[|commands| - 1])
  }

  predicate AllFit(m: Machine, commands: seq<Command>) {
    commands == []
    || (AllFit(m, commands[..|commands| - 1]) && Replay(m, commands[..|commands| - 1]).Fits(commands[|commands| - 1]))
  }

  lemma {:induction false} ReplayAppend(m: Machine, a: seq<Command>, b: seq<Command>)
    ensures Replay(m, a + b) == Replay(Replay(m, a), b)
    ensures AllFit(m, a + b) <==> AllFit(m, a) && AllFit(Replay(m, a), b)
    decreases |b|
  {
    if b == [] {
      assert a + b == a;
    } else {
      assert (a + b)[..|a + b| - 1] == a + b[..|b| - 1];
      ReplayAppend(m, a, b[..|b| - 1]);
    }
  }

  lemma ReplayOne(m: Machine, c: Command)
    ensures Replay(m, [c]) == m.Do(c) && (AllFit(m, [c]) <==> m.Fits(c))
  {
    assert [c][..0] == [];
    assert Replay(m, []) == m;
  }

  // ----- the ledger

  function Targets(keys: seq<HeldKey>): set<u16> { set h | h in keys :: h.target }

  function Buttons(buttons: seq<HeldButton>): set<CriticalButton> { set h | h in buttons :: h.button }

  function SourceIndex(keys: seq<HeldKey>, source: KeySource): (i: nat)
    ensures i <= |keys| && (i < |keys| ==> keys[i].source == source)
    ensures forall j :: 0 <= j < i ==> keys[j].source != source
  {
    if keys == [] || keys[0].source == source then 0 else 1 + SourceIndex(keys[1..], source)
  }

  function ButtonIndex(buttons: seq<HeldButton>, button: CriticalButton): (i: nat)
    ensures i <= |buttons| && (i < |buttons| ==> buttons[i].button == button)
    ensures forall j :: 0 <= j < i ==> buttons[j].button != button
  {
    if buttons == [] || buttons[0].button == button then 0 else 1 + ButtonIndex(buttons[1..], button)
  }

  function Without<T>(s: seq<T>, i: nat): seq<T>
    requires i < |s|
  {
    s[..i] + s[i + 1..]
  }

  datatype Applied = Applied(ledger: Ledger, commands: seq<Command>)

  datatype Ledger = Ledger(keys: seq<HeldKey>, buttons: seq<HeldButton>) {
    ghost predicate Distinct() {
      && (forall i, j :: 0 <= i < j < |keys| ==> keys[i].source != keys[j].source)
      && (forall i, j :: 0 <= i < j < |buttons| ==> buttons[i].button != buttons[j].button)
    }

    function Image(): Machine { Machine(Targets(keys), Buttons(buttons)) }

    function Apply(event: CriticalEvent): Applied {
      match event
      case Key(keyCode, scanCode, extended, down) => ApplyKey(keyCode, SourceOf(keyCode, scanCode, extended), down)
      case Button(button, down, x, y, _) => ApplyButton(button, down, x, y)
      case Scroll(deltaX, deltaY, _, _, _) => Applied(this, [ScrollBy(deltaX, deltaY)])
    }

    function ApplyKey(keyCode: u16, source: KeySource, down: bool): Applied {
      var i := SourceIndex(keys, source);
      if down then
        if i < |keys| then Applied(this, [])
        else Applied(this.(keys := keys + [HeldKey(source, keyCode)]),
                     if keyCode in Targets(keys) then [] else [KeyStroke(keyCode, true)])
      else if i == |keys| then Applied(this, [])
      else
        var rest := Without(keys, i);
        Applied(this.(keys := rest),
                if keys[i].target in Targets(rest) then [] else [KeyStroke(keys[i].target, false)])
    }

    function ApplyButton(button: CriticalButton, down: bool, x: i32, y: i32): Applied {
      var i := ButtonIndex(buttons, button);
      if down then
        if i < |buttons| then Applied(this.(buttons := buttons[i := HeldButton(button, x, y)]), [])
        else Applied(this.(buttons := buttons + [HeldButton(button, x, y)]), [MouseButton(button, true, x, y)])
      else if i == |buttons| then Applied(this, [])
      else Applied(this.(buttons := Without(buttons, i)), [MouseButton(button, false, x, y)])
    }

    function UpdatePointer(x: i32, y: i32): Ledger {
      this.(buttons := seq(|buttons|, i requires 0 <= i < |buttons| => HeldButton(buttons[i].button, x, y)))
    }

    function ReleaseAll(): Applied {
      Applied(Ledger([], []), KeyReleases(keys) + ButtonReleases(buttons))
    }
  }

  /** Keys are let go from the newest on; a target still driven by an older key waits. */
  function KeyReleases(keys: seq<HeldKey>): seq<Command> {
    if keys == [] then []
    else
      var older, newest := keys[..|keys| - 1], keys[|keys| - 1];
      (if newest.target in Targets(older) then [] else [KeyStroke(newest.target, false)]) + KeyReleases(older)
  }

  function ButtonReleases(buttons: seq<HeldButton>): seq<Command> {
    if buttons == [] then []
    else
      var newest := buttons[|buttons| - 1];
      [MouseButton(newest.button, false, newest.x, newest.y)] + ButtonReleases(buttons[..|buttons| - 1])
  }

  // ----- the ledger as the receiver keeps it

  class PressedState {
    var keys: seq<HeldKey>
    var buttons: seq<HeldButton>

    ghost function View(): Ledger reads this { Ledger(keys, buttons) }

    constructor ()
      ensures View() == Ledger([], [])
    {
      keys, buttons := [], [];
    }

    method Apply(event: CriticalEvent) returns (commands: seq<Command>)
      modifies this
      ensures Applied(View(), commands) == old(View()).Apply(event)
    {
      match event {
        case Key(keyCode, scanCode, extended, down) =>
          commands := ApplyKey(keyCode, SourceOf(keyCode, scanCode, extended), down);
        case Button(button, down, x, y, _) => commands := ApplyButton(button, down, x, y);
        case Scroll(deltaX, deltaY, _, _, _) => commands := [ScrollBy(deltaX, deltaY)];
      }
    }

    method ApplyKey(keyCode: u16, source: KeySource, down: bool) returns (commands: seq<Command>)
      modifies this
      ensures Applied(View(), commands) == old(View()).ApplyKey(keyCode, source, down)
    {
      var i := SourceIndex(keys, source);
      if down {
        if i < |keys| { return []; }
        var targetWasHeld := Drives(keys, keyCode);
        keys := keys + [HeldKey(source, keyCode)];
        return if targetWasHeld then [] else [KeyStroke(keyCode, true)];
      }
      if i == |keys| { return []; }
      var held := keys[i];
      keys := Without(keys, i);
      var stillDriven := Drives(keys, held.target);
      commands := if stillDriven then [] else [KeyStroke(held.target, false)];
    }

    method ApplyButton(button: CriticalButton, down: bool, x: i32, y: i32) returns (commands: seq<Command>)
      modifies this
      ensures Applied(View(), commands) == old(View()).ApplyButton(button, down, x, y)
    {
      var i := ButtonIndex(buttons, button);
      if down {
        if i < |buttons| {
          buttons := buttons[i := HeldButton(button, x, y)];
          return [];
        }
        buttons := buttons + [HeldButton(button, x, y)];
      } else if i < |buttons| {
        buttons := Without(buttons, i);
      } else {
        return [];
      }
      commands := [MouseButton(button, down, x, y)];
    }

    method UpdatePointer(x: i32, y: i32)
      modifies this
      ensures View() == old(View()).UpdatePointer(x, y)
    {
      var i := 0;
      while i < |buttons|
        invariant i <= |buttons| == |old(buttons)| && keys == old(keys)
        invariant forall j :: 0 <= j < |buttons| ==>
          buttons[j] == if j < i then HeldButton(old(buttons)[j].button, x, y) else old(buttons)[j]
      {
        buttons := buttons[i := HeldButton(buttons[i].button, x, y)];
        i := i + 1;
      }
    }

    method ReleaseAll() returns (commands: seq<Command>)
      modifies this
      ensures Applied(View(), commands) == old(View()).ReleaseAll()
    {
      hide Targets;
      commands := [];
      while keys != []
        invariant buttons == old(buttons)
        invariant commands + KeyReleases(keys) == KeyReleases(old(keys))
        decreases |keys|
      {
        var held := keys[|keys| - 1];
        ghost var before := commands;
        keys := keys[..|keys| - 1];
        var stillDriven := Drives(keys, held.target);
        if !stillDriven { commands := commands + [KeyStroke(held.target, false)]; }
        PushedBack(before, if stillDriven then [] else [KeyStroke(held.target, false)], KeyReleases(keys));
      }
      while buttons != []
        invariant keys == []
        invariant commands + ButtonReleases(buttons) == KeyReleases(old(keys)) + ButtonReleases(old(buttons))
        decreases |buttons|
      {
        var held := buttons[|buttons| - 1];
        PushedBack(commands, [MouseButton(held.button, false, held.x, held.y)], ButtonReleases(buttons[..|buttons| - 1]));
        buttons := buttons[..|buttons| - 1];
        commands := commands + [MouseButton(held.button, false, held.x, held.y)];
      }
    }

    /** Which of the dragging buttons is down, the left one first. */
    method DragButton() returns (button: Option<CriticalButton>)
      ensures button == if Left in Buttons(buttons) then Some(Left)
                        else if Right in Buttons(buttons) then Some(Right)
                        else if Middle in Buttons(buttons) then Some(Middle) else None
    {
      var candidates := [Left, Right, Middle];
      var n := 0;
      while n < 3
        invariant n <= 3
        invariant forall k :: 0 <= k < n ==> candidates[k] !in Buttons(buttons)
      {
        var i := ButtonIndex(buttons, candidates[n]);
        if i < |buttons| {
          assert buttons[i].button in Buttons(buttons);
          assert n > 0 ==> candidates[0] !in Buttons(buttons);
          assert n > 1 ==> candidates[1] !in Buttons(buttons);
          return Some(candidates[n]);
        }
        n := n + 1;
      }
      assert candidates[0] !in Buttons(buttons) && candidates[1] !in Buttons(buttons) && candidates[2] !in Buttons(buttons);
      button := None;
    }
  }

  lemma PushedBack(done: seq<Command>, now: seq<Command>, rest: seq<Command>)
    ensures done + (now + rest) == (done + now) + rest && done + [] == done
  {
  }

  /** Does some held key drive this target? */
  method Drives(keys: seq<HeldKey>, target: u16) returns (found: bool)
    ensures found == (target in Targets(keys))
  {
    var i := 0;
    while i < |keys|
      invariant i <= |keys|
      invariant forall j :: 0 <= j < i ==> keys[j].target != target
    {
      if keys[i].target == target { return true; }
      i := i + 1;
    }
    found := false;
  }

  // ----- one operation

  ghost predicate Agrees(before: Machine, commands: seq<Command>, after: Machine) {
    AllFit(before, commands) && Replay(before, commands) == after
  }

  lemma FewCommandsAgree(before: Machine, c: Command)
    ensures Agrees(before, [], before)
    ensures before.Fits(c) ==> Agrees(before, [c], before.Do(c))
  {
    ReplayOne(before, c);
  }

  lemma KeyDistinct(ledger: Ledger, keyCode: u16, source: KeySource, down: bool)
    requires ledger.Distinct()
    ensures ledger.ApplyKey(keyCode, source, down).ledger.Distinct()
  {
    hide Targets;
  }

  lemma KeyDownAgrees(ledger: Ledger, keyCode: u16, source: KeySource)
    ensures var out := ledger.ApplyKey(keyCode, source, true);
      out.ledger.buttons == ledger.buttons && Agrees(ledger.Image(), out.commands, out.ledger.Image())
  {
    hide Agrees, Targets, Buttons;
    var out := ledger.ApplyKey(keyCode, source, true);
    NewestTarget(ledger.keys + [HeldKey(source, keyCode)]);
    assert (ledger.keys + [HeldKey(source, keyCode)])[..|ledger.keys|] == ledger.keys;
    FewCommandsAgree(ledger.Image(), KeyStroke(keyCode, true));
    if keyCode in Targets(ledger.keys) { assert Targets(ledger.keys) + {keyCode} == Targets(ledger.keys); }
  }

  lemma KeyUpAgrees(ledger: Ledger, keyCode: u16, source: KeySource)
    ensures var out := ledger.ApplyKey(keyCode, source, false);
      out.ledger.buttons == ledger.buttons && Agrees(ledger.Image(), out.commands, out.ledger.Image())
  {
    hide Agrees, Targets, Buttons, Without;
    var i := SourceIndex(ledger.keys, source);
    FewCommandsAgree(ledger.Image(), ScrollBy(0, 0));
    if i < |ledger.keys| {
      WithoutTargets(ledger.keys, i);
      var target, rest := ledger.keys[i].target, Targets(Without(ledger.keys, i));
      FewCommandsAgree(ledger.Image(), KeyStroke(target, false));
      if target in rest { assert rest + {target} == rest; } else { assert rest + {target} - {target} == rest; }
    }
  }

  lemma KeyAgrees(ledger: Ledger, keyCode: u16, source: KeySource, down: bool)
    requires ledger.Distinct()
    ensures var out := ledger.ApplyKey(keyCode, source, down);
      && out.ledger.Distinct() && out.ledger.buttons == ledger.buttons
      && Agrees(ledger.Image(), out.commands, out.ledger.Image())
  {
    hide Agrees, Targets, Ledger.Distinct, Ledger.ApplyKey;
    KeyDistinct(ledger, keyCode, source, down);
    if down { KeyDownAgrees(ledger, keyCode, source); } else { KeyUpAgrees(ledger, keyCode, source); }
  }

  lemma WithoutTargets(keys: seq<HeldKey>, i: nat)
    requires i < |keys|
    ensures Targets(keys) == Targets(Without(keys, i)) + {keys[i].target}
  {
    var rest := Without(keys, i);
    forall h | h in keys
      ensures h.target in Targets(rest) + {keys[i].target}
    {
      var j :| 0 <= j < |keys| && keys[j] == h;
      if j < i { assert rest[j] == h; } else if j > i { assert rest[j - 1] == h; }
    }
    forall h | h in rest
      ensures h.target in Targets(keys)
    {
      var j :| 0 <= j < |rest| && rest[j] == h;
      assert h == keys[if j < i then j else j + 1];
    }
  }

  lemma WithoutButtons(buttons: seq<HeldButton>, i: nat)
    requires i < |buttons|
    requires forall j, k :: 0 <= j < k < |buttons| ==> buttons[j].button != buttons[k].button
    ensures Buttons(Without(buttons, i)) == Buttons(buttons) - {buttons[i].button}
  {
    var rest := Without(buttons, i);
    forall h | h in buttons && h.button != buttons[i].button
      ensures h.button in Buttons(rest)
    {
      var j :| 0 <= j < |buttons| && buttons[j] == h;
      assert h == rest[if j < i then j else j - 1];
    }
    forall h | h in rest
      ensures h.button in Buttons(buttons) - {buttons[i].button}
    {
      var j :| 0 <= j < |rest| && rest[j] == h;
      assert h == buttons[if j < i then j else j + 1];
    }
  }

  lemma ButtonAgrees(ledger: Ledger, button: CriticalButton, down: bool, x: i32, y: i32)
    requires ledger.Distinct()
    ensures var out := ledger.ApplyButton(button, down, x, y);
      && out.ledger.Distinct() && out.ledger.keys == ledger.keys
      && Agrees(ledger.Image(), out.commands, out.ledger.Image())
  {
    var out := ledger.ApplyButton(button, down, x, y);
    var i := ButtonIndex(ledger.buttons, button);
    if out.commands != [] { ReplayOne(ledger.Image(), out.commands[0]); }
    if i < |ledger.buttons| {
      if down { SameButtons(ledger.buttons, out.ledger.buttons); } else { WithoutButtons(ledger.buttons, i); }
    } else if down {
      assert Buttons(ledger.buttons + [HeldButton(button, x, y)]) == Buttons(ledger.buttons) + {button};
    }
  }

  lemma SameButtons(a: seq<HeldButton>, b: seq<HeldButton>)
    requires |a| == |b| && forall i :: 0 <= i < |a| ==> a[i].button == b[i].button
    ensures Buttons(a) == Buttons(b)
  {
    forall h | h in a ensures h.button in Buttons(b) { var i :| 0 <= i < |a| && a[i] == h; assert b[i] in b; }
    forall h | h in b ensures h.button in Buttons(a) { var i :| 0 <= i < |b| && b[i] == h; assert a[i] in a; }
  }

  lemma NewestTarget(keys: seq<HeldKey>)
    requires keys != []
    ensures Targets(keys) == Targets(keys[..|keys| - 1]) + {keys[|keys| - 1].target}
  {
    assert keys == keys[..|keys| - 1] + [keys[|keys| - 1]];
  }

  lemma {:induction false} KeyReleasesAgree(keys: seq<HeldKey>, buttons: set<CriticalButton>)
    ensures var m := Machine(Targets(keys), buttons);
      Agrees(m, KeyReleases(keys), Machine({}, buttons))
    decreases |keys|
  {
    if keys != [] {
      var older, newest := keys[..|keys| - 1], keys[|keys| - 1];
      KeyReleasesAgree(older, buttons);
      NewestTarget(keys);
      hide Targets;
      var m, c := Machine(Targets(keys), buttons), KeyStroke(newest.target, false);
      if newest.target in Targets(older) {
        assert [] + KeyReleases(older) == KeyReleases(older) && Targets(keys) == Targets(older);
      } else {
        ReplayOne(m, c);
        assert m.Do(c) == Machine(Targets(older), buttons);
        ReplayAppend(m, [c], KeyReleases(older));
      }
    } else {
      assert AllFit(Machine({}, buttons), []);
    }
  }

  lemma {:induction false} OneReleasePerTarget(keys: seq<HeldKey>)
    ensures |KeyReleases(keys)| == |Targets(keys)|
    decreases |keys|
  {
    if keys != [] {
      OneReleasePerTarget(keys[..|keys| - 1]);
      NewestTarget(keys);
      hide Targets;
      var older, target := Targets(keys[..|keys| - 1]), keys[|keys| - 1].target;
      if target in older { assert older + {target} == older; }
    }
  }

  lemma {:induction false} ReleasesTheTargets(keys: seq<HeldKey>, target: u16)
    ensures KeyStroke(target, false) in KeyReleases(keys) <==> target in Targets(keys)
    decreases |keys|
  {
    if keys != [] {
      ReleasesTheTargets(keys[..|keys| - 1], target);
      NewestTarget(keys);
    }
  }

  lemma {:induction false} ButtonReleasesAgree(buttons: seq<HeldButton>)
    requires Ledger([], buttons).Distinct()
    ensures var m := Machine({}, Buttons(buttons));
      Agrees(m, ButtonReleases(buttons), Machine({}, {}))
    ensures |ButtonReleases(buttons)| == |buttons|
    ensures forall h: HeldButton :: MouseButton(h.button, false, h.x, h.y) in ButtonReleases(buttons) <==> h in buttons
    decreases |buttons|
  {
    if buttons != [] {
      var older, newest := buttons[..|buttons| - 1], buttons[|buttons| - 1];
      ButtonReleasesAgree(older);
      var c := MouseButton(newest.button, false, newest.x, newest.y);
      var m := Machine({}, Buttons(buttons));
      assert buttons == older + [newest];
      assert Buttons(buttons) == Buttons(older) + {newest.button} && newest.button !in Buttons(older);
      ReplayOne(m, c);
      assert m.Do(c) == Machine({}, Buttons(older));
      ReplayAppend(m, [c], ButtonReleases(older));
    } else {
      assert AllFit(Machine({}, {}), []);
    }
  }

  /** Releasing everything frees the machine: one release per distinct target, and each
      held button up at the position the ledger has for it. */
  lemma ReleaseAllFreesMachine(ledger: Ledger)
    requires ledger.Distinct()
    ensures var out := ledger.ReleaseAll();
      && Agrees(ledger.Image(), out.commands, Machine({}, {}))
      && |out.commands| == |Targets(ledger.keys)| + |ledger.buttons|
      && (forall t: u16 :: KeyStroke(t, false) in out.commands <==> t in Targets(ledger.keys))
      && (forall h: HeldButton :: MouseButton(h.button, false, h.x, h.y) in out.commands <==> h in ledger.buttons)
  {
    KeyReleasesAgree(ledger.keys, Buttons(ledger.buttons));
    OneReleasePerTarget(ledger.keys);
    forall t: u16 ensures KeyStroke(t, false) in KeyReleases(ledger.keys) <==> t in Targets(ledger.keys) {
      ReleasesTheTargets(ledger.keys, t);
    }
    ButtonReleasesAgree(ledger.buttons);
    ReplayAppend(ledger.Image(), KeyReleases(ledger.keys), ButtonReleases(ledger.buttons));
    OnlyKeys(ledger.keys);
    OnlyButtons(ledger.buttons);
  }

  lemma {:induction false} OnlyKeys(keys: seq<HeldKey>)
    ensures forall c :: c in KeyReleases(keys) ==> c.KeyStroke?
    decreases |keys|
  {
    if keys != [] { OnlyKeys(keys[..|keys| - 1]); }
  }

  lemma {:induction false} OnlyButtons(buttons: seq<HeldButton>)
    ensures forall c :: c in ButtonReleases(buttons) ==> c.MouseButton?
    decreases |buttons|
  {
    if buttons != [] { OnlyButtons(buttons[..|buttons| - 1]); }
  }

  /** The first key that holds a target down. */
  function OldestHolder(keys: seq<HeldKey>, target: u16): (i: nat)
    ensures i <= |keys| && (i < |keys| ==> keys[i].target == target)
    ensures forall j :: 0 <= j < i ==> keys[j].target != target
  {
    if keys == [] || keys[0].target == target then 0 else 1 + OldestHolder(keys[1..], target)
  }

  /** Releasing everything goes back in time: keys in the order in which their last holder
      comes up when the newest goes first, and after them buttons from the newest on. */
  lemma {:induction false} ReleasesBackInTime(keys: seq<HeldKey>)
    ensures forall p :: 0 <= p < |KeyReleases(keys)| ==>
      KeyReleases(keys)[p].KeyStroke? && OldestHolder(keys, KeyReleases(keys)[p].keyCode) < |keys|
    ensures forall p, q :: 0 <= p < q < |KeyReleases(keys)| ==>
      OldestHolder(keys, KeyReleases(keys)[q].keyCode) < OldestHolder(keys, KeyReleases(keys)[p].keyCode)
    decreases |keys|
  {
    if keys != [] {
      var older, newest := keys[..|keys| - 1], keys[|keys| - 1];
      ReleasesBackInTime(older);
      var rest := KeyReleases(older);
      forall p | 0 <= p < |rest| ensures OldestHolder(keys, rest[p].keyCode) == OldestHolder(older, rest[p].keyCode) {
        HolderIsOlder(keys, rest[p].keyCode);
      }
      HolderIsOlder(keys, newest.target);
      HeldByHolder(older, newest.target);
    }
  }

  lemma HolderIsOlder(keys: seq<HeldKey>, target: u16)
    requires keys != []
    ensures var older, i := keys[..|keys| - 1], OldestHolder(keys[..|keys| - 1], target);
      OldestHolder(keys, target) == if i < |older| then i else if keys[|older|].target == target then i else i + 1
  {
    var older, i, j := keys[..|keys| - 1], OldestHolder(keys[..|keys| - 1], target), OldestHolder(keys, target);
    if i < |older| { assert keys[i] == older[i]; }
    forall k | 0 <= k < |older| ensures keys[k] == older[k] {}
  }

  lemma HeldByHolder(keys: seq<HeldKey>, target: u16)
    ensures OldestHolder(keys, target) < |keys| <==> target in Targets(keys)
  {
    var i := OldestHolder(keys, target);
    if i < |keys| { assert keys[i] in keys; }
  }

  lemma KeysBeforeButtons(ledger: Ledger)
    ensures var commands := ledger.ReleaseAll().commands;
      forall p :: 0 <= p < |commands| ==>
        if p < |Targets(ledger.keys)| then commands[p].KeyStroke? else commands[p].MouseButton?
  {
    OnlyKeys(ledger.keys);
    OnlyButtons(ledger.buttons);
    OneReleasePerTarget(ledger.keys);
    var keys, buttons := KeyReleases(ledger.keys), ButtonReleases(ledger.buttons);
    forall p | 0 <= p < |keys| ensures keys[p].KeyStroke? { assert keys[p] in keys; }
    forall p | 0 <= p < |buttons| ensures buttons[p].MouseButton? { assert buttons[p] in buttons; }
  }

  lemma {:induction false} ButtonsBackInTime(buttons: seq<HeldButton>)
    ensures |ButtonReleases(buttons)| == |buttons|
    ensures forall k :: 0 <= k < |buttons| ==>
      var h := buttons[|buttons| - 1 - k]; ButtonReleases(buttons)[k] == MouseButton(h.button, false, h.x, h.y)
    decreases |buttons|
  {
    if buttons != [] { ButtonsBackInTime(buttons[..|buttons| - 1]); }
  }

  // ----- whole runs

  datatype PressedEvent = Arrives(event: CriticalEvent) | PointerMoves(x: i32, y: i32) | LetGo

  function Step(ledger: Ledger, e: PressedEvent): Applied {
    match e
    case Arrives(event) => ledger.Apply(event)
    case PointerMoves(x, y) => Applied(ledger.UpdatePointer(x, y), [])
    case LetGo => ledger.ReleaseAll()
  }

  function Run(events: seq<PressedEvent>): Applied {
    if events == [] then Applied(Ledger([], []), [])
    else
      var before := Run(events[..|events| - 1]);
      var out := Step(before.ledger, events[|events| - 1]);
      Applied(out.ledger, before.commands + out.commands)
  }

  lemma StepAgrees(ledger: Ledger, e: PressedEvent)
    requires ledger.Distinct()
    ensures var out := Step(ledger, e);
      out.ledger.Distinct() && Agrees(ledger.Image(), out.commands, out.ledger.Image())
  {
    match e
    case Arrives(Key(keyCode, scanCode, extended, down)) =>
      KeyAgrees(ledger, keyCode, SourceOf(keyCode, scanCode, extended), down);
    case Arrives(Button(button, down, x, y, _)) => ButtonAgrees(ledger, button, down, x, y);
    case Arrives(Scroll(deltaX, deltaY, _, _, _)) => FewCommandsAgree(ledger.Image(), ScrollBy(deltaX, deltaY));
    case PointerMoves(x, y) =>
      SameButtons(ledger.buttons, ledger.UpdatePointer(x, y).buttons);
      FewCommandsAgree(ledger.Image(), ScrollBy(0, 0));
    case LetGo => ReleaseAllFreesMachine(ledger);
  }

  /** The machine always holds exactly the ledger's targets: no held target is pressed
      again and nothing free is released, over any sequence of events. */
  lemma {:induction false} MachineFollowsLedger(events: seq<PressedEvent>)
    ensures var out := Run(events);
      out.ledger.Distinct() && Agrees(Machine({}, {}), out.commands, out.ledger.Image())
  {
    if events == [] {
      assert Replay(Machine({}, {}), []) == Machine({}, {});
    } else {
      var before := Run(events[..|events| - 1]);
      MachineFollowsLedger(events[..|events| - 1]);
      StepAgrees(before.ledger, events[|events| - 1]);
      ReplayAppend(Machine({}, {}), before.commands, Step(before.ledger, events[|events| - 1]).commands);
    }
  }

  /** What a physical key drives, told from its own events alone: the target it was mapped
      to when it went down, until it comes up. */
  function KeyAfter(events: seq<PressedEvent>, source: KeySource): Option<u16> {
    if events == [] then None
    else
      var before := KeyAfter(events[..|events| - 1], source);
      match events[|events| - 1]
      case LetGo => None
      case Arrives(Key(keyCode, scanCode, extended, down)) =>
        if SourceOf(keyCode, scanCode, extended) != source then before
        else if !down then None
        else if before.Some? then before
        else Some(keyCode)
      case _ => before
  }

  /** Where a held button was seen last, told from its own and the pointer's events alone. */
  function ButtonAfter(events: seq<PressedEvent>, button: CriticalButton): Option<(i32, i32)> {
    if events == [] then None
    else
      var before := ButtonAfter(events[..|events| - 1], button);
      match events[|events| - 1]
      case LetGo => None
      case PointerMoves(x, y) => if before.Some? then Some((x, y)) else None
      case Arrives(Button(b, down, x, y, _)) =>
        if b != button then before else if down then Some((x, y)) else None
      case _ => before
  }

  predicate KeyEntry(ledger: Ledger, source: KeySource, target: Option<u16>) {
    match target
    case None => forall h :: h in ledger.keys ==> h.source != source
    case Some(t) => HeldKey(source, t) in ledger.keys
  }

  predicate ButtonEntry(ledger: Ledger, button: CriticalButton, place: Option<(i32, i32)>) {
    match place
    case None => forall h :: h in ledger.buttons ==> h.button != button
    case Some((x, y)) => HeldButton(button, x, y) in ledger.buttons
  }

  lemma WithoutMembers<T>(s: seq<T>, i: nat)
    requires i < |s|
    ensures forall x :: x in Without(s, i) ==> x in s
    ensures forall x :: x in s ==> x == s[i] || x in Without(s, i)
    ensures (forall j, k :: 0 <= j < k < |s| ==> s[j] != s[k]) ==> s[i] !in Without(s, i)
  {
    var rest := Without(s, i);
    forall x | x in s ensures x == s[i] || x in rest {
      var j :| 0 <= j < |s| && s[j] == x;
      if j != i { assert x == rest[if j < i then j else j - 1]; }
    }
    forall x | x in rest ensures x in s {
      var j :| 0 <= j < |rest| && rest[j] == x;
      assert x == s[if j < i then j else j + 1];
    }
  }

  lemma KeyEntryStep(ledger: Ledger, keyCode: u16, source: KeySource, down: bool, k: KeySource, before: Option<u16>)
    requires ledger.Distinct() && KeyEntry(ledger, k, before)
    ensures KeyEntry(ledger.ApplyKey(keyCode, source, down).ledger, k,
                     if source != k then before else if !down then None else if before.Some? then before else Some(keyCode))
  {
    hide Targets, Without;
    var i := SourceIndex(ledger.keys, source);
    if i < |ledger.keys| { WithoutMembers(ledger.keys, i); }
  }

  lemma ButtonDownEntry(ledger: Ledger, button: CriticalButton, x: i32, y: i32,
                        b: CriticalButton, before: Option<(i32, i32)>)
    requires ledger.Distinct() && ButtonEntry(ledger, b, before)
    ensures ButtonEntry(ledger.ApplyButton(button, true, x, y).ledger, b, if button != b then before else Some((x, y)))
  {
    hide Buttons, Without;
    var i := ButtonIndex(ledger.buttons, button);
    var after := ledger.ApplyButton(button, true, x, y).ledger.buttons;
    if i < |ledger.buttons| {
      assert after[i] == HeldButton(button, x, y);
      if before.Some? && button != b {
        var j :| 0 <= j < |ledger.buttons| && ledger.buttons[j] == HeldButton(b, before.value.0, before.value.1);
        assert after[j] == ledger.buttons[j];
      }
    }
  }

  lemma ButtonUpEntry(ledger: Ledger, button: CriticalButton, x: i32, y: i32,
                      b: CriticalButton, before: Option<(i32, i32)>)
    requires ledger.Distinct() && ButtonEntry(ledger, b, before)
    ensures ButtonEntry(ledger.ApplyButton(button, false, x, y).ledger, b, if button != b then before else None)
  {
    hide Buttons, Without;
    var i := ButtonIndex(ledger.buttons, button);
    if i < |ledger.buttons| { WithoutMembers(ledger.buttons, i); }
  }

  lemma PointerEntryStep(ledger: Ledger, x: i32, y: i32, b: CriticalButton, before: Option<(i32, i32)>)
    requires ButtonEntry(ledger, b, before)
    ensures ButtonEntry(ledger.UpdatePointer(x, y), b, if before.Some? then Some((x, y)) else None)
  {
    var after := ledger.UpdatePointer(x, y).buttons;
    if before.Some? {
      var i :| 0 <= i < |ledger.buttons| && ledger.buttons[i] == HeldButton(b, before.value.0, before.value.1);
      assert after[i] == HeldButton(b, x, y);
    } else {
      forall h | h in after ensures h.button != b {
        var j :| 0 <= j < |after| && after[j] == h;
        assert ledger.buttons[j].button == h.button;
      }
    }
  }

  /** The ledger is, key by key and button by button, what their own histories say; in
      particular it does not matter how a key's mapping changes while it is held. */
  lemma {:induction false} LedgerIsHistory(events: seq<PressedEvent>, source: KeySource, button: CriticalButton)
    ensures KeyEntry(Run(events).ledger, source, KeyAfter(events, source))
    ensures ButtonEntry(Run(events).ledger, button, ButtonAfter(events, button))
  {
    if events != [] {
      var before, e := events[..|events| - 1], events[|events| - 1];
      LedgerIsHistory(before, source, button);
      MachineFollowsLedger(before);
      var ledger := Run(before).ledger;
      match e
      case Arrives(Key(keyCode, scanCode, extended, down)) =>
        KeyEntryStep(ledger, keyCode, SourceOf(keyCode, scanCode, extended), down, source, KeyAfter(before, source));
        KeyDistinct(ledger, keyCode, SourceOf(keyCode, scanCode, extended), down);
      case Arrives(Button(b, down, x, y, _)) =>
        if down { ButtonDownEntry(ledger, b, x, y, button, ButtonAfter(before, button)); }
        else { ButtonUpEntry(ledger, b, x, y, button, ButtonAfter(before, button)); }
      case PointerMoves(x, y) => PointerEntryStep(ledger, x, y, button, ButtonAfter(before, button));
      case _ =>
    }
  }

  /** A target is down on the machine exactly while some physical key that drove it when
      pressed is still down. */
  lemma HeldExactlyWhileDriven(events: seq<PressedEvent>, target: u16)
    ensures target in Replay(Machine({}, {}), Run(events).commands).keys
       <==> exists source :: KeyAfter(events, source) == Some(target)
  {
    MachineFollowsLedger(events);
    var keys := Run(events).ledger.keys;
    assert Replay(Machine({}, {}), Run(events).commands).keys == Targets(keys);
    hide Run, KeyAfter, Replay, AllFit, Ledger.Distinct;
    if target in Targets(keys) {
      var h :| h in keys && h.target == target;
      NotTwice(events, h);
    }
    forall source | KeyAfter(events, source) == Some(target)
      ensures target in Targets(keys)
    {
      LedgerIsHistory(events, source, Left);
      assert HeldKey(source, target).target in Targets(keys);
    }
  }

  /** The ledger has no second entry for a key. */
  lemma NotTwice(events: seq<PressedEvent>, h: HeldKey)
    requires h in Run(events).ledger.keys
    ensures KeyAfter(events, h.source) == Some(h.target)
  {
    MachineFollowsLedger(events);
    LedgerIsHistory(events, h.source, Left);
    var keys := Run(events).ledger.keys;
    var i :| 0 <= i < |keys| && keys[i] == h;
    if KeyAfter(events, h.source).Some? {
      var j :| 0 <= j < |keys| && keys[j] == HeldKey(h.source, KeyAfter(events, h.source).value);
      assert i == j;
    }
  }
}
