/** What reaches the receiver's machine: the command that every accepted frame comes to,
    the place where it lands, and the whole session as a replay of what was accepted. */
module Injections {
  import opened Base
  import Handshakes
  import opened Inputs
  import opened Pressed
  import opened Receivers
  import opened ReceiverRuns

  // ----- where a point lands

  /** Step `value` of the logical pixels falls on step n of the native ones. */
  predicate InCell(n: int, value: int, logicalSize: int, nativeSize: int) {
    n * (logicalSize - 1) <= value * (nativeSize - 1) < (n + 1) * (logicalSize - 1)
  }

  predicate Capped(image: int, place: int) {
    image == if place > 0x7FFF_FFFF then 0x7FFF_FFFF else place
  }

  /** A coordinate of the logical display on the native one: the same share of the way
      from the first pixel to the last, rounded down. */
  ghost predicate LandsOnAxis(value: int, logicalSize: int, origin: int, nativeSize: int, image: int) {
    if logicalSize <= 1 || nativeSize <= 1 then image == origin
    else exists n: nat :: InCell(n, value, logicalSize, nativeSize) && Capped(image, origin + n)
  }

  ghost predicate Lands(d: Display, x: int, y: int, place: (i32, i32)) {
    && 0 <= x < d.logicalWidth && 0 <= y < d.logicalHeight
    && LandsOnAxis(x, d.logicalWidth, d.nativeX, d.nativeWidth, place.0)
    && LandsOnAxis(y, d.logicalHeight, d.nativeY, d.nativeHeight, place.1)
  }

  predicate WellFormed(d: Display) {
    d.revision != 0 && d.logicalWidth > 0 && d.logicalHeight > 0 && d.nativeWidth > 0 && d.nativeHeight > 0
  }

  lemma DivisionCell(product: nat, of: nat)
    requires of > 0
    ensures product / of * of <= product < (product / of + 1) * of
  {
  }

  lemma AxisLands(value: i32, logicalSize: i32, origin: i32, nativeSize: i32)
    requires 0 <= value
    ensures LandsOnAxis(value, logicalSize, origin, nativeSize, MapAxis(value, logicalSize, origin, nativeSize))
  {
    if logicalSize > 1 && nativeSize > 1 {
      var n := Share(value, nativeSize - 1, logicalSize - 1);
      DivisionCell(value * (nativeSize - 1), logicalSize - 1);
      assert InCell(n, value, logicalSize, nativeSize);
      assert Capped(MapAxis(value, logicalSize, origin, nativeSize), origin + n);
    }
  }

  /** A point is mapped if and only if it is on the display, and then to where it lands. */
  lemma MapLands(d: Display, x: i32, y: i32)
    ensures d.Map(x, y).Ok? <==> WellFormed(d) && 0 <= x < d.logicalWidth && 0 <= y < d.logicalHeight
    ensures d.Map(x, y).Ok? ==> Lands(d, x, y, d.Map(x, y).value)
  {
    hide MapAxis, LandsOnAxis;
    if d.Map(x, y).Ok? {
      AxisLands(x, d.logicalWidth, d.nativeX, d.nativeWidth);
      AxisLands(y, d.logicalHeight, d.nativeY, d.nativeHeight);
    }
  }

  lemma CellsInOrder(n: int, v: int, n': int, v': int, logicalSize: int, nativeSize: int)
    requires logicalSize > 1 && nativeSize > 1 && v <= v'
    requires InCell(n, v, logicalSize, nativeSize) && InCell(n', v', logicalSize, nativeSize)
    ensures n <= n'
  {
    var l, k := logicalSize - 1, nativeSize - 1;
    Grows(v, v', k);
    Cancels(n, n' + 1, l) by { Between(n * l, v * k, v' * k, (n' + 1) * l); }
  }

  lemma Between(a: int, b: int, c: int, d: int)
    requires a <= b <= c < d
    ensures a < d
  {
  }

  lemma Grows(a: int, b: int, c: int)
    requires a <= b && c >= 0
    ensures a * c <= b * c
  {
  }

  lemma Cancels(a: int, b: int, c: int)
    requires c > 0 && a * c < b * c
    ensures a < b
  {
  }

  /** On one axis: inside the native extent, in order, and from end to end. */
  lemma AxisIsFaithful(v: int, v': int, logicalSize: i32, origin: i32, nativeSize: i32, image: int, image': int)
    requires logicalSize > 0 && nativeSize > 0 && 0 <= v <= v' < logicalSize
    requires LandsOnAxis(v, logicalSize, origin, nativeSize, image)
    requires LandsOnAxis(v', logicalSize, origin, nativeSize, image')
    ensures origin <= image <= image' <= origin + nativeSize - 1
    ensures v == 0 ==> image == origin
    ensures v' == logicalSize - 1 && logicalSize > 1 ==> Capped(image', origin + nativeSize - 1)
    ensures v == v' ==> image == image'
  {
    if logicalSize > 1 && nativeSize > 1 {
      var n: nat :| InCell(n, v, logicalSize, nativeSize) && Capped(image, origin + n);
      var n': nat :| InCell(n', v', logicalSize, nativeSize) && Capped(image', origin + n');
      CellsInOrder(n, v, n', v', logicalSize, nativeSize);
      EndCells(logicalSize, nativeSize);
      CellsInOrder(n', v', nativeSize - 1, logicalSize - 1, logicalSize, nativeSize);
      if v == 0 { CellsInOrder(n, v, 0, 0, logicalSize, nativeSize); }
      if v' == logicalSize - 1 {
        CellsInOrder(nativeSize - 1, logicalSize - 1, n', v', logicalSize, nativeSize);
      }
      if v == v' { CellsInOrder(n', v', n, v, logicalSize, nativeSize); }
    }
  }

  lemma EndCells(logicalSize: int, nativeSize: int)
    requires logicalSize > 1 && nativeSize > 1
    ensures InCell(0, 0, logicalSize, nativeSize) && InCell(nativeSize - 1, logicalSize - 1, logicalSize, nativeSize)
  {
  }

  /** A well-formed display maps onto its native rectangle: every point lands inside it, at
      one place only, in order on both axes, the first corner on the first and, unless a
      side is a single logical step, the last corner on the last. */
  lemma PointsLandInOrder(d: Display, x: i32, y: i32, x': i32, y': i32, place: (i32, i32), place': (i32, i32))
    requires WellFormed(d) && Lands(d, x, y, place) && Lands(d, x', y', place')
    ensures d.nativeX <= place.0 <= d.nativeX + d.nativeWidth - 1
    ensures d.nativeY <= place.1 <= d.nativeY + d.nativeHeight - 1
    ensures x <= x' ==> place.0 <= place'.0
    ensures y <= y' ==> place.1 <= place'.1
    ensures x == x' && y == y' ==> place == place'
    ensures x == y == 0 ==> place == (d.nativeX, d.nativeY)
    ensures x == d.logicalWidth - 1 > 0 ==> Capped(place.0, d.nativeX + d.nativeWidth - 1)
    ensures y == d.logicalHeight - 1 > 0 ==> Capped(place.1, d.nativeY + d.nativeHeight - 1)
  {
    hide LandsOnAxis;
    AxisIsFaithful(x, x, d.logicalWidth, d.nativeX, d.nativeWidth, place.0, place.0);
    AxisIsFaithful(y, y, d.logicalHeight, d.nativeY, d.nativeHeight, place.1, place.1);
    if x <= x' { AxisIsFaithful(x, x', d.logicalWidth, d.nativeX, d.nativeWidth, place.0, place'.0); }
    if y <= y' { AxisIsFaithful(y, y', d.logicalHeight, d.nativeY, d.nativeHeight, place.1, place'.1); }
  }

  // ----- what one frame comes to

  /** The button a movement drags with: left before right before middle. */
  ghost predicate Drags(held: set<CriticalButton>, drag: Option<CriticalButton>) {
    match drag
    case None => Left !in held && Right !in held && Middle !in held
    case Some(button) =>
      && button in held && (button == Right ==> Left !in held)
      && (button == Middle ==> Left !in held && Right !in held) && button != Back && button != Forward
  }

  ghost predicate MovesTo(commands: seq<InputCommand>, place: (i32, i32), held: set<CriticalButton>) {
    exists drag :: commands == [MouseMove(place.0, place.1, drag)] && Drags(held, drag)
  }

  /** The same buttons are held, in the same order, all at one place. */
  ghost predicate HeldAt(before: seq<HeldButton>, after: seq<HeldButton>, place: (i32, i32)) {
    && |after| == |before|
    && forall i :: 0 <= i < |before| ==> after[i] == HeldButton(before[i].button, place.0, place.1)
  }

  predicate Knows(keys: seq<HeldKey>, source: KeySource) { exists h :: h in keys && h.source == source }

  predicate DrivenByOther(keys: seq<HeldKey>, source: KeySource, target: u16) {
    exists h :: h in keys && h.source != source && h.target == target
  }

  /** A key goes down or up: the machine hears of a target's first source and of its last. */
  ghost predicate Strokes(before: Ledger, source: KeySource, target: u16, down: bool,
                          commands: seq<InputCommand>, after: Ledger) {
    && after.buttons == before.buttons
    && (forall h :: h in after.keys <==>
          if h.source != source then h in before.keys
          else if Knows(before.keys, source) then down && h in before.keys
          else down && h.target == target)
    && (if down then
          commands == if Knows(before.keys, source) || DrivenByOther(before.keys, source, target) then []
                      else [Act(KeyStroke(target, true))]
        else if !Knows(before.keys, source) then commands == []
        else exists h :: h in before.keys && h.source == source
               && commands == if DrivenByOther(before.keys, source, h.target) then []
                              else [Act(KeyStroke(h.target, false))])
  }

  /** A button is clicked where it is: a press or release that changes nothing only moves. */
  ghost predicate Clicks(before: Ledger, button: CriticalButton, down: bool, place: (i32, i32),
                         commands: seq<InputCommand>, after: Ledger) {
    && after.keys == before.keys
    && (forall b :: b in Buttons(after.buttons) <==> if b == button then down else b in Buttons(before.buttons))
    && (forall h :: h in after.buttons ==> h == HeldButton(h.button, place.0, place.1))
    && (if down != (button in Buttons(before.buttons))
        then commands == [Act(MouseButton(button, down, place.0, place.1))]
        else MovesTo(commands, place, Buttons(after.buttons)))
  }

  /** What an accepted frame makes the runtime inject, and what is held afterwards.  Keys
      are remapped, points land on the display that is shown. */
  ghost predicate Injects(s: SessionState, event: CriticalEvent, commands: seq<InputCommand>, after: Ledger) {
    match event
    case Key(keyCode, scanCode, extended, down) =>
      var target := s.remap(keyCode);
      Strokes(s.pressed, if scanCode == 0 then VirtualKey(target) else ScanCode(scanCode, extended), target, down,
              commands, after)
    case Button(button, down, x, y, _) =>
      && s.shown.Some?
      && exists place ::
           Lands(s.shown.value, x, y, place) && Clicks(s.pressed, button, down, place, commands, after)
    case Scroll(deltaX, deltaY, x, y, _) =>
      && s.shown.Some? && |commands| == 2 && commands[1] == Act(ScrollBy(deltaX, deltaY))
      && exists place ::
           && Lands(s.shown.value, x, y, place)
           && MovesTo(commands[..1], place, Buttons(s.pressed.buttons))
           && after.keys == s.pressed.keys && HeldAt(s.pressed.buttons, after.buttons, place)
  }

  /** A waiting motion that the frame sets free moves the pointer after it, unless the
      frame itself was further. */
  ghost predicate Follows(s: SessionState, frame: CriticalFrame, mid: Ledger, commands: seq<InputCommand>,
                          after: Ledger)
  {
    if s.pending.Some? && s.pending.value.requiredReliableSequence <= frame.sequence
       && s.pending.value.sequence > s.highestMotion
       && (frame.event.Key? || s.pending.value.sequence > frame.event.motionSequence)
    then s.shown.Some? && MovesPointer(s.shown.value, s.pending.value, mid, commands, after)
    else commands == [] && after == mid
  }

  ghost predicate MovesPointer(d: Display, motion: MotionFrame, before: Ledger, commands: seq<InputCommand>,
                               after: Ledger)
  {
    exists place ::
      && Lands(d, motion.x, motion.y, place)
      && MovesTo(commands, place, Buttons(before.buttons))
      && after.keys == before.keys && HeldAt(before.buttons, after.buttons, place)
  }

  lemma {:induction false} SubmitPosts(injector: Injected, commands: seq<InputCommand>)
    ensures injector.Submit(commands).1.None? ==>
      injector.Submit(commands).0.posted == injector.posted + commands
    decreases |commands|
  {
    if commands != [] { SubmitPosts(injector.Post(commands[0]).0, commands[1..]); }
  }

  lemma DragsRight(ledger: Ledger)
    ensures Drags(Buttons(ledger.buttons), DragOf(ledger))
  {
    hide Buttons;
  }

  lemma OnlyMoves(place: (i32, i32), ledger: Ledger, held: set<CriticalButton>)
    requires held == Buttons(ledger.buttons)
    ensures MovesTo([MouseMove(place.0, place.1, DragOf(ledger))], place, held)
  {
    hide Buttons, Drags, DragOf;
    DragsRight(ledger);
  }

  lemma PointerHolds(ledger: Ledger, x: i32, y: i32)
    ensures var moved := ledger.UpdatePointer(x, y);
      HeldAt(ledger.buttons, moved.buttons, (x, y)) && moved.keys == ledger.keys
      && Buttons(moved.buttons) == Buttons(ledger.buttons)
  {
    SameButtons(ledger.buttons, ledger.UpdatePointer(x, y).buttons);
  }

  // ----- keys

  lemma SourceOnce(keys: seq<HeldKey>, source: KeySource)
    requires forall i, j :: 0 <= i < j < |keys| ==> keys[i].source != keys[j].source
    ensures var i := SourceIndex(keys, source);
      (i < |keys| <==> Knows(keys, source))
      && (i < |keys| ==> forall h :: h in keys && h.source == source ==> h == keys[i])
  {
  }

  lemma KeyStrokes(ledger: Ledger, source: KeySource, target: u16, down: bool)
    requires ledger.Distinct()
    ensures var out := ledger.ApplyKey(target, source, down);
      Strokes(ledger, source, target, down, Acts(out.commands), out.ledger)
  {
    hide Targets, Without;
    var i, out := SourceIndex(ledger.keys, source), ledger.ApplyKey(target, source, down);
    SourceOnce(ledger.keys, source);
    if down {
      TargetMeansDriven(ledger.keys, source, target);
      if i == |ledger.keys| { NewestMember(ledger.keys, HeldKey(source, target)); }
    } else if i < |ledger.keys| {
      WithoutMembers(ledger.keys, i);
      LeavesOthers(ledger.keys, i);
      StillDriven(ledger.keys, i);
      assert ledger.keys[i] in ledger.keys;
    }
  }

  lemma NewestMember(keys: seq<HeldKey>, newest: HeldKey)
    ensures forall h :: h in keys + [newest] <==> h in keys || h == newest
  {
  }

  lemma TargetMeansDriven(keys: seq<HeldKey>, source: KeySource, target: u16)
    ensures !Knows(keys, source) ==> (target in Targets(keys) <==> DrivenByOther(keys, source, target))
  {
  }

  lemma LeavesOthers(keys: seq<HeldKey>, i: nat)
    requires i < |keys| && forall j, k :: 0 <= j < k < |keys| ==> keys[j].source != keys[k].source
    ensures forall h :: h in Without(keys, i) <==> h in keys && h.source != keys[i].source
  {
    WithoutMembers(keys, i);
    forall h | h in Without(keys, i)
      ensures h.source != keys[i].source
    {
      var rest := Without(keys, i);
      var j :| 0 <= j < |rest| && rest[j] == h;
      assert h == keys[if j < i then j else j + 1];
    }
  }

  lemma StillDriven(keys: seq<HeldKey>, i: nat)
    requires i < |keys| && forall j, k :: 0 <= j < k < |keys| ==> keys[j].source != keys[k].source
    ensures keys[i].target in Targets(Without(keys, i)) <==> DrivenByOther(keys, keys[i].source, keys[i].target)
  {
    hide Without;
    LeavesOthers(keys, i);
  }

  // ----- buttons and the wheel

  lemma ButtonClicks(ledger: Ledger, button: CriticalButton, down: bool, x: i32, y: i32)
    requires ledger.Distinct()
    ensures var out := ledger.UpdatePointer(x, y).ApplyButton(button, down, x, y);
      var commands := Acts(out.commands);
      Clicks(ledger, button, down, (x, y),
             if commands == [] then [MouseMove(x, y, DragOf(out.ledger))] else commands, out.ledger)
  {
    hide Drags, DragOf;
    var moved := ledger.UpdatePointer(x, y);
    PointerHolds(ledger, x, y);
    PointerKeepsImage(ledger, x, y);
    ButtonHolds(moved, button, down, x, y);
    var out := moved.ApplyButton(button, down, x, y);
    OnlyMoves((x, y), out.ledger, Buttons(out.ledger.buttons));
  }

  lemma ButtonHolds(ledger: Ledger, button: CriticalButton, down: bool, x: i32, y: i32)
    requires ledger.Distinct() && forall h :: h in ledger.buttons ==> h == HeldButton(h.button, x, y)
    ensures var out := ledger.ApplyButton(button, down, x, y);
      && out.ledger.keys == ledger.keys
      && (forall b :: b in Buttons(out.ledger.buttons) <==> if b == button then down else b in Buttons(ledger.buttons))
      && (forall h :: h in out.ledger.buttons ==> h == HeldButton(h.button, x, y))
      && out.commands == if down != (button in Buttons(ledger.buttons)) then [MouseButton(button, down, x, y)] else []
  {
    var i, out := ButtonIndex(ledger.buttons, button), ledger.ApplyButton(button, down, x, y);
    if i < |ledger.buttons| {
      assert ledger.buttons[i] in ledger.buttons;
      if down { SameButtons(ledger.buttons, out.ledger.buttons); } else {
        WithoutButtons(ledger.buttons, i);
        WithoutMembers(ledger.buttons, i);
      }
    } else if down {
      assert Buttons(ledger.buttons + [HeldButton(button, x, y)]) == Buttons(ledger.buttons) + {button};
    }
  }

  // ----- one frame

  lemma CarryPosts(s: SessionState, frame: CriticalFrame, gate': GateSide, ledger: Ledger, commands: seq<InputCommand>,
                   nowMs: u64)
    requires SessionInv(s) && s.gate.Accept(frame) == (gate', None)
    requires s.(gate := gate').Carry(frame, ledger, commands, nowMs).error.None?
    ensures var t := s.(gate := gate').Carry(frame, ledger, commands, nowMs).state; var posted := s.injector.posted;
      && |posted| + |commands| <= |t.injector.posted| && t.injector.posted[..|posted| + |commands|] == posted + commands
      && Follows(s, frame, ledger, t.injector.posted[|posted| + |commands|..], t.pressed)
  {
    hide Safe, SessionState.FailInjection, Lands, Buttons, DragOf, CheckCritical;
    SubmitPosts(s.injector, commands);
    var (injector', failure) := s.injector.Submit(commands);
    var u := s.(gate := gate', injector := injector', pressed := ledger, highestApplied := frame.sequence,
                highestMotion := Stamped(s, frame), lastActivity := Some(nowMs));
    if u.pending.Some? && u.pending.value.requiredReliableSequence <= u.highestApplied
       && u.pending.value.sequence > u.highestMotion {
      MotionPosts(u.(pending := None), u.pending.value);
      assert u.FlushPending() == u.(pending := None).ApplyMotion(u.pending.value);
    }
  }

  lemma MotionPosts(s: SessionState, motion: MotionFrame)
    requires s.shown.Some? && s.ApplyMotion(motion).error.None?
    ensures var t := s.ApplyMotion(motion).state; var posted := s.injector.posted;
      && posted <= t.injector.posted
      && MovesPointer(s.shown.value, motion, s.pressed, t.injector.posted[|posted|..], t.pressed)
  {
    hide SessionState.FailInjection, Lands, Buttons, DragOf, Display.Map;
    MapLands(s.shown.value, motion.x, motion.y);
    var place := s.shown.value.Map(motion.x, motion.y).value;
    PointerHolds(s.pressed, place.0, place.1);
    var moved := s.pressed.UpdatePointer(place.0, place.1);
    OnlyMoves(place, moved, Buttons(s.pressed.buttons));
    assert s.ApplyMotion(motion).state.injector.posted[|s.injector.posted|..]
        == [MouseMove(place.0, place.1, DragOf(moved))];
  }

  lemma PointerInjects(s: SessionState, frame: CriticalFrame, place: (i32, i32))
    requires s.pressed.Distinct() && s.shown.Some? && !frame.event.Key?
    requires Lands(s.shown.value, frame.event.x, frame.event.y, place)
    ensures var (commands, after) := PointerAsks(s, frame, place); Injects(s, frame.event, commands, after)
  {
    hide Lands, Drags, DragOf, Buttons, Ledger.UpdatePointer;
    PointerHolds(s.pressed, place.0, place.1);
    var moved := s.pressed.UpdatePointer(place.0, place.1);
    match frame.event
    case Button(button, down, _, _, _) => ButtonClicks(s.pressed, button, down, place.0, place.1);
    case Scroll(deltaX, deltaY, _, _, _) =>
      OnlyMoves(place, s.pressed, Buttons(s.pressed.buttons));
      var (commands, after) := PointerAsks(s, frame, place);
      assert commands[..1] == [MouseMove(place.0, place.1, DragOf(s.pressed))];
    case _ =>
  }

  /** What the runtime submits for a click or a scroll at a place. */
  function PointerAsks(s: SessionState, frame: CriticalFrame, place: (i32, i32)): (seq<InputCommand>, Ledger)
    requires !frame.event.Key?
  {
    var out := s.pressed.UpdatePointer(place.0, place.1).Apply(frame.event.(x := place.0, y := place.1));
    var moves := if frame.event.Scroll? then [MouseMove(place.0, place.1, DragOf(s.pressed))] else [];
    var commands := moves + Acts(out.commands);
    (if commands == [] then [MouseMove(place.0, place.1, DragOf(out.ledger))] else commands, out.ledger)
  }

  lemma KeyInjects(s: SessionState, frame: CriticalFrame)
    requires s.pressed.Distinct() && frame.event.Key?
    ensures var out := s.pressed.Apply(frame.event.(keyCode := s.remap(frame.event.keyCode)));
      Injects(s, frame.event, Acts(out.commands), out.ledger)
  {
    hide Strokes, Ledger.ApplyKey;
    var target := s.remap(frame.event.keyCode);
    KeyStrokes(s.pressed, SourceOf(target, frame.event.scanCode, frame.event.extended), target, frame.event.down);
  }

  /** An accepted frame: `mine` is what it injects itself, leaving `mid` held, the rest
      what a motion it set free does. */
  ghost predicate Posts(s: SessionState, frame: CriticalFrame, t: SessionState, mine: seq<InputCommand>, mid: Ledger) {
    && s.injector.posted + mine <= t.injector.posted
    && Injects(s, frame.event, mine, mid)
    && Follows(s, frame, mid, t.injector.posted[|s.injector.posted| + |mine|..], t.pressed)
  }

  /** Every accepted frame does what it says where it says: a key the remapped stroke, a
      button a click and the wheel a turn at the place its point lands on. */
  lemma InputPosts(s: SessionState, frame: CriticalFrame, peer: Peer, nowMs: u64)
    returns (mine: seq<InputCommand>, mid: Ledger)
    requires SessionInv(s) && s.HandleInput(frame, peer, nowMs).error.None?
    ensures Posts(s, frame, s.HandleInput(frame, peer, nowMs).state, mine, mid)
  {
    hide Truthful, Injects, Follows, SessionState.Carry, Display.Map, GateSide.Accept, Ledger.Apply, Lands, Buttons,
         InSessionOk;
    var (gate', refused) := s.gate.Accept(frame);
    if frame.event.Key? {
      var out := s.pressed.Apply(frame.event.(keyCode := s.remap(frame.event.keyCode)));
      mine, mid := Acts(out.commands), out.ledger;
      KeyInjects(s, frame);
    } else {
      MapLands(s.shown.value, frame.event.x, frame.event.y);
      var place := s.shown.value.Map(frame.event.x, frame.event.y).value;
      var (commands, after) := PointerAsks(s, frame, place);
      mine, mid := commands, after;
      PointerInjects(s, frame, place);
    }
    CarryPosts(s, frame, gate', mid, mine, nowMs);
  }

  /** A motion that is applied at once moves the pointer to its place, whatever is held
      with it; any other changes nothing on the machine. */
  lemma MotionMoves(s: SessionState, motion: MotionFrame, peer: Peer, nowMs: u64)
    requires SessionInv(s) && s.HandleMotion(motion, peer, nowMs).0.error.None?
    ensures var (out, disposition) := s.HandleMotion(motion, peer, nowMs); var posted := s.injector.posted;
      if disposition == MotionApplied then
        && s.shown.Some? && posted <= out.state.injector.posted
        && MovesPointer(s.shown.value, motion, s.pressed, out.state.injector.posted[|posted|..], out.state.pressed)
      else out.state.injector == s.injector && out.state.pressed == s.pressed
  {
    hide SessionInv, MovesPointer, SessionState.ApplyMotion, Display.Map;
    if s.HandleMotion(motion, peer, nowMs).1 == MotionApplied {
      MotionPosts(s.(lastActivity := Some(nowMs)), motion);
    }
  }

  // ----- what is let in

  predicate PointOn(shown: Option<Display>, x: i32, y: i32) {
    shown.Some? && WellFormed(shown.value) && 0 <= x < shown.value.logicalWidth && 0 <= y < shown.value.logicalHeight
  }

  /** The frame is the next one of the open session, from its peer, and points onto the
      display, no further back than the pointer is. */
  predicate LetsIn(s: SessionState, frame: CriticalFrame, peer: Peer) {
    && s.binding == Some(peer) && peer.role == Handshakes.Controller
    && CheckCritical(frame).None? && s.active == Some(frame.sessionId)
    && frame.sequence == s.highestApplied + 1 && frame.sequence < U64_MAX
    && (frame.event.Key? ||
          (PointOn(s.shown, frame.event.x, frame.event.y) && frame.event.motionSequence >= s.highestMotion))
  }

  /** The motion is one of the open session, from its peer, and is either stale or names
      the display that is shown and points onto it. */
  predicate LetsMove(s: SessionState, motion: MotionFrame, peer: Peer) {
    && s.binding == Some(peer) && peer.role == Handshakes.Controller
    && motion.sequence != 0 && s.active == Some(motion.sessionId)
    && (motion.sequence <= s.highestMotion ||
          (PointOn(s.shown, motion.x, motion.y)
           && s.shown.value.id == motion.displayId && s.shown.value.revision == motion.layoutRevision))
  }

  lemma GateLetsIn(s: SessionState, frame: CriticalFrame)
    requires SessionInv(s)
    ensures s.gate.Accept(frame).1.None? <==>
      && CheckCritical(frame).None? && s.active == Some(frame.sessionId)
      && frame.sequence == s.highestApplied + 1 && frame.sequence < U64_MAX
  {
    hide Safe, CheckCritical;
  }

  /** Whatever arrives from whomever: a critical frame is turned away, changing nothing, if
      and only if it is not let in. */
  lemma InputRefusedExactlyWhen(s: SessionState, frame: CriticalFrame, peer: Peer, nowMs: u64)
    requires SessionInv(s)
    ensures var out := s.HandleInput(frame, peer, nowMs);
      && (out.error.Some? && !out.error.value.Injector? <==> !LetsIn(s, frame, peer))
      && (!LetsIn(s, frame, peer) ==> out.state == s)
  {
    hide Safe, InSessionOk, CheckCritical, SessionState.Carry, GateSide.Accept, Display.Map, WellFormed,
         Ledger.Apply, Ledger.UpdatePointer;
    GateLetsIn(s, frame);
    InputOk(s, frame, peer, nowMs);
    if !frame.event.Key? {
      if s.shown.Some? { MapLands(s.shown.value, frame.event.x, frame.event.y); }
      StampedFrames(frame);
    }
    if s.gate.Accept(frame).1.Some? { RefusedIsProtocol(s, frame, peer, nowMs); }
  }

  lemma StampedFrames(frame: CriticalFrame)
    requires !frame.event.Key?
    ensures CheckCritical(frame).None? ==> frame.event.motionSequence > 0
  {
    hide Handshakes.CheckSession;
  }

  lemma RefusedIsProtocol(s: SessionState, frame: CriticalFrame, peer: Peer, nowMs: u64)
    requires s.gate.Accept(frame).1.Some?
    ensures var out := s.HandleInput(frame, peer, nowMs); out.error.Some? && !out.error.value.Injector?
  {
    hide GateSide.Accept, Display.Map;
  }

  /** The same for motions. */
  lemma MotionRefusedExactlyWhen(s: SessionState, motion: MotionFrame, peer: Peer, nowMs: u64)
    requires SessionInv(s)
    ensures var out := s.HandleMotion(motion, peer, nowMs).0;
      && (out.error.Some? && !out.error.value.Injector? <==> !LetsMove(s, motion, peer))
      && (!LetsMove(s, motion, peer) ==> out.state == s)
  {
    hide Safe, Display.Map, WellFormed, SessionState.FailInjection;
    MotionOk(s, motion, peer, nowMs);
    if s.shown.Some? { MapLands(s.shown.value, motion.x, motion.y); }
  }

  // ----- a session as a replay

  /** The pointer goes where a waiting motion says that the frame sets free. */
  function SetFree(s: SessionState, frame: CriticalFrame): seq<PressedEvent> {
    if s.pending.Some? && s.pending.value.requiredReliableSequence <= frame.sequence
       && s.pending.value.sequence > Stamped(s, frame)
    then PointerAt(s, s.pending.value.x, s.pending.value.y) else []
  }

  function PointerAt(s: SessionState, x: i32, y: i32): seq<PressedEvent> {
    var point := s.MapPointer(x, y);
    if point.Ok? then [PointerMoves(point.value.0, point.value.1)] else []
  }

  /** An event as the ledger is told of it: keys remapped, points where they land. */
  function Told(s: SessionState, event: CriticalEvent): seq<PressedEvent> {
    if event.Key? then [Arrives(event.(keyCode := s.remap(event.keyCode)))]
    else
      var point := s.MapPointer(event.x, event.y);
      if point.Err? then []
      else [PointerMoves(point.value.0, point.value.1), Arrives(event.(x := point.value.0, y := point.value.1))]
  }

  function TakenBy(s: SessionState, e: SessionEvent): seq<PressedEvent> {
    var out := ReceiverRuns.Step(s, e);
    match e
    case Input(frame, _, _) => if out.error.None? then Told(s, frame.event) + SetFree(s, frame) else []
    case Motion(motion, peer, now) =>
      if out.error.None? && s.HandleMotion(motion, peer, now).1 == MotionApplied then PointerAt(s, motion.x, motion.y)
      else []
    case _ => []
  }

  /** Everything taken since the session opened. */
  function Taken(start: SessionState, events: seq<SessionEvent>): seq<PressedEvent> {
    if events == [] then []
    else
      var before := events[..|events| - 1];
      var s := ReceiverRuns.Run(start, before);
      if s.active.None? then [] else Taken(start, before) + TakenBy(s, events[|events| - 1])
  }

  /** How much had been posted when the session opened. */
  function PostedBefore(start: SessionState, events: seq<SessionEvent>): nat {
    if events == [] then 0
    else
      var before := events[..|events| - 1];
      if ReceiverRuns.Run(start, before).active.None? then |ReceiverRuns.Run(start, events).injector.posted|
      else PostedBefore(start, before)
  }

  /** Pointer movements left out. */
  function ActsIn(commands: seq<InputCommand>): seq<Command> {
    if commands == [] then []
    else
      var last := commands[|commands| - 1];
      ActsIn(commands[..|commands| - 1]) + if last.Act? then [last.command] else []
  }

  lemma {:induction false} ActsInAppend(a: seq<InputCommand>, b: seq<InputCommand>)
    ensures ActsIn(a + b) == ActsIn(a) + ActsIn(b)
    decreases |b|
  {
    if b == [] {
      assert a + b == a;
    } else {
      assert (a + b)[..|a + b| - 1] == a + b[..|b| - 1];
      ActsInAppend(a, b[..|b| - 1]);
    }
  }

  lemma ActsInFew(commands: seq<Command>, place: (i32, i32), drag: Option<CriticalButton>)
    requires |commands| <= 1
    ensures var move := [MouseMove(place.0, place.1, drag)];
      ActsIn(Acts(commands)) == commands && ActsIn(move) == [] && ActsIn(move + Acts(commands)) == commands
  {
    var move := [MouseMove(place.0, place.1, drag)];
    assert ActsIn([]) == [];
    assert move[..0] == [] && ActsIn(move) == [];
    if commands == [] {
      assert Acts(commands) == [] && move + Acts(commands) == move;
    } else {
      assert Acts(commands) == [Act(commands[0])] && Acts(commands)[..0] == [];
      assert (move + Acts(commands))[..1] == move;
    }
  }

  lemma RunOneMore(events: seq<PressedEvent>, e: PressedEvent)
    ensures var before := Pressed.Run(events); var out := Pressed.Step(before.ledger, e);
      Pressed.Run(events + [e]) == Applied(out.ledger, before.commands + out.commands)
  {
    assert (events + [e])[..|events|] == events;
  }

  /** What the ledger and the machine's commands are after some more events. */
  ghost predicate Replays(taken: seq<PressedEvent>, ledger: Ledger, acts: seq<Command>) {
    Pressed.Run(taken) == Applied(ledger, acts)
  }

  lemma ReplaysMove(taken: seq<PressedEvent>, ledger: Ledger, acts: seq<Command>, x: i32, y: i32)
    requires Replays(taken, ledger, acts)
    ensures Replays(taken + [PointerMoves(x, y)], ledger.UpdatePointer(x, y), acts)
  {
    hide Pressed.Run;
    RunOneMore(taken, PointerMoves(x, y));
  }

  lemma ReplaysEvent(taken: seq<PressedEvent>, ledger: Ledger, acts: seq<Command>, event: CriticalEvent)
    requires Replays(taken, ledger, acts)
    ensures var out := ledger.Apply(event); Replays(taken + [Arrives(event)], out.ledger, acts + out.commands)
  {
    hide Pressed.Run;
    RunOneMore(taken, Arrives(event));
  }

  /** A step that goes on from what was replayed so far. */
  ghost predicate GoesOn(s: SessionState, t: SessionState, taken: seq<PressedEvent>, acts: seq<Command>) {
    && s.injector.posted <= t.injector.posted
    && Replays(taken, t.pressed, acts + ActsIn(t.injector.posted[|s.injector.posted|..]))
  }

  lemma MotionReplays(s: SessionState, motion: MotionFrame, taken: seq<PressedEvent>, acts: seq<Command>)
    requires s.MapPointer(motion.x, motion.y).Ok? && s.ApplyMotion(motion).error.None?
        && Replays(taken, s.pressed, acts)
    ensures GoesOn(s, s.ApplyMotion(motion).state, taken + PointerAt(s, motion.x, motion.y), acts)
  {
    hide SessionState.FailInjection, Replays, Display.Map;
    var place := s.MapPointer(motion.x, motion.y).value;
    var moved := s.pressed.UpdatePointer(place.0, place.1);
    ReplaysMove(taken, s.pressed, acts, place.0, place.1);
    var t := s.ApplyMotion(motion).state;
    assert t.injector.posted[|s.injector.posted|..] == [MouseMove(place.0, place.1, DragOf(moved))];
    ActsInFew([], place, DragOf(moved));
    assert acts + [] == acts;
  }

  lemma FlushReplays(s: SessionState, taken: seq<PressedEvent>, acts: seq<Command>)
    requires Replays(taken, s.pressed, acts) && s.FlushPending().error.None?
    requires s.pending.Some? ==> s.MapPointer(s.pending.value.x, s.pending.value.y).Ok?
    ensures var free := s.pending.Some? && s.pending.value.requiredReliableSequence <= s.highestApplied
                        && s.pending.value.sequence > s.highestMotion;
      GoesOn(s, s.FlushPending().state,
             taken + (if free then PointerAt(s, s.pending.value.x, s.pending.value.y) else []), acts)
  {
    hide Replays, GoesOn, Display.Map, SessionState.ApplyMotion;
    var t := s.(pending := None);
    if s.pending.Some? && s.pending.value.requiredReliableSequence <= s.highestApplied
       && s.pending.value.sequence > s.highestMotion {
      MotionReplays(t, s.pending.value, taken, acts);
      SamePosted(t, s, s.FlushPending().state, taken + PointerAt(s, s.pending.value.x, s.pending.value.y), acts);
    } else {
      NothingNew(s, s.FlushPending().state, taken, acts);
    }
  }

  lemma SamePosted(s: SessionState, s': SessionState, t: SessionState, taken: seq<PressedEvent>, acts: seq<Command>)
    requires s.injector == s'.injector
    ensures GoesOn(s, t, taken, acts) ==> GoesOn(s', t, taken, acts)
  {
    hide Replays;
  }

  lemma PostedFirst(s: SessionState, commands: seq<InputCommand>, u: SessionState, t: SessionState,
                    taken: seq<PressedEvent>, acts: seq<Command>)
    requires u.injector.posted == s.injector.posted + commands && GoesOn(u, t, taken, acts + ActsIn(commands))
    ensures GoesOn(s, t, taken, acts)
  {
    hide Replays, ActsIn;
    var posted := s.injector.posted;
    var tail := t.injector.posted[|u.injector.posted|..];
    assert t.injector.posted[|posted|..] == commands + tail;
    ActsInAppend(commands, tail);
    assert acts + ActsIn(commands) + ActsIn(tail) == acts + (ActsIn(commands) + ActsIn(tail));
  }

  lemma CarryReplays(s: SessionState, frame: CriticalFrame, gate': GateSide, ledger: Ledger,
                     commands: seq<InputCommand>,
                     nowMs: u64, taken: seq<PressedEvent>, acts: seq<Command>)
    requires SessionInv(s) && s.gate.Accept(frame) == (gate', None)
    requires s.(gate := gate').Carry(frame, ledger, commands, nowMs).error.None?
    requires Replays(taken, ledger, acts + ActsIn(commands))
    ensures GoesOn(s, s.(gate := gate').Carry(frame, ledger, commands, nowMs).state, taken + SetFree(s, frame), acts)
  {
    hide Safe, SessionState.FailInjection, Buttons, DragOf, CheckCritical, Replays, GoesOn, Display.Map,
         SessionState.FlushPending, ActsIn;
    SubmitPosts(s.injector, commands);
    var (injector', failure) := s.injector.Submit(commands);
    var u := s.(gate := gate', injector := injector', pressed := ledger, highestApplied := frame.sequence,
                highestMotion := Stamped(s, frame), lastActivity := Some(nowMs));
    FlushReplays(u, taken, acts + ActsIn(commands));
    PostedFirst(s, commands, u, u.FlushPending().state, taken + SetFree(s, frame), acts);
  }

  lemma KeyReplays(s: SessionState, frame: CriticalFrame, taken: seq<PressedEvent>, acts: seq<Command>)
    requires frame.event.Key? && Replays(taken, s.pressed, acts)
    ensures var out := s.pressed.Apply(frame.event.(keyCode := s.remap(frame.event.keyCode)));
      Replays(taken + Told(s, frame.event), out.ledger, acts + ActsIn(Acts(out.commands)))
  {
    hide Replays, Ledger.Apply;
    var event := frame.event.(keyCode := s.remap(frame.event.keyCode));
    FewCommands(s.pressed, event);
    ReplaysEvent(taken, s.pressed, acts, event);
    ActsInFew(s.pressed.Apply(event).commands, (0, 0), None);
  }

  lemma PointerReplays(s: SessionState, frame: CriticalFrame, taken: seq<PressedEvent>, acts: seq<Command>)
    requires !frame.event.Key? && Replays(taken, s.pressed, acts)
    requires s.MapPointer(frame.event.x, frame.event.y).Ok?
    ensures var (commands, after) := PointerAsks(s, frame, s.MapPointer(frame.event.x, frame.event.y).value);
      Replays(taken + Told(s, frame.event), after, acts + ActsIn(commands))
  {
    hide Replays, Ledger.Apply, Ledger.UpdatePointer, DragOf, Display.Map;
    var place := s.MapPointer(frame.event.x, frame.event.y).value;
    var moved, event := s.pressed.UpdatePointer(place.0, place.1), frame.event.(x := place.0, y := place.1);
    var out := moved.Apply(event);
    FewCommands(moved, event);
    ReplaysMove(taken, s.pressed, acts, place.0, place.1);
    ReplaysEvent(taken + [PointerMoves(place.0, place.1)], moved, acts, event);
    assert taken + [PointerMoves(place.0, place.1)] + [Arrives(event)] == taken + Told(s, frame.event);
    ActsInFew(out.commands, place, DragOf(s.pressed));
    ActsInFew(out.commands, place, DragOf(out.ledger));
    assert [] + Acts(out.commands) == Acts(out.commands);
  }

  lemma InputReplays(s: SessionState, frame: CriticalFrame, peer: Peer, nowMs: u64, taken: seq<PressedEvent>,
                     acts: seq<Command>)
    requires SessionInv(s) && s.HandleInput(frame, peer, nowMs).error.None? && Replays(taken, s.pressed, acts)
    ensures var e := SessionEvent.Input(frame, peer, nowMs);
      GoesOn(s, ReceiverRuns.Step(s, e).state, taken + TakenBy(s, e), acts)
  {
    hide SessionInv, Replays, GoesOn, SessionState.Carry, Display.Map, GateSide.Accept, Ledger.Apply;
    var (gate', refused) := s.gate.Accept(frame);
    var e := SessionEvent.Input(frame, peer, nowMs);
    assert taken + TakenBy(s, e) == taken + Told(s, frame.event) + SetFree(s, frame);
    if frame.event.Key? {
      var out := s.pressed.Apply(frame.event.(keyCode := s.remap(frame.event.keyCode)));
      KeyReplays(s, frame, taken, acts);
      CarryReplays(s, frame, gate', out.ledger, Acts(out.commands), nowMs, taken + Told(s, frame.event), acts);
    } else {
      var (commands, after) := PointerAsks(s, frame, s.MapPointer(frame.event.x, frame.event.y).value);
      PointerReplays(s, frame, taken, acts);
      CarryReplays(s, frame, gate', after, commands, nowMs, taken + Told(s, frame.event), acts);
    }
  }

  lemma NothingNew(s: SessionState, t: SessionState, taken: seq<PressedEvent>, acts: seq<Command>)
    requires Replays(taken, s.pressed, acts) && t.pressed == s.pressed && t.injector.posted == s.injector.posted
    ensures GoesOn(s, t, taken + [], acts)
  {
    hide Replays;
    assert t.injector.posted[|s.injector.posted|..] == [] && acts + [] == acts && taken + [] == taken;
  }

  lemma StepReplays(s: SessionState, e: SessionEvent, taken: seq<PressedEvent>, acts: seq<Command>)
    requires SessionInv(s) && s.active.Some? && ReceiverRuns.Step(s, e).state.active.Some?
    requires Replays(taken, s.pressed, acts)
    ensures GoesOn(s, ReceiverRuns.Step(s, e).state, taken + TakenBy(s, e), acts)
  {
    hide SessionInv, Replays, GoesOn, SessionState.HandleControl, SessionState.ApplyMotion, SessionState.HandleInput,
         SessionState.UpdateDisplays, Display.Map, CarriedOn;
    var t := ReceiverRuns.Step(s, e).state;
    StepGoes(s, e);
    match e
    case Input(frame, peer, now) =>
      InputOk(s, frame, peer, now);
      if s.HandleInput(frame, peer, now).error.None? { InputReplays(s, frame, peer, now, taken, acts); }
      else { NothingNew(s, t, taken, acts); }
    case Motion(motion, peer, now) =>
      MotionOk(s, motion, peer, now);
      var (out, disposition) := s.HandleMotion(motion, peer, now);
      if out.error.None? && disposition == MotionApplied {
        var u := s.(lastActivity := Some(now));
        MotionReplays(u, motion, taken, acts);
        SamePosted(u, s, t, taken + PointerAt(s, motion.x, motion.y), acts);
      } else {
        NothingNew(s, t, taken, acts);
      }
    case _ =>
      QuietIsUndisturbed(s, e);
      NothingNew(s, t, taken, acts);
  }

  // ----- whole runs

  lemma OpensOnNothing(s: SessionState, e: SessionEvent)
    requires SessionInv(s) && s.active.None? && ReceiverRuns.Step(s, e).state.active.Some?
    ensures ReceiverRuns.Step(s, e).state.pressed == Ledger([], [])
  {
    hide Safe, ReceiverRuns.Step;
    StepGoes(s, e);
    var pressed := ReceiverRuns.Step(s, e).state.pressed;
    HeldShows(pressed);
  }

  lemma HeldShows(ledger: Ledger)
    ensures ledger.keys != [] ==> Targets(ledger.keys) != {}
    ensures ledger.buttons != [] ==> Buttons(ledger.buttons) != {}
  {
    if ledger.keys != [] { assert ledger.keys[0].target in Targets(ledger.keys); }
    if ledger.buttons != [] { assert ledger.buttons[0].button in Buttons(ledger.buttons); }
  }

  /** While a session is open, what is held and what was posted in it, pointer movements
      aside, is what the ledger makes of the events taken since it opened. */
  lemma {:induction false} SessionReplaysItsInput(start: SessionState, events: seq<SessionEvent>)
    requires Initial(start)
    ensures var s := ReceiverRuns.Run(start, events);
      s.active.Some? ==>
        && PostedBefore(start, events) <= |s.injector.posted|
        && s.pressed == Pressed.Run(Taken(start, events)).ledger
        && ActsIn(s.injector.posted[PostedBefore(start, events)..]) == Pressed.Run(Taken(start, events)).commands
  {
    hide SessionInv, ReceiverRuns.Step, Pressed.Run, TakenBy;
    if events != [] {
      var before, e := events[..|events| - 1], events[|events| - 1];
      SessionReplaysItsInput(start, before);
      AlwaysSessionInv(start, before);
      var s, t := ReceiverRuns.Run(start, before), ReceiverRuns.Run(start, events);
      if t.active.Some? {
        if s.active.None? {
          OpensOnNothing(s, e);
          EmptyRun();
          assert t.injector.posted[|t.injector.posted|..] == [];
        } else {
          StepReplays(s, e, Taken(start, before), Pressed.Run(Taken(start, before)).commands);
          PostedOn(s, t, PostedBefore(start, before));
        }
      }
    }
  }

  lemma EmptyRun()
    ensures Pressed.Run([]) == Applied(Ledger([], []), []) && ActsIn([]) == []
  {
  }

  lemma PostedOn(s: SessionState, t: SessionState, n: nat)
    requires n <= |s.injector.posted| && s.injector.posted <= t.injector.posted
    ensures ActsIn(t.injector.posted[n..])
         == ActsIn(s.injector.posted[n..]) + ActsIn(t.injector.posted[|s.injector.posted|..])
  {
    hide ActsIn;
    ActsInAppend(s.injector.posted[n..], t.injector.posted[|s.injector.posted|..]);
    assert t.injector.posted[n..] == s.injector.posted[n..] + t.injector.posted[|s.injector.posted|..];
  }

  /** In an open session a target is down on the machine if and only if some physical key
      that drove it when it was pressed in this session is still down. */
  lemma DownExactlyWhileDriven(start: SessionState, events: seq<SessionEvent>, target: u16)
    requires Initial(start) && ReceiverRuns.Run(start, events).active.Some?
    ensures target in Held(ReceiverRuns.Run(start, events).injector.posted).keys
       <==> exists source :: KeyAfter(Taken(start, events), source) == Some(target)
  {
    hide Pressed.Run, Taken, KeyAfter, Ledger.Distinct;
    NothingHeldUnknown(start, events);
    SessionReplaysItsInput(start, events);
    HeldExactlyWhileDriven(Taken(start, events), target);
    MachineFollowsLedger(Taken(start, events));
  }
}
