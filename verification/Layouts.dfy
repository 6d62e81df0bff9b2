/** The screen layout: moving, snapping and dropping screens without overlap.
    Coordinates are real numbers. */
module Layouts {
  import opened Base

  const SNAP_TOLERANCE: real := 80.0

  datatype Screen = Screen(id: string, x: real, y: real, width: real, height: real) {
    function At(p: Position): Screen { this.(x := p.x, y := p.y) }

    predicate HasSize() { width > 0.0 && height > 0.0 }
  }

  datatype Position = Position(x: real, y: real)

  datatype Device = Device(name: string, screens: seq<Screen>)

  datatype Layout = Layout(devices: seq<Device>)

  function Abs(x: real): real { if x < 0.0 then -x else x }

  function Min(a: real, b: real): real { if a < b then a else b }

  function Max(a: real, b: real): real { if a < b then b else a }

  function FlattenDevices(devices: seq<Device>): seq<Screen> {
    if devices == [] then [] else devices[0].screens + FlattenDevices(devices[1..])
  }

  function FlattenScreens(layout: Layout): seq<Screen> { FlattenDevices(layout.devices) }

  function Find(screens: seq<Screen>, id: string): Option<Screen> {
    if screens == [] then None
    else if screens[0].id == id then Some(screens[0])
    else Find(screens[1..], id)
  }

  function GetScreenById(layout: Layout, id: string): Option<Screen> { Find(FlattenScreens(layout), id) }

  predicate ScreensOverlap(a: Screen, b: Screen) {
    a.x < b.x + b.width && a.x + a.width > b.x && a.y < b.y + b.height && a.y + a.height > b.y
  }

  function Area(width: real, height: real): real { width * height }

  function ScreenOverlapArea(a: Screen, b: Screen): real {
    var width := Min(a.x + a.width, b.x + b.width) - Max(a.x, b.x);
    var height := Min(a.y + a.height, b.y + b.height) - Max(a.y, b.y);
    if width > 0.0 && height > 0.0 then Area(width, height) else 0.0
  }

  function MoveAll(screens: seq<Screen>, id: string, p: Position): seq<Screen> {
    seq(|screens|, i requires 0 <= i < |screens| => if screens[i].id == id then screens[i].At(p) else screens[i])
  }

  function MoveScreen(layout: Layout, id: string, p: Position): Layout {
    Layout(seq(|layout.devices|, i requires 0 <= i < |layout.devices| =>
      layout.devices[i].(screens := MoveAll(layout.devices[i].screens, id, p))))
  }

  predicate OverlapsAny(screens: seq<Screen>, id: string, moved: Screen) {
    exists i :: 0 <= i < |screens| && screens[i].id != id && ScreensOverlap(moved, screens[i])
  }

  predicate ScreenPositionOverlaps(layout: Layout, id: string, p: Position) {
    var screen := GetScreenById(layout, id);
    screen.Some? && OverlapsAny(FlattenScreens(layout), id, screen.value.At(p))
  }

  // ----- snapping to an edge

  /** The candidate nearest to a value, the earliest of equals, if one is closer than
      the tolerance plus one. */
  function Closest(value: real, candidates: seq<real>): Option<real> {
    if candidates == [] then None
    else
      var best := Closest(value, candidates[..|candidates| - 1]);
      var last := candidates[|candidates| - 1];
      var limit := if best.Some? then Abs(value - best.value) else SNAP_TOLERANCE + 1.0;
      if Abs(value - last) < limit then Some(last) else best
  }

  function SnapTo(value: real, candidates: seq<real>): real {
    var best := Closest(value, candidates);
    if best.Some? && Abs(value - best.value) <= SNAP_TOLERANCE then best.value else value
  }

  function EdgesX(screens: seq<Screen>, id: string, width: real): seq<real> {
    if screens == [] then []
    else
      var s := screens[0];
      (if s.id == id then [] else [s.x, s.x + s.width, s.x - width, s.x + s.width - width])
      + EdgesX(screens[1..], id, width)
  }

  function EdgesY(screens: seq<Screen>, id: string, height: real): seq<real> {
    if screens == [] then []
    else
      var s := screens[0];
      (if s.id == id then [] else [s.y, s.y + s.height, s.y - height, s.y + s.height - height])
      + EdgesY(screens[1..], id, height)
  }

  function SnapPosition(layout: Layout, id: string, p: Position): Position {
    var screen := GetScreenById(layout, id);
    if screen.None? then p
    else
      var screens := FlattenScreens(layout);
      Position(SnapTo(p.x, EdgesX(screens, id, screen.value.width)),
               SnapTo(p.y, EdgesY(screens, id, screen.value.height)))
  }

  method SnapAxis(value: real, candidates: seq<real>) returns (snapped: real)
    ensures snapped == SnapTo(value, candidates)
  {
    var closest := value;
    var closestDistance := SNAP_TOLERANCE + 1.0;
    var i := 0;
    while i < |candidates|
      invariant i <= |candidates|
      invariant match Closest(value, candidates[..i])
        case None => closest == value && closestDistance == SNAP_TOLERANCE + 1.0
        case Some(c) => closest == c && closestDistance == Abs(value - c)
    {
      assert candidates[..i + 1][..i] == candidates[..i];
      var distance := Abs(value - candidates[i]);
      if distance < closestDistance { closest, closestDistance := candidates[i], distance; }
      i := i + 1;
    }
    assert candidates[..i] == candidates;
    snapped := if closestDistance <= SNAP_TOLERANCE then closest else value;
  }

  method SnapScreenPosition(layout: Layout, id: string, p: Position) returns (snapped: Position)
    ensures snapped == SnapPosition(layout, id, p)
  {
    var screen := GetScreenById(layout, id);
    if screen.None? { return p; }
    var screens := FlattenScreens(layout);
    var x := SnapAxis(p.x, EdgesX(screens, id, screen.value.width));
    var y := SnapAxis(p.y, EdgesY(screens, id, screen.value.height));
    snapped := Position(x, y);
  }

  lemma {:induction false} ClosestIsNearest(value: real, candidates: seq<real>)
    ensures match Closest(value, candidates)
      case None => forall i :: 0 <= i < |candidates| ==> Abs(value - candidates[i]) >= SNAP_TOLERANCE + 1.0
      case Some(c) =>
        && c in candidates && Abs(value - c) < SNAP_TOLERANCE + 1.0
        && forall i :: 0 <= i < |candidates| ==> Abs(value - c) <= Abs(value - candidates[i])
  {
    if candidates != [] { ClosestIsNearest(value, candidates[..|candidates| - 1]); }
  }

  /** A snap moves by at most the tolerance, to a nearest candidate; it stays put exactly
      when no candidate is within the tolerance, or the value is one itself. */
  lemma SnapIsNearest(value: real, candidates: seq<real>)
    ensures var r := SnapTo(value, candidates);
      && Abs(r - value) <= SNAP_TOLERANCE
      && (r == value || r in candidates)
      && (r != value ==> forall i :: 0 <= i < |candidates| ==> Abs(r - value) <= Abs(candidates[i] - value))
      && (r == value <==>
            value in candidates || forall i :: 0 <= i < |candidates| ==> Abs(candidates[i] - value) > SNAP_TOLERANCE)
  {
    ClosestIsNearest(value, candidates);
  }

  // ----- resolving an overlap

  /** The other screen with the largest overlap, the earliest of equals. */
  function Covered(screens: seq<Screen>, id: string, moved: Screen): Option<Screen> {
    if screens == [] then None
    else
      var best := Covered(screens[..|screens| - 1], id, moved);
      var last := screens[|screens| - 1];
      var area := if best.Some? then ScreenOverlapArea(moved, best.value) else 0.0;
      if last.id != id && ScreenOverlapArea(moved, last) > area then Some(last) else best
  }

  /** Next to the target, on the side of the dragged screen's centre along the longer
      axis of the drag. */
  function Beside(moved: Screen, target: Screen, p: Position, start: Position): Position {
    var dx, dy := p.x - start.x, p.y - start.y;
    if Abs(dx) >= Abs(dy) then
      var mine, its := moved.x + moved.width / 2.0, target.x + target.width / 2.0;
      Position(if mine < its || (mine == its && dx < 0.0) then target.x - moved.width else target.x + target.width,
               p.y)
    else
      var mine, its := moved.y + moved.height / 2.0, target.y + target.height / 2.0;
      Position(p.x,
               if mine < its || (mine == its && dy < 0.0) then target.y - moved.height else target.y + target.height)
  }

  function SnapOverlapping(layout: Layout, id: string, p: Position, start: Position): Option<Position> {
    var screen := GetScreenById(layout, id);
    if screen.None? then None
    else
      var target := Covered(FlattenScreens(layout), id, screen.value.At(p));
      if target.None? then None
      else
        var snapped := Beside(screen.value.At(p), target.value, p, start);
        if ScreenPositionOverlaps(layout, id, snapped) then None else Some(snapped)
  }

  method SnapOverlappingScreenPosition(layout: Layout, id: string, p: Position, start: Position)
    returns (position: Option<Position>)
    ensures position == SnapOverlapping(layout, id, p, start)
  {
    hide ScreenOverlapArea, ScreenPositionOverlaps, FlattenScreens, GetScreenById;
    var screen := GetScreenById(layout, id);
    if screen.None? { return None; }
    var moving := screen.value;
    var moved := moving.At(p);
    var screens := FlattenScreens(layout);
    var target: Option<Screen> := None;
    var targetArea := 0.0;
    var i := 0;
    while i < |screens|
      invariant i <= |screens|
      invariant target == Covered(screens[..i], id, moved)
      invariant targetArea == if target.Some? then ScreenOverlapArea(moved, target.value) else 0.0
    {
      assert screens[..i + 1][..i] == screens[..i];
      if screens[i].id != id {
        var area := ScreenOverlapArea(moved, screens[i]);
        if area > targetArea { target, targetArea := Some(screens[i]), area; }
      }
      i := i + 1;
    }
    assert screens[..i] == screens;
    if target.None? { return None; }
    var dx, dy := p.x - start.x, p.y - start.y;
    var snapped := p;
    if Abs(dx) >= Abs(dy) {
      var mine, its := moved.x + moved.width / 2.0, target.value.x + target.value.width / 2.0;
      snapped := snapped.(x := if mine < its || (mine == its && dx < 0.0) then target.value.x - moving.width
                               else target.value.x + target.value.width);
    } else {
      var mine, its := moved.y + moved.height / 2.0, target.value.y + target.value.height / 2.0;
      snapped := snapped.(y := if mine < its || (mine == its && dy < 0.0) then target.value.y - moving.height
                               else target.value.y + target.value.height);
    }
    position := if ScreenPositionOverlaps(layout, id, snapped) then None else Some(snapped);
  }

  lemma AreaIsPositive(width: real, height: real)
    requires width > 0.0 && height > 0.0
    ensures Area(width, height) > 0.0
  {
  }

  /** Screens that have a size overlap exactly when the area they share is positive. */
  lemma AreaMeansOverlap(a: Screen, b: Screen)
    requires a.HasSize() && b.HasSize()
    ensures ScreensOverlap(a, b) <==> ScreenOverlapArea(a, b) > 0.0
  {
    hide Area;
    var width := Min(a.x + a.width, b.x + b.width) - Max(a.x, b.x);
    var height := Min(a.y + a.height, b.y + b.height) - Max(a.y, b.y);
    if width > 0.0 && height > 0.0 { AreaIsPositive(width, height); }
  }

  lemma {:induction false} CoveredIsLargest(screens: seq<Screen>, id: string, moved: Screen)
    ensures match Covered(screens, id, moved)
      case None => forall i :: 0 <= i < |screens| && screens[i].id != id ==> ScreenOverlapArea(moved, screens[i]) <= 0.0
      case Some(target) =>
        && target in screens && target.id != id && ScreenOverlapArea(moved, target) > 0.0
        && forall i :: 0 <= i < |screens| && screens[i].id != id ==>
             ScreenOverlapArea(moved, screens[i]) <= ScreenOverlapArea(moved, target)
  {
    hide ScreenOverlapArea;
    if screens != [] { CoveredIsLargest(screens[..|screens| - 1], id, moved); }
  }

  ghost predicate Sized(screens: seq<Screen>) { forall i :: 0 <= i < |screens| ==> screens[i].HasSize() }

  /** The result touches the most overlapped screen from outside and overlaps none; there
      is none exactly when nothing was overlapped or that place is taken. */
  lemma SnapFindsAFreePlace(layout: Layout, id: string, p: Position, start: Position)
    requires GetScreenById(layout, id).Some? && Sized(FlattenScreens(layout))
    ensures var screens, moving := FlattenScreens(layout), GetScreenById(layout, id).value;
      var r, target := SnapOverlapping(layout, id, p, start), Covered(screens, id, moving.At(p));
      && (target.Some? <==> ScreenPositionOverlaps(layout, id, p))
      && (r.Some? <==> target.Some? && !ScreenPositionOverlaps(layout, id, Beside(moving.At(p), target.value, p, start)))
      && (r.Some? ==>
            && !OverlapsAny(screens, id, moving.At(r.value))
            && Touches(moving.At(r.value), target.value)
            && (r.value.x == p.x || r.value.y == p.y))
  {
    hide ScreenOverlapArea, ScreensOverlap;
    var screens, moving := FlattenScreens(layout), GetScreenById(layout, id).value;
    FoundIsListed(screens, id);
    CoveredIsLargest(screens, id, moving.At(p));
    forall i | 0 <= i < |screens|
      ensures ScreensOverlap(moving.At(p), screens[i]) <==> ScreenOverlapArea(moving.At(p), screens[i]) > 0.0
    {
      AreaMeansOverlap(moving.At(p), screens[i]);
    }
  }

  predicate Touches(a: Screen, b: Screen) {
    a.x + a.width == b.x || b.x + b.width == a.x || a.y + a.height == b.y || b.y + b.height == a.y
  }

  lemma {:induction false} FoundIsListed(screens: seq<Screen>, id: string)
    ensures match Find(screens, id)
      case None => forall i :: 0 <= i < |screens| ==> screens[i].id != id
      case Some(s) => s in screens && s.id == id
  {
    if screens != [] && screens[0].id != id { FoundIsListed(screens[1..], id); }
  }

  // ----- gestures

  ghost predicate UniqueIds(screens: seq<Screen>) {
    forall i, j :: 0 <= i < j < |screens| ==> screens[i].id != screens[j].id
  }

  ghost predicate Apart(screens: seq<Screen>) {
    forall i, j :: 0 <= i < j < |screens| ==> !ScreensOverlap(screens[i], screens[j])
  }

  /** One pointer movement of a drag: the raw position is snapped, overlaps are allowed. */
  function DragOver(layout: Layout, id: string, start: Position, dx: real, dy: real): Layout {
    MoveScreen(layout, id, SnapPosition(layout, id, Position(start.x + dx, start.y + dy)))
  }

  function DragAlong(layout: Layout, id: string, start: Position, moves: seq<Position>): Layout {
    if moves == [] then layout
    else
      var last := moves[|moves| - 1];
      DragOver(DragAlong(layout, id, start, moves[..|moves| - 1]), id, start, last.x, last.y)
  }

  function EndDrag(layout: Layout, id: string, start: Position): Layout {
    var screen := GetScreenById(layout, id);
    if screen.None? then layout
    else
      var current := Position(screen.value.x, screen.value.y);
      if !ScreenPositionOverlaps(layout, id, current) then layout
      else
        var snapped := SnapOverlapping(layout, id, current, start);
        MoveScreen(layout, id, if snapped.Some? then snapped.value else start)
  }

  function Nudge(layout: Layout, id: string, dx: real, dy: real): Layout {
    var screen := GetScreenById(layout, id);
    if screen.None? then layout
    else
      var p := SnapPosition(layout, id, Position(screen.value.x + dx, screen.value.y + dy));
      if ScreenPositionOverlaps(layout, id, p) then layout else MoveScreen(layout, id, p)
  }

  datatype Gesture =
    | Drag(id: string, moves: seq<Position>)
    | Key(id: string, dx: real, dy: real)

  /** A drag starts on a screen of the layout, at its position. */
  function Perform(layout: Layout, gesture: Gesture): Layout {
    match gesture
    case Drag(id, moves) =>
      var screen := GetScreenById(layout, id);
      if screen.None? then layout
      else
        var start := Position(screen.value.x, screen.value.y);
        EndDrag(DragAlong(layout, id, start, moves), id, start)
    case Key(id, dx, dy) => Nudge(layout, id, dx, dy)
  }

  function PerformAll(layout: Layout, gestures: seq<Gesture>): Layout {
    if gestures == [] then layout
    else Perform(PerformAll(layout, gestures[..|gestures| - 1]), gestures[|gestures| - 1])
  }

  lemma MoveAllSplits(a: seq<Screen>, b: seq<Screen>, id: string, p: Position)
    ensures MoveAll(a + b, id, p) == MoveAll(a, id, p) + MoveAll(b, id, p)
  {
  }

  /** Moving a screen inside its device is moving it in the flat list. */
  lemma {:induction false} MoveIsFlat(layout: Layout, id: string, p: Position)
    ensures FlattenScreens(MoveScreen(layout, id, p)) == MoveAll(FlattenScreens(layout), id, p)
    decreases |layout.devices|
  {
    if layout.devices != [] {
      var rest := Layout(layout.devices[1..]);
      MoveIsFlat(rest, id, p);
      assert MoveScreen(layout, id, p).devices[1..] == MoveScreen(rest, id, p).devices;
      MoveAllSplits(layout.devices[0].screens, FlattenScreens(rest), id, p);
    }
  }

  /** Only the position of screen `id` may differ. */
  ghost predicate SameBut(before: seq<Screen>, after: seq<Screen>, id: string) {
    && |after| == |before|
    && forall i :: 0 <= i < |before| ==>
         if before[i].id == id then after[i] == before[i].At(Position(after[i].x, after[i].y))
         else after[i] == before[i]
  }

  lemma {:induction false} DragKeepsTheRest(layout: Layout, id: string, start: Position, moves: seq<Position>)
    ensures SameBut(FlattenScreens(layout), FlattenScreens(DragAlong(layout, id, start, moves)), id)
  {
    if moves != [] {
      var before := DragAlong(layout, id, start, moves[..|moves| - 1]);
      DragKeepsTheRest(layout, id, start, moves[..|moves| - 1]);
      var last := moves[|moves| - 1];
      MoveIsFlat(before, id, SnapPosition(before, id, Position(start.x + last.x, start.y + last.y)));
    }
  }

  lemma {:induction false} FindPosition(screens: seq<Screen>, id: string) returns (k: nat)
    requires Find(screens, id).Some?
    ensures k < |screens| && screens[k] == Find(screens, id).value && screens[k].id == id
  {
    if screens[0].id == id { k := 0; } else { k := FindPosition(screens[1..], id); k := k + 1; }
  }

  lemma {:induction false} FindUnique(screens: seq<Screen>, id: string, k: nat)
    requires UniqueIds(screens) && k < |screens| && screens[k].id == id
    ensures Find(screens, id) == Some(screens[k])
  {
    if k > 0 { FindUnique(screens[1..], id, k - 1); }
  }

  /** Screen k stands free at p, all others as before: no two overlap. */
  lemma FreePlaceIsApart(before: seq<Screen>, after: seq<Screen>, id: string, k: nat)
    requires SameBut(before, after, id) && UniqueIds(before) && Apart(before)
    requires k < |before| && before[k].id == id && !OverlapsAny(after, id, after[k])
    ensures Apart(after) && UniqueIds(after)
  {
    forall i, j | 0 <= i < j < |after|
      ensures !ScreensOverlap(after[i], after[j])
    {
      if i != k && j != k {
        assert !ScreensOverlap(before[i], before[j]);
      }
    }
  }

  /** The end of a drag, from wherever the pointer had taken the screen. */
  lemma EndDragIsApart(layout: Layout, dragged: Layout, id: string, k: nat)
    requires UniqueIds(FlattenScreens(layout)) && Apart(FlattenScreens(layout))
    requires SameBut(FlattenScreens(layout), FlattenScreens(dragged), id)
    requires k < |FlattenScreens(layout)| && FlattenScreens(layout)[k].id == id
    ensures var start := Position(FlattenScreens(layout)[k].x, FlattenScreens(layout)[k].y);
      var after := FlattenScreens(EndDrag(dragged, id, start));
      SameBut(FlattenScreens(layout), after, id) && Apart(after) && UniqueIds(after)
  {
    hide ScreensOverlap, Apart, FlattenScreens, Beside, Covered;
    var before, now := FlattenScreens(layout), FlattenScreens(dragged);
    var start := Position(before[k].x, before[k].y);
    var after := FlattenScreens(EndDrag(dragged, id, start));
    FindUnique(now, id, k);
    var current := Position(now[k].x, now[k].y);
    assert now[k].At(current) == now[k];
    if ScreenPositionOverlaps(dragged, id, current) {
      var snapped := SnapOverlapping(dragged, id, current, start);
      var p := if snapped.Some? then snapped.value else start;
      MoveIsFlat(dragged, id, p);
      assert after[k] == now[k].At(p);
      SameOthers(now, after, id, now[k].At(p));
      if snapped.None? {
        assert now[k].At(p) == before[k];
        StandsFree(before, id, k);
        SameOthers(before, after, id, before[k]);
      }
    }
    FreePlaceIsApart(before, after, id, k);
  }

  lemma StandsFree(screens: seq<Screen>, id: string, k: nat)
    requires UniqueIds(screens) && Apart(screens) && k < |screens| && screens[k].id == id
    ensures !OverlapsAny(screens, id, screens[k])
  {
  }

  lemma SameOthers(a: seq<Screen>, b: seq<Screen>, id: string, moved: Screen)
    requires SameBut(a, b, id)
    ensures OverlapsAny(a, id, moved) <==> OverlapsAny(b, id, moved)
  {
    hide ScreensOverlap;
  }

  lemma NudgeIsApart(layout: Layout, id: string, dx: real, dy: real, k: nat)
    requires UniqueIds(FlattenScreens(layout)) && Apart(FlattenScreens(layout))
    requires k < |FlattenScreens(layout)| && FlattenScreens(layout)[k].id == id
    ensures var after := FlattenScreens(Nudge(layout, id, dx, dy));
      SameBut(FlattenScreens(layout), after, id) && Apart(after) && UniqueIds(after)
  {
    hide ScreensOverlap, Apart, FlattenScreens, SnapPosition;
    var before := FlattenScreens(layout);
    FindUnique(before, id, k);
    var p := SnapPosition(layout, id, Position(before[k].x + dx, before[k].y + dy));
    if !ScreenPositionOverlaps(layout, id, p) {
      var after := FlattenScreens(MoveScreen(layout, id, p));
      MoveIsFlat(layout, id, p);
      SameOthers(before, after, id, before[k].At(p));
      FreePlaceIsApart(before, after, id, k);
    }
  }

  /** Any gesture leaves a layout without overlaps without overlaps, and moves no screen
      but its own. */
  lemma GestureKeepsApart(layout: Layout, gesture: Gesture)
    requires UniqueIds(FlattenScreens(layout)) && Apart(FlattenScreens(layout))
    ensures var after := FlattenScreens(Perform(layout, gesture));
      SameBut(FlattenScreens(layout), after, gesture.id) && Apart(after) && UniqueIds(after)
  {
    hide ScreensOverlap, Apart, FlattenScreens, DragAlong, EndDrag, Nudge;
    if GetScreenById(layout, gesture.id).Some? {
      var k := FindPosition(FlattenScreens(layout), gesture.id);
      var start := Position(FlattenScreens(layout)[k].x, FlattenScreens(layout)[k].y);
      match gesture
      case Drag(id, moves) =>
        DragKeepsTheRest(layout, id, start, moves);
        EndDragIsApart(layout, DragAlong(layout, id, start, moves), id, k);
      case Key(id, dx, dy) => NudgeIsApart(layout, id, dx, dy, k);
    } else {
      NoNudge(layout, gesture);
    }
  }

  lemma NoNudge(layout: Layout, gesture: Gesture)
    requires GetScreenById(layout, gesture.id).None?
    ensures Perform(layout, gesture) == layout
  {
  }

  /** However long the user drags and nudges, no two screens end up overlapping. */
  lemma {:induction false} LayoutStaysApart(layout: Layout, gestures: seq<Gesture>)
    requires UniqueIds(FlattenScreens(layout)) && Apart(FlattenScreens(layout))
    ensures var after := FlattenScreens(PerformAll(layout, gestures)); Apart(after) && UniqueIds(after)
  {
    hide Apart, UniqueIds, Perform, FlattenScreens;
    if gestures != [] {
      LayoutStaysApart(layout, gestures[..|gestures| - 1]);
      GestureKeepsApart(PerformAll(layout, gestures[..|gestures| - 1]), gestures[|gestures| - 1]);
    }
  }
}
