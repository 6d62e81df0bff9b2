/** Where a screen ends up: snapping aligns it with a neighbour's side, a drop puts it on
    the nearer side of what it covers, a drag follows the pointer. */
module Placements {
  import opened Base
  import opened Layouts

  // ----- snapping

  /** On one axis, one end of the moved extent meets one end of the other. */
  predicate Aligns(v: real, size: real, origin: real, extent: real) {
    v == origin || v == origin + extent || v + size == origin || v + size == origin + extent
  }

  predicate AlignsX(v: real, size: real, screens: seq<Screen>, id: string) {
    exists i :: 0 <= i < |screens| && screens[i].id != id && Aligns(v, size, screens[i].x, screens[i].width)
  }

  predicate AlignsY(v: real, size: real, screens: seq<Screen>, id: string) {
    exists i :: 0 <= i < |screens| && screens[i].id != id && Aligns(v, size, screens[i].y, screens[i].height)
  }

  lemma {:induction false} EdgesAlignX(screens: seq<Screen>, id: string, size: real, v: real)
    ensures v in EdgesX(screens, id, size) <==> AlignsX(v, size, screens, id)
  {
    if screens != [] {
      EdgesAlignX(screens[1..], id, size, v);
      if AlignsX(v, size, screens[1..], id) {
        var i :| 0 <= i < |screens[1..]| && screens[1..][i].id != id
                 && Aligns(v, size, screens[1..][i].x, screens[1..][i].width);
        assert screens[i + 1] == screens[1..][i];
      }
      if AlignsX(v, size, screens, id) {
        var i :| 0 <= i < |screens| && screens[i].id != id && Aligns(v, size, screens[i].x, screens[i].width);
        if i > 0 { assert screens[1..][i - 1] == screens[i]; }
      }
    }
  }

  lemma {:induction false} EdgesAlignY(screens: seq<Screen>, id: string, size: real, v: real)
    ensures v in EdgesY(screens, id, size) <==> AlignsY(v, size, screens, id)
  {
    if screens != [] {
      EdgesAlignY(screens[1..], id, size, v);
      if AlignsY(v, size, screens[1..], id) {
        var i :| 0 <= i < |screens[1..]| && screens[1..][i].id != id
                 && Aligns(v, size, screens[1..][i].y, screens[1..][i].height);
        assert screens[i + 1] == screens[1..][i];
      }
      if AlignsY(v, size, screens, id) {
        var i :| 0 <= i < |screens| && screens[i].id != id && Aligns(v, size, screens[i].y, screens[i].height);
        if i > 0 { assert screens[1..][i - 1] == screens[i]; }
      }
    }
  }

  /** On each axis on its own, a snap aligns the screen with the nearest side of another
      one within the tolerance, and leaves it where it is exactly if it is aligned already
      or none is that near. */
  lemma SnapAligns(layout: Layout, id: string, p: Position)
    requires GetScreenById(layout, id).Some?
    ensures var screens, moving, r := FlattenScreens(layout), GetScreenById(layout, id).value, SnapPosition(layout,
        id, p);
      && Abs(r.x - p.x) <= SNAP_TOLERANCE && Abs(r.y - p.y) <= SNAP_TOLERANCE
      && (r.x != p.x ==> AlignsX(r.x, moving.width, screens, id))
      && (r.y != p.y ==> AlignsY(r.y, moving.height, screens, id))
      && (forall v :: AlignsX(v, moving.width, screens, id) ==>
            Abs(r.x - p.x) <= Abs(v - p.x) || (r.x == p.x && Abs(v - p.x) > SNAP_TOLERANCE))
      && (forall v :: AlignsY(v, moving.height, screens, id) ==>
            Abs(r.y - p.y) <= Abs(v - p.y) || (r.y == p.y && Abs(v - p.y) > SNAP_TOLERANCE))
  {
    hide AlignsX, AlignsY, EdgesX, EdgesY, SnapTo, FlattenScreens;
    var screens, moving := FlattenScreens(layout), GetScreenById(layout, id).value;
    var edgesX, edgesY := EdgesX(screens, id, moving.width), EdgesY(screens, id, moving.height);
    SnapIsNearest(p.x, edgesX);
    SnapIsNearest(p.y, edgesY);
    forall v ensures v in edgesX <==> AlignsX(v, moving.width, screens, id) {
      EdgesAlignX(screens, id, moving.width, v);
    }
    forall v ensures v in edgesY <==> AlignsY(v, moving.height, screens, id) {
      EdgesAlignY(screens, id, moving.height, v);
    }
  }

  // ----- covering

  predicate Holds(s: Screen, px: real, py: real) { s.x <= px < s.x + s.width && s.y <= py < s.y + s.height }

  /** The area that two screens share is that of the screen made of their common points. */
  lemma SharedRectangle(a: Screen, b: Screen) returns (shared: Screen)
    requires ScreenOverlapArea(a, b) > 0.0
    ensures forall px, py :: Holds(shared, px, py) <==> Holds(a, px, py) && Holds(b, px, py)
    ensures ScreenOverlapArea(a, b) == shared.width * shared.height
  {
    var x, y := Max(a.x, b.x), Max(a.y, b.y);
    shared := Screen(a.id, x, y, Min(a.x + a.width, b.x + b.width) - x, Min(a.y + a.height, b.y + b.height) - y);
  }

  // ----- dropping

  /** On one axis: beside the other extent, on the side nearer to where it was dropped; at
      equal distance, on the side the drag heads for. */
  predicate NearerSide(r: real, dropped: real, size: real, origin: real, extent: real, delta: real) {
    var before, after := origin - size, origin + extent;
    && (r == before || r == after)
    && Abs(r - dropped) <= Abs(before - dropped) && Abs(r - dropped) <= Abs(after - dropped)
    && (Abs(before - dropped) == Abs(after - dropped) ==> r == if delta < 0.0 then before else after)
  }

  /** Moved along the longer axis of the drag, to the nearer side of the covered screen. */
  predicate DropPlace(moving: Screen, covered: Screen, p: Position, start: Position, r: Position) {
    if Abs(p.x - start.x) >= Abs(p.y - start.y) then
      r.y == p.y && NearerSide(r.x, p.x, moving.width, covered.x, covered.width, p.x - start.x)
    else
      r.x == p.x && NearerSide(r.y, p.y, moving.height, covered.y, covered.height, p.y - start.y)
  }

  lemma OnlyOneDropPlace(moving: Screen, covered: Screen, p: Position, start: Position, r: Position, q: Position)
    requires DropPlace(moving, covered, p, start, r) && DropPlace(moving, covered, p, start, q)
    ensures r == q
  {
  }

  lemma SharingMeansOverlap(a: Screen, b: Screen)
    requires ScreenOverlapArea(a, b) > 0.0
    ensures b.x - a.width < a.x < b.x + b.width && b.y - a.height < a.y < b.y + b.height
  {
    hide Area;
  }

  lemma BesideIsNearer(moving: Screen, covered: Screen, p: Position, start: Position)
    requires ScreenOverlapArea(moving.At(p), covered) > 0.0
    ensures DropPlace(moving, covered, p, start, Beside(moving.At(p), covered, p, start))
  {
    hide ScreenOverlapArea;
    SharingMeansOverlap(moving.At(p), covered);
  }

  /** A drop over other screens goes to the drop place beside the one it covers most, if
      that place is free; if not, there is none. */
  lemma DropsOnTheNearerSide(layout: Layout, id: string, p: Position, start: Position)
    requires GetScreenById(layout, id).Some?
    ensures var moving := GetScreenById(layout, id).value;
      var covered := Covered(FlattenScreens(layout), id, moving.At(p));
      match SnapOverlapping(layout, id, p, start)
      case Some(r) =>
        covered.Some? && DropPlace(moving, covered.value, p, start, r) && !ScreenPositionOverlaps(layout, id, r)
      case None => covered.Some? ==>
        exists r :: DropPlace(moving, covered.value, p, start, r) && ScreenPositionOverlaps(layout, id, r)
  {
    hide ScreenPositionOverlaps, ScreenOverlapArea, DropPlace, Beside;
    var moving := GetScreenById(layout, id).value;
    CoveredIsLargest(FlattenScreens(layout), id, moving.At(p));
    var covered := Covered(FlattenScreens(layout), id, moving.At(p));
    if covered.Some? { BesideIsNearer(moving, covered.value, p, start); }
  }

  // ----- gestures

  ghost predicate Near(a: Position, b: Position) {
    Abs(a.x - b.x) <= SNAP_TOLERANCE && Abs(a.y - b.y) <= SNAP_TOLERANCE
  }

  /** While it is dragged, a screen is where the last movement puts it, give or take a snap. */
  lemma DragFollowsThePointer(layout: Layout, id: string, start: Position, moves: seq<Position>, k: nat)
    requires UniqueIds(FlattenScreens(layout)) && moves != []
    requires k < |FlattenScreens(layout)| && FlattenScreens(layout)[k].id == id
    ensures var now := FlattenScreens(DragAlong(layout, id, start, moves)); var last := moves[|moves| - 1];
      k < |now| && Near(Position(now[k].x, now[k].y), Position(start.x + last.x, start.y + last.y))
  {
    hide FlattenScreens, SnapPosition, DragAlong;
    var before := DragAlong(layout, id, start, moves[..|moves| - 1]);
    var last := moves[|moves| - 1];
    DragKeepsTheRest(layout, id, start, moves[..|moves| - 1]);
    var target := Position(start.x + last.x, start.y + last.y);
    MoveIsFlat(before, id, SnapPosition(before, id, target));
    FindUnique(FlattenScreens(before), id, k);
    SnapAligns(before, id, target);
    DragOneMore(layout, id, start, moves);
  }

  lemma DragOneMore(layout: Layout, id: string, start: Position, moves: seq<Position>)
    requires moves != []
    ensures var last := moves[|moves| - 1];
      DragAlong(layout, id, start, moves)
      == DragOver(DragAlong(layout, id, start, moves[..|moves| - 1]), id, start, last.x, last.y)
  {
    hide DragOver;
  }

  /** The end of a drag leaves the screen where it is if it stands free there, puts it on
      its drop place if that is free, and otherwise back where the drag began. */
  lemma EndDragGoesThere(dragged: Layout, id: string, start: Position, k: nat)
    requires UniqueIds(FlattenScreens(dragged)) && k < |FlattenScreens(dragged)| && FlattenScreens(dragged)[k].id == id
    ensures var s := FlattenScreens(dragged)[k]; var after := FlattenScreens(EndDrag(dragged, id, start));
      var covered := Covered(FlattenScreens(dragged), id, s); var here := Position(s.x, s.y);
      && k < |after|
      && var there := Position(after[k].x, after[k].y);
      if !ScreenPositionOverlaps(dragged, id, here) then there == here
      else
        || (covered.Some? && DropPlace(s, covered.value, here, start, there)
            && !ScreenPositionOverlaps(dragged, id, there))
        || (there == start && (covered.Some? ==>
              exists r :: DropPlace(s, covered.value, here, start, r) && ScreenPositionOverlaps(dragged, id, r)))
  {
    hide FlattenScreens, ScreenPositionOverlaps, Covered, DropPlace, SnapOverlapping;
    var screens := FlattenScreens(dragged);
    var s := screens[k];
    FindUnique(screens, id, k);
    var here := Position(s.x, s.y);
    assert s.At(here) == s;
    DropsOnTheNearerSide(dragged, id, here, start);
    var snapped := SnapOverlapping(dragged, id, here, start);
    MoveIsFlat(dragged, id, if snapped.Some? then snapped.value else start);
  }

  /** A nudge takes the screen to the snapped place if that is free, and nowhere if not. */
  lemma NudgeGoesThere(layout: Layout, id: string, dx: real, dy: real, k: nat)
    requires UniqueIds(FlattenScreens(layout)) && k < |FlattenScreens(layout)| && FlattenScreens(layout)[k].id == id
    ensures var s := FlattenScreens(layout)[k]; var after := FlattenScreens(Nudge(layout, id, dx, dy));
      var aim := Position(s.x + dx, s.y + dy);
      && k < |after|
      && if ScreenPositionOverlaps(layout, id, SnapPosition(layout, id, aim)) then after == FlattenScreens(layout)
         else Position(after[k].x, after[k].y) == SnapPosition(layout, id, aim)
              && Near(Position(after[k].x, after[k].y), aim)
  {
    hide FlattenScreens, ScreenPositionOverlaps, SnapPosition;
    var s := FlattenScreens(layout)[k];
    FindUnique(FlattenScreens(layout), id, k);
    var aim := Position(s.x + dx, s.y + dy);
    SnapAligns(layout, id, aim);
    MoveIsFlat(layout, id, SnapPosition(layout, id, aim));
  }
}
