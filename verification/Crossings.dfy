/** Crossing an edge, told by one measure for all four edges: how far a point lies beyond
    the edge, and how far a movement carries it outward. */
module Crossings {
  import opened Base
  import opened Cursors

  // ----- measuring across an edge

  /** How far a point lies outside the screen over this edge; inside it is negative. */
  function Beyond(s: Screen, edge: Edge, x: real, y: real): real {
    match edge
    case Right => x - (s.x + s.width) as real
    case Left => s.x as real - x
    case Bottom => y - (s.y + s.height) as real
    case Top => s.y as real - y
  }

  /** How far a movement goes outward over this edge. */
  function OutwardBy(edge: Edge, dx: real, dy: real): real {
    match edge
    case Right => dx
    case Left => -dx
    case Bottom => dy
    case Top => -dy
  }

  /** The measure is sound: a screen is where no edge is behind, and a movement goes
      outward by as much as it takes the point further beyond. */
  lemma MeasuresFit(s: Screen, edge: Edge, x: real, y: real, dx: real, dy: real)
    ensures (forall e :: Beyond(s, e, x, y) <= 0.0)
       <==> s.x as real <= x <= (s.x + s.width) as real && s.y as real <= y <= (s.y + s.height) as real
    ensures Beyond(s, edge, x, y) - Beyond(s, edge, x - dx, y - dy) == OutwardBy(edge, dx, dy)
    ensures Outward(edge, dx, dy) <==> OutwardBy(edge, dx, dy) < 0.0  // the way back
  {
    if forall e :: Beyond(s, e, x, y) <= 0.0 {
      assert Beyond(s, Right, x, y) <= 0.0 && Beyond(s, Left, x, y) <= 0.0;
      assert Beyond(s, Bottom, x, y) <= 0.0 && Beyond(s, Top, x, y) <= 0.0;
    }
  }

  /** The hand pushes out over the edge: far enough, mostly outward, from near the edge,
      up to it, and within its span. */
  predicate PushesOut(s: Screen, edge: Edge, x: real, y: real, dx: real, dy: real) {
    && OutwardBy(edge, dx, dy) >= MIN_CROSSING_DELTA
    && OutwardBy(edge, dx, dy) >= CROSSING_AXIS_DOMINANCE * Abs(Along(edge, dx, dy))
    && Beyond(s, edge, x - dx, y - dy) >= -CROSSING_ACTIVATION_BAND
    && Beyond(s, edge, x, y) >= -CROSSING_MARGIN
    && Along(edge, s.x as real, s.y as real) - CROSSING_MARGIN <= Along(edge, x, y)
    && Along(edge, x, y) <= Along(edge, (s.x + s.width) as real, (s.y + s.height) as real) + CROSSING_MARGIN
  }

  /** In the screen's own coordinates or in those of the shared layout. */
  predicate PushesOver(t: Target, x: real, y: real, dx: real, dy: real) {
    || PushesOut(t.local, t.edge, x, y, dx, dy)
    || var (lx, ly), (ldx, ldy) := NativeToLayout(t, x, y), LayoutDelta(t, dx, dy);
       PushesOut(t.layoutLocal, t.edge, lx, ly, ldx, ldy)
  }

  lemma OneCrossing(s: Screen, edge: Edge, x: real, y: real, dx: real, dy: real)
    ensures IsCrossing(s, edge, x, y, dx, dy) <==> PushesOut(s, edge, x, y, dx, dy)
  {
  }

  lemma CrossesIfPushed(t: Target, x: real, y: real, dx: real, dy: real)
    ensures Crosses(t, x, y, dx, dy) <==> PushesOver(t, x, y, dx, dy)
  {
    hide IsCrossing, PushesOut, Rescale;
    OneCrossing(t.local, t.edge, x, y, dx, dy);
    var (lx, ly) := NativeToLayout(t, x, y);
    var (ldx, ldy) := LayoutDelta(t, dx, dy);
    OneCrossing(t.layoutLocal, t.edge, lx, ly, ldx, ldy);
  }

  // ----- layout coordinates

  lemma Cancel(a: real, b: real)
    requires b != 0.0
    ensures a / b * b == a
  {
  }

  lemma Quotients(a: real, b: real, c: real)
    requires c != 0.0
    ensures a / c - b / c == (a - b) / c
  {
  }

  lemma Distributes(a: real, b: real, c: real)
    ensures a * c - b * c == (a - b) * c
  {
  }

  /** Rescaling takes the ends of one screen to the ends of the other and keeps all
      distances in proportion. */
  lemma RescaleIsAffine(u: real, v: real, o: int, s: int, no: int, ns: int)
    requires s >= 1 && ns >= 1
    ensures Rescale(o as real, o, s, no, ns) == no as real
    ensures Rescale((o + s) as real, o, s, no, ns) == (no + ns) as real
    ensures (Rescale(u, o, s, no, ns) - Rescale(v, o, s, no, ns)) * (s as real) == (u - v) * (ns as real)
  {
    var size, size' := s as real, ns as real;
    var p, q := (u - o as real) / size, (v - o as real) / size;
    Distributes(p, q, size');
    Quotients(u - o as real, v - o as real, size);
    assert Rescale(u, o, s, no, ns) - Rescale(v, o, s, no, ns) == (u - v) / size * size';
    Cancel(u - v, size);
    Reorder((u - v) / size, size', size);
  }

  lemma Reorder(a: real, b: real, c: real)
    ensures a * b * c == a * c * b
  {
  }

  /** A movement in layout coordinates is what the movement does to the mapped point. */
  lemma DeltaIsDifference(t: Target, x: real, y: real, dx: real, dy: real)
    requires t.local.HasSize() && t.layoutLocal.HasSize()
    ensures LayoutDelta(t, dx, dy).0 == NativeToLayout(t, x, y).0 - NativeToLayout(t, x - dx, y - dy).0
    ensures LayoutDelta(t, dx, dy).1 == NativeToLayout(t, x, y).1 - NativeToLayout(t, x - dx, y - dy).1
  {
    hide Rescale;
    DeltaOnAxis(x, dx, t.local.x, t.local.width, t.layoutLocal.x, t.layoutLocal.width);
    DeltaOnAxis(y, dy, t.local.y, t.local.height, t.layoutLocal.y, t.layoutLocal.height);
    assert LayoutDelta(t, dx, dy).0 == dx * (t.layoutLocal.width as real) / (t.local.width as real);
    assert LayoutDelta(t, dx, dy).1 == dy * (t.layoutLocal.height as real) / (t.local.height as real);
  }

  lemma DeltaOnAxis(v: real, d: real, o: int, s: int, no: int, ns: int)
    requires s >= 1 && ns >= 1
    ensures d * (ns as real) / (s as real) == Rescale(v, o, s, no, ns) - Rescale(v - d, o, s, no, ns)
  {
    hide Rescale;
    RescaleIsAffine(v, v - d, o, s, no, ns);
    Divides(Rescale(v, o, s, no, ns) - Rescale(v - d, o, s, no, ns), s as real, d * (ns as real));
  }

  lemma Divides(a: real, b: real, c: real)
    requires b != 0.0 && a * b == c
    ensures a == c / b
  {
  }

  // ----- where the cursor enters

  /** How deep inside the remote screen the cursor is, from the edge that faces home. */
  function Depth(a: Active): real {
    match a.target.edge
    case Right => a.x
    case Left => (a.current.width - 1) as real - a.x
    case Bottom => a.y
    case Top => (a.current.height - 1) as real - a.y
  }

  function Extent(s: Screen, edge: Edge): real {
    if edge.Sideways() then (s.width - 1) as real else (s.height - 1) as real
  }

  /** One pixel plus what the movement carries outward, as far as the screen goes. */
  lemma EntersThatDeep(t: Target, x: real, y: real, dx: real, dy: real, invertY: bool)
    requires t.remote.HasSize()
    ensures var (ldx, ldy) := LayoutDelta(t, dx, dy); var out := OutwardBy(t.edge, ldx, ldy);
      Depth(Enter(t, x, y, dx, dy, invertY))
      == Min(1.0 + (if out > 0.0 then out else 0.0), Extent(t.remote, t.edge))
  {
    hide Rescale, LayoutDelta;
  }

  /** The hand pushes over some target's edge if and only if the cursor enters; it enters
      the first of them, facing home, at the depth of the movement and beside the point
      where it left. */
  lemma EntersExactlyWhenPushed(targets: seq<Target>, x: real, y: real, dx: real, dy: real, invertY: bool)
    requires forall i :: 0 <= i < |targets| ==> targets[i].remote.HasSize()
    ensures match CrossingTarget(targets, x, y, dx, dy, invertY)
      case None => forall i :: 0 <= i < |targets| ==> !PushesOver(targets[i], x, y, dx, dy)
      case Some(a) =>
        && EnteredBy(a, x, y, dx, dy)
        && exists i :: 0 <= i < |targets| && a.target == targets[i] && PushesOver(targets[i], x, y, dx, dy)
                       && forall j :: 0 <= j < i ==> !PushesOver(targets[j], x, y, dx, dy)
  {
    hide Crosses, PushesOver, EnteredBy;
    CrossingEntersTheFirst(targets, x, y, dx, dy, invertY);
    forall i | 0 <= i < |targets|
      ensures Crosses(targets[i], x, y, dx, dy) <==> PushesOver(targets[i], x, y, dx, dy)
    {
      CrossesIfPushed(targets[i], x, y, dx, dy);
    }
    EnteredFacingHome(targets, x, y, dx, dy, invertY);
  }

  ghost predicate EnteredBy(a: Active, x: real, y: real, dx: real, dy: real) {
    var t := a.target;
    var (ldx, ldy) := LayoutDelta(t, dx, dy);
    var out := OutwardBy(t.edge, ldx, ldy);
    && a.Inside() && a.currentId == a.current.id == t.screenId && a.current.SamePlace(t.remote)
    && t.remote.HasSize()
    && Depth(a) == Min(1.0 + (if out > 0.0 then out else 0.0), Extent(t.remote, t.edge))
    && FirstAlong(t.remote, t.edge) <= LastAlong(t.remote, t.edge)
    && Along(t.edge, a.GlobalX(), a.GlobalY())
       == Clamp(MappedAlong(t, x, y), FirstAlong(t.remote, t.edge), LastAlong(t.remote, t.edge))
  }

  lemma {:induction false} EnteredFacingHome(targets: seq<Target>, x: real, y: real, dx: real, dy: real, invertY: bool)
    requires forall i :: 0 <= i < |targets| ==> targets[i].remote.HasSize()
    ensures var entered := CrossingTarget(targets, x, y, dx, dy, invertY);
      entered.Some? ==> EnteredBy(entered.value, x, y, dx, dy)
  {
    hide Crosses, EnteredBy, Enter;
    if targets != [] {
      EnteringIsThere(targets[0], x, y, dx, dy, invertY);
      EnteredFacingHome(targets[1..], x, y, dx, dy, invertY);
    }
  }

  lemma EnteringIsThere(t: Target, x: real, y: real, dx: real, dy: real, invertY: bool)
    requires t.remote.HasSize()
    ensures EnteredBy(Enter(t, x, y, dx, dy, invertY), x, y, dx, dy)
  {
    hide Rescale, LayoutDelta, MappedAlong;
    EntersThatDeep(t, x, y, dx, dy, invertY);
    EntersAlong(t, x, y, dx, dy, invertY);
  }

  // ----- and how it gets back

  /** A movement straight back toward home. */
  function Back(edge: Edge, step: real): (real, real) {
    match edge
    case Right => (-step, 0.0)
    case Left => (step, 0.0)
    case Bottom => (0.0, -step)
    case Top => (0.0, step)
  }

  /** Moving straight back by no more than the depth brings the cursor that much nearer to
      the edge it came by; moving further returns control, unless a screen is there. */
  lemma BackByTheDepth(a: Active, step: real, screens: seq<Screen>)
    requires OnScreen(a, screens) && a.currentId == a.target.screenId && step > 0.0
    ensures var (dx, dy) := Back(a.target.edge, step); var (b, returned) := a.Move(dx, dy, screens);
      && OutwardBy(a.target.edge, dx, dy) == -step && Straight(a.target.edge, (dx, dy))
      && (step <= Depth(a) ==> !returned && b.current == a.current && Depth(b) == Depth(a) - step)
      && (step == Depth(a) ==> OnEntryEdge(b))
      && (step > Depth(a) ==>
            (returned <==> !HeldBySome(a, a.GlobalX() + dx, a.GlobalY() + dy, screens))
            && (returned ==> OnEntryEdge(b)))
  {
    hide HeldBySome;
    var (dx, dy) := Back(a.target.edge, step);
    HeldIsFound(a, dx, dy, screens);
    MoveStaysOnScreen(a, dx, dy, screens);
    var moved := a.(x := a.x + dx, y := a.y + dy);
    assert moved.GlobalX() == a.GlobalX() + dx && moved.GlobalY() == a.GlobalY() + dy;
  }
}
