/** The cursor between machines: crossing a shared edge, roaming over the remote device's
    screens, and coming back.  Coordinates are real numbers, screens have whole ones. */
module Cursors {
  import opened Base

  const CROSSING_MARGIN: real := 1.0
  const MIN_CROSSING_DELTA: real := 1.0
  const CROSSING_AXIS_DOMINANCE: real := 0.5
  const CROSSING_ACTIVATION_BAND: real := 160.0
  const RETURN_EDGE_INSET: real := 0.0

  datatype Edge = Right | Left | Bottom | Top {
    /** Left and right edges are crossed sideways. */
    predicate Sideways() { Right? || Left? }
  }

  datatype Screen = Screen(id: string, x: int, y: int, width: int, height: int) {
    predicate HasSize() { width >= 1 && height >= 1 }

    predicate HasPoint(px: real, py: real) {
      x as real <= px <= (x + width - 1) as real && y as real <= py <= (y + height - 1) as real
    }

    predicate SamePlace(other: Screen) {
      x == other.x && y == other.y && width == other.width && height == other.height
    }
  }

  /** A shared edge: the local screen in native and in layout coordinates, and the
      remote screen on the other side. */
  datatype Target = Target(screenId: string, local: Screen, layoutLocal: Screen, remote: Screen, edge: Edge)

  function Abs(v: real): real { if v < 0.0 then -v else v }

  function AtLeastOne(size: int): int { if size < 1 then 1 else size }

  function Min(a: real, b: real): real { if a < b then a else b }

  function Max(a: real, b: real): real { if a < b then b else a }

  function Clamp(v: real, low: real, high: real): (r: real)
    requires low <= high
    ensures low <= r <= high && (low <= v <= high <==> r == v)
  {
    if v < low then low else if v > high then high else v
  }

  // ----- leaving the local machine

  function Rescale(v: real, origin: int, size: int, newOrigin: int, newSize: int): real {
    newOrigin as real + (v - origin as real) / (AtLeastOne(size) as real) * (AtLeastOne(newSize) as real)
  }

  function NativeToLayout(t: Target, x: real, y: real): (real, real) {
    (Rescale(x, t.local.x, t.local.width, t.layoutLocal.x, t.layoutLocal.width),
     Rescale(y, t.local.y, t.local.height, t.layoutLocal.y, t.layoutLocal.height))
  }

  function LayoutDelta(t: Target, dx: real, dy: real): (real, real) {
    (dx * (AtLeastOne(t.layoutLocal.width) as real) / (AtLeastOne(t.local.width) as real),
     dy * (AtLeastOne(t.layoutLocal.height) as real) / (AtLeastOne(t.local.height) as real))
  }

  predicate IsCrossing(s: Screen, edge: Edge, x: real, y: real, dx: real, dy: real) {
    var left, right := s.x as real, (s.x + s.width) as real;
    var top, bottom := s.y as real, (s.y + s.height) as real;
    match edge
    case Right =>
      && dx >= MIN_CROSSING_DELTA && Abs(dx) >= Abs(dy) * CROSSING_AXIS_DOMINANCE
      && x - dx >= right - CROSSING_ACTIVATION_BAND && x >= right - CROSSING_MARGIN
      && top - CROSSING_MARGIN <= y <= bottom + CROSSING_MARGIN
    case Left =>
      && dx <= -MIN_CROSSING_DELTA && Abs(dx) >= Abs(dy) * CROSSING_AXIS_DOMINANCE
      && x - dx <= left + CROSSING_ACTIVATION_BAND && x <= left + CROSSING_MARGIN
      && top - CROSSING_MARGIN <= y <= bottom + CROSSING_MARGIN
    case Bottom =>
      && dy >= MIN_CROSSING_DELTA && Abs(dy) >= Abs(dx) * CROSSING_AXIS_DOMINANCE
      && y - dy >= bottom - CROSSING_ACTIVATION_BAND && y >= bottom - CROSSING_MARGIN
      && left - CROSSING_MARGIN <= x <= right + CROSSING_MARGIN
    case Top =>
      && dy <= -MIN_CROSSING_DELTA && Abs(dy) >= Abs(dx) * CROSSING_AXIS_DOMINANCE
      && y - dy <= top + CROSSING_ACTIVATION_BAND && y <= top + CROSSING_MARGIN
      && left - CROSSING_MARGIN <= x <= right + CROSSING_MARGIN
  }

  predicate Crosses(t: Target, x: real, y: real, dx: real, dy: real) {
    || IsCrossing(t.local, t.edge, x, y, dx, dy)
    || var (mx, my), (mdx, mdy) := NativeToLayout(t, x, y), LayoutDelta(t, dx, dy);
       IsCrossing(t.layoutLocal, t.edge, mx, my, mdx, mdy)
  }

  /** Just inside the remote screen, as deep as the movement carries. */
  function Enter(t: Target, x: real, y: real, dx: real, dy: real, invertY: bool): Active
    requires t.remote.HasSize()
  {
    var (mx, my), (mdx, mdy) := NativeToLayout(t, x, y), LayoutDelta(t, dx, dy);
    var lastX, lastY := (t.remote.width - 1) as real, (t.remote.height - 1) as real;
    var ex := match t.edge
      case Right => 1.0 + Max(mdx, 0.0)
      case Left => lastX - 1.0 + Min(mdx, 0.0)
      case _ => Clamp(mx - t.remote.x as real, 0.0, lastX);
    var ey := match t.edge
      case Bottom => 1.0 + Max(mdy, 0.0)
      case Top => lastY - 1.0 + Min(mdy, 0.0)
      case _ => Clamp(my - t.remote.y as real, 0.0, lastY);
    Active(t, t.remote.(id := t.screenId), t.screenId, Clamp(ex, 0.0, lastX), Clamp(ey, 0.0, lastY), invertY)
  }

  function CrossingTarget(targets: seq<Target>, x: real, y: real, dx: real, dy: real, invertY: bool): Option<Active>
    requires forall i :: 0 <= i < |targets| ==> targets[i].remote.HasSize()
  {
    if targets == [] then None
    else if Crosses(targets[0], x, y, dx, dy) then Some(Enter(targets[0], x, y, dx, dy, invertY))
    else CrossingTarget(targets[1..], x, y, dx, dy, invertY)
  }

  // ----- on the remote device

  predicate ExitedEntryEdge(edge: Edge, s: Screen, x: real, y: real, dx: real, dy: real) {
    match edge
    case Right => x <= 0.0 && dx < 0.0
    case Left => x >= (s.width - 1) as real && dx > 0.0
    case Bottom => y <= 0.0 && dy < 0.0
    case Top => y >= (s.height - 1) as real && dy > 0.0
  }

  /** The first other screen that holds a point of the shared layout. */
  function Neighbour(screens: seq<Screen>, id: string, px: real, py: real): Option<Screen> {
    if screens == [] then None
    else if screens[0].id != id && screens[0].HasPoint(px, py) then Some(screens[0])
    else Neighbour(screens[1..], id, px, py)
  }

  datatype Active = Active(target: Target, current: Screen, currentId: string, x: real, y: real, invertY: bool) {
    function GlobalX(): real { current.x as real + x }

    function GlobalY(): real { current.y as real + y }

    predicate Inside() { 0.0 <= x <= (current.width - 1) as real && 0.0 <= y <= (current.height - 1) as real }

    function Clamped(): Active
      requires current.HasSize()
    {
      this.(x := Clamp(x, 0.0, (current.width - 1) as real), y := Clamp(y, 0.0, (current.height - 1) as real))
    }

    function Pinned(): Active
      requires current.HasSize()
    {
      match target.edge
      case Right => Clamped().(x := 0.0)
      case Left => Clamped().(x := (current.width - 1) as real)
      case Bottom => Clamped().(y := 0.0)
      case Top => Clamped().(y := (current.height - 1) as real)
    }

    function Update(dx: real, dy: real, screens: seq<Screen>): (Active, bool)
      requires current.HasSize()
    {
      if Inside() then (this, false)
      else
        var next := Neighbour(screens, current.id, GlobalX(), GlobalY());
        if next.Some? then
          (this.(x := GlobalX() - next.value.x as real, y := GlobalY() - next.value.y as real,
                 currentId := next.value.id, current := next.value), false)
        else if currentId == target.screenId && ExitedEntryEdge(target.edge, current, x, y, dx, dy) then
          (Pinned(), true)
        else (this, false)
    }

    /** One movement of the hand: the delta, the change of screens, and the clamp when
        control stays on the remote device. */
    function Move(dx: real, dy: real, screens: seq<Screen>): (Active, bool)
      requires current.HasSize() && forall i :: 0 <= i < |screens| ==> screens[i].HasSize()
    {
      var (a, returned) := this.(x := x + dx, y := y + dy).Update(dx, dy, screens);
      NeighbourIsThere(screens, current.id, GlobalX() + dx, GlobalY() + dy);
      (if returned then a else a.Clamped(), returned)
    }

    /** Where the local cursor reappears. */
    function ReturnPoint(): (real, real)
      requires target.local.HasSize()
    {
      var l, t := target.local, target;
      var nx := Rescale(t.remote.x as real + x, t.layoutLocal.x, t.layoutLocal.width, l.x, l.width);
      var ny := Rescale(t.remote.y as real + y, t.layoutLocal.y, t.layoutLocal.height, l.y, l.height);
      var inset := Min(RETURN_EDGE_INSET, (l.width - 1) as real / 2.0);
      var insetV := Min(RETURN_EDGE_INSET, (l.height - 1) as real / 2.0);
      match t.edge
      case Right => ((l.x + l.width - 1) as real - inset, Clamp(ny, l.y as real, (l.y + l.height - 1) as real))
      case Left => (l.x as real + inset, Clamp(ny, l.y as real, (l.y + l.height - 1) as real))
      case Bottom => (Clamp(nx, l.x as real, (l.x + l.width - 1) as real), (l.y + l.height - 1) as real - insetV)
      case Top => (Clamp(nx, l.x as real, (l.x + l.width - 1) as real), l.y as real + insetV)
    }
  }

  lemma {:induction false} NeighbourIsThere(screens: seq<Screen>, id: string, px: real, py: real)
    ensures match Neighbour(screens, id, px, py)
      case None => forall i :: 0 <= i < |screens| ==> screens[i].id == id || !screens[i].HasPoint(px, py)
      case Some(s) => s in screens && s.id != id && s.HasPoint(px, py)
  {
    if screens != [] { NeighbourIsThere(screens[1..], id, px, py); }
  }

  class ActiveTarget {
    const target: Target
    var current: Screen
    var currentId: string
    var x: real
    var y: real
    const invertY: bool

    ghost function View(): Active reads this { Active(target, current, currentId, x, y, invertY) }

    constructor (entered: Active)
      ensures View() == entered
    {
      target, current, currentId := entered.target, entered.current, entered.currentId;
      x, y, invertY := entered.x, entered.y, entered.invertY;
    }

    method PinToEntryEdge()
      requires current.HasSize()
      modifies this
      ensures View() == old(View()).Pinned()
    {
      x := Clamp(x, 0.0, (current.width - 1) as real);
      y := Clamp(y, 0.0, (current.height - 1) as real);
      match target.edge {
        case Right => x := 0.0;
        case Left => x := (current.width - 1) as real;
        case Bottom => y := 0.0;
        case Top => y := (current.height - 1) as real;
      }
    }

    method UpdateRemoteScreen(dx: real, dy: real, screens: seq<Screen>) returns (returned: bool)
      requires current.HasSize()
      modifies this
      ensures (View(), returned) == old(View()).Update(dx, dy, screens)
    {
      if 0.0 <= x <= (current.width - 1) as real && 0.0 <= y <= (current.height - 1) as real { return false; }
      var globalX, globalY := current.x as real + x, current.y as real + y;
      var next := Neighbour(screens, current.id, globalX, globalY);
      if next.Some? {
        x := globalX - next.value.x as real;
        y := globalY - next.value.y as real;
        currentId := next.value.id;
        current := next.value;
        return false;
      }
      returned := currentId == target.screenId && ExitedEntryEdge(target.edge, current, x, y, dx, dy);
      if returned { PinToEntryEdge(); }
    }

    method Move(dx: real, dy: real, screens: seq<Screen>) returns (returned: bool)
      requires current.HasSize() && forall i :: 0 <= i < |screens| ==> screens[i].HasSize()
      modifies this
      ensures (View(), returned) == old(View()).Move(dx, dy, screens)
    {
      NeighbourIsThere(screens, current.id, current.x as real + x + dx, current.y as real + y + dy);
      ghost var before := View();
      assert before.(x := x + dx, y := y + dy).GlobalX() == before.GlobalX() + dx;
      assert before.(x := x + dx, y := y + dy).GlobalY() == before.GlobalY() + dy;
      x, y := x + dx, y + dy;
      returned := UpdateRemoteScreen(dx, dy, screens);
      if !returned {
        x := Clamp(x, 0.0, (current.width - 1) as real);
        y := Clamp(y, 0.0, (current.height - 1) as real);
      }
    }
  }

  // ----- what roaming keeps

  /** The device's screens as the crossing saw them: the entry screen has not moved. */
  ghost predicate Unmoved(t: Target, screens: seq<Screen>) {
    && t.remote.HasSize() && t.local.HasSize() && t.layoutLocal.HasSize()
    && forall i :: 0 <= i < |screens| ==>
         screens[i].HasSize() && (screens[i].id == t.screenId ==> screens[i].SamePlace(t.remote))
  }

  ghost predicate OnScreen(a: Active, screens: seq<Screen>) {
    && Unmoved(a.target, screens) && a.current.HasSize() && a.Inside()
    && a.currentId == a.current.id
    && (a.currentId == a.target.screenId ==> a.current.SamePlace(a.target.remote))
    && (a.currentId == a.target.screenId || a.current in screens)
  }

  /** Switching screens never moves the cursor in the shared layout, and ends on a screen
      that holds it. */
  lemma RoamingKeepsThePoint(a: Active, dx: real, dy: real, screens: seq<Screen>)
    requires a.current.HasSize()
    ensures var (b, returned) := a.Update(dx, dy, screens);
      !returned ==>
        && b.GlobalX() == a.GlobalX() && b.GlobalY() == a.GlobalY()
        && (b != a ==> b.Inside() && b.current in screens && b.current.id != a.current.id && b.currentId == b.current.id)
  {
    NeighbourIsThere(screens, a.current.id, a.GlobalX(), a.GlobalY());
  }

  predicate Outward(edge: Edge, dx: real, dy: real) {
    match edge
    case Right => dx < 0.0
    case Left => dx > 0.0
    case Bottom => dy < 0.0
    case Top => dy > 0.0
  }

  predicate OnEntryEdge(a: Active) {
    match a.target.edge
    case Right => a.x == 0.0
    case Left => a.x == (a.current.width - 1) as real
    case Bottom => a.y == 0.0
    case Top => a.y == (a.current.height - 1) as real
  }

  predicate HeldBySome(a: Active, px: real, py: real, screens: seq<Screen>) {
    || a.current.HasPoint(px, py)
    || exists i :: 0 <= i < |screens| && screens[i].id != a.current.id && screens[i].HasPoint(px, py)
  }

  lemma HeldIsFound(a: Active, dx: real, dy: real, screens: seq<Screen>)
    ensures HeldBySome(a, a.GlobalX() + dx, a.GlobalY() + dy, screens) <==>
      || a.(x := a.x + dx, y := a.y + dy).Inside()
      || Neighbour(screens, a.current.id, a.GlobalX() + dx, a.GlobalY() + dy).Some?
  {
    NeighbourIsThere(screens, a.current.id, a.GlobalX() + dx, a.GlobalY() + dy);
  }

  lemma InsideNeedsNoClamp(a: Active)
    requires a.current.HasSize() && a.Inside()
    ensures a.Clamped() == a
  {
  }

  /** A held point is reached exactly, on a screen that holds it. */
  lemma HeldMove(a: Active, dx: real, dy: real, screens: seq<Screen>)
    requires OnScreen(a, screens) && HeldBySome(a, a.GlobalX() + dx, a.GlobalY() + dy, screens)
    ensures var (b, returned) := a.Move(dx, dy, screens);
      && !returned && OnScreen(b, screens) && b.target == a.target && b.invertY == a.invertY
      && b.GlobalX() == a.GlobalX() + dx && b.GlobalY() == a.GlobalY() + dy
  {
    hide HeldBySome, Active.Clamped, Active.Pinned, ExitedEntryEdge;
    HeldIsFound(a, dx, dy, screens);
    NeighbourIsThere(screens, a.current.id, a.GlobalX() + dx, a.GlobalY() + dy);
    var moved := a.(x := a.x + dx, y := a.y + dy);
    assert moved.GlobalX() == a.GlobalX() + dx && moved.GlobalY() == a.GlobalY() + dy;
    var (b, returned) := moved.Update(dx, dy, screens);
    if !moved.Inside() { RoamingKeepsThePoint(moved, dx, dy, screens); }
    InsideNeedsNoClamp(b);
  }

  /** A point no screen holds is not reached: the cursor stops at the edge or returns. */
  lemma StrayMove(a: Active, dx: real, dy: real, screens: seq<Screen>)
    requires OnScreen(a, screens) && !HeldBySome(a, a.GlobalX() + dx, a.GlobalY() + dy, screens)
    ensures var (b, returned) := a.Move(dx, dy, screens);
      && OnScreen(b, screens) && b.target == a.target && b.invertY == a.invertY
      && b.current == a.current && b.currentId == a.currentId
      && (returned ==>
            && a.currentId == a.target.screenId && OnEntryEdge(b) && Outward(a.target.edge, dx, dy))
      && (!returned ==> b == a.(x := a.x + dx, y := a.y + dy).Clamped()
                        && (b.GlobalX() != a.GlobalX() + dx || b.GlobalY() != a.GlobalY() + dy))
  {
    hide HeldBySome;
    HeldIsFound(a, dx, dy, screens);
    var moved := a.(x := a.x + dx, y := a.y + dy);
    assert moved.GlobalX() == a.GlobalX() + dx && moved.GlobalY() == a.GlobalY() + dy;
  }

  /** One movement: the cursor stays on a screen; it follows the hand exactly when some
      screen holds the new point; and control returns only from the entry screen, by a
      movement out over the entry edge to a point that no screen holds. */
  lemma MoveStaysOnScreen(a: Active, dx: real, dy: real, screens: seq<Screen>)
    requires OnScreen(a, screens)
    ensures var (b, returned) := a.Move(dx, dy, screens);
      && OnScreen(b, screens) && b.target == a.target && b.invertY == a.invertY
      && (returned ==>
            && a.currentId == a.target.screenId && b.current == a.current && b.currentId == a.currentId
            && OnEntryEdge(b) && Outward(a.target.edge, dx, dy)
            && !HeldBySome(a, a.GlobalX() + dx, a.GlobalY() + dy, screens))
      && (!returned ==>
            (HeldBySome(a, a.GlobalX() + dx, a.GlobalY() + dy, screens)
             <==> b.GlobalX() == a.GlobalX() + dx && b.GlobalY() == a.GlobalY() + dy))
  {
    hide HeldBySome, OnScreen, OnEntryEdge, Outward, Active.Move;
    if HeldBySome(a, a.GlobalX() + dx, a.GlobalY() + dy, screens) {
      HeldMove(a, dx, dy, screens);
    } else {
      StrayMove(a, dx, dy, screens);
    }
  }

  /** The hand's movements one after the other, until control returns. */
  function MoveAll(a: Active, deltas: seq<(real, real)>, screens: seq<Screen>): (r: (Active, bool))
    requires a.current.HasSize() && forall i :: 0 <= i < |screens| ==> screens[i].HasSize()
    ensures r.0.current.HasSize() && r.0.target == a.target
  {
    if deltas == [] then (a, false)
    else
      var (b, returned) := MoveAll(a, deltas[..|deltas| - 1], screens);
      var (dx, dy) := deltas[|deltas| - 1];
      if returned then (b, true)
      else
        var moved := b.(x := b.x + dx, y := b.y + dy);
        NeighbourIsThere(screens, b.current.id, moved.GlobalX(), moved.GlobalY());
        b.Move(dx, dy, screens)
  }

  function Sum(deltas: seq<(real, real)>): (real, real) {
    if deltas == [] then (0.0, 0.0)
    else
      var (x, y) := Sum(deltas[..|deltas| - 1]);
      (x + deltas[|deltas| - 1].0, y + deltas[|deltas| - 1].1)
  }

  /** However it roams, the cursor is on a screen of the device; and when control has
      returned, it is on the entry screen, on the entry edge. */
  lemma {:induction false} ReturnsThroughTheEntryEdge(a: Active, deltas: seq<(real, real)>, screens: seq<Screen>)
    requires OnScreen(a, screens)
    ensures var (b, returned) := MoveAll(a, deltas, screens);
      && OnScreen(b, screens) && b.target == a.target && b.invertY == a.invertY
      && (returned ==> b.currentId == b.target.screenId && b.current.SamePlace(b.target.remote) && OnEntryEdge(b))
  {
    hide OnEntryEdge;
    if deltas != [] {
      var before := deltas[..|deltas| - 1];
      ReturnsThroughTheEntryEdge(a, before, screens);
      var b := MoveAll(a, before, screens).0;
      MoveStaysOnScreen(b, deltas[|deltas| - 1].0, deltas[|deltas| - 1].1, screens);
    }
  }

  /** Every point the hand passes lies on some screen of the device. */
  ghost predicate Follows(a: Active, deltas: seq<(real, real)>, screens: seq<Screen>) {
    forall k :: 0 < k <= |deltas| ==>
      HeldByDevice(a.GlobalX() + Sum(deltas[..k]).0, a.GlobalY() + Sum(deltas[..k]).1, screens)
  }

  ghost predicate HeldByDevice(px: real, py: real, screens: seq<Screen>) {
    exists i :: 0 <= i < |screens| && screens[i].HasPoint(px, py)
  }

  /** Screens of the device are told apart by their identifiers. */
  ghost predicate Listed(a: Active, screens: seq<Screen>) {
    && (forall i, j :: 0 <= i < j < |screens| ==> screens[i].id != screens[j].id)
    && exists i :: 0 <= i < |screens| && screens[i].id == a.current.id && screens[i].SamePlace(a.current)
  }

  /** As long as the hand stays over the device's screens, the cursor is where the sum of
      all movements puts it, whatever screens it passes on the way. */
  lemma {:induction false} RoamingFollowsTheHand(a: Active, deltas: seq<(real, real)>, screens: seq<Screen>)
    requires OnScreen(a, screens) && Listed(a, screens) && Follows(a, deltas, screens)
    ensures var (b, returned) := MoveAll(a, deltas, screens);
      && !returned && OnScreen(b, screens) && Listed(b, screens)
      && b.GlobalX() == a.GlobalX() + Sum(deltas).0 && b.GlobalY() == a.GlobalY() + Sum(deltas).1
  {
    hide HeldByDevice, Listed, Active.Move;
    if deltas != [] {
      var before := deltas[..|deltas| - 1];
      forall k | 0 < k <= |before|
        ensures HeldByDevice(a.GlobalX() + Sum(before[..k]).0, a.GlobalY() + Sum(before[..k]).1, screens)
      {
        assert before[..k] == deltas[..k];
      }
      RoamingFollowsTheHand(a, before, screens);
      var b := MoveAll(a, before, screens).0;
      assert deltas[..|deltas|] == deltas;
      HeldPointIsReached(b, deltas[|deltas| - 1].0, deltas[|deltas| - 1].1, screens);
    }
  }

  lemma HeldPointIsReached(a: Active, dx: real, dy: real, screens: seq<Screen>)
    requires OnScreen(a, screens) && Listed(a, screens)
    requires HeldByDevice(a.GlobalX() + dx, a.GlobalY() + dy, screens)
    ensures var (b, returned) := a.Move(dx, dy, screens);
      && !returned && OnScreen(b, screens) && Listed(b, screens)
      && b.GlobalX() == a.GlobalX() + dx && b.GlobalY() == a.GlobalY() + dy
  {
    MoveStaysOnScreen(a, dx, dy, screens);
    var i :| 0 <= i < |screens| && screens[i].HasPoint(a.GlobalX() + dx, a.GlobalY() + dy);
    var j :| 0 <= j < |screens| && screens[j].id == a.current.id && screens[j].SamePlace(a.current);
    var b := a.Move(dx, dy, screens).0;
    var moved := a.(x := a.x + dx, y := a.y + dy);
    RoamingKeepsThePoint(moved, dx, dy, screens);
  }

  // ----- there and back

  /** The local cursor reappears inside the local screen, on the edge it left by. */
  lemma ReturnPointIsOnTheEdge(a: Active)
    requires a.target.local.HasSize()
    ensures var l, (px, py) := a.target.local, a.ReturnPoint();
      && l.HasPoint(px, py)
      && match a.target.edge
         case Right => px == (l.x + l.width - 1) as real
         case Left => px == l.x as real
         case Bottom => py == (l.y + l.height - 1) as real
         case Top => py == l.y as real
  {
  }

  lemma DivideAndMultiply(a: real, b: real)
    requires b != 0.0
    ensures a / b * b == a && a * b / b == a
  {
  }

  lemma RescaleRoundTrip(v: real, o: int, s: int, no: int, ns: int)
    requires s >= 1 && ns >= 1
    ensures Rescale(Rescale(v, o, s, no, ns), no, ns, o, s) == v
  {
    var q := (v - o as real) / (s as real);
    DivideAndMultiply(q, ns as real);
    DivideAndMultiply(v - o as real, s as real);
    assert Rescale(v, o, s, no, ns) - no as real == q * (ns as real);
  }

  lemma RescaleIsInjective(u: real, v: real, o: int, s: int, no: int, ns: int)
    requires s >= 1 && ns >= 1 && Rescale(u, o, s, no, ns) == Rescale(v, o, s, no, ns)
    ensures u == v
  {
    RescaleRoundTrip(u, o, s, no, ns);
    RescaleRoundTrip(v, o, s, no, ns);
  }

  lemma EnteringIsOnScreen(t: Target, x: real, y: real, dx: real, dy: real, invertY: bool, screens: seq<Screen>)
    requires Unmoved(t, screens)
    ensures OnScreen(Enter(t, x, y, dx, dy, invertY), screens)
  {
  }

  /** The first target whose edge is crossed is entered, and its screen holds the cursor. */
  lemma {:induction false} CrossingEntersTheFirst(targets: seq<Target>, x: real, y: real, dx: real, dy: real, invertY: bool)
    requires forall i :: 0 <= i < |targets| ==> targets[i].remote.HasSize()
    ensures match CrossingTarget(targets, x, y, dx, dy, invertY)
      case None => forall i :: 0 <= i < |targets| ==> !Crosses(targets[i], x, y, dx, dy)
      case Some(a) =>
        && a.Inside() && a.currentId == a.current.id == a.target.screenId && a.current.SamePlace(a.target.remote)
        && exists i :: 0 <= i < |targets| && a.target == targets[i] && Crosses(targets[i], x, y, dx, dy)
                       && forall j :: 0 <= j < i ==> !Crosses(targets[j], x, y, dx, dy)
  {
    hide Crosses;
    if targets != [] {
      if Crosses(targets[0], x, y, dx, dy) {
        assert CrossingTarget(targets, x, y, dx, dy, invertY).value.target == targets[0];
      } else {
        CrossingEntersTheFirst(targets[1..], x, y, dx, dy, invertY);
        var rest := CrossingTarget(targets[1..], x, y, dx, dy, invertY);
        if rest.Some? {
          var i :| 0 <= i < |targets[1..]| && rest.value.target == targets[1..][i]
                   && Crosses(targets[1..][i], x, y, dx, dy)
                   && forall j :: 0 <= j < i ==> !Crosses(targets[1..][j], x, y, dx, dy);
          assert targets[i + 1] == targets[1..][i];
          forall j | 0 <= j < i + 1
            ensures !Crosses(targets[j], x, y, dx, dy)
          {
            if j > 0 { assert targets[j] == targets[1..][j - 1]; }
          }
        }
      }
    }
  }

  /** The coordinate along the edge, of a point. */
  function Along(edge: Edge, x: real, y: real): real { if edge.Sideways() then y else x }

  predicate Straight(edge: Edge, delta: (real, real)) { Along(edge, delta.0, delta.1) == 0.0 }

  lemma StraightMove(a: Active, dx: real, dy: real, screens: seq<Screen>)
    requires OnScreen(a, screens) && Straight(a.target.edge, (dx, dy))
    ensures var b := a.Move(dx, dy, screens).0;
      Along(a.target.edge, b.GlobalX(), b.GlobalY()) == Along(a.target.edge, a.GlobalX(), a.GlobalY())
  {
    hide HeldBySome;
    if HeldBySome(a, a.GlobalX() + dx, a.GlobalY() + dy, screens) {
      HeldMove(a, dx, dy, screens);
    } else {
      HeldIsFound(a, dx, dy, screens);
      var moved := a.(x := a.x + dx, y := a.y + dy);
      assert moved.GlobalX() == a.GlobalX() + dx && moved.GlobalY() == a.GlobalY() + dy;
    }
  }

  lemma {:induction false} StraightRoam(a: Active, deltas: seq<(real, real)>, screens: seq<Screen>)
    requires OnScreen(a, screens) && forall i :: 0 <= i < |deltas| ==> Straight(a.target.edge, deltas[i])
    ensures var b := MoveAll(a, deltas, screens).0;
      Along(a.target.edge, b.GlobalX(), b.GlobalY()) == Along(a.target.edge, a.GlobalX(), a.GlobalY())
  {
    hide Straight, Active.Move, Along;
    if deltas != [] {
      var before := deltas[..|deltas| - 1];
      StraightRoam(a, before, screens);
      ReturnsThroughTheEntryEdge(a, before, screens);
      assert deltas[|deltas| - 1] == (deltas[|deltas| - 1].0, deltas[|deltas| - 1].1);
      StraightMove(MoveAll(a, before, screens).0, deltas[|deltas| - 1].0, deltas[|deltas| - 1].1, screens);
    }
  }

  /** Where along its edge a crossing leaves the local screen, in layout coordinates. */
  function MappedAlong(t: Target, x: real, y: real): real {
    var (mx, my) := NativeToLayout(t, x, y);
    Along(t.edge, mx, my)
  }

  function FirstAlong(s: Screen, edge: Edge): real { Along(edge, s.x as real, s.y as real) }

  function LastAlong(s: Screen, edge: Edge): real {
    Along(edge, (s.x + s.width - 1) as real, (s.y + s.height - 1) as real)
  }

  lemma EntersAlong(t: Target, x: real, y: real, dx: real, dy: real, invertY: bool)
    requires t.remote.HasSize()
    ensures var a := Enter(t, x, y, dx, dy, invertY);
      Along(t.edge, a.GlobalX(), a.GlobalY())
      == Clamp(MappedAlong(t, x, y), FirstAlong(t.remote, t.edge), LastAlong(t.remote, t.edge))
  {
    hide Rescale, LayoutDelta;
  }

  /** From layout coordinates along the edge back to native ones. */
  function NativeAlong(t: Target, v: real): real {
    if t.edge.Sideways() then Rescale(v, t.layoutLocal.y, t.layoutLocal.height, t.local.y, t.local.height)
    else Rescale(v, t.layoutLocal.x, t.layoutLocal.width, t.local.x, t.local.width)
  }

  lemma ReturnsAlong(a: Active)
    requires a.target.local.HasSize() && a.current.SamePlace(a.target.remote)
    ensures var t, (px, py) := a.target, a.ReturnPoint();
      Along(t.edge, px, py)
      == Clamp(NativeAlong(t, Along(t.edge, a.GlobalX(), a.GlobalY())), FirstAlong(t.local, t.edge), LastAlong(t.local, t.edge))
  {
    hide Rescale;
  }

  lemma NativeAndBack(t: Target, x: real, y: real)
    requires t.local.HasSize() && t.layoutLocal.HasSize()
    ensures NativeAlong(t, MappedAlong(t, x, y)) == Along(t.edge, x, y)
  {
    hide Rescale;
    RescaleRoundTrip(x, t.local.x, t.local.width, t.layoutLocal.x, t.layoutLocal.width);
    RescaleRoundTrip(y, t.local.y, t.local.height, t.layoutLocal.y, t.layoutLocal.height);
  }

  lemma NativeIsInjective(t: Target, u: real, v: real)
    requires t.local.HasSize() && t.layoutLocal.HasSize() && NativeAlong(t, u) == NativeAlong(t, v)
    ensures u == v
  {
    hide Rescale;
    if t.edge.Sideways() {
      RescaleIsInjective(u, v, t.layoutLocal.y, t.layoutLocal.height, t.local.y, t.local.height);
    } else {
      RescaleIsInjective(u, v, t.layoutLocal.x, t.layoutLocal.width, t.local.x, t.local.width);
    }
  }

  /** There and back: crossing, roaming over any screens without moving along the edge,
      and returning gives the native coordinate back when neither end is clamped; away
      from the corners of the local screen, only then. */
  lemma EnterAndReturn(t: Target, x: real, y: real, dx: real, dy: real, invertY: bool,
                       deltas: seq<(real, real)>, screens: seq<Screen>)
    requires Unmoved(t, screens)
    requires forall i :: 0 <= i < |deltas| ==> Straight(t.edge, deltas[i])
    requires MoveAll(Enter(t, x, y, dx, dy, invertY), deltas, screens).1
    ensures var (px, py) := MoveAll(Enter(t, x, y, dx, dy, invertY), deltas, screens).0.ReturnPoint();
      var out, home := Along(t.edge, x, y), Along(t.edge, px, py);
      var reaches := FirstAlong(t.remote, t.edge) <= MappedAlong(t, x, y) <= LastAlong(t.remote, t.edge);
      && (reaches && FirstAlong(t.local, t.edge) <= out <= LastAlong(t.local, t.edge) ==> home == out)
      && (FirstAlong(t.local, t.edge) < out < LastAlong(t.local, t.edge) ==> (home == out <==> reaches))
  {
    hide Rescale, Enter, MoveAll, Straight, Active.ReturnPoint, NativeAlong, MappedAlong, FirstAlong, LastAlong, OnEntryEdge;
    var a := Enter(t, x, y, dx, dy, invertY);
    EnteringIsOnScreen(t, x, y, dx, dy, invertY, screens);
    assert a.target == t by { EntersThere(t, x, y, dx, dy, invertY); }
    ReturnsThroughTheEntryEdge(a, deltas, screens);
    StraightRoam(a, deltas, screens);
    var b := MoveAll(a, deltas, screens).0;
    EntersAlong(t, x, y, dx, dy, invertY);
    ReturnsAlong(b);
    NativeAndBack(t, x, y);
    EdgesInOrder(t.local, t.edge);
    EdgesInOrder(t.remote, t.edge);
    var mapped := MappedAlong(t, x, y);
    var entered := Clamp(mapped, FirstAlong(t.remote, t.edge), LastAlong(t.remote, t.edge));
    if NativeAlong(t, entered) == NativeAlong(t, mapped) { NativeIsInjective(t, entered, mapped); }
  }

  lemma EntersThere(t: Target, x: real, y: real, dx: real, dy: real, invertY: bool)
    requires t.remote.HasSize()
    ensures Enter(t, x, y, dx, dy, invertY).target == t
  {
  }

  lemma EdgesInOrder(s: Screen, edge: Edge)
    requires s.HasSize()
    ensures FirstAlong(s, edge) <= LastAlong(s, edge)
  {
  }
}
