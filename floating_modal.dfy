/** Positioning of one floating window: where it is first placed (an explicit
    coordinate or centred in the viewport, per axis), the `resetPosition`
    handle, and the pointer-drag state machine. Coordinates are exact reals;
    DOM measurements arrive as parameters. */
module Floating {

  datatype Option<T> = None | Some(value: T)

  /** One axis of the placement configuration: a pixel offset or "center". */
  datatype Axis = Center | Px(v: real)

  datatype Point = Point(x: real, y: real)

  /** What `getBoundingClientRect` reports for the window. */
  datatype Rect = Rect(left: real, top: real, width: real, height: real)

  /** `window.innerWidth` and `window.innerHeight`. */
  datatype Viewport = Viewport(innerWidth: real, innerHeight: real)

  /** The drag bookkeeping kept in a ref: whether a drag is under way and where
      the pointer grabbed the window, relative to its top-left corner. */
  datatype DragState = DragState(dragging: bool, offsetX: real, offsetY: real)

  /** A drag state together with the rendered position. */
  datatype Engine = Engine(drag: DragState, pos: Point)

  /** The pointer events the handle listens to. */
  datatype PointerEvent =
    | PointerDown(button: int, clientX: real, clientY: real, rect: Rect)
    | PointerMove(clientX: real, clientY: real)
    | PointerUp

  /** Props left out fall back to "center" on both axes. */
  const DefaultAxis: Axis := Center

  function OrElse<T>(o: Option<T>, fallback: T): (r: T)
    ensures o.Some? ==> r == o.value
    ensures o.None? ==> r == fallback
  {
    match o
    case Some(v) => v
    case None => fallback
  }

  /* ---------------------------------------------------------------------- */
  /* Placement                                                              */
  /* ---------------------------------------------------------------------- */

  /** One coordinate: an explicit offset passes through; "center" leaves the
      same gap before the window as after it. */
  function ResolveAxis(a: Axis, viewport: real, extent: real): (r: real)
    ensures a.Px? ==> r == a.v
    ensures a.Center? ==> r == viewport - (r + extent)
  {
    match a
    case Center => (viewport - extent) / 2.0
    case Px(v) => v
  }

  /** The position for a configuration, measured against the window's size
      and the viewport; each coordinate depends on its own axis only. */
  function Placement(x: Axis, y: Axis, rect: Rect, vp: Viewport): (p: Point)
    ensures x.Px? ==> p.x == x.v
    ensures x.Center? ==> p.x == vp.innerWidth - (p.x + rect.width)
    ensures y.Px? ==> p.y == y.v
    ensures y.Center? ==> p.y == vp.innerHeight - (p.y + rect.height)
  {
    Point(ResolveAxis(x, vp.innerWidth, rect.width), ResolveAxis(y, vp.innerHeight, rect.height))
  }

  /** "center" is the only value that leaves equal gaps on both sides. */
  lemma CenterIsUniqueBalance(viewport: real, extent: real, c: real)
    requires c == viewport - (c + extent)
    ensures c == ResolveAxis(Center, viewport, extent)
  {
  }

  /** The x coordinate ignores the y configuration, the height and the
      viewport height, and symmetrically for y. */
  lemma AxesIndependent(x: Axis, y: Axis, y': Axis, x': Axis, rect: Rect, rect': Rect, vp: Viewport, vp': Viewport)
    ensures rect.width == rect'.width && vp.innerWidth == vp'.innerWidth ==>
      Placement(x, y, rect, vp).x == Placement(x, y', rect', vp').x
    ensures rect.height == rect'.height && vp.innerHeight == vp'.innerHeight ==>
      Placement(x, y, rect, vp).y == Placement(x', y, rect', vp').y
  {
  }

  /** The drag handle is the element the selector finds inside the window,
      or the window itself when it finds none. */
  function HandleFor<N>(found: Option<N>, root: N): (h: N)
    ensures h == root || found == Some(h)
    ensures found.Some? ==> h == found.value
  {
    OrElse(found, root)
  }

  /* ---------------------------------------------------------------------- */
  /* The drag state machine                                                 */
  /* ---------------------------------------------------------------------- */

  /** Primary-button press: start a drag and remember where the window was grabbed. */
  function Press(s: Engine, button: int, clientX: real, clientY: real, rect: Rect): (r: Engine)
    ensures button != 0 ==> r == s
    ensures button == 0 ==> r.drag.dragging && r.pos == s.pos
    ensures button == 0 ==> rect.left + r.drag.offsetX == clientX && rect.top + r.drag.offsetY == clientY
  {
    if button != 0 then s
    else s.(drag := DragState(true, clientX - rect.left, clientY - rect.top))
  }

  /** Pointer move: while dragging, the window follows the pointer at the
      remembered offset; the new position is also what the observer gets. */
  function Move(s: Engine, clientX: real, clientY: real): (r: (Engine, Option<Point>))
    ensures !s.drag.dragging ==> r == (s, None)
    ensures s.drag.dragging ==> r.0.drag == s.drag && r.1 == Some(r.0.pos)
    ensures s.drag.dragging ==>
      r.0.pos.x + s.drag.offsetX == clientX && r.0.pos.y + s.drag.offsetY == clientY
  {
    if !s.drag.dragging then (s, None)
    else
      var next := Point(clientX - s.drag.offsetX, clientY - s.drag.offsetY);
      (s.(pos := next), Some(next))
  }

  /** Pointer up: the drag ends; offsets and position stay. */
  function Release(s: Engine): (r: Engine)
    ensures !r.drag.dragging
    ensures r.drag.offsetX == s.drag.offsetX && r.drag.offsetY == s.drag.offsetY && r.pos == s.pos
  {
    s.(drag := s.drag.(dragging := false))
  }

  /** One event on the handle, with what the drag observer is called with. */
  function Step(s: Engine, e: PointerEvent): (Engine, Option<Point>)
  {
    match e
    case PointerDown(button, cx, cy, rect) => (Press(s, button, cx, cy, rect), None)
    case PointerMove(cx, cy) => Move(s, cx, cy)
    case PointerUp => (Release(s), None)
  }

  function Emitted(o: Option<Point>): seq<Point> {
    match o
    case Some(p) => [p]
    case None => []
  }

  /** A stream of events, in delivery order, with every observer call it makes. */
  function Run(s: Engine, es: seq<PointerEvent>): (r: (Engine, seq<Point>))
    ensures |r.1| <= |es|
    decreases |es|
  {
    if es == [] then (s, [])
    else
      var (s1, o) := Step(s, es[0]);
      var (s2, out) := Run(s1, es[1..]);
      (s2, Emitted(o) + out)
  }

  /** Grabbing the window and moving the pointer by (dx, dy) moves the window
      from where it was measured by exactly (dx, dy): no clamping. */
  lemma DragTranslates(s: Engine, px: real, py: real, rect: Rect, dx: real, dy: real)
    ensures var (t, o) := Move(Press(s, 0, px, py, rect), px + dx, py + dy);
      t.pos == Point(rect.left + dx, rect.top + dy) && o == Some(t.pos)
  {
  }

  /** Pressing and moving back to the same pointer position puts the window at
      the top-left corner it had at press time. */
  lemma PressMoveRoundTrip(s: Engine, px: real, py: real, rect: Rect)
    ensures Move(Press(s, 0, px, py, rect), px, py).0.pos == Point(rect.left, rect.top)
  {
  }

  /** Only the last of two consecutive moves matters. */
  lemma MoveIsAbsolute(s: Engine, x1: real, y1: real, x2: real, y2: real)
    ensures Move(Move(s, x1, y1).0, x2, y2).0 == Move(s, x2, y2).0
  {
  }

  /** The position only ever changes together with an observer call: after
      any stream it is the last coordinate the observer got, or the starting
      position when the observer was never called. */
  lemma {:induction false} RunPosIsLastEmitted(s: Engine, es: seq<PointerEvent>)
    ensures var (t, out) := Run(s, es);
      (out == [] ==> t.pos == s.pos) && (out != [] ==> t.pos == out[|out| - 1])
    decreases |es|
  {
    if es != [] {
      var (s1, o) := Step(s, es[0]);
      RunPosIsLastEmitted(s1, es[1..]);
      assert o.Some? ==> s1.pos == o.value;
      assert o.None? ==> s1.pos == s.pos;
    }
  }

  /** Without a primary-button press, an idle window never moves and the
      observer is never called, whatever the pointer does. */
  lemma {:induction false} IdleWithoutPress(s: Engine, es: seq<PointerEvent>)
    requires !s.drag.dragging
    requires forall i :: 0 <= i < |es| ==> !(es[i].PointerDown? && es[i].button == 0)
    ensures var (t, out) := Run(s, es);
      t.pos == s.pos && out == [] && !t.drag.dragging
    decreases |es|
  {
    if es != [] {
      var (s1, o) := Step(s, es[0]);
      assert !s1.drag.dragging && s1.pos == s.pos && o == None;
      IdleWithoutPress(s1, es[1..]);
    }
  }

  /* ---------------------------------------------------------------------- */
  /* The component instance                                                 */
  /* ---------------------------------------------------------------------- */

  /** One mounted window: its placement props, its drag ref and its position. */
  class FloatingModal {
    const initialX: Axis
    const initialY: Axis
    var dragging: bool
    var offsetX: real
    var offsetY: real
    var pos: Point

    /** The instance's drag ref and position as one value. */
    function Snapshot(): Engine
      reads this
    {
      Engine(DragState(dragging, offsetX, offsetY), pos)
    }

    /** Mounting with the given props; an omitted axis is "center". */
    constructor (x: Option<Axis>, y: Option<Axis>)
      ensures initialX == OrElse(x, DefaultAxis) && initialY == OrElse(y, DefaultAxis)
      ensures !dragging && offsetX == 0.0 && offsetY == 0.0 && pos == Point(0.0, 0.0)
    {
      initialX := OrElse(x, DefaultAxis);
      initialY := OrElse(y, DefaultAxis);
      dragging, offsetX, offsetY := false, 0.0, 0.0;
      pos := Point(0.0, 0.0);
    }

    /** The layout effect: place the window once it can be measured. */
    method Layout(measured: Option<Rect>, vp: Viewport)
      modifies this
      ensures measured.None? ==> pos == old(pos)
      ensures measured.Some? ==> pos == Placement(initialX, initialY, measured.value, vp)
      ensures dragging == old(dragging) && offsetX == old(offsetX) && offsetY == old(offsetY)
    {
      if measured.Some? {
        pos := Placement(initialX, initialY, measured.value, vp);
      }
    }

    /** `resetPosition(x?, y?)`: an omitted axis falls back to its prop, and
        "center" is resolved against the measurements taken now. */
    method ResetPosition(x: Option<Axis>, y: Option<Axis>, rect: Rect, vp: Viewport)
      modifies this
      ensures pos == Placement(OrElse(x, initialX), OrElse(y, initialY), rect, vp)
      ensures x.None? && y.None? ==> pos == Placement(initialX, initialY, rect, vp)
      ensures dragging == old(dragging) && offsetX == old(offsetX) && offsetY == old(offsetY)
    {
      pos := Placement(OrElse(x, initialX), OrElse(y, initialY), rect, vp);
    }

    method OnPointerDown(button: int, clientX: real, clientY: real, rect: Rect)
      modifies this
      ensures Snapshot() == Press(old(Snapshot()), button, clientX, clientY, rect)
      ensures button != 0 ==>
        dragging == old(dragging) && offsetX == old(offsetX) && offsetY == old(offsetY)
      ensures button == 0 ==>
        dragging && offsetX == clientX - rect.left && offsetY == clientY - rect.top
      ensures pos == old(pos)
    {
      if button != 0 {
        return;
      }
      dragging, offsetX, offsetY := true, clientX - rect.left, clientY - rect.top;
    }

    /** Returns the coordinates handed to the drag observer, if it is called. */
    method OnPointerMove(clientX: real, clientY: real) returns (dragged: Option<Point>)
      modifies this
      ensures (Snapshot(), dragged) == Move(old(Snapshot()), clientX, clientY)
      ensures !old(dragging) ==> pos == old(pos) && dragged == None
      ensures old(dragging) ==>
        pos == Point(clientX - offsetX, clientY - offsetY) && dragged == Some(pos)
      ensures dragging == old(dragging) && offsetX == old(offsetX) && offsetY == old(offsetY)
    {
      if !dragging {
        return None;
      }
      var next := Point(clientX - offsetX, clientY - offsetY);
      pos := next;
      dragged := Some(next);
    }

    method OnPointerUp()
      modifies this
      ensures Snapshot() == Release(old(Snapshot()))
      ensures !dragging && offsetX == old(offsetX) && offsetY == old(offsetY) && pos == old(pos)
    {
      dragging := false;
    }
  }
}
