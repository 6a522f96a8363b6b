/**
 * Connector routing: the elbow path from the bottom centre of a parent's box
 * to the top centre of a child's box, with rounded corners, and the batch
 * that draws one such path per parent/child pair whose boxes are both
 * rendered.  Coordinates are exact reals; the path is a list of drawing
 * commands rather than the SVG text the component formats from them.
 */
module ConnectorRouting {

  import opened Wrappers
  import opened PositionModel
  import opened Seqs

  /** A bounding box as the DOM reports it. */
  datatype Rect = Rect(left: real, top: real, width: real, height: real)

  datatype Point = Point(x: real, y: real)

  /** Path commands: move (M), straight line (L) and quadratic curve with a control point (Q). */
  datatype Cmd = MoveTo(to: Point) | LineTo(to: Point) | QuadTo(ctrl: Point, to: Point)

  type Path = seq<Cmd>

  /** The largest corner radius. */
  const MaxRadius: real := 20.0

  /** Below this horizontal offset the connector is one straight line. */
  const StraightBelow: real := 2.0

  function Abs(v: real): real { if v < 0.0 then -v else v }

  function Min(a: real, b: real): real { if a <= b then a else b }

  /** Bottom centre of the parent's box, relative to the container's top-left corner. */
  function ParentAnchor(parent: Rect, container: Rect): Point {
    Point(parent.left - container.left + parent.width / 2.0,
          parent.top - container.top + parent.height)
  }

  /** Top centre of the child's box, relative to the container's top-left corner. */
  function ChildAnchor(child: Rect, container: Rect): Point {
    Point(child.left - container.left + child.width / 2.0, child.top - container.top)
  }

  /** The height at which the path runs across: half way from `p` down to `c`. */
  function MidY(p: Point, c: Point): real { p.y + (c.y - p.y) / 2.0 }

  /**
   * The corner radius: the largest value up to 20 that leaves room for both
   * corners across and for a corner above and below the middle line.
   */
  function CornerRadius(p: Point, c: Point): (r: real)
    ensures 0.0 <= r <= MaxRadius
    ensures r <= Abs(c.x - p.x) / 2.0 && r <= Abs(MidY(p, c) - p.y)
    ensures r == MaxRadius || r == Abs(c.x - p.x) / 2.0 || r == Abs(MidY(p, c) - p.y)
  {
    Min(Min(MaxRadius, Abs(c.x - p.x) / 2.0), Abs(MidY(p, c) - p.y))
  }

  /** The end point of every command but the last is where the next one starts. */
  function Start(path: Path, i: int): Point
    requires 0 < i < |path|
  {
    path[i - 1].to
  }

  /** A quarter turn of radius `r` from `from`: one axis-parallel leg to the control point, then the other. */
  predicate QuarterTurn(from: Point, q: Cmd, r: real) {
    && q.QuadTo?
    && ((q.ctrl.x == from.x && q.ctrl.y == q.to.y) || (q.ctrl.y == from.y && q.ctrl.x == q.to.x))
    && Abs(q.ctrl.x - from.x) + Abs(q.ctrl.y - from.y) == r
    && Abs(q.to.x - q.ctrl.x) + Abs(q.to.y - q.ctrl.y) == r
  }

  /**
   * An orthogonal elbow from `p` to `c` with corners of radius `r`: a vertical
   * line from `p` to the height `mid - r`, a quarter turn
   * towards `c` whose corner is on the middle line in line with `p`, across
   * towards `c` without turning back, a quarter turn whose corner is on the
   * middle line in line with `c`, and a vertical line to `c`.  Nothing here
   * says the child is below the parent; `RouteDescends` covers that case.
   */
  predicate RoundedElbow(path: Path, p: Point, c: Point, r: real) {
    var mid := (p.y + c.y) / 2.0;
    && |path| == 6
    && path[0] == MoveTo(p)
    && path[1].LineTo? && path[1].to.x == p.x
    && QuarterTurn(Start(path, 2), path[2], r) && path[2].ctrl == Point(p.x, mid)
    && path[3].LineTo? && path[3].to.y == mid && Start(path, 3).y == mid
    && (p.x <= c.x ==> p.x <= path[2].to.x <= path[3].to.x <= c.x)
    && (c.x <= p.x ==> c.x <= path[3].to.x <= path[2].to.x <= p.x)
    && path[1].to.y <= mid <= path[4].to.y
    && QuarterTurn(Start(path, 4), path[4], r) && path[4].ctrl == Point(c.x, mid)
    && path[5] == LineTo(c) && Start(path, 5).x == c.x
  }

  /**
   * The connector from anchor `p` to anchor `c`: a single straight line when
   * they are less than 2 apart horizontally, otherwise a rounded elbow.
   */
  function Route(p: Point, c: Point): (path: Path)
    ensures |path| >= 2 && path[0] == MoveTo(p) && path[|path| - 1] == LineTo(c)
    ensures |path| == 2 <==> Abs(c.x - p.x) < StraightBelow
    ensures Abs(c.x - p.x) < StraightBelow ==> forall i :: 0 <= i < |path| ==> !path[i].QuadTo?
  {
    var dx := c.x - p.x;
    if Abs(dx) < StraightBelow then
      [MoveTo(p), LineTo(c)]
    else
      var midY := MidY(p, c);
      var r := CornerRadius(p, c);
      var mx := if dx > 0.0 then 1.0 else -1.0;
      [ MoveTo(p),
        LineTo(Point(p.x, midY - r)),
        QuadTo(Point(p.x, midY), Point(p.x + r * mx, midY)),
        LineTo(Point(c.x - r * mx, midY)),
        QuadTo(Point(c.x, midY), Point(c.x, midY + r)),
        LineTo(c) ]
  }

  /** Away from the straight case the connector is a rounded elbow with the clamped radius. */
  lemma RouteIsRoundedElbow(p: Point, c: Point)
    requires Abs(c.x - p.x) >= StraightBelow
    ensures RoundedElbow(Route(p, c), p, c, CornerRadius(p, c))
  {
    var path, r := Route(p, c), CornerRadius(p, c);
    var mid := (p.y + c.y) / 2.0;
    assert MidY(p, c) == mid;
    if c.x - p.x > 0.0 {
      assert path[2] == QuadTo(Point(p.x, mid), Point(p.x + r, mid));
      assert path[3] == LineTo(Point(c.x - r, mid));
    } else {
      assert path[2] == QuadTo(Point(p.x, mid), Point(p.x - r, mid));
      assert path[3] == LineTo(Point(c.x + r, mid));
    }
    assert path[4] == QuadTo(Point(c.x, mid), Point(c.x, mid + r));
  }

  /**
   * When the child is not above the parent, the vertical legs run downwards:
   * the radius never overshoots the middle line.
   */
  lemma RouteDescends(p: Point, c: Point)
    requires Abs(c.x - p.x) >= StraightBelow && p.y <= c.y
    ensures var path := Route(p, c); p.y <= path[1].to.y <= path[2].to.y <= path[4].to.y <= c.y
  {
    assert Abs(MidY(p, c) - p.y) == (c.y - p.y) / 2.0;
  }

  /** The connector between a parent's and a child's box, in the container's coordinates. */
  function Connector(parent: Rect, child: Rect, container: Rect): (path: Path)
    ensures |path| >= 2
    ensures path[0] == MoveTo(ParentAnchor(parent, container))
    ensures path[|path| - 1] == LineTo(ChildAnchor(child, container))
  {
    Route(ParentAnchor(parent, container), ChildAnchor(child, container))
  }

  /**
   * Worked example: parent box (0, 0, 100, 40), child box (200, 100, 100, 40).
   * The anchors are (50, 40) and (250, 100), the middle line is at 70 and the
   * radius is min(20, 75, 30) = 20.
   */
  lemma ConnectorExample(container: Rect)
    requires container.left == 0.0 && container.top == 0.0
    ensures Connector(Rect(0.0, 0.0, 100.0, 40.0), Rect(200.0, 100.0, 100.0, 40.0), container) ==
      [ MoveTo(Point(50.0, 40.0)),
        LineTo(Point(50.0, 50.0)),
        QuadTo(Point(50.0, 70.0), Point(70.0, 70.0)),
        LineTo(Point(230.0, 70.0)),
        QuadTo(Point(250.0, 70.0), Point(250.0, 90.0)),
        LineTo(Point(250.0, 100.0)) ]
  {
    assert CornerRadius(Point(50.0, 40.0), Point(250.0, 100.0)) == 20.0;
  }

  /** A horizontal offset of 1 gives one straight line between the anchors. */
  lemma ConnectorExampleStraight(container: Rect)
    requires container.left == 0.0 && container.top == 0.0
    ensures Connector(Rect(0.0, 0.0, 100.0, 40.0), Rect(1.0, 100.0, 100.0, 40.0), container) ==
      [MoveTo(Point(50.0, 40.0)), LineTo(Point(51.0, 100.0))]
  {
  }

  // ---------------------------------------------------------------------------
  // The batch over all nodes

  /** A node gets a connector when it has a truthy parent id and both boxes are rendered. */
  function Drawable(rects: map<string, Rect>): Node -> bool {
    (n: Node) => Truthy(n.parentId) && n.parentId.value in rects && n.id in rects
  }

  function Edge(n: Node, container: Rect, rects: map<string, Rect>): Path
    requires Drawable(rects)(n)
  {
    Connector(rects[n.parentId.value], rects[n.id], container)
  }

  /** The connectors in the order the per-node loop emits them. */
  function Batch(s: seq<Node>, container: Rect, rects: map<string, Rect>): (r: seq<Path>)
    ensures |r| <= |s|
  {
    if s == [] then []
    else
      var n := s[|s| - 1];
      Batch(s[..|s| - 1], container, rects) +
        (if Drawable(rects)(n) then [Edge(n, container, rects)] else [])
  }

  /**
   * The batch holds one connector per drawable node, in collection order;
   * every other node is skipped.
   */
  lemma {:induction false} BatchPerDrawableNode(s: seq<Node>, container: Rect, rects: map<string, Rect>)
    ensures var d := Filter(s, Drawable(rects));
      && |Batch(s, container, rects)| == |d|
      && forall i :: 0 <= i < |d| ==> Batch(s, container, rects)[i] == Edge(d[i], container, rects)
  {
    if s != [] {
      var init, n := s[..|s| - 1], s[|s| - 1];
      assert s == init + [n];
      BatchPerDrawableNode(init, container, rects);
      FilterSnoc(init, n, Drawable(rects));
    }
  }

}
