/** The custom edge: whether an edge has a reverse partner in the store, and
    the curved path drawn for it when it does. */
module BiDirectionalEdge {
  import opened DiagramTypes

  /** The callback of `s.edges.some(...)`. Its two disjuncts test the same thing. */
  predicate Reverses(e: Edge, source: string, target: string) {
    (e.source == target && e.target == source) || (e.target == source && e.source == target)
  }

  /** `isBiDirectionEdge`: some edge of the store runs from `target` to `source`. */
  function IsBiDirectionEdge(edges: seq<Edge>, source: string, target: string): (r: bool)
    ensures r <==> exists k :: 0 <= k < |edges| && edges[k].source == target && edges[k].target == source
  {
    if edges == [] then false
    else if Reverses(edges[0], source, target) then true
    else
      var r := IsBiDirectionEdge(edges[1..], source, target);
      assert forall k :: 1 <= k < |edges| ==> edges[k] == edges[1..][k - 1];
      r
  }

  /** Adding edges, before or after, never turns a bidirectional edge into a plain one. */
  lemma {:induction false} MoreEdgesStayBiDirection(edges: seq<Edge>, before: seq<Edge>, after: seq<Edge>,
                                                    source: string, target: string)
    requires IsBiDirectionEdge(edges, source, target)
    ensures IsBiDirectionEdge(before + edges + after, source, target)
  {
    var k :| 0 <= k < |edges| && edges[k].source == target && edges[k].target == source;
    assert (before + edges + after)[|before| + k] == edges[k];
  }

  /** A self-loop in the store finds itself as its own reverse. */
  lemma {:induction false} SelfLoopIsBiDirection(edges: seq<Edge>, k: nat)
    requires k < |edges| && edges[k].source == edges[k].target
    ensures IsBiDirectionEdge(edges, edges[k].source, edges[k].target)
  {
  }

  /** Connecting x to y and then y to x makes each new edge see the other. */
  lemma {:induction false} ConnectBothWays(edges: seq<Edge>, xy: Edge, yx: Edge)
    requires xy.target == yx.source && xy.source == yx.target
    ensures IsBiDirectionEdge(edges + [xy] + [yx], xy.source, xy.target)
    ensures IsBiDirectionEdge(edges + [xy] + [yx], yx.source, yx.target)
  {
    var all := edges + [xy] + [yx];
    assert all[|edges|] == xy && all[|edges| + 1] == yx;
  }

  /** The offset of the curve: 25 when the source is left of the target, -25
      otherwise, including when the two are vertically aligned. */
  function Offset(sourceX: real, targetX: real): (o: real)
    ensures o == 25.0 || o == -25.0
    ensures 0.0 < o <==> sourceX < targetX
  {
    if sourceX < targetX then 25.0 else -25.0
  }

  datatype Point = Point(x: real, y: real)

  /** The SVG path `M sx sy Q cx cy tx ty`, kept as its three points. */
  datatype QuadPath = QuadPath(start: Point, control: Point, end: Point)

  /** `[path, labelX, labelY]` as `getSpecialPath` returns it. */
  datatype SpecialPath = SpecialPath(path: QuadPath, labelX: real, labelY: real)

  /** `getSpecialPath`: a quadratic curve from the source to the target whose
      control point is the midpoint of the two, moved vertically by `offset`;
      the label sits on the control point. */
  function GetSpecialPath(sourceX: real, sourceY: real, targetX: real, targetY: real, offset: real): (r: SpecialPath)
    ensures r.path.start == Point(sourceX, sourceY) && r.path.end == Point(targetX, targetY)
    ensures r.path.control == Point(r.labelX, r.labelY)
    ensures r.labelX - sourceX == targetX - r.labelX
    ensures sourceX <= r.labelX <= targetX || targetX <= r.labelX <= sourceX
    ensures (r.labelY - offset) - sourceY == targetY - (r.labelY - offset)
  {
    var centerX := (sourceX + targetX) / 2.0;
    var centerY := (sourceY + targetY) / 2.0;
    SpecialPath(QuadPath(Point(sourceX, sourceY), Point(centerX, centerY + offset), Point(targetX, targetY)),
                centerX, centerY + offset)
  }

  /** The point of a quadratic curve at parameter `t`. */
  function QuadAt(p: QuadPath, t: real): Point {
    var a, b, c := (1.0 - t) * (1.0 - t), 2.0 * (1.0 - t) * t, t * t;
    Point(a * p.start.x + b * p.control.x + c * p.end.x,
          a * p.start.y + b * p.control.y + c * p.end.y)
  }

  /** The curve passes through its end points, and the label does not sit on
      the curve: the curve's midpoint is half the offset closer to the straight
      line than the label is. */
  lemma CurveMidpointBelowLabel(sourceX: real, sourceY: real, targetX: real, targetY: real, offset: real)
    ensures var r := GetSpecialPath(sourceX, sourceY, targetX, targetY, offset);
            && QuadAt(r.path, 0.0) == Point(sourceX, sourceY)
            && QuadAt(r.path, 1.0) == Point(targetX, targetY)
            && QuadAt(r.path, 0.5) == Point(r.labelX, r.labelY - offset / 2.0)
  {
  }

  /** Two opposite edges between the same two nodes get control points 50 apart
      when the nodes are not vertically aligned, and the very same control point
      (overlapping curves) when they are. */
  lemma OppositeEdgesSeparate(aX: real, aY: real, bX: real, bY: real)
    ensures var there := GetSpecialPath(aX, aY, bX, bY, Offset(aX, bX));
            var back := GetSpecialPath(bX, bY, aX, aY, Offset(bX, aX));
            && there.labelX == back.labelX
            && (aX != bX ==> there.labelY - back.labelY == (if aX < bX then 50.0 else -50.0))
            && (aX == bX ==> there.path.control == back.path.control)
  {
  }

  /** Which handle side the library reports for an end of the edge. */
  datatype Side = Left | Top | Right | Bottom

  /** The path the edge draws: the curve, or the library's bezier (its SVG text). */
  datatype EdgePath = Curved(quad: QuadPath) | Bezier(svg: string)

  datatype Route = Route(path: EdgePath, labelX: real, labelY: real)

  /** The edge component's choice of path: the offset curve when a reverse
      edge exists, the library's `getBezierPath` otherwise. */
  function RouteEdge(edges: seq<Edge>, source: string, target: string,
                     sourceX: real, sourceY: real, targetX: real, targetY: real,
                     sourcePosition: Side, targetPosition: Side,
                     getBezierPath: (real, real, Side, real, real, Side) -> (string, real, real)): (r: Route)
    ensures r.path.Curved? <==> IsBiDirectionEdge(edges, source, target)
    ensures r.path.Curved? ==>
              && r.path.quad.start == Point(sourceX, sourceY) && r.path.quad.end == Point(targetX, targetY)
              && r.path.quad.control == Point(r.labelX, r.labelY)
              && r.labelX == (sourceX + targetX) / 2.0
              && r.labelY == (sourceY + targetY) / 2.0 + Offset(sourceX, targetX)
    ensures r.path.Bezier? ==>
              var b := getBezierPath(sourceX, sourceY, sourcePosition, targetX, targetY, targetPosition);
              r == Route(Bezier(b.0), b.1, b.2)
  {
    if IsBiDirectionEdge(edges, source, target) then
      var s := GetSpecialPath(sourceX, sourceY, targetX, targetY, Offset(sourceX, targetX));
      Route(Curved(s.path), s.labelX, s.labelY)
    else
      var b := getBezierPath(sourceX, sourceY, sourcePosition, targetX, targetY, targetPosition);
      Route(Bezier(b.0), b.1, b.2)
  }
}
