/**
  Connector geometry of the card: anchor points on the node boxes and the
  SVG paths between them. A path is a list of drawing commands rather than
  the SVG `d` string the card writes.
*/
module Geometry {
  import opened Wrappers

  datatype Point = Point(x: real, y: real)

  /** A node's layout box: `offsetLeft`, `offsetTop`, `offsetWidth`, `offsetHeight`. */
  datatype Box = Box(left: real, top: real, width: real, height: real)

  /** The five node containers of the card. */
  datatype Node = AcInNode | InverterNode | AcOutputNode | BatteryNode | DcNode

  /** The grid's size and the boxes of the node elements that exist. */
  datatype Layout = Layout(gridWidth: real, gridHeight: real, boxes: map<Node, Box>)

  function Abs(x: real): (r: real)
    ensures r >= 0.0 && (r == x || r == -x)
  {
    if x < 0.0 then -x else x
  }

  function Min(a: real, b: real): (r: real)
    ensures r <= a && r <= b && (r == a || r == b)
  {
    if a <= b then a else b
  }

  function Max(a: real, b: real): (r: real)
    ensures r >= a && r >= b && (r == a || r == b)
  {
    if a >= b then a else b
  }

  /** Anchor names on the left edge of a box. */
  predicate IsLeftAnchor(position: string) {
    position == "left-middle" || position == "left-two-thirds-up" || position == "left-one-third-up"
  }

  /** Anchor names on the right edge of a box. */
  predicate IsRightAnchor(position: string) {
    position == "right-middle" || position == "right-two-thirds-up" || position == "right-one-third-up"
  }

  predicate IsKnownAnchor(position: string) {
    position == "bottom-center" || IsLeftAnchor(position) || IsRightAnchor(position)
  }

  /** Does `p` lie inside (or on the border of) the box `b`? */
  predicate InBox(p: Point, b: Box) {
    b.left <= p.x <= b.left + b.width && b.top <= p.y <= b.top + b.height
  }

  /**
    `_getContainerPoint`: the named anchor on a node's box; a node element
    that does not exist gives the origin.
  */
  function ContainerPoint(node: Option<Box>, position: string): (p: Point)
    ensures node.None? ==> p == Point(0.0, 0.0)
    ensures node.Some? && IsLeftAnchor(position) ==> p.x == node.value.left
    ensures node.Some? && IsRightAnchor(position) ==> p.x == node.value.left + node.value.width
    ensures node.Some? && position == "bottom-center" ==>
      p == Point(node.value.left + node.value.width / 2.0, node.value.top + node.value.height)
    ensures node.Some? && position in {"left-middle", "right-middle"} ==>
      p.y == node.value.top + node.value.height / 2.0
    ensures node.Some? && position in {"left-two-thirds-up", "right-two-thirds-up"} ==>
      p.y == node.value.top + node.value.height / 3.0
    ensures node.Some? && position in {"left-one-third-up", "right-one-third-up"} ==>
      p.y == node.value.top + node.value.height * 2.0 / 3.0
    ensures node.Some? && !IsKnownAnchor(position) ==> p == Point(node.value.left, node.value.top)
    ensures node.Some? && node.value.width >= 0.0 && node.value.height >= 0.0 ==> InBox(p, node.value)
  {
    match node
    case None => Point(0.0, 0.0)
    case Some(b) =>
      var x, y, w, h := b.left, b.top, b.width, b.height;
      if position == "bottom-center" then Point(x + w / 2.0, y + h)
      else if position == "left-middle" then Point(x, y + h / 2.0)
      else if position == "right-middle" then Point(x + w, y + h / 2.0)
      else if position == "right-two-thirds-up" then Point(x + w, y + h / 3.0)
      else if position == "left-two-thirds-up" then Point(x, y + h / 3.0)
      else if position == "right-one-third-up" then Point(x + w, y + h * 2.0 / 3.0)
      else if position == "left-one-third-up" then Point(x, y + h * 2.0 / 3.0)
      else Point(x, y)
  }

  /** On either side of a box of non-negative height the "two-thirds-up" anchor is not below the "one-third-up" one. */
  lemma TwoThirdsUpAboveOneThirdUp(b: Box)
    requires b.height >= 0.0
    ensures ContainerPoint(Some(b), "left-two-thirds-up").y <= ContainerPoint(Some(b), "left-one-third-up").y
    ensures ContainerPoint(Some(b), "right-two-thirds-up").y <= ContainerPoint(Some(b), "right-one-third-up").y
    ensures ContainerPoint(Some(b), "left-two-thirds-up").y <= ContainerPoint(Some(b), "left-middle").y
      <= ContainerPoint(Some(b), "left-one-third-up").y
    ensures ContainerPoint(Some(b), "right-two-thirds-up").y <= ContainerPoint(Some(b), "right-middle").y
      <= ContainerPoint(Some(b), "right-one-third-up").y
  {
  }

  /** One drawing command of an SVG path. */
  datatype Segment = MoveTo(p: Point) | LineTo(p: Point) | QuadTo(control: Point, p: Point)

  type Path = seq<Segment>

  /** `M start L end`. */
  function StraightPath(start: Point, end: Point): (path: Path)
    ensures |path| == 2 && path[0] == MoveTo(start) && path[1] == LineTo(end)
  {
    [MoveTo(start), LineTo(end)]
  }

  /** `_createPath` draws a straight segment when the two points are (nearly) level or (nearly) aligned. */
  predicate NearlyAligned(start: Point, end: Point) {
    Abs(end.y - start.y) < 0.1 || Abs(end.x - start.x) < 0.1
  }

  /** The corner of the L between the two points: below/above the start when going down, level with the start when going up. */
  function Corner(start: Point, end: Point): Point {
    if end.y - start.y > 0.0 then Point(start.x, end.y) else Point(end.x, start.y)
  }

  /** The radius `_createPath` rounds the corner with. */
  function CornerRadius(start: Point, end: Point, cornerRadius: real): (r: real)
    ensures r <= cornerRadius && r <= Abs(end.x - start.x) && r <= Abs(end.y - start.y)
    ensures r == cornerRadius || r == Abs(end.x - start.x) || r == Abs(end.y - start.y)
  {
    Min(cornerRadius, Min(Abs(end.x - start.x), Abs(end.y - start.y)))
  }

  predicate AxisAligned(a: Point, b: Point) {
    a.x == b.x || a.y == b.y
  }

  /** Manhattan distance. */
  function Distance(a: Point, b: Point): real {
    Abs(a.x - b.x) + Abs(a.y - b.y)
  }

  /**
    `_createPath`: a straight segment, or an L with one rounded corner. The
    rounded corner is a quadratic curve whose control point is the corner of
    the L, entered and left at distance `r` from it along the two legs.
  */
  function CreatePath(start: Point, end: Point, cornerRadius: real): (path: Path)
    ensures NearlyAligned(start, end) <==> path == StraightPath(start, end)
    ensures !NearlyAligned(start, end) ==>
      var c, r := Corner(start, end), CornerRadius(start, end, cornerRadius);
      && |path| == 4
      && path[0] == MoveTo(start)
      && path[1].LineTo? && path[2].QuadTo? && path[2].control == c
      && path[3] == LineTo(end)
      && AxisAligned(start, path[1].p) && AxisAligned(path[1].p, c)
      && AxisAligned(c, path[2].p) && AxisAligned(path[2].p, end)
      && Distance(path[1].p, c) == Abs(r) && Distance(c, path[2].p) == Abs(r)
  {
    var dx, dy := end.x - start.x, end.y - start.y;
    if NearlyAligned(start, end) then StraightPath(start, end)
    else
      var r := CornerRadius(start, end, cornerRadius);
      if dy > 0.0 then
        if dx > 0.0 then
          [MoveTo(start), LineTo(Point(start.x, end.y - r)),
           QuadTo(Point(start.x, end.y), Point(start.x + r, end.y)), LineTo(end)]
        else
          [MoveTo(start), LineTo(Point(start.x, end.y - r)),
           QuadTo(Point(start.x, end.y), Point(start.x - r, end.y)), LineTo(end)]
      else
        if dx > 0.0 then
          [MoveTo(start), LineTo(Point(end.x - r, start.y)),
           QuadTo(Point(end.x, start.y), Point(end.x, start.y - r)), LineTo(end)]
        else
          [MoveTo(start), LineTo(Point(end.x + r, start.y)),
           QuadTo(Point(end.x, start.y), Point(end.x, start.y - r)), LineTo(end)]
  }

  /** The point a drawing command ends at. */
  function EndOf(s: Segment): Point {
    s.p
  }

  /** Is `p` within the axis-parallel rectangle spanned by `a` and `b`? */
  predicate Between(p: Point, a: Point, b: Point) {
    Min(a.x, b.x) <= p.x <= Max(a.x, b.x) && Min(a.y, b.y) <= p.y <= Max(a.y, b.y)
  }

  /**
    With a non-negative corner radius, no point or control point of a
    connector leaves the rectangle spanned by its two anchors, so the corner
    never overshoots either leg.
  */
  lemma {:induction false} CreatePathStaysBetween(start: Point, end: Point, cornerRadius: real)
    requires cornerRadius >= 0.0
    ensures forall i :: 0 <= i < |CreatePath(start, end, cornerRadius)| ==>
      Between(EndOf(CreatePath(start, end, cornerRadius)[i]), start, end)
    ensures !NearlyAligned(start, end) ==> Between(CreatePath(start, end, cornerRadius)[2].control, start, end)
  {
    var path := CreatePath(start, end, cornerRadius);
    if !NearlyAligned(start, end) {
      var r := CornerRadius(start, end, cornerRadius);
      assert 0.0 <= r;
      assert Between(EndOf(path[1]), start, end);
      assert Between(EndOf(path[2]), start, end);
    }
  }

  /** The five connectors of the card, by the id of their SVG path. */
  datatype Connector = AcFlow | LoadFlow | InverterBatteryFlow | DcInFlow | DcOutFlow

  /** A drawn connector: its two anchors (where the endpoint circles go) and its path. */
  datatype Wire = Wire(start: Point, end: Point, path: Path)

  function BoxOf(layout: Layout, n: Node): Option<Box> {
    if n in layout.boxes then Some(layout.boxes[n]) else None
  }

  /** The anchors each connector joins, as `_createDynamicPaths` chooses them. */
  function Anchors(layout: Layout, c: Connector): (ends: (Point, Point)) {
    match c
    case AcFlow =>
      (ContainerPoint(BoxOf(layout, AcInNode), "bottom-center"), ContainerPoint(BoxOf(layout, InverterNode), "left-middle"))
    case LoadFlow =>
      (ContainerPoint(BoxOf(layout, InverterNode), "right-middle"), ContainerPoint(BoxOf(layout, AcOutputNode), "bottom-center"))
    case InverterBatteryFlow =>
      (ContainerPoint(BoxOf(layout, InverterNode), "bottom-center"), ContainerPoint(BoxOf(layout, BatteryNode), "right-two-thirds-up"))
    case DcInFlow =>
      (ContainerPoint(BoxOf(layout, InverterNode), "bottom-center"), ContainerPoint(BoxOf(layout, DcNode), "left-two-thirds-up"))
    case DcOutFlow =>
      (ContainerPoint(BoxOf(layout, BatteryNode), "right-one-third-up"), ContainerPoint(BoxOf(layout, DcNode), "left-one-third-up"))
  }

  /** The wire of one connector: a rounded L, except battery to DC which is always straight (`path5`). */
  function Route(layout: Layout, cornerRadius: real, c: Connector): (w: Wire)
    ensures (w.start, w.end) == Anchors(layout, c)
    ensures |w.path| >= 2 && w.path[0] == MoveTo(w.start) && w.path[|w.path| - 1] == LineTo(w.end)
    ensures c == DcOutFlow ==> w.path == StraightPath(w.start, w.end)
    ensures c != DcOutFlow ==> w.path == CreatePath(w.start, w.end, cornerRadius)
  {
    var (s, e) := Anchors(layout, c);
    Wire(s, e, if c == DcOutFlow then StraightPath(s, e) else CreatePath(s, e, cornerRadius))
  }

  /**
    The geometry `_createDynamicPaths` computes: none while the grid has no
    size yet (the card retries later), otherwise one wire per connector.
  */
  function ConnectorPaths(layout: Layout, cornerRadius: real): (r: Option<map<Connector, Wire>>)
    ensures r.None? <==> layout.gridWidth == 0.0 || layout.gridHeight == 0.0
    ensures r.Some? ==> forall c: Connector :: c in r.value && r.value[c] == Route(layout, cornerRadius, c)
  {
    if layout.gridWidth == 0.0 || layout.gridHeight == 0.0 then None
    else Some(map c: Connector | true :: Route(layout, cornerRadius, c))
  }

  /**
    The two connectors that meet on the battery's right edge, and the two on
    the DC node's left edge, are stacked: the inverter's connector arrives
    above the battery-to-DC line on both boxes.
  */
  lemma {:induction false} StackedConnectors(layout: Layout, cornerRadius: real)
    requires BatteryNode in layout.boxes && layout.boxes[BatteryNode].height >= 0.0
    requires DcNode in layout.boxes && layout.boxes[DcNode].height >= 0.0
    ensures Route(layout, cornerRadius, InverterBatteryFlow).end.x == Route(layout, cornerRadius, DcOutFlow).start.x
    ensures Route(layout, cornerRadius, InverterBatteryFlow).end.y <= Route(layout, cornerRadius, DcOutFlow).start.y
    ensures Route(layout, cornerRadius, DcInFlow).end.x == Route(layout, cornerRadius, DcOutFlow).end.x
    ensures Route(layout, cornerRadius, DcInFlow).end.y <= Route(layout, cornerRadius, DcOutFlow).end.y
  {
    TwoThirdsUpAboveOneThirdUp(layout.boxes[BatteryNode]);
    TwoThirdsUpAboveOneThirdUp(layout.boxes[DcNode]);
  }
}
