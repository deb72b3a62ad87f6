/**
 * The diagram layout: where each table node sits (`getPosition`) and the cubic curve drawn for
 * a relationship (`getPath`). Coordinates are integers: every fixed coordinate is a multiple of
 * 50, the grid fallback is built from `%` and `Math.floor` of a non-negative index, and the
 * only division, the horizontal midpoint of a curve, is exact on the fixed positions.
 */
module Layout {
  import opened Wrappers
  import opened Schema

  datatype Point = Point(x: int, y: int)

  /** A cubic Bézier curve: `M start C control1 control2 end`. */
  datatype Path = Path(start: Point, control1: Point, control2: Point, end: Point)

  /** Width and height of the SVG canvas and of a table node. */
  const CanvasWidth: int := 800
  const CanvasHeight: int := 700
  const NodeWidth: int := 120
  const NodeHeight: int := 40

  /** The hand-placed position of a table; exactly the registered tables have one. */
  function FixedPosition(name: string): (r: Option<Point>)
    ensures r.Some? <==> name in TableKeys
  {
    match name
    case "books" => Some(Point(400, 250))
    case "authors" => Some(Point(150, 150))
    case "publishers" => Some(Point(650, 150))
    case "categories" => Some(Point(650, 350))
    case "book_authors" => Some(Point(250, 250))
    case "book_categories" => Some(Point(550, 300))
    case "members" => Some(Point(250, 450))
    case "staff" => Some(Point(550, 450))
    case "loans" => Some(Point(400, 350))
    case "reservations" => Some(Point(150, 350))
    case "fines" => Some(Point(400, 450))
    case "events" => Some(Point(650, 550))
    case "event_attendees" => Some(Point(400, 550))
    case _ => None
  }

  /** The fallback: five columns 150 apart, rows 100 apart, both starting at 100. */
  function GridPosition(index: nat): Point
  {
    Point(100 + (index % 5) * 150, 100 + (index / 5) * 100)
  }

  /** The grid slot a point occupies, read back from its coordinates. */
  function GridIndex(p: Point): int
  {
    (p.x - 100) / 150 + 5 * ((p.y - 100) / 100)
  }

  /**
   * `getPosition(name, index)`: the fixed position when there is one, otherwise the grid slot of
   * `index`. Without an index an unregistered name has no position (JavaScript computes NaN).
   */
  function GetPosition(name: string, index: Option<nat>): (p: Point)
    requires name in TableKeys || index.Some?
    ensures name in TableKeys ==> Some(p) == FixedPosition(name)
    ensures name !in TableKeys ==> p == GridPosition(index.value)
  {
    match FixedPosition(name)
    case Some(q) => q
    case None => GridPosition(index.value)
  }

  /**
   * `getPath(source, target)`: from the source's position to the target's, both control points
   * on the horizontal midpoint, the first at the source's height and the second at the target's.
   */
  function GetPath(source: string, target: string): (r: Path)
    requires source in TableKeys && target in TableKeys
    ensures Some(r.start) == FixedPosition(source) && Some(r.end) == FixedPosition(target)
    ensures r.control1.x == r.control2.x && 2 * r.control1.x == r.start.x + r.end.x
    ensures r.control1.y == r.start.y && r.control2.y == r.end.y
  {
    var s := GetPosition(source, None);
    var t := GetPosition(target, None);
    FixedOnFifties(source);
    FixedOnFifties(target);
    HalfOfFifties(s.x, t.x);
    var mid := (s.x + t.x) / 2;
    Path(s, Point(mid, s.y), Point(mid, t.y), t)
  }

  /** The same curve run backwards. */
  function Reversed(p: Path): Path
  {
    Path(p.end, p.control2, p.control1, p.start)
  }

  // ---------------------------------------------------------------------------------------
  // Properties of the fixed layout.
  // ---------------------------------------------------------------------------------------

  /** Every fixed coordinate is a multiple of 50. */
  lemma FixedOnFifties(name: string)
    requires name in TableKeys
    ensures FixedPosition(name).value.x % 50 == 0 && FixedPosition(name).value.y % 50 == 0
  {
  }

  /** Half the sum of two multiples of 50 is exact. */
  lemma HalfOfFifties(a: int, b: int)
    requires a % 50 == 0 && b % 50 == 0
    ensures 2 * ((a + b) / 2) == a + b
  {
  }

  /** The fixed positions in the order of `TableKeys`. */
  const FixedPoints: seq<Point> := [
    Point(400, 250), Point(150, 150), Point(250, 250), Point(650, 150), Point(650, 350), Point(550, 300),
    Point(250, 450), Point(550, 450), Point(400, 350), Point(150, 350), Point(400, 450), Point(650, 550),
    Point(400, 550)
  ]

  /** The list agrees with the lookup. */
  lemma FixedPointsAgree()
    ensures |FixedPoints| == |TableKeys|
    ensures forall i :: 0 <= i < |TableKeys| ==> FixedPosition(TableKeys[i]) == Some(FixedPoints[i])
  {
  }

  /** Node boxes centred on `p` and `q` do not overlap. */
  predicate Apart(p: Point, q: Point)
  {
    p.x - q.x >= NodeWidth || q.x - p.x >= NodeWidth || p.y - q.y >= NodeHeight || q.y - p.y >= NodeHeight
  }

  /** The listed positions are pairwise far enough apart for their node boxes not to overlap. */
  lemma PointsApart()
    ensures forall i, j :: 0 <= i < j < |FixedPoints| ==> Apart(FixedPoints[i], FixedPoints[j])
  {
  }

  /** Which table is placed at `p`, if any: the inverse of the fixed layout. */
  function TableAt(p: Point): Option<string>
  {
    if p == Point(400, 250) then Some("books")
    else if p == Point(150, 150) then Some("authors")
    else if p == Point(650, 150) then Some("publishers")
    else if p == Point(650, 350) then Some("categories")
    else if p == Point(250, 250) then Some("book_authors")
    else if p == Point(550, 300) then Some("book_categories")
    else if p == Point(250, 450) then Some("members")
    else if p == Point(550, 450) then Some("staff")
    else if p == Point(400, 350) then Some("loans")
    else if p == Point(150, 350) then Some("reservations")
    else if p == Point(400, 450) then Some("fines")
    else if p == Point(650, 550) then Some("events")
    else if p == Point(400, 550) then Some("event_attendees")
    else None
  }

  /** The table found at a registered table's position is that table. */
  lemma TableAtFixed(name: string)
    requires name in TableKeys
    ensures TableAt(FixedPosition(name).value) == Some(name)
  {
  }

  /** A table found at a point is placed at exactly that point. */
  lemma FixedAtTable(p: Point)
    requires TableAt(p).Some?
    ensures TableAt(p).value in TableKeys && FixedPosition(TableAt(p).value) == Some(p)
  {
  }

  /** No two tables are placed at the same point. */
  lemma FixedPositionsDistinct()
    ensures forall i, j :: 0 <= i < j < |TableKeys| ==> FixedPosition(TableKeys[i]) != FixedPosition(TableKeys[j])
  {
    TableKeysDistinct();
    forall i, j | 0 <= i < j < |TableKeys|
      ensures FixedPosition(TableKeys[i]) != FixedPosition(TableKeys[j])
    {
      TableAtFixed(TableKeys[i]);
      TableAtFixed(TableKeys[j]);
    }
  }

  /** The node boxes centred on two different registered tables do not overlap. */
  lemma NodesDisjoint(a: string, b: string)
    requires a in TableKeys && b in TableKeys && a != b
    ensures Apart(FixedPosition(a).value, FixedPosition(b).value)
  {
    FixedPointsAgree();
    PointsApart();
    var i :| 0 <= i < |TableKeys| && TableKeys[i] == a;
    var j :| 0 <= j < |TableKeys| && TableKeys[j] == b;
    assert i != j;
  }

  /** Every node box of a registered table lies wholly inside the canvas. */
  lemma NodesInsideCanvas(name: string)
    requires name in TableKeys
    ensures var p := FixedPosition(name).value;
            0 <= p.x - NodeWidth / 2 && p.x + NodeWidth / 2 <= CanvasWidth
            && 0 <= p.y - NodeHeight / 2 && p.y + NodeHeight / 2 <= CanvasHeight
  {
  }

  // ---------------------------------------------------------------------------------------
  // Properties of the grid fallback.
  // ---------------------------------------------------------------------------------------

  /** Slot `i` is in one of the five columns, in row `i / 5`. */
  lemma GridSlots(i: nat)
    ensures GridPosition(i).x in {100, 250, 400, 550, 700}
    ensures GridPosition(i).y == 100 + 100 * (i / 5)
  {
  }

  /** The slot can be read back from the point, so distinct indices give distinct points. */
  lemma {:induction false} GridIndexOfPosition(i: nat)
    ensures GridIndex(GridPosition(i)) == i
  {
    var c, r := i % 5, i / 5;
    assert GridPosition(i) == Point(100 + c * 150, 100 + r * 100);
    assert (c * 150) / 150 == c;
    assert (r * 100) / 100 == r;
  }

  /** Distinct indices are placed at distinct grid points. */
  lemma GridInjective(i: nat, j: nat)
    requires i != j
    ensures GridPosition(i) != GridPosition(j)
  {
    GridIndexOfPosition(i);
    GridIndexOfPosition(j);
  }

  // ---------------------------------------------------------------------------------------
  // Properties of the curves.
  // ---------------------------------------------------------------------------------------

  /** Drawing the relationship the other way gives the same curve reversed. */
  lemma PathReversal(source: string, target: string)
    requires source in TableKeys && target in TableKeys
    ensures GetPath(target, source) == Reversed(GetPath(source, target))
  {
  }

  /** A registered table has the same position whatever index it is offered. */
  lemma PositionIgnoresIndex(name: string, i: Option<nat>, j: Option<nat>)
    requires name in TableKeys
    ensures GetPosition(name, i) == GetPosition(name, j)
  {
  }
}
