/**
 * The annotation graph of LabelApp (module/app.py): points keyed by a positive index, lines keyed
 * by a canonical pair, angles keyed by a canonical triple, circles keyed by (centre, rim), and
 * the set of pivot indices. The functions here are the values the graph operations of the class
 * App.LabelApp compute; the lemmas are the properties the source relies on.
 */
module Annotation {
  import opened Optional
  import opened Keys
  import opened Geometry
  import Collections

  /** A QColor, identified with its `name()` ("#rrggbb"), which QColor(name) reads back. */
  type Color = string

  datatype Point = Point(pos: Pos, color: Color)

  datatype Graph = Graph(
    points: map<int, Point>,
    lines: map<(int, int), Color>,
    angles: map<(int, int, int), Color>,
    circles: map<(int, int), Color>,
    pivots: set<int>)

  const EmptyGraph := Graph(map[], map[], map[], map[], {})

  /**
   * Referential integrity: indices are positive, every line joins two existing points under its
   * canonical key, every angle stands on two existing lines, every circle joins two existing
   * points and every pivot is a point.
   */
  ghost predicate Valid(g: Graph) {
    && (forall k | k in g.points :: k > 0)
    && (forall k | k in g.lines :: k.0 <= k.1 && k.0 in g.points && k.1 in g.points)
    && (forall k | k in g.angles ::
          k.0 <= k.2 && LineKey(k.0, k.1) in g.lines && LineKey(k.1, k.2) in g.lines)
    && (forall k | k in g.circles :: k.0 in g.points && k.1 in g.points)
    && g.pivots <= g.points.Keys
  }

  /** No line from a point to itself, no angle whose two arms coincide, no circle of radius zero. */
  ghost predicate Simple(g: Graph) {
    && (forall k | k in g.lines :: k.0 != k.1)
    && (forall k | k in g.angles :: k.0 != k.2)
    && (forall k | k in g.circles :: k.0 != k.1)
  }

  /** In a valid graph, an index that is not a point occurs in no key at all. */
  lemma AbsentIndexIsUnmentioned(g: Graph, x: int)
    requires Valid(g) && x !in g.points
    ensures forall k | k in g.lines :: !HasEnd(k, x)
    ensures forall k | k in g.angles :: !HasIndex(k, x)
    ensures forall k | k in g.circles :: !HasEnd(k, x)
    ensures x !in g.pivots
  {
    forall k | k in g.angles
      ensures !HasIndex(k, x)
    {
      var l1, l2 := LineKey(k.0, k.1), LineKey(k.1, k.2);
      assert l1 in g.lines && l2 in g.lines;
    }
  }

  // ---------------------------------------------------------------- fresh indices

  lemma MaxExists(s: set<int>)
    requires s != {}
    ensures exists m :: m in s && forall x | x in s :: x <= m
  {
    var y := Collections.SomeElement(s);
    var rest := s - {y};
    if rest == {} {
      forall x | x in s
        ensures x <= y
      {
        assert x !in rest;
      }
    } else {
      MaxExists(rest);
      var m :| m in rest && forall x | x in rest :: x <= m;
      var top := if y > m then y else m;
      forall x | x in s
        ensures x <= top
      {
        if x != y {
          assert x in rest;
        }
      }
      assert top in s;
    }
  }

  function MaxOf(s: set<int>): (m: int)
    requires s != {}
    ensures m in s && forall x | x in s :: x <= m
  {
    MaxExists(s);
    var m :| m in s && forall x | x in s :: x <= m;
    m
  }

  /** get_new_index: one more than the largest index, or 1 when there are no points. */
  function NewIndex(points: map<int, Point>): (k: int)
    ensures forall j | j in points :: j < k
    ensures k !in points
    ensures points.Keys == {} ==> k == 1
    ensures points.Keys != {} ==> k - 1 in points
  {
    if points.Keys == {} then 1 else MaxOf(points.Keys) + 1
  }

  /** In a valid graph a new index is positive. */
  lemma NewIndexPositive(g: Graph)
    requires Valid(g)
    ensures NewIndex(g.points) > 0
  {
  }

  // ---------------------------------------------------------------- adding

  /** add_new_point with an image loaded: store the point under a fresh index. */
  function AddPoint(g: Graph, pos: Pos, color: Color): (r: (Graph, int))
    ensures r.1 !in g.points
    ensures r.0.points.Keys == g.points.Keys + {r.1}
  {
    var k := NewIndex(g.points);
    (g.(points := g.points[k := Point(pos, color)]), k)
  }

  /** add_line with an image loaded: only between two existing points, under the canonical key. */
  function AddLine(g: Graph, a: int, b: int, color: Color): Graph {
    if a in g.points && b in g.points then g.(lines := g.lines[LineKey(a, b) := color]) else g
  }

  /** add_angle with an image loaded: only when both arms (a, b) and (b, c) are lines. */
  function AddAngle(g: Graph, a: int, b: int, c: int, color: Color): Graph {
    if LineKey(a, b) in g.lines && LineKey(b, c) in g.lines
    then g.(angles := g.angles[AngleKey(a, b, c) := color])
    else g
  }

  /** add_circle with an image loaded: the key keeps centre and rim in the given order. */
  function AddCircle(g: Graph, centre: int, rim: int, color: Color): Graph {
    if centre in g.points && rim in g.points
    then g.(circles := g.circles[(centre, rim) := color])
    else g
  }

  /** The in-place setX/setY on a stored position: the point keeps its colour. */
  function MovePoint(g: Graph, k: int, pos: Pos): Graph
    requires k in g.points
  {
    g.(points := g.points[k := Point(pos, g.points[k].color)])
  }

  /** handle_point_mode on a hit: the point keeps its position and takes the current colour. */
  function Recolor(g: Graph, k: int, color: Color): Graph
    requires k in g.points
  {
    g.(points := g.points[k := Point(g.points[k].pos, color)])
  }

  /** Adding a point never overwrites one and keeps the graph valid. */
  lemma AddPointKeepsValid(g: Graph, pos: Pos, color: Color)
    requires Valid(g)
    ensures var (g', k) := AddPoint(g, pos, color);
      Valid(g') && k > 0 && g'.points[k] == Point(pos, color)
      && (forall j | j in g.points :: g'.points[j] == g.points[j])
      && g'.lines == g.lines && g'.angles == g.angles && g'.circles == g.circles && g'.pivots == g.pivots
  {
  }

  lemma AddLineKeepsValid(g: Graph, a: int, b: int, color: Color)
    requires Valid(g)
    ensures Valid(AddLine(g, a, b, color)) && AddLine(g, a, b, color).points == g.points
  {
  }

  lemma AddAngleKeepsValid(g: Graph, a: int, b: int, c: int, color: Color)
    requires Valid(g)
    ensures Valid(AddAngle(g, a, b, c, color)) && AddAngle(g, a, b, c, color).points == g.points
  {
  }

  lemma AddCircleKeepsValid(g: Graph, a: int, b: int, color: Color)
    requires Valid(g)
    ensures Valid(AddCircle(g, a, b, color)) && AddCircle(g, a, b, color).points == g.points
  {
  }

  /** An edge is stored exactly when its endpoints (for an angle: its arms) are present. */
  lemma AddEdgeStoresOnlyWhenPresent(g: Graph, a: int, b: int, c: int, color: Color)
    ensures (LineKey(a, b) in AddLine(g, a, b, color).lines && AddLine(g, a, b, color).lines[LineKey(a, b)] == color)
            || AddLine(g, a, b, color) == g
    ensures AddLine(g, a, b, color) != g ==> a in g.points && b in g.points
    ensures AddAngle(g, a, b, c, color) != g ==> LineKey(a, b) in g.lines && LineKey(b, c) in g.lines
    ensures AddCircle(g, a, b, color) != g ==> a in g.points && b in g.points
    ensures AddCircle(g, a, b, color) != g ==> (a, b) in AddCircle(g, a, b, color).circles
  {
  }

  /** Moving or recolouring a point changes nothing else and keeps the graph valid. */
  lemma InPlaceUpdatesKeepValid(g: Graph, k: int, pos: Pos, color: Color)
    requires Valid(g) && k in g.points
    ensures Valid(MovePoint(g, k, pos)) && Valid(Recolor(g, k, color))
    ensures MovePoint(g, k, pos).points.Keys == g.points.Keys
    ensures Recolor(g, k, color).points.Keys == g.points.Keys
  {
  }

  // ---------------------------------------------------------------- erasing

  /** erase_point: drop the point, every line, angle and circle containing it, and its pivot flag. */
  function Erase(g: Graph, i: Option<int>): Graph {
    if i.None? || i.value !in g.points then g
    else
      var x := i.value;
      Graph(
        g.points - {x},
        map k | k in g.lines && !HasEnd(k, x) :: g.lines[k],
        map k | k in g.angles && !HasIndex(k, x) :: g.angles[k],
        map k | k in g.circles && !HasEnd(k, x) :: g.circles[k],
        g.pivots - {x})
  }

  /** Erasing keeps integrity: what refers to the erased point goes with it. */
  lemma EraseKeepsValid(g: Graph, i: Option<int>)
    requires Valid(g)
    ensures Valid(Erase(g, i))
    ensures Simple(g) ==> Simple(Erase(g, i))
  {
    if i.Some? && i.value in g.points {
      var x, r := i.value, Erase(g, i);
      forall k | k in r.angles
        ensures LineKey(k.0, k.1) in r.lines && LineKey(k.1, k.2) in r.lines
      {
        var l1, l2 := LineKey(k.0, k.1), LineKey(k.1, k.2);
        assert !HasEnd(l1, x) && !HasEnd(l2, x);
      }
    }
  }

  /** After erasing index x nothing mentions x, and everything that did not mention x is kept. */
  lemma EraseCascade(g: Graph, x: int)
    ensures var r := Erase(g, Some(x));
      x in g.points ==>
      && x !in r.points && x !in r.pivots
      && (forall k | k in r.lines :: !HasEnd(k, x))
      && (forall k | k in r.angles :: !HasIndex(k, x))
      && (forall k | k in r.circles :: !HasEnd(k, x))
    ensures var r := Erase(g, Some(x));
      x in g.points ==>
      && (forall j | j in g.points && j != x :: j in r.points && r.points[j] == g.points[j])
      && (forall k | k in g.lines && !HasEnd(k, x) :: k in r.lines && r.lines[k] == g.lines[k])
      && (forall k | k in g.angles && !HasIndex(k, x) :: k in r.angles && r.angles[k] == g.angles[k])
      && (forall k | k in g.circles && !HasEnd(k, x) :: k in r.circles && r.circles[k] == g.circles[k])
      && r.pivots == g.pivots - {x}
    ensures x !in g.points ==> Erase(g, Some(x)) == g
  {
  }

  /** Erasing a point that was just added gives back the graph it was added to. */
  lemma EraseUndoesAddPoint(g: Graph, pos: Pos, color: Color)
    requires Valid(g)
    ensures var (g', k) := AddPoint(g, pos, color); Erase(g', Some(k)) == g
  {
    var (g', k) := AddPoint(g, pos, color);
    AbsentIndexIsUnmentioned(g, k);
    var r := Erase(g', Some(k));
    assert r.points == g.points;
    assert r.lines == g.lines;
    assert r.angles == g.angles;
    assert r.circles == g.circles;
  }

  // ---------------------------------------------------------------- pivots

  /** add_pivots with an image loaded. */
  function AddPivot(g: Graph, i: int): Graph {
    if i in g.points then g.(pivots := g.pivots + {i}) else g
  }

  /** remove_pivots with an image loaded and a non-empty pivot set. */
  function RemovePivot(g: Graph, i: int): Graph {
    g.(pivots := g.pivots - {i})
  }

  /** switch_pivot_state: the image guard of add_pivots and remove_pivots is `loaded`. */
  function SwitchPivot(g: Graph, i: int, loaded: bool): Graph {
    if !loaded then g
    else if i in g.pivots then (if g.pivots != {} then RemovePivot(g, i) else g)
    else AddPivot(g, i)
  }

  /** With an image, switching flips membership of an existing point, and switching twice is no change. */
  lemma SwitchPivotToggles(g: Graph, i: int)
    requires i in g.points
    ensures (i in SwitchPivot(g, i, true).pivots) == (i !in g.pivots)
    ensures SwitchPivot(g, i, true).pivots - {i} == g.pivots - {i}
    ensures SwitchPivot(SwitchPivot(g, i, true), i, true) == g
    ensures SwitchPivot(g, i, false) == g
  {
    if i in g.pivots {
      assert SwitchPivot(g, i, true).pivots + {i} == g.pivots;
    }
  }

  /** Pivot changes keep integrity. */
  lemma PivotChangesKeepValid(g: Graph, i: int, loaded: bool)
    requires Valid(g)
    ensures Valid(AddPivot(g, i)) && Valid(RemovePivot(g, i)) && Valid(SwitchPivot(g, i, loaded))
  {
  }

  // ---------------------------------------------------------------- rescaling

  /** update_points: every display position scaled by `ratio`, every colour kept. */
  function Rescale(points: map<int, Point>, ratio: real): map<int, Point> {
    map k | k in points :: Point(Scaled(points[k].pos, ratio), points[k].color)
  }

  /** Rescaling keeps the indices, so the graph stays valid. */
  lemma RescaleKeepsValid(g: Graph, ratio: real)
    requires Valid(g)
    ensures Rescale(g.points, ratio).Keys == g.points.Keys
    ensures Valid(g.(points := Rescale(g.points, ratio)))
  {
    assert Rescale(g.points, ratio).Keys == g.points.Keys;
  }

  /** Rescaling by 1 is no change. */
  lemma RescaleByOne(points: map<int, Point>)
    ensures Rescale(points, 1.0) == points
  {
    forall k | k in points
      ensures Rescale(points, 1.0)[k] == points[k]
    {
    }
  }

  /** Two rescalings are one by the product of the ratios (a resize and then another). */
  lemma RescaleComposes(points: map<int, Point>, a: real, b: real)
    ensures Rescale(Rescale(points, a), b) == Rescale(points, a * b)
  {
    forall k | k in points
      ensures Rescale(Rescale(points, a), b)[k] == Rescale(points, a * b)[k]
    {
      ScaledComposes(points[k].pos, a, b);
    }
  }
}
