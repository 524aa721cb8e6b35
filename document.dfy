/**
 * The JSON documents of export_all, export_pivots and import_labels, as rows of values. A full
 * document lists points (index, source x, source y, colour name), lines (a, b, colour), angles
 * (a, b, c, colour), circles (centre, rim, colour) and the pivot indices; a pivots document
 * lists (index, source x, source y). import_labels reads a one-key document as a pivots
 * document and any other as a full one. Files, JSON text and dialogs are not modelled.
 */
module Document {
  import opened Keys
  import opened Geometry
  import opened Annotation
  import opened Collections

  datatype PointRow = PointRow(index: int, x: real, y: real, color: Color)

  /** A line or circle row: its two indices and its colour. */
  datatype PairRow = PairRow(a: int, b: int, color: Color)

  datatype AngleRow = AngleRow(a: int, b: int, c: int, color: Color)

  datatype PivotRow = PivotRow(index: int, x: real, y: real)

  datatype Doc =
    | Full(points: seq<PointRow>, lines: seq<PairRow>, angles: seq<AngleRow>, circles: seq<PairRow>, pivots: seq<int>)
    | PivotsOnly(rows: seq<PivotRow>)

  // ---------------------------------------------------------------- export

  /** The row export_all writes for point k: its source-image position and colour. */
  function PointRowOf(k: int, p: Point, ratioToSrc: real): (r: PointRow)
    ensures r.index == k && Pos(r.x, r.y) == SrcPoint(p.pos, ratioToSrc) && r.color == p.color
  {
    var q := SrcPoint(p.pos, ratioToSrc);
    PointRow(k, q.x, q.y, p.color)
  }

  /** The row export_pivots writes for pivot k. */
  function PivotRowOf(k: int, p: Point, ratioToSrc: real): (r: PivotRow)
    ensures r.index == k && Pos(r.x, r.y) == SrcPoint(p.pos, ratioToSrc)
  {
    var q := SrcPoint(p.pos, ratioToSrc);
    PivotRow(k, q.x, q.y)
  }

  function PointIndex(r: PointRow): int { r.index }
  function PivotIndex(r: PivotRow): int { r.index }
  function RowPair(r: PairRow): (int, int) { (r.a, r.b) }
  function RowLineKey(r: PairRow): (int, int) { LineKey(r.a, r.b) }
  function PairColor(r: PairRow): Color { r.color }
  function RowTriple(r: AngleRow): (int, int, int) { (r.a, r.b, r.c) }
  function RowAngleKey(r: AngleRow): (int, int, int) { AngleKey(r.a, r.b, r.c) }
  function AngleColor(r: AngleRow): Color { r.color }

  /** The point rows are one row per point, each the point's row (in some order). */
  ghost predicate ExportsPoints(points: map<int, Point>, ratioToSrc: real, rows: seq<PointRow>) {
    && DistinctKeys(rows, PointIndex)
    && KeysOf(rows, PointIndex) == points.Keys
    && forall j | 0 <= j < |rows| ::
         rows[j].index in points && rows[j] == PointRowOf(rows[j].index, points[rows[j].index], ratioToSrc)
  }

  /** The rows of a full document list every entry of the graph, and the pivots exactly. */
  ghost predicate ExportsAll(g: Graph, ratioToSrc: real, d: Doc) {
    && d.Full?
    && ExportsPoints(g.points, ratioToSrc, d.points)
    && Lists(g.lines, d.lines, RowPair, PairColor)
    && Lists(g.angles, d.angles, RowTriple, AngleColor)
    && Lists(g.circles, d.circles, RowPair, PairColor)
    && (set x | x in d.pivots) == g.pivots
    && (forall i, j | 0 <= i < j < |d.pivots| :: d.pivots[i] != d.pivots[j])
  }

  /** A pivots document: one row per pivot, with its source-image position. */
  ghost predicate ExportsPivots(g: Graph, ratioToSrc: real, d: Doc) {
    && d.PivotsOnly?
    && DistinctKeys(d.rows, PivotIndex)
    && KeysOf(d.rows, PivotIndex) == g.pivots
    && forall j | 0 <= j < |d.rows| ::
         d.rows[j].index in g.points && d.rows[j] == PivotRowOf(d.rows[j].index, g.points[d.rows[j].index], ratioToSrc)
  }

  /** The row export_all writes for each point, by index. */
  function PointRowMap(points: map<int, Point>, ratioToSrc: real): map<int, PointRow> {
    map k | k in points :: PointRowOf(k, points[k], ratioToSrc)
  }

  /** The row export_pivots writes for each pivot, by index. */
  function PivotRowMap(points: map<int, Point>, pivots: set<int>, ratioToSrc: real): map<int, PivotRow>
    requires pivots <= points.Keys
  {
    map k | k in pivots :: PivotRowOf(k, points[k], ratioToSrc)
  }

  function SamePointRow(r: PointRow): PointRow { r }

  function SamePivotRow(r: PivotRow): PivotRow { r }

  /** Rows listing the point rows by index are the point export. */
  lemma ExportsPointsOfListing(points: map<int, Point>, ratioToSrc: real, rows: seq<PointRow>)
    requires Lists(PointRowMap(points, ratioToSrc), rows, PointIndex, SamePointRow)
    ensures ExportsPoints(points, ratioToSrc, rows)
  {
  }

  /** Rows listing the pivot rows by index are the pivot export. */
  lemma ExportsPivotsOfListing(g: Graph, ratioToSrc: real, rows: seq<PivotRow>)
    requires g.pivots <= g.points.Keys
    requires Lists(PivotRowMap(g.points, g.pivots, ratioToSrc), rows, PivotIndex, SamePivotRow)
    ensures ExportsPivots(g, ratioToSrc, PivotsOnly(rows))
  {
  }

  // ---------------------------------------------------------------- import

  /** The point import_labels stores for a point row: display position, the row's colour. */
  function PointOfRow(ratioToSrc: real): PointRow -> Point
    requires ratioToSrc != 0.0
  {
    (r: PointRow) => Point(ImgPoint(Pos(r.x, r.y), ratioToSrc), r.color)
  }

  /** The point import_labels stores for a pivot row: display position, the current colour. */
  function PointOfPivot(ratioToSrc: real, color: Color): PivotRow -> Point
    requires ratioToSrc != 0.0
  {
    (r: PivotRow) => Point(ImgPoint(Pos(r.x, r.y), ratioToSrc), color)
  }

  /**
   * The graph import_labels builds after reset_except_img: each row stored in order under its
   * key (a later row with the same key wins), line and angle keys made canonical.
   */
  function Imported(d: Doc, ratioToSrc: real, color: Color): Graph
    requires ratioToSrc != 0.0
  {
    match d
    case Full(points, lines, angles, circles, pivots) =>
      Graph(
        Fold(map[], points, PointIndex, PointOfRow(ratioToSrc)),
        Fold(map[], lines, RowLineKey, PairColor),
        Fold(map[], angles, RowAngleKey, AngleColor),
        Fold(map[], circles, RowPair, PairColor),
        set x | x in pivots)
    case PivotsOnly(rows) =>
      Graph(Fold(map[], rows, PivotIndex, PointOfPivot(ratioToSrc, color)), map[], map[], map[], KeysOf(rows, PivotIndex))
  }

  // ---------------------------------------------------------------- round trips

  /** Exported point rows read back, through get_img_point, as the points. */
  lemma PointRowsList(points: map<int, Point>, ratioToSrc: real, rows: seq<PointRow>)
    requires ratioToSrc != 0.0 && ExportsPoints(points, ratioToSrc, rows)
    ensures Lists(points, rows, PointIndex, PointOfRow(ratioToSrc))
  {
    forall j | 0 <= j < |rows|
      ensures PointOfRow(ratioToSrc)(rows[j]) == points[rows[j].index]
    {
      ImgOfSrc(points[rows[j].index].pos, ratioToSrc);
    }
  }

  /** Rows listing canonical keys are read back under the same keys. */
  lemma CanonicalRowsList(lines: map<(int, int), Color>, rows: seq<PairRow>)
    requires Lists(lines, rows, RowPair, PairColor)
    requires forall k | k in lines :: k.0 <= k.1
    ensures Lists(lines, rows, RowLineKey, PairColor)
  {
    forall j | 0 <= j < |rows|
      ensures RowLineKey(rows[j]) == RowPair(rows[j])
    {
      assert RowPair(rows[j]) in lines;
    }
    assert KeysOf(rows, RowLineKey) == KeysOf(rows, RowPair);
  }

  lemma CanonicalAngleRowsList(angles: map<(int, int, int), Color>, rows: seq<AngleRow>)
    requires Lists(angles, rows, RowTriple, AngleColor)
    requires forall k | k in angles :: k.0 <= k.2
    ensures Lists(angles, rows, RowAngleKey, AngleColor)
  {
    forall j | 0 <= j < |rows|
      ensures RowAngleKey(rows[j]) == RowTriple(rows[j])
    {
      assert RowTriple(rows[j]) in angles;
    }
    assert KeysOf(rows, RowAngleKey) == KeysOf(rows, RowTriple);
  }

  lemma PointsRoundTrip(points: map<int, Point>, ratioToSrc: real, rows: seq<PointRow>)
    requires ratioToSrc != 0.0 && ExportsPoints(points, ratioToSrc, rows)
    ensures Fold(map[], rows, PointIndex, PointOfRow(ratioToSrc)) == points
  {
    PointRowsList(points, ratioToSrc, rows);
    FoldOfListing(points, rows, PointIndex, PointOfRow(ratioToSrc));
  }

  lemma LinesRoundTrip(lines: map<(int, int), Color>, rows: seq<PairRow>)
    requires Lists(lines, rows, RowPair, PairColor) && forall k | k in lines :: k.0 <= k.1
    ensures Fold(map[], rows, RowLineKey, PairColor) == lines
  {
    CanonicalRowsList(lines, rows);
    FoldOfListing(lines, rows, RowLineKey, PairColor);
  }

  lemma AnglesRoundTrip(angles: map<(int, int, int), Color>, rows: seq<AngleRow>)
    requires Lists(angles, rows, RowTriple, AngleColor) && forall k | k in angles :: k.0 <= k.2
    ensures Fold(map[], rows, RowAngleKey, AngleColor) == angles
  {
    CanonicalAngleRowsList(angles, rows);
    FoldOfListing(angles, rows, RowAngleKey, AngleColor);
  }

  /**
   * Exporting everything and importing the document gives back the graph: same points with
   * their positions and colours, same lines, angles, circles and pivots.
   */
  lemma ImportOfExportAll(g: Graph, ratioToSrc: real, d: Doc, color: Color)
    requires Valid(g) && ratioToSrc != 0.0 && ExportsAll(g, ratioToSrc, d)
    ensures Imported(d, ratioToSrc, color) == g
  {
    PointsRoundTrip(g.points, ratioToSrc, d.points);
    LinesRoundTrip(g.lines, d.lines);
    AnglesRoundTrip(g.angles, d.angles);
    FoldOfListing(g.circles, d.circles, RowPair, PairColor);
  }

  /**
   * Importing a pivots document gives exactly the pivots of the exporting graph, each as a point
   * at its position in the current colour, and nothing else.
   */
  lemma ImportOfExportPivots(g: Graph, ratioToSrc: real, d: Doc, color: Color)
    requires Valid(g) && ratioToSrc != 0.0 && ExportsPivots(g, ratioToSrc, d)
    ensures var r := Imported(d, ratioToSrc, color);
      && r.points.Keys == g.pivots && r.pivots == g.pivots
      && (forall k | k in r.points :: r.points[k] == Point(g.points[k].pos, color))
      && r.lines == map[] && r.angles == map[] && r.circles == map[]
  {
    var pm := map k | k in g.pivots :: Point(g.points[k].pos, color);
    forall j | 0 <= j < |d.rows|
      ensures PointOfPivot(ratioToSrc, color)(d.rows[j]) == pm[d.rows[j].index]
    {
      ImgOfSrc(g.points[d.rows[j].index].pos, ratioToSrc);
    }
    assert Lists(pm, d.rows, PivotIndex, PointOfPivot(ratioToSrc, color));
    FoldOfListing(pm, d.rows, PivotIndex, PointOfPivot(ratioToSrc, color));
  }

  /** Every imported graph has its pivots among its points; a pivots document makes them all pivots. */
  lemma ImportedPivotsArePoints(d: Doc, ratioToSrc: real, color: Color)
    requires ratioToSrc != 0.0 && d.PivotsOnly?
    ensures var r := Imported(d, ratioToSrc, color); r.pivots == r.points.Keys && Valid(r) == (forall k | k in r.points :: k > 0)
  {
    var r := Imported(d, ratioToSrc, color);
    FoldKeys(d.rows, PivotIndex, PointOfPivot(ratioToSrc, color));
  }
}
