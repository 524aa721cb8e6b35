/**
 * LabelApp: the main window's state and the operations on it, as a class whose fields the
 * methods update in place. Each method is proved to leave the state the pure functions of the
 * other modules describe (`StateOf() == Modes.LineHandler(old(StateOf()), e, color)` and the
 * like), so what is proved there holds of the object.
 *
 * The image itself is reduced to `imageLoaded` (self.img is not None) and the two ratios
 * update_img computes; dialogs and files are replaced by their answers, given as parameters.
 */
module App {
  import opened Optional
  import opened Keys
  import opened Geometry
  import opened Annotation
  import opened Selection
  import opened Modes
  import opened Relabel
  import opened Document
  import opened Collections
  import Zoom

  /** The fields that are neither labels nor selection. */
  datatype Settings = Settings(
    imageLoaded: bool,
    color: Color,
    mode: Mode,
    imgSize: int,          // img_size * 100, in percent
    ratioFromOld: real,
    ratioToSrc: real)

  class LabelApp {
    var imageLoaded: bool
    var color: Color
    var mode: Mode
    var imgSize: int
    var ratioFromOld: real
    var ratioToSrc: real

    var points: map<int, Point>
    var lines: map<(int, int), Color>
    var angles: map<(int, int, int), Color>
    var circles: map<(int, int), Color>
    var pivots: set<int>

    var indexA: Option<int>
    var indexB: Option<int>
    var indexC: Option<int>
    var hover: Option<int>           // highlight_move_index
    var highlights: set<int>         // highlight_points

    function GraphOf(): Graph
      reads this
    {
      Graph(points, lines, angles, circles, pivots)
    }

    function TrackerOf(): Tracker
      reads this
    {
      Tracker(Slots(indexA, indexB, indexC), hover, highlights)
    }

    function StateOf(): State
      reads this
    {
      State(GraphOf(), TrackerOf())
    }

    function SettingsOf(): Settings
      reads this`imageLoaded, this`color, this`mode, this`imgSize, this`ratioFromOld, this`ratioToSrc
    {
      Settings(imageLoaded, color, mode, imgSize, ratioFromOld, ratioToSrc)
    }

    /**
     * What every operation keeps: the labels are a valid graph, the selection is a selection of
     * its points of the shape the mode allows, and the ratio to the source image is positive.
     */
    ghost predicate Consistent()
      reads this
    {
      Inv(StateOf(), mode) && ratioToSrc > 0.0
    }

    /** __init__: no image, no labels, the default colour and mode, zoom 100%. */
    constructor (defaultColor: Color)
      ensures GraphOf() == EmptyGraph && TrackerOf() == Idle
      ensures SettingsOf() == Settings(false, defaultColor, DefaultMode, Zoom.DefaultPercent, 1.0, 1.0)
      ensures Consistent()
    {
      imageLoaded := false;
      color := defaultColor;
      mode := DefaultMode;
      imgSize := Zoom.DefaultPercent;
      ratioFromOld := 1.0;
      ratioToSrc := 1.0;
      indexA, indexB, indexC := None, None, None;
      points, lines, angles, circles, pivots := map[], map[], map[], map[], {};
      hover, highlights := None, {};
      TracksEmpty(Idle, {});
    }

    // ---------------------------------------------------------------- the selection

    /** reset_index */
    method ResetIndex()
      modifies this`indexA, this`indexB, this`indexC
      ensures TrackerOf() == old(TrackerOf()).(slots := NoSlots)
    {
      indexA, indexB, indexC := None, None, None;
    }

    /** reset_highlight */
    method ResetHighlight()
      modifies this`hover, this`highlights
      ensures TrackerOf() == old(TrackerOf()).(hover := None, highlights := {})
    {
      hover := None;
      highlights := {};
    }

    /** end_trigger: the selection is cleared. */
    method EndTrigger()
      modifies this`indexA, this`indexB, this`indexC, this`hover, this`highlights
      ensures TrackerOf() == Idle
    {
      ResetIndex();
      ResetHighlight();
    }

    /** end_trigger_with: cleared, hovering over `index`. */
    method EndTriggerWith(index: Option<int>)
      modifies this`indexA, this`indexB, this`indexC, this`hover, this`highlights
      ensures TrackerOf() == Selection.EndTriggerWith(index)
    {
      EndTrigger();
      hover := index;
    }

    /** get_index_cnt */
    function IndexCount(): int
      reads this
    {
      Count(Slots(indexA, indexB, indexC))
    }

    /**
     * trigger_index: with an image and points, a picked index that is already selected is
     * removed (the others move up), and any other truthy index is appended and highlighted.
     */
    method TriggerIndex(index: Option<int>)
      modifies this`indexA, this`indexB, this`indexC, this`highlights
      ensures TrackerOf() == Trigger(old(TrackerOf()), index, imageLoaded && points != map[])
    {
      if !imageLoaded || points == map[] || !Truthy(index) {
        return;
      }
      var x := index.value;
      var slots := Slots(indexA, indexB, indexC);
      if index == indexA || index == indexB || index == indexC {
        var rest := Without(slots, x);
        indexA, indexB, indexC := Pick(rest, 0), Pick(rest, 1), None;
        highlights := highlights - {Abs(x)};
      } else {
        var l := Occupied(slots) + [x];
        indexA, indexB, indexC := At(l, 0), At(l, 1), At(l, 2);
        highlights := highlights + {Abs(x)};
      }
    }

    // ---------------------------------------------------------------- adding labels

    /** add_new_point: with an image, store the point under get_new_index and answer that index. */
    method AddNewPoint(pos: Pos) returns (k: Option<int>)
      modifies this`points
      ensures imageLoaded ==> k == Some(AddPoint(old(GraphOf()), pos, color).1)
      ensures imageLoaded ==> GraphOf() == AddPoint(old(GraphOf()), pos, color).0
      ensures !imageLoaded ==> k.None? && points == old(points)
    {
      if !imageLoaded {
        return None;
      }
      var index := NewIndex(points);
      points := points[index := Point(pos, color)];
      k := Some(index);
    }

    /** add_line */
    method AddLine(a: int, b: int)
      modifies this`lines
      ensures GraphOf() == if imageLoaded then Annotation.AddLine(old(GraphOf()), a, b, color) else old(GraphOf())
    {
      if imageLoaded && a in points && b in points {
        lines := lines[LineKey(a, b) := color];
      }
    }

    /** add_angle */
    method AddAngle(a: int, b: int, c: int)
      modifies this`angles
      ensures GraphOf() == if imageLoaded then Annotation.AddAngle(old(GraphOf()), a, b, c, color) else old(GraphOf())
    {
      if imageLoaded && LineKey(a, b) in lines && LineKey(b, c) in lines {
        angles := angles[AngleKey(a, b, c) := color];
      }
    }

    /** add_circle */
    method AddCircle(a: int, b: int)
      modifies this`circles
      ensures GraphOf() == if imageLoaded then Annotation.AddCircle(old(GraphOf()), a, b, color) else old(GraphOf())
    {
      if imageLoaded && a in points && b in points {
        circles := circles[(a, b) := color];
      }
    }

    // ---------------------------------------------------------------- erasing

    /** The loop of erase_point over a snapshot of the line keys. */
    method DropLinesWith(x: int)
      modifies this`lines
      ensures lines == map k | k in old(lines) && !HasEnd(k, x) :: old(lines)[k]
    {
      ghost var l0 := lines;
      var todo := lines.Keys;
      while todo != {}
        invariant todo <= l0.Keys
        invariant lines == map k | k in l0 && (k in todo || !HasEnd(k, x)) :: l0[k]
        decreases |todo|
      {
        var k :| k in todo;
        if HasEnd(k, x) {
          lines := lines - {k};
        }
        todo := todo - {k};
      }
    }

    /** The loop of erase_point over a snapshot of the angle keys. */
    method DropAnglesWith(x: int)
      modifies this`angles
      ensures angles == map k | k in old(angles) && !HasIndex(k, x) :: old(angles)[k]
    {
      ghost var a0 := angles;
      var todo := angles.Keys;
      while todo != {}
        invariant todo <= a0.Keys
        invariant angles == map k | k in a0 && (k in todo || !HasIndex(k, x)) :: a0[k]
        decreases |todo|
      {
        var k :| k in todo;
        if HasIndex(k, x) {
          angles := angles - {k};
        }
        todo := todo - {k};
      }
    }

    /** The loop of erase_point over a snapshot of the circle keys. */
    method DropCirclesWith(x: int)
      modifies this`circles
      ensures circles == map k | k in old(circles) && !HasEnd(k, x) :: old(circles)[k]
    {
      ghost var c0 := circles;
      var todo := circles.Keys;
      while todo != {}
        invariant todo <= c0.Keys
        invariant circles == map k | k in c0 && (k in todo || !HasEnd(k, x)) :: c0[k]
        decreases |todo|
      {
        var k :| k in todo;
        if HasEnd(k, x) {
          circles := circles - {k};
        }
        todo := todo - {k};
      }
    }

    /** erase_point: the point and everything that contains it. */
    method ErasePoint(index: Option<int>)
      modifies this`points, this`lines, this`angles, this`circles, this`pivots
      ensures GraphOf() == Erase(old(GraphOf()), index)
      ensures old(Consistent()) && old(TrackerOf().slots) == NoSlots ==> Consistent()
    {
      ghost var s0, ok := StateOf(), Consistent();
      if index.None? || index.value !in points {
        return;
      }
      RemovePoint(index.value);
      if ok && s0.t.slots == NoSlots {
        EraseKeepsValid(s0.g, index);
        NoSelectionKeepsInv(s0, mode, GraphOf());
      }
    }

    /** The body of erase_point for a point `x`: the point, its keys and its pivot mark go. */
    method RemovePoint(x: int)
      requires x in points
      modifies this`points, this`lines, this`angles, this`circles, this`pivots
      ensures GraphOf() == Erase(old(GraphOf()), Some(x))
    {
      points := points - {x};
      DropLinesWith(x);
      DropAnglesWith(x);
      DropCirclesWith(x);
      pivots := pivots - {x};
    }

    /**
     * erase_highlight: the points created during the gesture (the negative slots) are erased,
     * then the selection is cleared.
     */
    method EraseHighlight()
      modifies this`points, this`lines, this`angles, this`circles, this`pivots
      modifies this`indexA, this`indexB, this`indexC, this`hover, this`highlights
      ensures StateOf() == Modes.EraseHighlight(old(StateOf()))
    {
      EraseMarks();
      EraseAllOfSlots(old(StateOf()));
      ResetIndex();
      ResetHighlight();
    }

    /** The loop of erase_highlight over the three slots. */
    method EraseMarks()
      modifies this`points, this`lines, this`angles, this`circles, this`pivots
      ensures GraphOf() == EraseAll(old(GraphOf()), [indexA, indexB, indexC])
    {
      var marks := [indexA, indexB, indexC];
      ghost var g0 := GraphOf();
      for j := 0 to 3
        invariant GraphOf() == EraseAll(g0, marks[..j])
      {
        var index := marks[j];
        assert marks[..j + 1][..j] == marks[..j];
        if Truthy(index) && index.value < 0 {
          ErasePoint(Some(-index.value));
        }
      }
      assert marks[..3] == marks;
    }

    /** switch_mode: erase_highlight, then the new mode. */
    method SwitchMode(m: Mode)
      modifies this`points, this`lines, this`angles, this`circles, this`pivots
      modifies this`indexA, this`indexB, this`indexC, this`hover, this`highlights
      modifies this`mode
      ensures StateOf() == Modes.EraseHighlight(old(StateOf()))
      ensures mode == m
      ensures old(Consistent()) ==> Consistent()
    {
      ghost var s0, m0 := StateOf(), mode;
      EraseHighlight();
      mode := m;
      if Inv(s0, m0) {
        SwitchModeEstablishesInv(s0, m0, m);
      }
    }

    /** change_color: the colour picked in the colour box. */
    method ChangeColor(c: Color)
      modifies this`color
      ensures color == c
    {
      color := c;
    }

    // ---------------------------------------------------------------- pivots

    /** add_pivots */
    method AddPivots(index: int)
      modifies this`pivots
      ensures GraphOf() == if imageLoaded then AddPivot(old(GraphOf()), index) else old(GraphOf())
    {
      if imageLoaded && index in points {
        pivots := pivots + {index};
      }
    }

    /** remove_pivots: only with an image and a non-empty pivot set. */
    method RemovePivots(index: int)
      modifies this`pivots
      ensures GraphOf() == if imageLoaded && old(pivots) != {} then RemovePivot(old(GraphOf()), index) else old(GraphOf())
    {
      if imageLoaded && pivots != {} {
        pivots := pivots - {index};
      }
    }

    /** switch_pivot_state */
    method SwitchPivotState(index: int)
      modifies this`pivots
      ensures GraphOf() == SwitchPivot(old(GraphOf()), index, imageLoaded)
      ensures old(Consistent()) && old(TrackerOf().slots) == NoSlots ==> Consistent()
    {
      ghost var s0, ok := StateOf(), Consistent();
      if index in pivots {
        RemovePivots(index);
      } else {
        AddPivots(index);
      }
      if ok && s0.t.slots == NoSlots {
        PivotChangesKeepValid(s0.g, index, imageLoaded);
        NoSelectionKeepsInv(s0, mode, GraphOf());
      }
    }

    // ---------------------------------------------------------------- relabelling

    /** The line loop of modify_index: each line at `i` is stored again at `n` and popped. */
    method RenameLines(i: int, n: int)
      requires i != n && forall k | k in lines :: k.0 <= k.1 && !HasEnd(k, n)
      modifies this`lines
      ensures LinesMoved(old(lines), lines, i, n)
    {
      ghost var l0 := lines;
      LineRenamingSteps(l0, i, n);
      RekeyedNothing(l0, LineRenaming(i, n), LineRenaming(n, i));
      var todo := lines.Keys;
      ghost var done: set<(int, int)> := {};
      while todo != {}
        invariant todo <= l0.Keys && done == l0.Keys - todo
        invariant lines == Rekeyed(l0, done, LineRenaming(i, n), LineRenaming(n, i))
        decreases |todo|
      {
        var k :| k in todo;
        LineLoopStep(l0, done, lines, i, n, k);
        if HasEnd(k, i) {
          // the line is stored again under the key of n and its other endpoint
          lines := lines[LineKey(n, k.0 + k.1 - i) := lines[k]];
          lines := lines - {k};
        }
        VisitStep(l0.Keys, todo, k);
        todo, done := todo - {k}, done + {k};
      }
      RekeyedAll(l0, LineRenaming(i, n), LineRenaming(n, i));
    }

    /** The angle loop of modify_index: a vertex is replaced in place, an arm end re-keyed. */
    method RenameAngles(i: int, n: int)
      requires i != n && forall k | k in angles :: k.0 <= k.2 && !HasIndex(k, n)
      modifies this`angles
      ensures AnglesMoved(old(angles), angles, i, n)
    {
      ghost var a0 := angles;
      AngleRenamingSteps(a0, i, n);
      RekeyedNothing(a0, AngleRenaming(i, n), AngleRenaming(n, i));
      var todo := angles.Keys;
      ghost var done: set<(int, int, int)> := {};
      while todo != {}
        invariant todo <= a0.Keys && done == a0.Keys - todo
        invariant angles == Rekeyed(a0, done, AngleRenaming(i, n), AngleRenaming(n, i))
        decreases |todo|
      {
        var k :| k in todo;
        AngleLoopStep(a0, done, angles, i, n, k);
        if HasIndex(k, i) {
          if i == k.1 {
            angles := angles[(k.0, n, k.2) := angles[k]];
          } else {
            angles := angles[AngleKey(n, k.1, k.0 + k.2 - i) := angles[k]];
          }
          angles := angles - {k};
        }
        VisitStep(a0.Keys, todo, k);
        todo, done := todo - {k}, done + {k};
      }
      RekeyedAll(a0, AngleRenaming(i, n), AngleRenaming(n, i));
    }

    /** The circle loop of modify_index: the centre or the rim becomes `n`, in place. */
    method RenameCircles(i: int, n: int)
      requires i != n && forall k | k in circles :: !HasEnd(k, n)
      modifies this`circles
      ensures CirclesMoved(old(circles), circles, i, n)
    {
      ghost var c0 := circles;
      CircleRenamingSteps(c0, i, n);
      RekeyedNothing(c0, CircleRenaming(i, n), CircleRenaming(n, i));
      var todo := circles.Keys;
      ghost var done: set<(int, int)> := {};
      while todo != {}
        invariant todo <= c0.Keys && done == c0.Keys - todo
        invariant circles == Rekeyed(c0, done, CircleRenaming(i, n), CircleRenaming(n, i))
        decreases |todo|
      {
        var k :| k in todo;
        CircleLoopStep(c0, done, circles, i, n, k);
        if HasEnd(k, i) {
          circles := circles[(if i == k.0 then (n, k.1) else (k.0, n)) := circles[k]];
          circles := circles - {k};
        }
        VisitStep(c0.Keys, todo, k);
        todo, done := todo - {k}, done + {k};
      }
      RekeyedAll(c0, CircleRenaming(i, n), CircleRenaming(n, i));
    }

    /**
     * modify_index(index) after its dialog has answered `answer` (None: cancelled): the checks
     * in their order, and on acceptance the rewrite of every key containing `index`.
     */
    method ModifyIndex(index: int, answer: Option<int>) returns (v: Verdict)
      requires CheckAnswer(points, index, answer) == Renamed ==>
                 index in points && KeysFreeOf(GraphOf(), answer.value)
      modifies this`points, this`lines, this`angles, this`circles, this`pivots
      ensures v == CheckAnswer(old(points), index, answer)
      ensures v == Renamed ==> Moved(old(GraphOf()), GraphOf(), index, answer.value)
      ensures v != Renamed ==> GraphOf() == old(GraphOf())
      ensures old(Consistent()) && old(TrackerOf().slots) == NoSlots && Simple(old(GraphOf())) ==>
                Consistent()
    {
      ghost var s0, ok := StateOf(), Consistent();
      if answer.None? || answer.value == index {
        return Declined;
      }
      var n := answer.value;
      if n <= 0 {
        return NotPositive;
      }
      if n in points {
        return AlreadyUsed;
      }
      MoveIndex(index, n);
      v := Renamed;
      if ok && s0.t.slots == NoSlots && Simple(s0.g) {
        RelabelKeepsInv(s0, mode, GraphOf(), index, n);
      }
    }

    /** The rewrite of modify_index once the answer `n` is accepted: `i` becomes `n` everywhere. */
    method MoveIndex(i: int, n: int)
      requires i in points && n !in points && KeysFreeOf(GraphOf(), n)
      modifies this`points, this`lines, this`angles, this`circles, this`pivots
      ensures Moved(old(GraphOf()), GraphOf(), i, n)
    {
      points := points[n := points[i]];
      points := points - {i};
      RenameLines(i, n);
      RenameAngles(i, n);
      RenameCircles(i, n);
      if i in pivots {
        pivots := pivots - {i};
        pivots := pivots + {n};
      }
    }

    // ---------------------------------------------------------------- resets

    /** reset_img: no image, both ratios back to 1. */
    method ResetImg()
      modifies this`imageLoaded, this`ratioFromOld, this`ratioToSrc
      ensures !imageLoaded && ratioFromOld == 1.0 && ratioToSrc == 1.0
    {
      imageLoaded := false;
      ratioFromOld := 1.0;
      ratioToSrc := 1.0;
    }

    /** reset_except_img: no labels and no selection. */
    method ResetExceptImg()
      modifies this`indexA, this`indexB, this`indexC, this`hover, this`highlights
      modifies this`points, this`lines, this`angles, this`circles, this`pivots
      ensures GraphOf() == EmptyGraph && TrackerOf() == Idle
    {
      ResetIndex();
      points, lines, angles, circles, pivots := map[], map[], map[], map[], {};
      ResetHighlight();
    }

    /** clear_labels: with an image, everything labelled is cleared. */
    method ClearLabels()
      modifies this`points, this`lines, this`angles, this`circles, this`pivots
      modifies this`indexA, this`indexB, this`indexC, this`hover, this`highlights
      ensures imageLoaded ==> GraphOf() == EmptyGraph && TrackerOf() == Idle
      ensures !imageLoaded ==> StateOf() == old(StateOf())
      ensures old(Consistent()) ==> Consistent()
    {
      if imageLoaded {
        ResetExceptImg();
        IdleIsInv(EmptyGraph, mode);
      }
    }

    // ---------------------------------------------------------------- the image

    /**
     * update_points: after a resize by ratioFromOld, every display position is scaled by it,
     * once; afterwards the ratio is 1, so a second call changes nothing.
     */
    method UpdatePoints()
      modifies this`points, this`ratioFromOld
      ensures imageLoaded && old(points) != map[] && old(ratioFromOld) != 1.0 ==>
                points == Rescale(old(points), old(ratioFromOld)) && ratioFromOld == 1.0
      ensures !imageLoaded || old(points) == map[] || old(ratioFromOld) == 1.0 ==>
                points == old(points) && ratioFromOld == old(ratioFromOld)
    {
      if !imageLoaded || points == map[] || ratioFromOld == 1.0 {
        return;
      }
      ghost var p0 := points;
      var todo := points.Keys;
      while todo != {}
        invariant todo <= p0.Keys && points.Keys == p0.Keys && ratioFromOld == old(ratioFromOld)
        invariant forall k | k in p0 ::
          points[k] == if k in todo then p0[k] else Point(Scaled(p0[k].pos, ratioFromOld), p0[k].color)
        decreases |todo|
      {
        ghost var some := SomeElement(todo);
        var k :| k in todo;
        points := points[k := Point(Scaled(points[k].pos, ratioFromOld), points[k].color)];
        todo := todo - {k};
      }
      forall k | k in p0
        ensures points[k] == Rescale(p0, ratioFromOld)[k]
      {
        assert k !in todo;
      }
      assert points == Rescale(p0, ratioFromOld);
      ratioFromOld := 1.0;
    }

    /**
     * What update_all leaves, as far as the labels go, once update_img has computed the ratios
     * `fromOld` and `toSrc` of the new display size: without an image (`wasLoaded` false) the
     * image state is reset; with one the ratios are set, and update_points rescales the points
     * `before` by `fromOld` unless there are none or the ratio is 1.
     */
    ghost predicate Redisplayed(wasLoaded: bool, before: map<int, Point>, fromOld: real, toSrc: real)
      reads this`imageLoaded, this`points, this`ratioFromOld, this`ratioToSrc
    {
      && (!wasLoaded ==> !imageLoaded && ratioFromOld == 1.0 && ratioToSrc == 1.0 && points == before)
      && (wasLoaded ==> imageLoaded && ratioToSrc == toSrc)
      && (wasLoaded && before != map[] && fromOld != 1.0 ==>
            points == Rescale(before, fromOld) && ratioFromOld == 1.0)
      && (wasLoaded && (before == map[] || fromOld == 1.0) ==>
            points == before && ratioFromOld == fromOld)
    }

    /** update_all: update_img's ratios (given here, see Redisplayed), then update_points. */
    method UpdateView(fromOld: real, toSrc: real)
      requires toSrc > 0.0
      modifies this`points, this`ratioFromOld, this`ratioToSrc, this`imageLoaded
      ensures Redisplayed(old(imageLoaded), old(points), fromOld, toSrc)
      ensures old(Consistent()) ==> Consistent()
    {
      ghost var s0, ok := StateOf(), Consistent();
      if !imageLoaded {
        ResetImg();
        return;
      }
      ratioFromOld, ratioToSrc := fromOld, toSrc;
      UpdatePoints();
      if ok {
        RescaleKeepsValid(s0.g, fromOld);
        assert StateOf() == s0 || StateOf() == State(s0.g.(points := Rescale(s0.g.points, fromOld)), s0.t);
      }
    }

    /**
     * upload_img followed by a successful load_img: everything is reset, then the image is
     * shown, `toSrc` times smaller than the source image.
     */
    method OpenImage(toSrc: real)
      requires toSrc > 0.0
      modifies this`points, this`lines, this`angles, this`circles, this`pivots
      modifies this`indexA, this`indexB, this`indexC, this`hover, this`highlights
      modifies this`imageLoaded, this`ratioFromOld, this`ratioToSrc
      ensures GraphOf() == EmptyGraph && TrackerOf() == Idle
      ensures imageLoaded && ratioFromOld == 1.0 / toSrc && ratioToSrc == toSrc
      ensures old(Consistent()) ==> Consistent()
    {
      ResetImg();
      ResetExceptImg();
      imageLoaded := true;
      ratioFromOld, ratioToSrc := 1.0 / toSrc, toSrc;
      IdleIsInv(EmptyGraph, mode);
    }

    /** delete_img: with an image, everything is reset. */
    method DeleteImage()
      modifies this`points, this`lines, this`angles, this`circles, this`pivots
      modifies this`indexA, this`indexB, this`indexC, this`hover, this`highlights
      modifies this`imageLoaded, this`ratioFromOld, this`ratioToSrc
      ensures old(imageLoaded) ==> GraphOf() == EmptyGraph && TrackerOf() == Idle
      ensures old(imageLoaded) ==> !imageLoaded && ratioFromOld == 1.0 && ratioToSrc == 1.0
      ensures !old(imageLoaded) ==> StateOf() == old(StateOf()) && !imageLoaded
      ensures old(Consistent()) ==> Consistent()
    {
      if !imageLoaded {
        return;
      }
      ResetImg();
      ResetExceptImg();
      IdleIsInv(EmptyGraph, mode);
    }

    // ---------------------------------------------------------------- zoom

    /** inc_img_size: one step in, then update_all with the ratios of the new size. */
    method IncImgSize(fromOld: real, toSrc: real)
      requires toSrc > 0.0
      modifies this`imgSize, this`points, this`ratioFromOld, this`ratioToSrc, this`imageLoaded
      ensures imgSize == Zoom.Inc(old(imgSize))
      ensures Redisplayed(old(imageLoaded), old(points), fromOld, toSrc)
      ensures old(Consistent()) ==> Consistent()
    {
      imgSize := if imgSize + Zoom.Step < Zoom.MaxPercent then imgSize + Zoom.Step else Zoom.MaxPercent;
      UpdateView(fromOld, toSrc);
    }

    /** dec_img_size: one step out, then update_all. */
    method DecImgSize(fromOld: real, toSrc: real)
      requires toSrc > 0.0
      modifies this`imgSize, this`points, this`ratioFromOld, this`ratioToSrc, this`imageLoaded
      ensures imgSize == Zoom.Dec(old(imgSize))
      ensures Redisplayed(old(imageLoaded), old(points), fromOld, toSrc)
      ensures old(Consistent()) ==> Consistent()
    {
      imgSize := if imgSize - Zoom.Step > Zoom.MinPercent then imgSize - Zoom.Step else Zoom.MinPercent;
      UpdateView(fromOld, toSrc);
    }

    /** reset_img_size: back to 100%, then update_all. */
    method ResetImgSize(fromOld: real, toSrc: real)
      requires toSrc > 0.0
      modifies this`imgSize, this`points, this`ratioFromOld, this`ratioToSrc, this`imageLoaded
      ensures imgSize == Zoom.DefaultPercent
      ensures Redisplayed(old(imageLoaded), old(points), fromOld, toSrc)
      ensures old(Consistent()) ==> Consistent()
    {
      imgSize := Zoom.DefaultPercent;
      UpdateView(fromOld, toSrc);
    }

    /** set_img_size_slider: the slider's value, in percent, then update_all. */
    method SetImgSizeSlider(value: int, fromOld: real, toSrc: real)
      requires toSrc > 0.0
      modifies this`imgSize, this`points, this`ratioFromOld, this`ratioToSrc, this`imageLoaded
      ensures imgSize == value
      ensures Redisplayed(old(imageLoaded), old(points), fromOld, toSrc)
      ensures old(Consistent()) ==> Consistent()
    {
      imgSize := value;
      UpdateView(fromOld, toSrc);
    }

    // ---------------------------------------------------------------- the hit test

    /**
     * get_point_index: with an image, the nearest point closer than the hit radius, if any;
     * scanning the points and keeping each one closer than the best so far.
     */
    method GetPointIndex(pos: Pos, h: Helpers) returns (r: Option<int>)
      ensures !imageLoaded ==> r.None?
      ensures imageLoaded ==> IsHit(points, pos, h, r)
    {
      if !imageLoaded || points == map[] {
        return None;
      }
      var best := h.hitRadius;
      r := None;
      var todo := points.Keys;
      while todo != {}
        invariant todo <= points.Keys
        invariant r.None? ==> best == h.hitRadius
        invariant r.Some? ==> r.value in points && r.value !in todo
                              && best == h.distance(pos, points[r.value].pos) && best < h.hitRadius
        invariant forall j | j in points && j !in todo :: best <= h.distance(pos, points[j].pos)
        decreases |todo|
      {
        ghost var some := SomeElement(todo);
        var k :| k in todo;
        var dis := h.distance(pos, points[k].pos);
        if dis < best {
          best := dis;
          r := Some(k);
        }
        todo := todo - {k};
      }
    }

    // ---------------------------------------------------------------- the mode handlers

    /** handle_point_mode */
    method HandlePointMode(e: Event)
      requires imageLoaded
      modifies this`points
      ensures StateOf() == PointHandler(old(StateOf()), e, color)
    {
      if !LeftPress(e) {
        return;
      }
      if Truthy(e.hit) && e.hit.value in points {
        var k := e.hit.value;
        points := points[k := Point(points[k].pos, color)];
      } else {
        var k := AddNewPoint(e.pos);
      }
    }

    /** handle_line_mode */
    method HandleLineMode(e: Event)
      requires imageLoaded
      modifies this`points, this`lines, this`indexA, this`indexB, this`indexC, this`hover, this`highlights
      ensures StateOf() == LineHandler(old(StateOf()), e, color)
    {
      if !LeftPress(e) {
        return;
      }
      PickHitOrNew(e);
      if IndexCount() == 2 {
        JoinPicks();
      }
    }

    /** The second pick of line mode: the line between the two picks, hovering on its second end. */
    method JoinPicks()
      requires imageLoaded
      modifies this`lines, this`indexA, this`indexB, this`indexC, this`hover, this`highlights
      ensures var a, b := AbsOf(old(indexA)), AbsOf(old(indexB));
        StateOf() == State(Annotation.AddLine(old(GraphOf()), a, b, color), Selection.EndTriggerWith(Some(b)))
    {
      var a, b := AbsOf(indexA), AbsOf(indexB);
      AddLine(a, b);
      EndTriggerWith(Some(b));
    }

    /** `index if index else -self.add_new_point(point)`, with an image loaded. */
    method HitOrNewPoint(e: Event) returns (index: Option<int>)
      requires imageLoaded
      modifies this`points
      ensures StateOf() == HitOrNew(old(StateOf()), e, color).0
      ensures index == Some(HitOrNew(old(StateOf()), e, color).1)
    {
      index := e.hit;
      if !Truthy(index) {
        var k := AddNewPoint(e.pos);
        index := Some(-k.value);
      }
    }

    /** handle_angle_mode */
    method HandleAngleMode(e: Event)
      requires imageLoaded
      modifies this`angles, this`indexA, this`indexB, this`indexC, this`hover, this`highlights
      ensures StateOf() == AngleHandler(old(StateOf()), e, color)
    {
      if !LeftPress(e) {
        return;
      }
      TriggerIndex(e.hit);
      if IndexCount() == 2 && LineKey(Val(indexA), Val(indexB)) !in lines {
        TriggerIndex(indexA);
      } else if IndexCount() == 3 {
        if LineKey(Val(indexB), Val(indexC)) in lines {
          AddAngle(Val(indexA), Val(indexB), Val(indexC));
          EndTriggerWith(indexC);
        } else {
          var c := indexC;
          EndTrigger();
          TriggerIndex(c);
        }
      }
    }

    /** handle_circle_mode */
    method HandleCircleMode(e: Event, h: Helpers)
      requires imageLoaded
      modifies this`points, this`circles, this`indexA, this`indexB, this`indexC, this`hover, this`highlights
      ensures StateOf() == CircleHandler(old(StateOf()), e, color, h)
    {
      if LeftPress(e) {
        if IndexCount() == 0 {
          StartCircle(e, h);
        } else if IndexCount() == 2 {
          EndTriggerWith(Some(AbsOf(indexB)));
        }
      } else if e.kind == Move && IndexCount() == 2 && h.inBounds(e.pos) {
        DragRim(e.pos);
      }
    }

    /** The first press of circle mode: the centre picked or created, then the rim and the circle. */
    method StartCircle(e: Event, h: Helpers)
      requires imageLoaded
      modifies this`points, this`circles, this`indexA, this`indexB, this`indexC, this`highlights
      ensures StateOf() == WithRim(Trig(HitOrNew(old(StateOf()), e, color).0, Some(HitOrNew(old(StateOf()), e, color).1)), e.pos, color, h)
    {
      PickHitOrNew(e);
      AddRim(e.pos, h);
    }

    /** The pick of line mode and of the first press of circle mode: the hit, or a new point. */
    method PickHitOrNew(e: Event)
      requires imageLoaded
      modifies this`points, this`indexA, this`indexB, this`indexC, this`highlights
      ensures StateOf() == Trig(HitOrNew(old(StateOf()), e, color).0, Some(HitOrNew(old(StateOf()), e, color).1))
    {
      ghost var r := HitOrNew(StateOf(), e, color);
      var index := HitOrNewPoint(e);
      assert StateOf() == r.0 && index == Some(r.1);
      TriggerIndex(index);
    }

    /** A move in circle mode drags the rim point, the second slot. */
    method DragRim(p: Pos)
      modifies this`points
      ensures var b := AbsOf(indexB);
        GraphOf() == if b in old(points) then MovePoint(old(GraphOf()), b, p) else old(GraphOf())
    {
      var b := AbsOf(indexB);
      if b in points {
        points := points[b := Point(p, points[b].color)];
      }
    }

    /** The rest of the first press of circle mode: a rim point next to the press, picked, and the circle. */
    method AddRim(p: Pos, h: Helpers)
      requires imageLoaded
      modifies this`points, this`indexA, this`indexB, this`indexC, this`highlights, this`circles
      ensures StateOf() == WithRim(old(StateOf()), p, color, h)
    {
      ghost var s0 := StateOf();
      PickNewPoint(RimPos(p, h));
      ghost var s3 := StateOf();
      AddCircle(AbsOf(indexA), AbsOf(indexB));
      assert StateOf() == s3.(g := Annotation.AddCircle(s3.g, AbsOf(s3.t.slots.a), AbsOf(s3.t.slots.b), color));
    }

    /** A new point at `pos`, picked as created during the gesture (its index negated). */
    method PickNewPoint(pos: Pos)
      requires imageLoaded
      modifies this`points, this`indexA, this`indexB, this`indexC, this`highlights
      ensures var (g', k) := AddPoint(old(GraphOf()), pos, color);
        StateOf() == Trig(State(g', old(TrackerOf())), Some(-k))
    {
      var r := AddNewPoint(pos);
      TriggerIndex(Some(-r.value));
    }

    /** handle_midpoint_mode */
    method HandleMidpointMode(e: Event, h: Helpers)
      requires imageLoaded
      modifies this`points, this`indexA, this`indexB, this`indexC, this`hover, this`highlights
      ensures StateOf() == MidpointHandler(old(StateOf()), e, color, h)
    {
      if !LeftPress(e) {
        return;
      }
      TriggerIndex(e.hit);
      if IndexCount() == 2 {
        if LineKey(Val(indexA), Val(indexB)) in lines {
          AddMidpoint(h);
        } else {
          TriggerIndex(indexA);
        }
      }
    }

    /** Two picks on a line in midpoint mode: the midpoint is added and the selection cleared. */
    method AddMidpoint(h: Helpers)
      requires imageLoaded
      modifies this`points, this`indexA, this`indexB, this`indexC, this`hover, this`highlights
      ensures var m := h.midpoint(PosOf(old(GraphOf()), Val(old(indexA))), PosOf(old(GraphOf()), Val(old(indexB))));
        StateOf() == State(AddPoint(old(GraphOf()), m, color).0, Selection.EndTriggerWith(old(indexB)))
    {
      var a, b := PosOf(GraphOf(), Val(indexA)), PosOf(GraphOf(), Val(indexB));
      var k := AddNewPoint(h.midpoint(a, b));
      EndTriggerWith(indexB);
    }

    /** handle_vertical_mode */
    method HandleVerticalMode(e: Event, h: Helpers)
      requires imageLoaded
      modifies this`points, this`lines, this`indexA, this`indexB, this`indexC, this`hover, this`highlights
      ensures StateOf() == VerticalHandler(old(StateOf()), e, color, h)
    {
      if !LeftPress(e) {
        return;
      }
      TriggerIndex(e.hit);
      if IndexCount() == 2 {
        if LineKey(Val(indexA), Val(indexB)) !in lines {
          TriggerIndex(indexA);
        }
      } else if IndexCount() == 3 {
        VerticalThirdPick(h);
      }
    }

    /** The third pick of handle_vertical_mode. */
    method VerticalThirdPick(h: Helpers)
      requires imageLoaded
      modifies this`points, this`lines, this`indexA, this`indexB, this`indexC, this`hover, this`highlights
      ensures StateOf() == VerticalThird(old(StateOf()), color, h)
    {
      var a, b, c := PosOf(GraphOf(), Val(indexA)), PosOf(GraphOf(), Val(indexB)), PosOf(GraphOf(), Val(indexC));
      if h.collinear(a, b, c) {
        if LineKey(Val(indexB), Val(indexC)) in lines {
          TriggerIndex(indexA);
        } else {
          var ic := indexC;
          EndTrigger();
          TriggerIndex(ic);
        }
      } else {
        AddFoot(h);
      }
    }

    /** The non-collinear third pick of handle_vertical_mode: the foot point and its lines. */
    method AddFoot(h: Helpers)
      requires imageLoaded
      modifies this`points, this`lines, this`indexA, this`indexB, this`indexC, this`hover, this`highlights
      ensures GraphOf() == FootLines(old(GraphOf()), old(TrackerOf().slots), color, h)
      ensures TrackerOf() == Selection.EndTriggerWith(old(indexC))
    {
      ghost var g0, sl0 := GraphOf(), TrackerOf().slots;
      var a, b, c := PosOf(GraphOf(), Val(indexA)), PosOf(GraphOf(), Val(indexB)), PosOf(GraphOf(), Val(indexC));
      var d := h.footPoint(a, b, c);
      var kd := AddNewPoint(d);
      ghost var g1 := GraphOf();
      assert g1 == AddPoint(g0, d, color).0 && kd.value == AddPoint(g0, d, color).1;
      var near := if h.distance(a, d) < h.distance(b, d) then Val(indexA) else Val(indexB);
      if !h.onSegment(a, b, d) {
        AddLine(near, kd.value);
      }
      ghost var g2 := GraphOf();
      assert g2 == if !h.onSegment(a, b, d) then Annotation.AddLine(g1, near, kd.value, color) else g1;
      AddLine(Val(indexC), kd.value);
      assert GraphOf() == Annotation.AddLine(g2, Val(sl0.c), kd.value, color);
      assert GraphOf() == FootLines(g0, sl0, color, h);
      EndTriggerWith(indexC);
    }

    /** handle_drag_mode */
    method HandleDragMode(e: Event, h: Helpers)
      requires imageLoaded
      modifies this`points, this`indexA, this`indexB, this`indexC, this`highlights
      ensures StateOf() == DragHandler(old(StateOf()), e, h)
    {
      if LeftPress(e) && IndexCount() == 0 {
        TriggerIndex(e.hit);
      } else if e.kind == Move && IndexCount() == 1 && h.inBounds(e.pos) {
        var a := Val(indexA);
        if a in points {
          points := points[a := Point(e.pos, points[a].color)];
        }
      } else if e.kind == Release && IndexCount() == 1 {
        TriggerIndex(indexA);
      }
    }

    /** handle_erase_point_mode */
    method HandleErasePointMode(e: Event)
      modifies this`points, this`lines, this`angles, this`circles, this`pivots
      ensures StateOf() == EraseHandler(old(StateOf()), e)
    {
      if LeftPress(e) {
        ErasePoint(e.hit);
      }
    }

    // ---------------------------------------------------------------- export and import

    /** The point loop of export_all: one row per point, in source-image coordinates. */
    method PointRows() returns (rows: seq<PointRow>)
      ensures ExportsPoints(points, ratioToSrc, rows)
    {
      ghost var want := PointRowMap(points, ratioToSrc);
      ListsButStart(want, PointIndex, SamePointRow);
      rows := [];
      var todo := points.Keys;
      while todo != {}
        invariant ListsBut(want, rows, todo, PointIndex, SamePointRow)
        decreases |todo|
      {
        ghost var some := SomeElement(todo);
        var k :| k in todo;
        var row := PointRowOf(k, points[k], ratioToSrc);
        ListsButStep(want, rows, todo, row, PointIndex, SamePointRow);
        rows := rows + [row];
        todo := todo - {k};
      }
      ListsButDone(want, rows, PointIndex, SamePointRow);
      ExportsPointsOfListing(points, ratioToSrc, rows);
    }

    /** The loop of export_pivots: one row per pivot, in source-image coordinates. */
    method PivotRows() returns (rows: seq<PivotRow>)
      requires pivots <= points.Keys
      ensures ExportsPivots(GraphOf(), ratioToSrc, PivotsOnly(rows))
    {
      ghost var want := PivotRowMap(points, pivots, ratioToSrc);
      ListsButStart(want, PivotIndex, SamePivotRow);
      rows := [];
      var todo := pivots;
      while todo != {}
        invariant ListsBut(want, rows, todo, PivotIndex, SamePivotRow)
        decreases |todo|
      {
        ghost var some := SomeElement(todo);
        var k :| k in todo;
        var row := PivotRowOf(k, points[k], ratioToSrc);
        ListsButStep(want, rows, todo, row, PivotIndex, SamePivotRow);
        rows := rows + [row];
        todo := todo - {k};
      }
      ListsButDone(want, rows, PivotIndex, SamePivotRow);
      ExportsPivotsOfListing(GraphOf(), ratioToSrc, rows);
    }

    /**
     * export_all after its dialog: with an image, the document listing every point (in
     * source-image coordinates), line, angle, circle and pivot; without one, nothing.
     */
    method ExportAll() returns (d: Option<Doc>)
      ensures d.Some? <==> imageLoaded
      ensures d.Some? ==> ExportsAll(GraphOf(), ratioToSrc, d.value)
    {
      if !imageLoaded {
        return None;
      }
      var pointRows := PointRows();
      var lineRows := ListPairs(lines);
      var angleRows := ListTriples(angles);
      var circleRows := ListPairs(circles);
      var pivotList := ListSet(pivots);
      d := Some(Full(pointRows, lineRows, angleRows, circleRows, pivotList));
    }

    /** export_pivots after its dialog: with an image, the document of the pivots. */
    method ExportPivots() returns (d: Option<Doc>)
      requires pivots <= points.Keys
      ensures d.Some? <==> imageLoaded
      ensures d.Some? ==> ExportsPivots(GraphOf(), ratioToSrc, d.value)
    {
      if !imageLoaded {
        return None;
      }
      var rows := PivotRows();
      d := Some(PivotsOnly(rows));
    }

    /** The point loop of import_labels. */
    method StorePointRows(rows: seq<PointRow>)
      requires ratioToSrc != 0.0
      modifies this`points
      ensures points == Fold(old(points), rows, PointIndex, PointOfRow(ratioToSrc))
    {
      ghost var p0 := points;
      for j := 0 to |rows|
        invariant points == Fold(p0, rows[..j], PointIndex, PointOfRow(ratioToSrc))
      {
        FoldSnoc(p0, rows, j, PointIndex, PointOfRow(ratioToSrc));
        var r := rows[j];
        points := points[r.index := Point(ImgPoint(Pos(r.x, r.y), ratioToSrc), r.color)];
      }
      assert rows[..|rows|] == rows;
    }

    /** The pivot loop of import_labels for a pivots document: points in the current colour. */
    method StorePivotRows(rows: seq<PivotRow>)
      requires ratioToSrc != 0.0
      modifies this`points, this`pivots
      ensures points == Fold(old(points), rows, PivotIndex, PointOfPivot(ratioToSrc, color))
      ensures pivots == old(pivots) + KeysOf(rows, PivotIndex)
    {
      ghost var p0, v0 := points, pivots;
      for j := 0 to |rows|
        invariant points == Fold(p0, rows[..j], PivotIndex, PointOfPivot(ratioToSrc, color))
        invariant pivots == v0 + KeysOf(rows[..j], PivotIndex)
      {
        FoldSnoc(p0, rows, j, PivotIndex, PointOfPivot(ratioToSrc, color));
        assert rows[..j + 1] == rows[..j] + [rows[j]];
        KeysOfSnoc(rows[..j], rows[j], PivotIndex);
        var r := rows[j];
        points := points[r.index := Point(ImgPoint(Pos(r.x, r.y), ratioToSrc), color)];
        pivots := pivots + {r.index};
      }
      assert rows[..|rows|] == rows;
    }

    /** The line loop of import_labels: each row stored under its canonical key. */
    method StoreLineRows(rows: seq<PairRow>)
      modifies this`lines
      ensures lines == Fold(old(lines), rows, RowLineKey, PairColor)
    {
      ghost var l0 := lines;
      for j := 0 to |rows|
        invariant lines == Fold(l0, rows[..j], RowLineKey, PairColor)
      {
        FoldSnoc(l0, rows, j, RowLineKey, PairColor);
        var r := rows[j];
        lines := lines[LineKey(r.a, r.b) := r.color];
      }
      assert rows[..|rows|] == rows;
    }

    /** The angle loop of import_labels: each row stored under its canonical key. */
    method StoreAngleRows(rows: seq<AngleRow>)
      modifies this`angles
      ensures angles == Fold(old(angles), rows, RowAngleKey, AngleColor)
    {
      ghost var a0 := angles;
      for j := 0 to |rows|
        invariant angles == Fold(a0, rows[..j], RowAngleKey, AngleColor)
      {
        FoldSnoc(a0, rows, j, RowAngleKey, AngleColor);
        var r := rows[j];
        angles := angles[AngleKey(r.a, r.b, r.c) := r.color];
      }
      assert rows[..|rows|] == rows;
    }

    /** The circle loop of import_labels: each row stored as (centre, rim). */
    method StoreCircleRows(rows: seq<PairRow>)
      modifies this`circles
      ensures circles == Fold(old(circles), rows, RowPair, PairColor)
    {
      ghost var c0 := circles;
      for j := 0 to |rows|
        invariant circles == Fold(c0, rows[..j], RowPair, PairColor)
      {
        FoldSnoc(c0, rows, j, RowPair, PairColor);
        var r := rows[j];
        circles := circles[(r.a, r.b) := r.color];
      }
      assert rows[..|rows|] == rows;
    }

    /**
     * import_labels after its dialog: `doc` is the document read (None: cancelled, unreadable
     * or empty). With an image and a document, the labels and selection are reset and the
     * document's rows stored; otherwise nothing changes.
     */
    method ImportLabels(doc: Option<Doc>)
      requires ratioToSrc != 0.0
      modifies this`points, this`lines, this`angles, this`circles, this`pivots
      modifies this`indexA, this`indexB, this`indexC, this`hover, this`highlights
      ensures imageLoaded && doc.Some? ==>
                GraphOf() == Imported(doc.value, ratioToSrc, color) && TrackerOf() == Idle
      ensures !(imageLoaded && doc.Some?) ==> StateOf() == old(StateOf())
      ensures old(Consistent()) && imageLoaded && doc.Some? && Annotation.Valid(Imported(doc.value, ratioToSrc, color)) ==>
                Consistent()
    {
      if !imageLoaded || doc.None? {
        return;
      }
      ResetExceptImg();
      StoreDoc(doc.value);
      if Annotation.Valid(GraphOf()) {
        IdleIsInv(GraphOf(), mode);
      }
    }

    /** The body of import_labels once the labels are reset: the rows of each kind in turn. */
    method StoreDoc(d: Doc)
      requires ratioToSrc != 0.0 && GraphOf() == EmptyGraph
      modifies this`points, this`lines, this`angles, this`circles, this`pivots
      ensures GraphOf() == Imported(d, ratioToSrc, color)
    {
      match d {
        case PivotsOnly(rows) =>
          StorePivotRows(rows);
        case Full(pointRows, lineRows, angleRows, circleRows, pivotList) =>
          StorePointRows(pointRows);
          StoreLineRows(lineRows);
          StoreAngleRows(angleRows);
          StoreCircleRows(circleRows);
          pivots := set x | x in pivotList;
      }
    }

    /** The if-chain of eventFilter over the modes. */
    method Dispatch(e: Event, h: Helpers)
      requires imageLoaded
      modifies this`points, this`lines, this`angles, this`circles, this`pivots
      modifies this`indexA, this`indexB, this`indexC, this`hover, this`highlights
      ensures StateOf() == Handle(old(StateOf()), mode, e, color, h)
    {
      match mode {
        case DefaultMode =>
        case PointMode => HandlePointMode(e);
        case LineMode => HandleLineMode(e);
        case AngleMode => HandleAngleMode(e);
        case CircleMode => HandleCircleMode(e, h);
        case MidpointMode => HandleMidpointMode(e, h);
        case VerticalMode => HandleVerticalMode(e, h);
        case DragMode => HandleDragMode(e, h);
        case ErasePointMode => HandleErasePointMode(e);
      }
    }

    /**
     * eventFilter on a press, move or release at `pos`: with an image, the current mode's
     * handler sees the hit test `e.hit` at `pos`, and a move then hovers over the hit test `hv`
     * on the points the handler left. Without an image nothing happens.
     */
    method HandleEvent(kind: Kind, button: Button, pos: Pos, h: Helpers) returns (e: Event, hv: Option<int>)
      modifies this`points, this`lines, this`angles, this`circles, this`pivots
      modifies this`indexA, this`indexB, this`indexC, this`hover, this`highlights
      ensures e.kind == kind && e.button == button && e.pos == pos
      ensures old(imageLoaded) ==> IsHit(old(points), pos, h, e.hit)
      ensures old(imageLoaded) && kind == Move ==> IsHit(points, pos, h, hv)
      ensures StateOf() == if old(imageLoaded) then Modes.HandleEvent(old(StateOf()), mode, e, hv, color, h) else old(StateOf())
      ensures old(Consistent()) ==> Consistent()
    {
      var hit := GetPointIndex(pos, h);
      e, hv := Event(kind, button, pos, hit), None;
      if !imageLoaded {
        return;
      }
      ghost var s0 := StateOf();
      hv := DispatchAndHover(e, h);
      if Inv(s0, mode) {
        HitIsOk(s0.g, e, h);
        HandleEventKeepsInv(s0, mode, e, hv, color, h);
      }
    }

    /** The handler of the current mode, then on a move the hover of handle_highlight_move. */
    method DispatchAndHover(e: Event, h: Helpers) returns (hv: Option<int>)
      requires imageLoaded
      modifies this`points, this`lines, this`angles, this`circles, this`pivots
      modifies this`indexA, this`indexB, this`indexC, this`hover, this`highlights
      ensures e.kind == Move ==> IsHit(points, e.pos, h, hv)
      ensures StateOf() == Modes.HandleEvent(old(StateOf()), mode, e, hv, color, h)
    {
      Dispatch(e, h);
      hv := None;
      if e.kind == Move {
        hv := GetPointIndex(e.pos, h);
        hover := hv;
      }
    }
  }

  /** The line and circle loops of export_all: one row per entry. */
  method ListPairs(m: map<(int, int), Color>) returns (rows: seq<PairRow>)
    ensures Lists(m, rows, RowPair, PairColor)
  {
    ListsButStart(m, RowPair, PairColor);
    rows := [];
    var todo := m.Keys;
    while todo != {}
      invariant ListsBut(m, rows, todo, RowPair, PairColor)
      decreases |todo|
    {
      var k :| k in todo;
      var row := PairRow(k.0, k.1, m[k]);
      ListsButStep(m, rows, todo, row, RowPair, PairColor);
      rows := rows + [row];
      todo := todo - {k};
    }
    ListsButDone(m, rows, RowPair, PairColor);
  }

  /** The angle loop of export_all: one row per angle. */
  method ListTriples(m: map<(int, int, int), Color>) returns (rows: seq<AngleRow>)
    ensures Lists(m, rows, RowTriple, AngleColor)
  {
    ListsButStart(m, RowTriple, AngleColor);
    rows := [];
    var todo := m.Keys;
    while todo != {}
      invariant ListsBut(m, rows, todo, RowTriple, AngleColor)
      decreases |todo|
    {
      var k :| k in todo;
      var row := AngleRow(k.0, k.1, k.2, m[k]);
      ListsButStep(m, rows, todo, row, RowTriple, AngleColor);
      rows := rows + [row];
      todo := todo - {k};
    }
    ListsButDone(m, rows, RowTriple, AngleColor);
  }

  /** list(self.pivots): the elements of the set, each once. */
  method ListSet(s: set<int>) returns (l: seq<int>)
    ensures (set x | x in l) == s
    ensures forall i, j | 0 <= i < j < |l| :: l[i] != l[j]
  {
    l := [];
    var todo := s;
    while todo != {}
      invariant todo <= s
      invariant (set x | x in l) == s - todo
      invariant forall i, j | 0 <= i < j < |l| :: l[i] != l[j]
      decreases |todo|
    {
      ghost var some := SomeElement(todo);
      var k :| k in todo;
      assert k !in l;
      assert (set x | x in l + [k]) == (set x | x in l) + {k};
      l := l + [k];
      todo := todo - {k};
    }
  }

  /** erase_highlight's loop over the slots, as a function of the slots seen so far. */
  function EraseAll(g: Graph, marks: seq<Option<int>>): (r: Graph)
    ensures r.points.Keys <= g.points.Keys
  {
    if marks == [] then g else EraseMarked(EraseAll(g, marks[..|marks| - 1]), marks[|marks| - 1])
  }

  /** Over the three slots the loop is erase_highlight's erasure. */
  lemma EraseAllOfSlots(s: State)
    ensures EraseAll(s.g, [s.t.slots.a, s.t.slots.b, s.t.slots.c]) == Modes.EraseHighlight(s).g
  {
    var sl := s.t.slots;
    var marks := [sl.a, sl.b, sl.c];
    assert marks[..2] == [sl.a, sl.b];
    assert [sl.a, sl.b][..1] == [sl.a];
    assert [sl.a][..0] == [];
    assert EraseAll(s.g, [sl.a]) == EraseMarked(s.g, sl.a);
    assert EraseAll(s.g, [sl.a, sl.b]) == EraseMarked(EraseMarked(s.g, sl.a), sl.b);
  }

  /**
   * A relabel from the right-button menu, where nothing is selected, keeps the invariant on
   * a graph without self-lines.
   */
  lemma RelabelKeepsInv(s: State, mode: Mode, r: Graph, i: int, n: int)
    requires Inv(s, mode) && s.t.slots == NoSlots && Simple(s.g)
    requires i in s.g.points && n !in s.g.points && n > 0 && Moved(s.g, r, i, n)
    ensures Inv(State(r, s.t), mode)
  {
    MovedKeepsValid(s.g, r, i, n);
    NoSelectionKeepsInv(s, mode, r);
  }
}
