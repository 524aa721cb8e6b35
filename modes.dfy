/**
 * The label modes and their mouse handlers (LabelApp.handle_*_mode, eventFilter, erase_highlight
 * and switch_mode) as functions from the graph and selection before an event to the graph and
 * selection after it. The methods of App.LabelApp that change the fields in place are proved to
 * compute these functions; the lemmas here are what the gestures guarantee.
 *
 * The handlers run only with an image loaded (eventFilter returns early otherwise), so the image
 * guard of trigger_index reduces to "there are points" and add_new_point always stores a point.
 */
module Modes {
  import opened Optional
  import opened Keys
  import opened Geometry
  import opened Annotation
  import opened Selection

  /** LabelMode; DragMode is MOVE_POINT_MODE. */
  datatype Mode =
    | DefaultMode | PointMode | LineMode | AngleMode | CircleMode
    | MidpointMode | VerticalMode | DragMode | ErasePointMode

  datatype Kind = Press | Move | Release

  datatype Button = LeftButton | RightButton | OtherButton

  /**
   * A mouse event on the image view, with the result `hit` of the hit test get_point_index at
   * its position before the handler runs.
   */
  datatype Event = Event(kind: Kind, button: Button, pos: Pos, hit: Option<int>)

  datatype State = State(g: Graph, t: Tracker)

  /** get_point_index only ever answers an index of a point; point indices are positive. */
  predicate HitOk(e: Event, g: Graph) {
    e.hit.None? || (e.hit.value in g.points && e.hit.value > 0)
  }

  /**
   * `r` is an answer get_point_index may give at `pos`: the nearest point closer than the hit
   * radius, or nothing when no point is that close. Points at the same distance may tie, and the
   * scan then keeps whichever comes first.
   */
  predicate IsHit(points: map<int, Point>, pos: Pos, h: Helpers, r: Option<int>) {
    match r
    case None => forall j | j in points :: h.distance(pos, points[j].pos) >= h.hitRadius
    case Some(k) =>
      && k in points
      && h.distance(pos, points[k].pos) < h.hitRadius
      && forall j | j in points :: h.distance(pos, points[k].pos) <= h.distance(pos, points[j].pos)
  }

  /** On a valid graph a hit test answers a point index, which is positive. */
  lemma HitIsOk(g: Graph, e: Event, h: Helpers)
    requires Valid(g) && IsHit(g.points, e.pos, h, e.hit)
    ensures HitOk(e, g)
  {
  }

  /**
   * The hit test is determined up to ties: two answers agree on whether there is a hit, and two
   * hits are at the same distance.
   */
  lemma HitsAgree(points: map<int, Point>, pos: Pos, h: Helpers, r1: Option<int>, r2: Option<int>)
    requires IsHit(points, pos, h, r1) && IsHit(points, pos, h, r2)
    ensures r1.None? <==> r2.None?
    ensures r1.Some? && r2.Some? ==>
      h.distance(pos, points[r1.value].pos) == h.distance(pos, points[r2.value].pos)
  {
    if r1.Some? && r2.Some? {
      assert h.distance(pos, points[r1.value].pos) <= h.distance(pos, points[r2.value].pos);
      assert h.distance(pos, points[r2.value].pos) <= h.distance(pos, points[r1.value].pos);
    }
  }

  predicate LeftPress(e: Event) {
    e.kind == Press && e.button == LeftButton
  }

  /** `abs(self.index_x)` and `self.index_x` on a slot the code knows to be filled. */
  function AbsOf(o: Option<int>): int {
    if o.Some? then Abs(o.value) else 0
  }

  function Val(o: Option<int>): int {
    if o.Some? then o.value else 0
  }

  /** `self.points[k][0]` on an index the code knows to be a point. */
  function PosOf(g: Graph, k: int): Pos {
    if k in g.points then g.points[k].pos else Pos(0.0, 0.0)
  }

  /** trigger_index on the state, with its guard: an image is loaded, so only the points count. */
  function Trig(s: State, index: Option<int>): State {
    s.(t := Trigger(s.t, index, s.g.points != map[]))
  }

  /** `index if index else -self.add_new_point(point)`: the hit, or a new point marked negative. */
  function HitOrNew(s: State, e: Event, color: Color): (r: (State, int))
    ensures r.0.t == s.t
  {
    if Truthy(e.hit) then (s, e.hit.value)
    else
      var (g', k) := AddPoint(s.g, e.pos, color);
      (s.(g := g'), -k)
  }

  // ---------------------------------------------------------------- the handlers

  /** handle_point_mode: recolour the hit point, or add a point. */
  function PointHandler(s: State, e: Event, color: Color): State {
    if !LeftPress(e) then s
    else if Truthy(e.hit) && e.hit.value in s.g.points then s.(g := Recolor(s.g, e.hit.value, color))
    else s.(g := AddPoint(s.g, e.pos, color).0)
  }

  /** handle_line_mode: the second pick adds the line and clears, hovering on its second end. */
  function LineHandler(s: State, e: Event, color: Color): State {
    if !LeftPress(e) then s
    else
      var (s1, idx) := HitOrNew(s, e, color);
      var s2 := Trig(s1, Some(idx));
      if Count(s2.t.slots) == 2 then
        var a, b := AbsOf(s2.t.slots.a), AbsOf(s2.t.slots.b);
        State(AddLine(s2.g, a, b, color), EndTriggerWith(Some(b)))
      else s2
  }

  /**
   * handle_angle_mode: two picks must form a line or only the latest stays; at the third pick the
   * angle is added when (b, c) is a line, otherwise only the third pick stays.
   */
  function AngleHandler(s: State, e: Event, color: Color): State {
    if !LeftPress(e) then s
    else
      var s1 := Trig(s, e.hit);
      var sl := s1.t.slots;
      if Count(sl) == 2 && LineKey(Val(sl.a), Val(sl.b)) !in s1.g.lines then Trig(s1, sl.a)
      else if Count(sl) == 3 then
        if LineKey(Val(sl.b), Val(sl.c)) in s1.g.lines then
          State(AddAngle(s1.g, Val(sl.a), Val(sl.b), Val(sl.c), color), EndTriggerWith(sl.c))
        else
          Trig(State(s1.g, Idle), sl.c)
      else s1
  }

  /** The rim point of a new circle: config.eps * 2 to the right of and below the press. */
  function RimPos(p: Pos, h: Helpers): Pos {
    Pos(p.x + 2.0 * h.eps, p.y + 2.0 * h.eps)
  }

  /**
   * handle_circle_mode: a first press picks or creates the centre, creates the rim point and the
   * circle; moves drag the rim while the image bounds allow; the next press ends the gesture.
   */
  function CircleHandler(s: State, e: Event, color: Color, h: Helpers): State {
    if LeftPress(e) then
      if Count(s.t.slots) == 0 then
        var (s1, idx) := HitOrNew(s, e, color);
        WithRim(Trig(s1, Some(idx)), e.pos, color, h)
      else if Count(s.t.slots) == 2 then
        s.(t := EndTriggerWith(Some(AbsOf(s.t.slots.b))))
      else s
    else if e.kind == Move && Count(s.t.slots) == 2 && h.inBounds(e.pos) then
      var b := AbsOf(s.t.slots.b);
      if b in s.g.points then s.(g := MovePoint(s.g, b, e.pos)) else s
    else s
  }

  /** The second half of the first press of circle mode: a new rim point, then the circle. */
  function WithRim(s2: State, p: Pos, color: Color, h: Helpers): State {
    var (g3, r) := AddPoint(s2.g, RimPos(p, h), color);
    var s3 := Trig(State(g3, s2.t), Some(-r));
    s3.(g := AddCircle(s3.g, AbsOf(s3.t.slots.a), AbsOf(s3.t.slots.b), color))
  }

  /** handle_midpoint_mode: two picks on a line add its midpoint; two picks off a line keep the latest. */
  function MidpointHandler(s: State, e: Event, color: Color, h: Helpers): State {
    if !LeftPress(e) then s
    else
      var s1 := Trig(s, e.hit);
      var sl := s1.t.slots;
      if Count(sl) == 2 then
        if LineKey(Val(sl.a), Val(sl.b)) in s1.g.lines then
          var m := h.midpoint(PosOf(s1.g, Val(sl.a)), PosOf(s1.g, Val(sl.b)));
          State(AddPoint(s1.g, m, color).0, EndTriggerWith(sl.b))
        else Trig(s1, sl.a)
      else s1
  }

  /** The lines the non-collinear case of handle_vertical_mode adds to the new foot point d. */
  function FootLines(g: Graph, sl: Slots, color: Color, h: Helpers): Graph {
    var a, b, c := PosOf(g, Val(sl.a)), PosOf(g, Val(sl.b)), PosOf(g, Val(sl.c));
    var d := h.footPoint(a, b, c);
    var (g1, kd) := AddPoint(g, d, color);
    var g2 := if !h.onSegment(a, b, d)
      then AddLine(g1, if h.distance(a, d) < h.distance(b, d) then Val(sl.a) else Val(sl.b), kd, color)
      else g1;
    AddLine(g2, Val(sl.c), kd, color)
  }

  /**
   * handle_vertical_mode: a line (a, b) and a third point c. When c is on the line, either (b, c)
   * is a line and the pick of a is dropped, or only c stays; otherwise the foot of c on ab is
   * added, with the segment extension to it when it falls outside ab and the perpendicular to c.
   */
  function VerticalHandler(s: State, e: Event, color: Color, h: Helpers): State {
    if !LeftPress(e) then s
    else
      var s1 := Trig(s, e.hit);
      var sl := s1.t.slots;
      if Count(sl) == 2 then
        if LineKey(Val(sl.a), Val(sl.b)) !in s1.g.lines then Trig(s1, sl.a) else s1
      else if Count(sl) == 3 then VerticalThird(s1, color, h)
      else s1
  }

  /** The third pick of handle_vertical_mode, on the state after it was triggered. */
  function VerticalThird(s1: State, color: Color, h: Helpers): State {
    var sl := s1.t.slots;
    var a, b, c := PosOf(s1.g, Val(sl.a)), PosOf(s1.g, Val(sl.b)), PosOf(s1.g, Val(sl.c));
    if h.collinear(a, b, c) then
      if LineKey(Val(sl.b), Val(sl.c)) in s1.g.lines then Trig(s1, sl.a)
      else Trig(State(s1.g, Idle), sl.c)
    else
      State(FootLines(s1.g, sl, color, h), EndTriggerWith(sl.c))
  }

  /** handle_drag_mode: press picks, move drags within the bounds, release drops the pick. */
  function DragHandler(s: State, e: Event, h: Helpers): State {
    var n := Count(s.t.slots);
    if LeftPress(e) && n == 0 then Trig(s, e.hit)
    else if e.kind == Move && n == 1 && h.inBounds(e.pos) then
      var a := Val(s.t.slots.a);
      if a in s.g.points then s.(g := MovePoint(s.g, a, e.pos)) else s
    else if e.kind == Release && n == 1 then Trig(s, s.t.slots.a)
    else s
  }

  /** handle_erase_point_mode: a press erases the hit point. */
  function EraseHandler(s: State, e: Event): State {
    if LeftPress(e) then s.(g := Erase(s.g, e.hit)) else s
  }

  /** The handler eventFilter calls for the current mode. */
  function Handle(s: State, mode: Mode, e: Event, color: Color, h: Helpers): State {
    match mode
    case DefaultMode => s
    case PointMode => PointHandler(s, e, color)
    case LineMode => LineHandler(s, e, color)
    case AngleMode => AngleHandler(s, e, color)
    case CircleMode => CircleHandler(s, e, color, h)
    case MidpointMode => MidpointHandler(s, e, color, h)
    case VerticalMode => VerticalHandler(s, e, color, h)
    case DragMode => DragHandler(s, e, h)
    case ErasePointMode => EraseHandler(s, e)
  }

  /**
   * eventFilter with an image loaded: the mode's handler, then on a move handle_highlight_move
   * stores `hover`, the hit test at the event's position on the points the handler left.
   */
  function HandleEvent(s: State, mode: Mode, e: Event, hover: Option<int>, color: Color, h: Helpers): State {
    var s1 := Handle(s, mode, e, color, h);
    if e.kind == Move then s1.(t := s1.t.(hover := hover)) else s1
  }

  /** One slot of erase_highlight: a negative value erases the point it marks. */
  function EraseMarked(g: Graph, o: Option<int>): Graph {
    if Truthy(o) && o.value < 0 then Erase(g, Some(-o.value)) else g
  }

  /** erase_highlight: erase the points created during the gesture, then clear the selection. */
  function EraseHighlight(s: State): (r: State)
    ensures r.t == Idle
  {
    var sl := s.t.slots;
    State(EraseMarked(EraseMarked(EraseMarked(s.g, sl.a), sl.b), sl.c), Idle)
  }

  // ---------------------------------------------------------------- the gesture invariant

  predicate AllPositive(sl: Slots) {
    forall o | o in Values(sl) && o.Some? :: o.value > 0
  }

  /** What each mode leaves in the slots between two events. */
  predicate ModeInv(mode: Mode, s: State) {
    var sl, n := s.t.slots, Count(s.t.slots);
    match mode
      case DefaultMode | PointMode | ErasePointMode => n == 0
      case LineMode => n <= 1
      case CircleMode => n == 0 || n == 2
      case MidpointMode | DragMode => AllPositive(sl) && n <= 1
      case AngleMode | VerticalMode =>
        AllPositive(sl) && n <= 2 && (n == 2 ==> LineKey(Val(sl.a), Val(sl.b)) in s.g.lines)
  }

  /** The state between events: a valid graph, a selection of its points, and the mode's shape. */
  ghost predicate Inv(s: State, mode: Mode) {
    Valid(s.g) && Tracks(s.t, s.g.points.Keys) && ModeInv(mode, s)
  }

  /** With only positive slots, a value no slot holds is a point no slot holds. */
  lemma PositiveIsFresh(t: Tracker, x: int)
    requires Packed(t.slots) && AllPositive(t.slots) && x > 0 && Some(x) !in Values(t.slots)
    ensures Abs(x) !in AbsSet(t.slots)
  {
  }

  /** The selection invariant survives a change of graph that keeps every selected point. */
  lemma TracksGrow(t: Tracker, keys: set<int>, keys': set<int>)
    requires Tracks(t, keys) && keys <= keys'
    ensures Tracks(t, keys')
  {
  }

  /** Trigger of a hit point, in a mode whose slots are positive. */
  lemma TrigPositive(s: State, hit: Option<int>)
    requires Tracks(s.t, s.g.points.Keys) && AllPositive(s.t.slots)
    requires hit.None? || (hit.value in s.g.points && hit.value > 0)
    requires Truthy(hit) && hit !in Values(s.t.slots) ==> Count(s.t.slots) < 3
    ensures var r := Trig(s, hit);
      && Tracks(r.t, s.g.points.Keys) && AllPositive(r.t.slots) && r.g == s.g
      && (Truthy(hit) && hit !in Values(s.t.slots) ==> Occupied(r.t.slots) == Occupied(s.t.slots) + [hit.value])
      && (Truthy(hit) && hit in Values(s.t.slots) ==> Count(r.t.slots) == Count(s.t.slots) - 1)
      && (!Truthy(hit) ==> r == s)
  {
    if Truthy(hit) {
      var x := hit.value;
      assert s.g.points != map[] by { assert x in s.g.points; }
      if Some(x) !in Values(s.t.slots) {
        PositiveIsFresh(s.t, x);
        TriggerAppends(s.t, x, true);
      } else {
        TrigRemovesSelected(s.t, x);
      }
      TriggerKeepsTracks(s.t, x, s.g.points.Keys);
      PositiveAfterTrigger(s.t, x, s.g.points.Keys);
    }
  }

  /** A selected value sits at some position of the list, and nowhere else. */
  lemma TrigRemovesSelected(t: Tracker, x: int)
    requires Packed(t.slots) && x != 0 && Some(x) in Values(t.slots)
    requires forall i, j | 0 <= i < j < |Occupied(t.slots)| :: Abs(Occupied(t.slots)[i]) != Abs(Occupied(t.slots)[j])
    ensures var r := Trigger(t, Some(x), true); Count(r.slots) == Count(t.slots) - 1
  {
    var sl := t.slots;
    var j := if sl.a == Some(x) then 0 else if sl.b == Some(x) then |Kept(sl.a)| else |Kept(sl.a)| + |Kept(sl.b)|;
    assert 0 <= j < Count(sl) && Occupied(sl)[j] == x;
    forall m | 0 <= m < Count(sl) && m != j
      ensures Occupied(sl)[m] != x
    {
      assert Abs(Occupied(sl)[m]) != Abs(Occupied(sl)[j]);
    }
    TriggerRemoves(t, x, true, j);
  }

  /** Triggering a positive value keeps every slot positive. */
  lemma PositiveAfterTrigger(t: Tracker, x: int, keys: set<int>)
    requires x > 0 && AllPositive(t.slots) && Packed(t.slots)
    requires Tracks(Trigger(t, Some(x), true), keys)
    ensures AllPositive(Trigger(t, Some(x), true).slots)
  {
    var r := Trigger(t, Some(x), true);
    forall o | o in Values(r.slots) && o.Some?
      ensures o.value > 0
    {
      assert o.value in Occupied(r.slots);
    }
  }

  lemma PointModeKeepsInv(s: State, e: Event, color: Color)
    requires Inv(s, PointMode)
    ensures Inv(PointHandler(s, e, color), PointMode)
  {
    if LeftPress(e) {
      if Truthy(e.hit) && e.hit.value in s.g.points {
        InPlaceUpdatesKeepValid(s.g, e.hit.value, e.pos, color);
      } else {
        AddPointKeepsValid(s.g, e.pos, color);
      }
    }
  }

  lemma LineKeepsValid(s: State, e: Event, color: Color)
    requires Valid(s.g)
    ensures var r := LineHandler(s, e, color); Valid(r.g) && s.g.points.Keys <= r.g.points.Keys
  {
    if LeftPress(e) {
      var (s1, idx) := HitOrNew(s, e, color);
      AddPointKeepsValid(s.g, e.pos, color);
      var s2 := Trig(s1, Some(idx));
      AddLineKeepsValid(s2.g, AbsOf(s2.t.slots.a), AbsOf(s2.t.slots.b), color);
    }
  }

  lemma LineKeepsTracks(s: State, e: Event, color: Color)
    requires Valid(s.g) && Tracks(s.t, s.g.points.Keys) && ModeInv(LineMode, s) && HitOk(e, s.g) && LeftPress(e)
    ensures var r := LineHandler(s, e, color); Tracks(r.t, r.g.points.Keys) && ModeInv(LineMode, r)
  {
    var (s1, idx) := HitOrNew(s, e, color);
    if !Truthy(e.hit) {
      AddPointKeepsValid(s.g, e.pos, color);
    }
    assert s.g.points.Keys <= s1.g.points.Keys && Abs(idx) in s1.g.points && idx != 0 && s1.t == s.t;
    var s2 := Trig(s1, Some(idx));
    var r := LineHandler(s, e, color);
    if Count(s2.t.slots) == 2 {
      var b := AbsOf(s2.t.slots.b);
      assert r == State(AddLine(s2.g, AbsOf(s2.t.slots.a), b, color), EndTriggerWith(Some(b)));
      LineEnded(r, Some(b));
    } else {
      assert r == s2;
      LinePickKept(s, s1, idx);
    }
  }

  /** The second pick of line mode ends the gesture with nothing selected. */
  lemma LineEnded(r: State, b: Option<int>)
    requires r.t == EndTriggerWith(b)
    ensures Tracks(r.t, r.g.points.Keys) && ModeInv(LineMode, r)
  {
    TracksEmpty(r.t, r.g.points.Keys);
  }

  /** A pick of line mode that does not complete a line leaves at most one slot filled. */
  lemma LinePickKept(s: State, s1: State, x: int)
    requires Tracks(s.t, s.g.points.Keys) && Count(s.t.slots) <= 1 && s1.t == s.t
    requires s.g.points.Keys <= s1.g.points.Keys && Abs(x) in s1.g.points && x != 0
    requires Count(Trig(s1, Some(x)).t.slots) != 2
    ensures var s2 := Trig(s1, Some(x)); Tracks(s2.t, s2.g.points.Keys) && ModeInv(LineMode, s2)
  {
    TracksGrow(s.t, s.g.points.Keys, s1.g.points.Keys);
    assert s1.g.points != map[] by { assert Abs(x) in s1.g.points; }
    TriggerKeepsTracks(s1.t, x, s1.g.points.Keys);
  }

  lemma LineModeKeepsInv(s: State, e: Event, color: Color)
    requires Inv(s, LineMode) && HitOk(e, s.g)
    ensures Inv(LineHandler(s, e, color), LineMode)
  {
    LineKeepsValid(s, e, color);
    if LeftPress(e) {
      LineKeepsTracks(s, e, color);
    }
  }

  lemma AngleKeepsValid(s: State, e: Event, color: Color)
    requires Valid(s.g)
    ensures Valid(AngleHandler(s, e, color).g)
  {
    if LeftPress(e) {
      var s1 := Trig(s, e.hit);
      var sl := s1.t.slots;
      AddAngleKeepsValid(s1.g, Val(sl.a), Val(sl.b), Val(sl.c), color);
    }
  }

  lemma AngleKeepsTracks(s: State, e: Event, color: Color)
    requires Tracks(s.t, s.g.points.Keys) && ModeInv(AngleMode, s) && HitOk(e, s.g) && LeftPress(e)
    ensures var r := AngleHandler(s, e, color); Tracks(r.t, r.g.points.Keys) && ModeInv(AngleMode, r)
  {
    TrigPositive(s, e.hit);
    var s1 := Trig(s, e.hit);
    var sl := s1.t.slots;
    var r := AngleHandler(s, e, color);
    if Count(sl) == 2 && LineKey(Val(sl.a), Val(sl.b)) !in s1.g.lines {
      assert r == Trig(s1, sl.a);
      AngleDropsFirst(s1);
    } else if Count(sl) == 3 {
      if LineKey(Val(sl.b), Val(sl.c)) in s1.g.lines {
        assert r == State(AddAngle(s1.g, Val(sl.a), Val(sl.b), Val(sl.c), color), EndTriggerWith(sl.c));
        AngleEnded(r, sl.c);
      } else {
        assert r == Trig(State(s1.g, Idle), sl.c);
        AngleKeepsThird(s1);
      }
    } else {
      assert r == s1;
      AngleShapeKept(s1);
    }
  }

  /** Two picks of angle mode that do not form a line: only the second stays. */
  lemma AngleDropsFirst(s1: State)
    requires Tracks(s1.t, s1.g.points.Keys) && AllPositive(s1.t.slots) && Count(s1.t.slots) == 2
    ensures var r := Trig(s1, s1.t.slots.a); Tracks(r.t, r.g.points.Keys) && ModeInv(AngleMode, r)
  {
    var sl := s1.t.slots;
    assert Occupied(sl)[0] == Val(sl.a);
    TrigPositive(s1, sl.a);
  }

  /** Three picks of angle mode with (b, c) not a line: only the third stays. */
  lemma AngleKeepsThird(s1: State)
    requires Tracks(s1.t, s1.g.points.Keys) && AllPositive(s1.t.slots) && Count(s1.t.slots) == 3
    ensures var r := Trig(State(s1.g, Idle), s1.t.slots.c); Tracks(r.t, r.g.points.Keys) && ModeInv(AngleMode, r)
  {
    var sl := s1.t.slots;
    assert Val(sl.c) in s1.g.points by { assert Occupied(sl)[2] == Val(sl.c); }
    TracksEmpty(Idle, s1.g.points.Keys);
    TrigPositive(State(s1.g, Idle), sl.c);
  }

  /** Three picks of angle mode with (b, c) a line: the gesture ends with nothing selected. */
  lemma AngleEnded(r: State, c: Option<int>)
    requires r.t == EndTriggerWith(c)
    ensures Tracks(r.t, r.g.points.Keys) && ModeInv(AngleMode, r)
  {
    TracksEmpty(r.t, r.g.points.Keys);
  }

  /** Angle mode after a pick that leaves at most two slots, the two forming a line. */
  lemma AngleShapeKept(s1: State)
    requires Tracks(s1.t, s1.g.points.Keys) && AllPositive(s1.t.slots) && Count(s1.t.slots) <= 2
    requires Count(s1.t.slots) == 2 ==> LineKey(Val(s1.t.slots.a), Val(s1.t.slots.b)) in s1.g.lines
    ensures Tracks(s1.t, s1.g.points.Keys) && ModeInv(AngleMode, s1)
  {
  }

  lemma AngleModeKeepsInv(s: State, e: Event, color: Color)
    requires Inv(s, AngleMode) && HitOk(e, s.g)
    ensures Inv(AngleHandler(s, e, color), AngleMode)
  {
    AngleKeepsValid(s, e, color);
    if LeftPress(e) {
      AngleKeepsTracks(s, e, color);
    }
  }

  lemma CircleKeepsValid(s: State, e: Event, color: Color, h: Helpers)
    requires Valid(s.g)
    ensures Valid(CircleHandler(s, e, color, h).g)
  {
    if LeftPress(e) && Count(s.t.slots) == 0 {
      var (s1, idx) := HitOrNew(s, e, color);
      AddPointKeepsValid(s.g, e.pos, color);
      var s2 := Trig(s1, Some(idx));
      var (g3, r) := AddPoint(s2.g, RimPos(e.pos, h), color);
      AddPointKeepsValid(s2.g, RimPos(e.pos, h), color);
      var s3 := Trig(State(g3, s2.t), Some(-r));
      AddCircleKeepsValid(g3, AbsOf(s3.t.slots.a), AbsOf(s3.t.slots.b), color);
    } else if !LeftPress(e) && e.kind == Move && Count(s.t.slots) == 2 && h.inBounds(e.pos) {
      var b := AbsOf(s.t.slots.b);
      if b in s.g.points {
        InPlaceUpdatesKeepValid(s.g, b, e.pos, color);
      }
    }
  }

  /** Two different points in slots a and b, both highlighted, make a selection. */
  lemma TracksTwo(t: Tracker, keys: set<int>, c: int, d: int)
    requires t.slots == Slots(Some(c), Some(d), None) && c != 0 && d != 0 && Abs(c) != Abs(d)
    requires Abs(c) in keys && Abs(d) in keys && t.highlights == {Abs(c), Abs(d)}
    ensures Tracks(t, keys) && Count(t.slots) == 2
  {
    assert Occupied(t.slots) == [c, d];
    assert AbsSet(t.slots) == {Abs(c), Abs(d)} by {
      assert Abs(Occupied(t.slots)[0]) == Abs(c) && Abs(Occupied(t.slots)[1]) == Abs(d);
    }
  }

  /** The first pick of a gesture that starts from an empty selection. */
  lemma FirstPickShape(s: State, e: Event, color: Color)
    requires Tracks(s.t, s.g.points.Keys) && HitOk(e, s.g) && Count(s.t.slots) == 0
    requires forall k | k in s.g.points :: k > 0
    ensures var (s1, idx) := HitOrNew(s, e, color);
      && idx != 0 && Abs(idx) in s1.g.points && s.g.points.Keys <= s1.g.points.Keys
      && (forall k | k in s1.g.points :: k > 0)
      && Trig(s1, Some(idx)).t == Tracker(Slots(Some(idx), None, None), s.t.hover, {Abs(idx)})
      && Trig(s1, Some(idx)).g == s1.g
  {
    TracksEmpty(s.t, s.g.points.Keys);
    var (s1, idx) := HitOrNew(s, e, color);
    assert Abs(idx) in s1.g.points;
    TriggerAfterEnd(idx, s.t.hover);
  }

  /** The rim point is new, so it differs from the centre. */
  lemma WithRimShape(s2: State, c: int, p: Pos, color: Color, h: Helpers)
    requires s2.t.slots == Slots(Some(c), None, None) && s2.t.highlights == {Abs(c)} && c != 0
    requires Abs(c) in s2.g.points && forall k | k in s2.g.points :: k > 0
    ensures var r, m := WithRim(s2, p, color, h), NewIndex(s2.g.points);
      && r.t.slots == Slots(Some(c), Some(-m), None) && r.t.highlights == {Abs(c), m}
      && m > 0 && Abs(c) != m && Abs(c) in r.g.points && m in r.g.points
  {
    var (g3, m) := AddPoint(s2.g, RimPos(p, h), color);
    assert m > 0 && m != Abs(c) && Abs(c) in g3.points;
    TriggerAppends(s2.t, -m, true);
  }

  lemma CircleStartKeepsTracks(s: State, e: Event, color: Color, h: Helpers)
    requires Valid(s.g) && Tracks(s.t, s.g.points.Keys) && HitOk(e, s.g) && LeftPress(e) && Count(s.t.slots) == 0
    ensures var r := CircleHandler(s, e, color, h); Tracks(r.t, r.g.points.Keys) && Count(r.t.slots) == 2
  {
    FirstPickShape(s, e, color);
    var (s1, idx) := HitOrNew(s, e, color);
    var s2 := Trig(s1, Some(idx));
    WithRimShape(s2, idx, e.pos, color, h);
    var r := WithRim(s2, e.pos, color, h);
    assert r == CircleHandler(s, e, color, h);
    TracksTwo(r.t, r.g.points.Keys, idx, -NewIndex(s2.g.points));
  }

  lemma CircleModeKeepsInv(s: State, e: Event, color: Color, h: Helpers)
    requires Inv(s, CircleMode) && HitOk(e, s.g)
    ensures Inv(CircleHandler(s, e, color, h), CircleMode)
  {
    CircleKeepsValid(s, e, color, h);
    if LeftPress(e) && Count(s.t.slots) == 0 {
      CircleStartKeepsTracks(s, e, color, h);
    }
  }

  lemma MidpointKeepsValid(s: State, e: Event, color: Color, h: Helpers)
    requires Valid(s.g)
    ensures Valid(MidpointHandler(s, e, color, h).g)
  {
    if LeftPress(e) {
      var s1 := Trig(s, e.hit);
      var sl := s1.t.slots;
      var m := h.midpoint(PosOf(s1.g, Val(sl.a)), PosOf(s1.g, Val(sl.b)));
      AddPointKeepsValid(s1.g, m, color);
    }
  }

  lemma MidpointKeepsTracks(s: State, e: Event, color: Color, h: Helpers)
    requires Tracks(s.t, s.g.points.Keys) && ModeInv(MidpointMode, s) && HitOk(e, s.g) && LeftPress(e)
    ensures var r := MidpointHandler(s, e, color, h); Tracks(r.t, r.g.points.Keys) && ModeInv(MidpointMode, r)
  {
    TrigPositive(s, e.hit);
    var s1 := Trig(s, e.hit);
    var sl := s1.t.slots;
    var r := MidpointHandler(s, e, color, h);
    if Count(sl) == 2 {
      if LineKey(Val(sl.a), Val(sl.b)) in s1.g.lines {
        assert r.t == EndTriggerWith(sl.b);
        TracksEmpty(r.t, r.g.points.Keys);
      } else {
        TrigPositive(s1, sl.a);
        assert r == Trig(s1, sl.a);
      }
    } else {
      assert r == s1;
    }
  }

  lemma MidpointModeKeepsInv(s: State, e: Event, color: Color, h: Helpers)
    requires Inv(s, MidpointMode) && HitOk(e, s.g)
    ensures Inv(MidpointHandler(s, e, color, h), MidpointMode)
  {
    MidpointKeepsValid(s, e, color, h);
    if LeftPress(e) {
      MidpointKeepsTracks(s, e, color, h);
    }
  }

  /** The foot-point construction keeps the graph valid. */
  lemma FootLinesKeepValid(g: Graph, sl: Slots, color: Color, h: Helpers)
    requires Valid(g)
    ensures Valid(FootLines(g, sl, color, h)) && g.points.Keys <= FootLines(g, sl, color, h).points.Keys
  {
    var a, b, c := PosOf(g, Val(sl.a)), PosOf(g, Val(sl.b)), PosOf(g, Val(sl.c));
    var d := h.footPoint(a, b, c);
    var (g1, kd) := AddPoint(g, d, color);
    AddPointKeepsValid(g, d, color);
    var x := if h.distance(a, d) < h.distance(b, d) then Val(sl.a) else Val(sl.b);
    AddLineKeepsValid(g1, x, kd, color);
    var g2 := if !h.onSegment(a, b, d) then AddLine(g1, x, kd, color) else g1;
    AddLineKeepsValid(g2, Val(sl.c), kd, color);
  }

  lemma VerticalKeepsValid(s: State, e: Event, color: Color, h: Helpers)
    requires Valid(s.g)
    ensures var r := VerticalHandler(s, e, color, h); Valid(r.g) && s.g.points.Keys <= r.g.points.Keys
  {
    if LeftPress(e) {
      var s1 := Trig(s, e.hit);
      FootLinesKeepValid(s1.g, s1.t.slots, color, h);
    }
  }

  lemma VerticalThirdKeepsTracks(s1: State, color: Color, h: Helpers)
    requires Tracks(s1.t, s1.g.points.Keys) && AllPositive(s1.t.slots) && Count(s1.t.slots) == 3
    ensures var r := VerticalThird(s1, color, h); Tracks(r.t, r.g.points.Keys) && ModeInv(VerticalMode, r)
  {
    var sl := s1.t.slots;
    var a, b, c := PosOf(s1.g, Val(sl.a)), PosOf(s1.g, Val(sl.b)), PosOf(s1.g, Val(sl.c));
    var o := Occupied(sl);
    assert o == [Val(sl.a), Val(sl.b), Val(sl.c)];
    assert Abs(o[0]) != Abs(o[1]) && Abs(o[0]) != Abs(o[2]);
    assert Abs(o[0]) in AbsSet(sl);
    if h.collinear(a, b, c) {
      if LineKey(Val(sl.b), Val(sl.c)) in s1.g.lines {
        TriggerFirstDropsIt(s1.t);
        TrigPositive(s1, sl.a);
      } else {
        assert Val(sl.c) in s1.g.points by { assert Occupied(sl)[2] == Val(sl.c); }
        TrigPositive(State(s1.g, Idle), sl.c);
      }
    }
  }

  lemma VerticalKeepsTracks(s: State, e: Event, color: Color, h: Helpers)
    requires Tracks(s.t, s.g.points.Keys) && ModeInv(VerticalMode, s) && HitOk(e, s.g) && LeftPress(e)
    ensures var r := VerticalHandler(s, e, color, h); Tracks(r.t, r.g.points.Keys) && ModeInv(VerticalMode, r)
  {
    TrigPositive(s, e.hit);
    var s1 := Trig(s, e.hit);
    var sl := s1.t.slots;
    if Count(sl) == 2 {
      if LineKey(Val(sl.a), Val(sl.b)) !in s1.g.lines {
        TrigPositive(s1, sl.a);
      }
    } else if Count(sl) == 3 {
      VerticalThirdKeepsTracks(s1, color, h);
    }
  }

  lemma VerticalModeKeepsInv(s: State, e: Event, color: Color, h: Helpers)
    requires Inv(s, VerticalMode) && HitOk(e, s.g)
    ensures Inv(VerticalHandler(s, e, color, h), VerticalMode)
  {
    VerticalKeepsValid(s, e, color, h);
    if LeftPress(e) {
      VerticalKeepsTracks(s, e, color, h);
    }
  }

  lemma DragModeKeepsInv(s: State, e: Event, h: Helpers)
    requires Inv(s, DragMode) && HitOk(e, s.g)
    ensures Inv(DragHandler(s, e, h), DragMode)
  {
    var n := Count(s.t.slots);
    if LeftPress(e) && n == 0 {
      TrigPositive(s, e.hit);
    } else if e.kind == Move && n == 1 && h.inBounds(e.pos) {
      var a := Val(s.t.slots.a);
      if a in s.g.points {
        InPlaceUpdatesKeepValid(s.g, a, e.pos, "");
      }
    } else if e.kind == Release && n == 1 {
      assert Val(s.t.slots.a) in s.g.points by { assert Occupied(s.t.slots)[0] == Val(s.t.slots.a); }
      TrigPositive(s, s.t.slots.a);
    }
  }

  lemma EraseModeKeepsInv(s: State, e: Event)
    requires Inv(s, ErasePointMode)
    ensures Inv(EraseHandler(s, e), ErasePointMode)
  {
    EraseKeepsValid(s.g, e.hit);
    TracksEmpty(s.t, s.g.points.Keys);
  }

  /**
   * Every event keeps the gesture invariant: the graph stays valid and the selection stays a
   * selection of its points of the shape the mode allows.
   */
  lemma HandleEventKeepsInv(s: State, mode: Mode, e: Event, hover: Option<int>, color: Color, h: Helpers)
    requires Inv(s, mode) && HitOk(e, s.g)
    ensures Inv(HandleEvent(s, mode, e, hover, color, h), mode)
  {
    var s1 := Handle(s, mode, e, color, h);
    HandleKeepsInv(s, mode, e, color, h);
    if e.kind == Move {
      HoverKeepsInv(s1, mode, hover);
    }
  }

  /** The mode's handler keeps the gesture invariant. */
  lemma HandleKeepsInv(s: State, mode: Mode, e: Event, color: Color, h: Helpers)
    requires Inv(s, mode) && HitOk(e, s.g)
    ensures Inv(Handle(s, mode, e, color, h), mode)
  {
    match mode
    case DefaultMode =>
    case PointMode => PointModeKeepsInv(s, e, color);
    case LineMode => LineModeKeepsInv(s, e, color);
    case AngleMode => AngleModeKeepsInv(s, e, color);
    case CircleMode => CircleModeKeepsInv(s, e, color, h);
    case MidpointMode => MidpointModeKeepsInv(s, e, color, h);
    case VerticalMode => VerticalModeKeepsInv(s, e, color, h);
    case DragMode => DragModeKeepsInv(s, e, h);
    case ErasePointMode => EraseModeKeepsInv(s, e);
  }

  /** The hover index is not part of the invariant. */
  lemma HoverKeepsInv(s: State, mode: Mode, hover: Option<int>)
    requires Inv(s, mode)
    ensures Inv(s.(t := s.t.(hover := hover)), mode)
  {
  }

  lemma EraseMarkedKeepsValid(g: Graph, o: Option<int>)
    requires Valid(g)
    ensures Valid(EraseMarked(g, o))
  {
    if Truthy(o) && o.value < 0 {
      EraseKeepsValid(g, Some(-o.value));
      assert EraseMarked(g, o) == Erase(g, Some(-o.value));
    } else {
      assert EraseMarked(g, o) == g;
    }
  }

  /** erase_highlight keeps the graph valid. */
  lemma EraseHighlightKeepsValid(s: State)
    requires Valid(s.g)
    ensures Valid(EraseHighlight(s).g)
  {
    var sl := s.t.slots;
    var g1 := EraseMarked(s.g, sl.a);
    EraseMarkedKeepsValid(s.g, sl.a);
    var g2 := EraseMarked(g1, sl.b);
    EraseMarkedKeepsValid(g1, sl.b);
    EraseMarkedKeepsValid(g2, sl.c);
  }

  /** A valid graph with nothing selected is a state between events in every mode. */
  lemma IdleIsInv(g: Graph, mode: Mode)
    requires Valid(g)
    ensures Inv(State(g, Idle), mode)
  {
    TracksEmpty(Idle, g.points.Keys);
  }

  /**
   * The right-button menu runs erase_highlight first, so its actions change a graph with
   * nothing selected; any valid graph then keeps the invariant, whatever the hover.
   */
  lemma NoSelectionKeepsInv(s: State, mode: Mode, g: Graph)
    requires Inv(s, mode) && s.t.slots == NoSlots && Valid(g)
    ensures Inv(State(g, s.t), mode)
  {
    TracksEmpty(s.t, s.g.points.Keys);
    TracksEmpty(s.t, g.points.Keys);
  }

  /** switch_mode: erase_highlight leaves a state every mode accepts. */
  lemma SwitchModeEstablishesInv(s: State, mode: Mode, mode': Mode)
    requires Inv(s, mode)
    ensures Inv(EraseHighlight(s), mode')
  {
    EraseHighlightKeepsValid(s);
    var r := EraseHighlight(s);
    TracksEmpty(r.t, r.g.points.Keys);
  }

  // ---------------------------------------------------------------- what the gestures do

  /** The points a slot marks as created during the gesture. */
  function MarkOf(o: Option<int>): set<int> {
    if Truthy(o) && o.value < 0 then {-o.value} else {}
  }

  lemma ErasedPoints(g: Graph, o: Option<int>)
    ensures EraseMarked(g, o).points == g.points - MarkOf(o)
  {
  }

  /**
   * erase_highlight erases exactly the points whose slot holds a negative value, and leaves no
   * slot, no hover index and no highlight.
   */
  lemma EraseHighlightErasesMarked(s: State)
    ensures var r := EraseHighlight(s);
      && r.g.points == s.g.points - (MarkOf(s.t.slots.a) + MarkOf(s.t.slots.b) + MarkOf(s.t.slots.c))
      && Count(r.t.slots) == 0 && r.t.hover.None? && r.t.highlights == {}
  {
    var sl := s.t.slots;
    var g1 := EraseMarked(s.g, sl.a);
    ErasedPoints(s.g, sl.a);
    var g2 := EraseMarked(g1, sl.b);
    ErasedPoints(g1, sl.b);
    ErasedPoints(g2, sl.c);
  }

  /** Line mode, second pick on another point: the line is added and the gesture ends on it. */
  lemma LineSecondPick(s: State, e: Event, color: Color, x: int, y: int)
    requires Inv(s, LineMode) && LeftPress(e)
    requires s.t.slots == Slots(Some(x), None, None) && e.hit == Some(y) && y in s.g.points && Abs(x) != y
    ensures var r := LineHandler(s, e, color);
      && r.g == AddLine(s.g, Abs(x), y, color) && LineKey(Abs(x), y) in r.g.lines
      && r.t == EndTriggerWith(Some(y))
  {
    assert Occupied(s.t.slots) == [x];
    assert Abs(x) in s.g.points by { assert Abs(Occupied(s.t.slots)[0]) in AbsSet(s.t.slots); }
    assert y > 0;
    assert s.g.points != map[];
  }

  /**
   * Line mode, a press on an empty spot and then a press on the point it created: the two slots
   * hold -k and k, which trigger_index tells apart, so the line (k, k) is stored.
   */
  lemma LineOnFreshPointIsSelfLine(s: State, e1: Event, e2: Event, color: Color)
    requires Inv(s, LineMode) && Count(s.t.slots) == 0
    requires LeftPress(e1) && e1.hit.None? && LeftPress(e2)
    requires e2.hit == Some(NewIndex(s.g.points))
    ensures var k, r := NewIndex(s.g.points), LineHandler(LineHandler(s, e1, color), e2, color);
      (k, k) in r.g.lines && !Simple(r.g)
  {
    TracksEmpty(s.t, s.g.points.Keys);
    var k := NewIndex(s.g.points);
    NewIndexPositive(s.g);
    var s1 := LineHandler(s, e1, color);
    assert s1.t.slots == Slots(Some(-k), None, None);
    assert k in s1.g.points;
    var r := LineHandler(s1, e2, color);
    assert Some(k) !in Values(s1.t.slots);
    assert r.g == AddLine(s1.g, k, k, color);
  }

  /** Angle mode, second pick off a line: only the latest pick stays selected. */
  lemma AngleSecondPickOffLine(s: State, e: Event, color: Color, a: int, b: int)
    requires Inv(s, AngleMode) && LeftPress(e)
    requires s.t.slots == Slots(Some(a), None, None) && e.hit == Some(b) && b in s.g.points && a != b
    requires LineKey(a, b) !in s.g.lines
    ensures var r := AngleHandler(s, e, color);
      r.g == s.g && r.t.slots == Slots(Some(b), None, None) && r.t.highlights == {b}
  {
    assert Occupied(s.t.slots) == [a];
    assert AbsSet(s.t.slots) == {Abs(a)} by { assert Abs(Occupied(s.t.slots)[0]) == Abs(a); }
    assert a > 0 by { assert Some(a) in Values(s.t.slots); }
    assert b > 0;
  }

  /**
   * Angle mode, third pick on a new point c after the line (a, b): the angle abc is added when
   * (b, c) is a line, the gesture then ending on c; otherwise only c stays selected.
   */
  lemma AngleThirdPick(s: State, e: Event, color: Color, a: int, b: int, c: int)
    requires Inv(s, AngleMode) && LeftPress(e)
    requires s.t.slots == Slots(Some(a), Some(b), None) && e.hit == Some(c) && c in s.g.points
    requires c != a && c != b
    ensures var r := AngleHandler(s, e, color);
      && (LineKey(b, c) in s.g.lines ==>
           && r.g == AddAngle(s.g, a, b, c, color) && AngleKey(a, b, c) in r.g.angles
           && r.t == EndTriggerWith(Some(c)))
      && (LineKey(b, c) !in s.g.lines ==>
           r.g == s.g && r.t.slots == Slots(Some(c), None, None) && r.t.highlights == {c})
  {
    assert Occupied(s.t.slots) == [a, b];
    assert a > 0 && b > 0 by { assert Some(a) in Values(s.t.slots) && Some(b) in Values(s.t.slots); }
    assert c > 0;
    assert LineKey(a, b) in s.g.lines;
    var s1 := Trig(s, e.hit);
    assert s1.t.slots == Slots(Some(a), Some(b), Some(c));
    if LineKey(b, c) !in s.g.lines {
      assert AngleHandler(s, e, color) == Trig(State(s.g, Idle), Some(c));
      TriggerAfterEnd(c, None);
    }
  }

  /**
   * Vertical mode, third pick on a point c collinear with the line (a, b) where (b, c) is also a
   * line: the pick of a is dropped and (b, c) becomes the selected line.
   */
  lemma VerticalCollinearKeepsBC(s: State, e: Event, color: Color, h: Helpers, a: int, b: int, c: int)
    requires Inv(s, VerticalMode) && LeftPress(e)
    requires s.t.slots == Slots(Some(a), Some(b), None) && e.hit == Some(c) && c in s.g.points
    requires c != a && c != b
    requires h.collinear(PosOf(s.g, a), PosOf(s.g, b), PosOf(s.g, c)) && LineKey(b, c) in s.g.lines
    ensures var r := VerticalHandler(s, e, color, h);
      r.g == s.g && r.t.slots == Slots(Some(b), Some(c), None) && Inv(r, VerticalMode)
  {
    assert Occupied(s.t.slots) == [a, b];
    assert a > 0 && b > 0 by { assert Some(a) in Values(s.t.slots) && Some(b) in Values(s.t.slots); }
    assert c > 0;
    var s1 := Trig(s, e.hit);
    assert s1.t.slots == Slots(Some(a), Some(b), Some(c));
    assert VerticalHandler(s, e, color, h) == Trig(s1, Some(a));
    VerticalModeKeepsInv(s, e, color, h);
  }

  /** Midpoint mode, second pick across a line: its midpoint is added and the gesture ends on b. */
  lemma MidpointOnLine(s: State, e: Event, color: Color, h: Helpers, a: int, b: int)
    requires Inv(s, MidpointMode) && LeftPress(e)
    requires s.t.slots == Slots(Some(a), None, None) && e.hit == Some(b) && b in s.g.points && a != b
    requires LineKey(a, b) in s.g.lines
    ensures var r := MidpointHandler(s, e, color, h);
      && r.g == AddPoint(s.g, h.midpoint(s.g.points[a].pos, s.g.points[b].pos), color).0
      && r.t == EndTriggerWith(Some(b))
  {
    assert a > 0 by { assert Some(a) in Values(s.t.slots); }
    assert b > 0;
  }

  /** Drag mode: a move with a point picked moves it in bounds; a release ends the drag. */
  lemma DragMovesThenReleases(s: State, e: Event, h: Helpers)
    requires Inv(s, DragMode) && Count(s.t.slots) == 1
    ensures var r, a := DragHandler(s, e, h), s.t.slots.a.value;
      && (e.kind == Move && h.inBounds(e.pos) ==> a in s.g.points && r == s.(g := MovePoint(s.g, a, e.pos)))
      && (e.kind == Release ==> r.g == s.g && Count(r.t.slots) == 0 && r.t.highlights == {})
  {
    var sl := s.t.slots;
    assert Occupied(sl) == [sl.a.value];
    assert Abs(sl.a.value) in AbsSet(sl) by { assert Abs(Occupied(sl)[0]) == Abs(sl.a.value); }
    assert sl.a.value > 0 by { assert sl.a in Values(sl); }
    if e.kind == Release {
      assert s.g.points != map[] by { assert sl.a.value in s.g.points; }
      TriggerRemoves(s.t, sl.a.value, true, 0);
    }
  }

  /** Erase mode: a left press erases the hit point, with everything that refers to it. */
  lemma ErasePressErases(s: State, e: Event, x: int)
    requires LeftPress(e) && e.hit == Some(x)
    ensures EraseHandler(s, e) == s.(g := Erase(s.g, Some(x)))
  {
  }

  /** Erasing a point that no key mentions undoes storing it. */
  lemma EraseUnmentioned(g: Graph, k: int, p: Point)
    requires k !in g.points && k !in g.pivots
    requires forall l | l in g.lines :: !HasEnd(l, k)
    requires forall l | l in g.angles :: !HasIndex(l, k)
    requires forall l | l in g.circles :: !HasEnd(l, k)
    ensures Erase(g.(points := g.points[k := p]), Some(k)) == g
  {
    var r := Erase(g.(points := g.points[k := p]), Some(k));
    assert r.points == g.points;
    assert r.lines == g.lines;
    assert r.angles == g.angles;
    assert r.circles == g.circles;
  }

  /** Erasing a centre that only its new circle mentions undoes storing both. */
  lemma EraseCentre(g: Graph, k: int, m: int, p: Point, color: Color)
    requires k !in g.points && k !in g.pivots && k != m
    requires forall l | l in g.lines :: !HasEnd(l, k)
    requires forall l | l in g.angles :: !HasIndex(l, k)
    requires forall l | l in g.circles :: !HasEnd(l, k)
    ensures Erase(g.(points := g.points[k := p], circles := g.circles[(k, m) := color]), Some(k)) == g
  {
    var r := Erase(g.(points := g.points[k := p], circles := g.circles[(k, m) := color]), Some(k));
    assert r.points == g.points;
    assert r.lines == g.lines;
    assert r.angles == g.angles;
    assert r.circles == g.circles;
  }

  /** The first press of circle mode on an empty spot, spelled out: centre k, rim m, circle (k, m). */
  lemma CircleOnEmptySpot(s: State, e: Event, color: Color, h: Helpers)
    requires Inv(s, CircleMode) && LeftPress(e) && e.hit.None? && Count(s.t.slots) == 0
    ensures var k := NewIndex(s.g.points);
      var m := NewIndex(s.g.points[k := Point(e.pos, color)]);
      var gm := s.g.(points := s.g.points[m := Point(RimPos(e.pos, h), color)]);
      var r := CircleHandler(s, e, color, h);
      && k > 0 && m > 0 && m != k && m !in s.g.points
      && r.t.slots == Slots(Some(-k), Some(-m), None)
      && r.g == gm.(points := gm.points[k := Point(e.pos, color)], circles := gm.circles[(k, m) := color])
  {
    TracksEmpty(s.t, s.g.points.Keys);
    NewIndexPositive(s.g);
    var (s1, idx) := HitOrNew(s, e, color);
    var s2 := Trig(s1, Some(idx));
    FirstPickShape(s, e, color);
    WithRimShape(s2, idx, e.pos, color, h);
  }

  /**
   * Circle mode: a first press on an empty spot creates the centre, the rim and the circle;
   * switching modes before the next press (erase_highlight) erases all three.
   */
  lemma CircleAbandonedIsUndone(s: State, e: Event, color: Color, h: Helpers)
    requires Inv(s, CircleMode) && LeftPress(e) && e.hit.None? && Count(s.t.slots) == 0
    ensures EraseHighlight(CircleHandler(s, e, color, h)).g == s.g
  {
    CircleOnEmptySpot(s, e, color, h);
    var k := NewIndex(s.g.points);
    var m := NewIndex(s.g.points[k := Point(e.pos, color)]);
    var r := CircleHandler(s, e, color, h);
    UndoCircleStart(s.g, k, m, Point(e.pos, color), Point(RimPos(e.pos, h), color), color, r.t.slots);
  }

  /** A centre k and a rim m stored with their circle, both marked negative, are erased together. */
  lemma UndoCircleStart(g: Graph, k: int, m: int, pc: Point, pm: Point, color: Color, sl: Slots)
    requires Valid(g) && k != m && k !in g.points && m !in g.points
    requires sl == Slots(Some(-k), Some(-m), None) && k > 0 && m > 0
    ensures var gm := g.(points := g.points[m := pm]);
      var gk := gm.(points := gm.points[k := pc], circles := gm.circles[(k, m) := color]);
      EraseMarked(EraseMarked(EraseMarked(gk, sl.a), sl.b), sl.c) == g
  {
    var gm := g.(points := g.points[m := pm]);
    AbsentIndexIsUnmentioned(g, k);
    AbsentIndexIsUnmentioned(g, m);
    EraseCentre(gm, k, m, pc, color);
    EraseUnmentioned(g, m, pm);
  }
}
