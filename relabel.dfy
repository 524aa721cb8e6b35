/**
 * The relabelling of a point (LabelApp.modify_index without its input dialog): the point, every
 * line, angle and circle that contains it, and its pivot flag move from the old index to the
 * new one. The rewrite itself is the loop of App.LabelApp.ModifyIndex; this module states what
 * it must produce (`Moved`) and proves what follows from that.
 */
module Relabel {
  import opened Optional
  import opened Keys
  import opened Annotation
  import opened Collections

  /** A line containing `i` is stored again under the key of `n` and its other endpoint. */
  function RenameLine(k: (int, int), i: int, n: int): (int, int) {
    if HasEnd(k, i) then LineKey(n, k.0 + k.1 - i) else k
  }

  /**
   * An angle whose vertex is `i` gets `n` as its vertex in place; one with `i` as an outer index
   * is stored again under the angle key of `n`, the same vertex and the other outer index.
   */
  function RenameAngle(k: (int, int, int), i: int, n: int): (int, int, int) {
    if k.1 == i then (k.0, n, k.2)
    else if HasIndex(k, i) then AngleKey(n, k.1, k.0 + k.2 - i)
    else k
  }

  /** A circle keeps its (centre, rim) order: whichever of the two is `i` becomes `n`. */
  function RenameCircle(k: (int, int), i: int, n: int): (int, int) {
    if HasEnd(k, i) then (if k.0 == i then (n, k.1) else (k.0, n)) else k
  }

  function LineRenaming(i: int, n: int): ((int, int)) -> (int, int) {
    k => RenameLine(k, i, n)
  }

  function AngleRenaming(i: int, n: int): ((int, int, int)) -> (int, int, int) {
    k => RenameAngle(k, i, n)
  }

  function CircleRenaming(i: int, n: int): ((int, int)) -> (int, int) {
    k => RenameCircle(k, i, n)
  }

  /**
   * What the rewrite loops of modify_index rely on: `i` is a point, `n` is neither a point nor a
   * pivot, the line and angle keys are canonical and no key mentions `n`.
   */
  ghost predicate CanRelabel(g: Graph, i: int, n: int) {
    i in g.points && n !in g.points && n !in g.pivots && KeysFreeOf(g, n)
  }

  /**
   * What the three rewrite loops need, and all they need: the line and angle keys are
   * canonical and no key mentions the new index `n`, so no two keys are rewritten alike.
   */
  ghost predicate KeysFreeOf(g: Graph, n: int) {
    && (forall k | k in g.lines :: k.0 <= k.1 && !HasEnd(k, n))
    && (forall k | k in g.angles :: k.0 <= k.2 && !HasIndex(k, n))
    && (forall k | k in g.circles :: !HasEnd(k, n))
  }

  /**
   * On line keys that are canonical and free of `n`, renaming `n` back to `i` undoes renaming
   * `i` to `n`, and the renaming moves exactly the keys that contain `i`.
   */
  lemma LineRenamingSteps(l: map<(int, int), Color>, i: int, n: int)
    requires i != n && forall k | k in l :: k.0 <= k.1 && !HasEnd(k, n)
    ensures Reversible(l, LineRenaming(i, n), LineRenaming(n, i))
    ensures forall k | k in l :: LineRenaming(i, n)(k) == RenameLine(k, i, n)
    ensures forall k | k in l && HasEnd(k, i) :: RenameLine(k, i, n) != k
  {
  }

  /** The same for angle keys. */
  lemma AngleRenamingSteps(a: map<(int, int, int), Color>, i: int, n: int)
    requires i != n && forall k | k in a :: k.0 <= k.2 && !HasIndex(k, n)
    ensures Reversible(a, AngleRenaming(i, n), AngleRenaming(n, i))
    ensures forall k | k in a :: AngleRenaming(i, n)(k) == RenameAngle(k, i, n)
    ensures forall k | k in a && HasIndex(k, i) :: RenameAngle(k, i, n) != k
  {
  }

  /** The same for circle keys, which need not be canonical. */
  lemma CircleRenamingSteps(c: map<(int, int), Color>, i: int, n: int)
    requires i != n && forall k | k in c :: !HasEnd(k, n)
    ensures Reversible(c, CircleRenaming(i, n), CircleRenaming(n, i))
    ensures forall k | k in c :: CircleRenaming(i, n)(k) == RenameCircle(k, i, n)
    ensures forall k | k in c && HasEnd(k, i) :: RenameCircle(k, i, n) != k
  {
  }

  /** One step of the line loop of modify_index: the line `k` is renamed or left as it is. */
  lemma LineLoopStep(l0: map<(int, int), Color>, done: set<(int, int)>, cur: map<(int, int), Color>, i: int, n: int, k: (int, int))
    requires i != n && forall j | j in l0 :: j.0 <= j.1 && !HasEnd(j, n)
    requires k in l0 && k !in done
    requires Reversible(l0, LineRenaming(i, n), LineRenaming(n, i))
    requires cur == Rekeyed(l0, done, LineRenaming(i, n), LineRenaming(n, i))
    ensures k in cur
    ensures Rekeyed(l0, done + {k}, LineRenaming(i, n), LineRenaming(n, i)) ==
            if HasEnd(k, i) then cur[LineKey(n, k.0 + k.1 - i) := cur[k]] - {k} else cur
  {
    RekeyStep(l0, done, LineRenaming(i, n), LineRenaming(n, i), k);
  }

  /** One step of the angle loop of modify_index. */
  lemma AngleLoopStep(a0: map<(int, int, int), Color>, done: set<(int, int, int)>, cur: map<(int, int, int), Color>, i: int, n: int, k: (int, int, int))
    requires i != n && forall j | j in a0 :: j.0 <= j.2 && !HasIndex(j, n)
    requires k in a0 && k !in done
    requires Reversible(a0, AngleRenaming(i, n), AngleRenaming(n, i))
    requires cur == Rekeyed(a0, done, AngleRenaming(i, n), AngleRenaming(n, i))
    ensures k in cur
    ensures Rekeyed(a0, done + {k}, AngleRenaming(i, n), AngleRenaming(n, i)) ==
            if !HasIndex(k, i) then cur
            else if i == k.1 then cur[(k.0, n, k.2) := cur[k]] - {k}
            else cur[AngleKey(n, k.1, k.0 + k.2 - i) := cur[k]] - {k}
  {
    RekeyStep(a0, done, AngleRenaming(i, n), AngleRenaming(n, i), k);
  }

  /** One step of the circle loop of modify_index. */
  lemma CircleLoopStep(c0: map<(int, int), Color>, done: set<(int, int)>, cur: map<(int, int), Color>, i: int, n: int, k: (int, int))
    requires i != n && forall j | j in c0 :: !HasEnd(j, n)
    requires k in c0 && k !in done
    requires Reversible(c0, CircleRenaming(i, n), CircleRenaming(n, i))
    requires cur == Rekeyed(c0, done, CircleRenaming(i, n), CircleRenaming(n, i))
    ensures k in cur
    ensures Rekeyed(c0, done + {k}, CircleRenaming(i, n), CircleRenaming(n, i)) ==
            if !HasEnd(k, i) then cur
            else cur[(if i == k.0 then (n, k.1) else (k.0, n)) := cur[k]] - {k}
  {
    RekeyStep(c0, done, CircleRenaming(i, n), CircleRenaming(n, i), k);
  }

  /** In a valid graph any unused index can take the place of an existing point. */
  lemma ValidAllowsRelabel(g: Graph, i: int, n: int)
    requires Valid(g) && i in g.points && n !in g.points
    ensures CanRelabel(g, i, n)
  {
    AbsentIndexIsUnmentioned(g, n);
  }

  // ---------------------------------------------------------------- what the rewrite produces

  /** points[n] = points[i]; points.pop(i). */
  ghost predicate PointsMoved(p: map<int, Point>, r: map<int, Point>, i: int, n: int) {
    && r.Keys == p.Keys - {i} + {n}
    && i in p && r[n] == p[i]
    && (forall j | j in p && j != i && j != n :: r[j] == p[j])
  }

  /** Every line is found under its renamed key with its colour, and every key is such a rename. */
  ghost predicate LinesMoved(l: map<(int, int), Color>, r: map<(int, int), Color>, i: int, n: int) {
    && (forall k | k in l :: RenameLine(k, i, n) in r && r[RenameLine(k, i, n)] == l[k])
    && (forall j | j in r :: RenameLine(j, n, i) in l && RenameLine(RenameLine(j, n, i), i, n) == j)
  }

  /** The same for angles. */
  ghost predicate AnglesMoved(a: map<(int, int, int), Color>, r: map<(int, int, int), Color>, i: int, n: int) {
    && (forall k | k in a :: RenameAngle(k, i, n) in r && r[RenameAngle(k, i, n)] == a[k])
    && (forall j | j in r :: RenameAngle(j, n, i) in a && RenameAngle(RenameAngle(j, n, i), i, n) == j)
  }

  /** The same for circles. */
  ghost predicate CirclesMoved(c: map<(int, int), Color>, r: map<(int, int), Color>, i: int, n: int) {
    && (forall k | k in c :: RenameCircle(k, i, n) in r && r[RenameCircle(k, i, n)] == c[k])
    && (forall j | j in r :: RenameCircle(j, n, i) in c && RenameCircle(RenameCircle(j, n, i), i, n) == j)
  }

  /** `r` is the graph modify_index leaves after moving index `i` of `g` to `n`. */
  ghost predicate Moved(g: Graph, r: Graph, i: int, n: int) {
    && PointsMoved(g.points, r.points, i, n)
    && LinesMoved(g.lines, r.lines, i, n)
    && AnglesMoved(g.angles, r.angles, i, n)
    && CirclesMoved(g.circles, r.circles, i, n)
    && r.pivots == (if i in g.pivots then g.pivots - {i} + {n} else g.pivots)
  }

  /** Lines that do not contain `i` keep their key; the others now end at `n`. */
  lemma MovedLines(g: Graph, r: Graph, i: int, n: int)
    requires Moved(g, r, i, n)
    ensures forall k | k in g.lines && !HasEnd(k, i) :: k in r.lines && r.lines[k] == g.lines[k]
    ensures forall k | k in g.lines && HasEnd(k, i) ::
              var m := LineKey(n, k.0 + k.1 - i); m in r.lines && r.lines[m] == g.lines[k]
  {
  }

  /**
   * An angle with vertex `i` now has vertex `n` with its outer indices where they were; one with
   * `i` outside is stored under the angle key of `n`, its vertex and its other outer index.
   */
  lemma MovedAngles(g: Graph, r: Graph, i: int, n: int)
    requires Moved(g, r, i, n)
    ensures forall k | k in g.angles && !HasIndex(k, i) :: k in r.angles && r.angles[k] == g.angles[k]
    ensures forall k | k in g.angles && k.1 == i ::
              (k.0, n, k.2) in r.angles && r.angles[(k.0, n, k.2)] == g.angles[k]
    ensures forall k | k in g.angles && k.1 != i && HasIndex(k, i) ::
              var m := AngleKey(n, k.1, k.0 + k.2 - i); m in r.angles && r.angles[m] == g.angles[k]
  {
  }

  /** A circle keeps its centre and rim order. */
  lemma MovedCircles(g: Graph, r: Graph, i: int, n: int)
    requires Moved(g, r, i, n)
    ensures forall k | k in g.circles && k.0 == i :: (n, k.1) in r.circles && r.circles[(n, k.1)] == g.circles[k]
    ensures forall k | k in g.circles && k.0 != i && k.1 == i ::
              (k.0, n) in r.circles && r.circles[(k.0, n)] == g.circles[k]
    ensures forall k | k in g.circles && !HasEnd(k, i) :: k in r.circles && r.circles[k] == g.circles[k]
  {
  }

  /** The result of a relabel is determined: two graphs that both qualify are equal. */
  lemma MovedIsUnique(g: Graph, r1: Graph, r2: Graph, i: int, n: int)
    requires Moved(g, r1, i, n) && Moved(g, r2, i, n)
    ensures r1 == r2
  {
    forall j | j in r1.points
      ensures r1.points[j] == r2.points[j]
    {
      if j != n {
        assert j in g.points && j != i;
      }
    }
    assert r1.points == r2.points;
    forall j | j in r1.lines
      ensures j in r2.lines && r1.lines[j] == r2.lines[j]
    {
      var k := RenameLine(j, n, i);
      assert RenameLine(k, i, n) == j;
    }
    forall j | j in r1.angles
      ensures j in r2.angles && r1.angles[j] == r2.angles[j]
    {
      var k := RenameAngle(j, n, i);
      assert RenameAngle(k, i, n) == j;
    }
    forall j | j in r1.circles
      ensures j in r2.circles && r1.circles[j] == r2.circles[j]
    {
      var k := RenameCircle(j, n, i);
      assert RenameCircle(k, i, n) == j;
    }
    forall j | j in r2.lines
      ensures j in r1.lines
    {
      var k := RenameLine(j, n, i);
      assert RenameLine(k, i, n) == j;
    }
    forall j | j in r2.angles
      ensures j in r1.angles
    {
      var k := RenameAngle(j, n, i);
      assert RenameAngle(k, i, n) == j;
    }
    forall j | j in r2.circles
      ensures j in r1.circles
    {
      var k := RenameCircle(j, n, i);
      assert RenameCircle(k, i, n) == j;
    }
    assert r1.lines == r2.lines && r1.angles == r2.angles && r1.circles == r2.circles;
  }

  // ---------------------------------------------------------------- integrity and round trip

  /** One renamed line: canonical, not a self-line, free of `i`, between points of the result. */
  lemma RenamedLineOk(a: (int, int), i: int, n: int, p: map<int, Point>, rp: map<int, Point>)
    requires a.0 <= a.1 && a.0 != a.1 && a.0 in p && a.1 in p && !HasEnd(a, n) && n !in p
    requires PointsMoved(p, rp, i, n)
    ensures var k := RenameLine(a, i, n); k.0 <= k.1 && k.0 != k.1 && !HasEnd(k, i) && k.0 in rp && k.1 in rp
  {
  }

  lemma MovedKeepsLinesValid(g: Graph, r: Graph, i: int, n: int)
    requires Valid(g) && Simple(g) && i in g.points && n !in g.points
    requires Moved(g, r, i, n)
    ensures forall k | k in r.lines :: k.0 <= k.1 && k.0 != k.1 && !HasEnd(k, i) && k.0 in r.points && k.1 in r.points
  {
    AbsentIndexIsUnmentioned(g, n);
    forall k | k in r.lines
      ensures k.0 <= k.1 && k.0 != k.1 && !HasEnd(k, i) && k.0 in r.points && k.1 in r.points
    {
      var a := RenameLine(k, n, i);
      assert a in g.lines && k == RenameLine(a, i, n);
      RenamedLineOk(a, i, n, g.points, r.points);
    }
  }

  /** The two arms of an angle are renamed into the two arms of the renamed angle. */
  lemma RenamedArms(a: (int, int, int), i: int, n: int)
    requires a.0 <= a.2 && a.0 != a.2 && a.0 != a.1 && a.1 != a.2 && !HasIndex(a, n)
    ensures var k, l1, l2 := RenameAngle(a, i, n), RenameLine(LineKey(a.0, a.1), i, n), RenameLine(LineKey(a.1, a.2), i, n);
      && (LineKey(k.0, k.1) == l1 || LineKey(k.0, k.1) == l2)
      && (LineKey(k.1, k.2) == l1 || LineKey(k.1, k.2) == l2)
  {
  }

  /** One renamed angle: canonical, free of `i`, its two arms lines of the result. */
  lemma RenamedAngleOk(a: (int, int, int), i: int, n: int, rl: set<(int, int)>)
    requires a.0 <= a.2 && a.0 != a.2 && a.0 != a.1 && a.1 != a.2 && !HasIndex(a, n) && i != n
    requires RenameLine(LineKey(a.0, a.1), i, n) in rl && RenameLine(LineKey(a.1, a.2), i, n) in rl
    ensures var k := RenameAngle(a, i, n);
      && k.0 <= k.2 && k.0 != k.2 && !HasIndex(k, i)
      && LineKey(k.0, k.1) in rl && LineKey(k.1, k.2) in rl
  {
    RenamedArms(a, i, n);
  }

  lemma MovedKeepsAnglesValid(g: Graph, r: Graph, i: int, n: int)
    requires Valid(g) && Simple(g) && i in g.points && n !in g.points
    requires Moved(g, r, i, n)
    ensures forall k | k in r.angles ::
              && k.0 <= k.2 && k.0 != k.2 && !HasIndex(k, i)
              && LineKey(k.0, k.1) in r.lines && LineKey(k.1, k.2) in r.lines
  {
    AbsentIndexIsUnmentioned(g, n);
    forall k | k in r.angles
      ensures k.0 <= k.2 && k.0 != k.2 && !HasIndex(k, i)
      ensures LineKey(k.0, k.1) in r.lines && LineKey(k.1, k.2) in r.lines
    {
      var a := RenameAngle(k, n, i);
      assert a in g.angles && k == RenameAngle(a, i, n);
      var l1, l2 := LineKey(a.0, a.1), LineKey(a.1, a.2);
      assert l1 in g.lines && l2 in g.lines;
      assert l1.0 != l1.1 && l2.0 != l2.1;
      assert RenameLine(l1, i, n) in r.lines && RenameLine(l2, i, n) in r.lines;
      RenamedAngleOk(a, i, n, r.lines.Keys);
    }
  }

  lemma MovedKeepsCirclesValid(g: Graph, r: Graph, i: int, n: int)
    requires Valid(g) && Simple(g) && i in g.points && n !in g.points
    requires Moved(g, r, i, n)
    ensures forall k | k in r.circles :: k.0 != k.1 && !HasEnd(k, i) && k.0 in r.points && k.1 in r.points
  {
    AbsentIndexIsUnmentioned(g, n);
    forall k | k in r.circles
      ensures k.0 != k.1 && !HasEnd(k, i) && k.0 in r.points && k.1 in r.points
    {
      var a := RenameCircle(k, n, i);
      assert a in g.circles && k == RenameCircle(a, i, n);
    }
  }

  /**
   * Moving an index of a valid graph without self-lines, degenerate angles or zero circles to an
   * unused positive index keeps it so, and afterwards nothing mentions the old index.
   */
  lemma MovedKeepsValid(g: Graph, r: Graph, i: int, n: int)
    requires Valid(g) && Simple(g) && i in g.points && n !in g.points && n > 0
    requires Moved(g, r, i, n)
    ensures Valid(r) && Simple(r) && CanRelabel(r, n, i)
  {
    MovedKeepsLinesValid(g, r, i, n);
    MovedKeepsAnglesValid(g, r, i, n);
    MovedKeepsCirclesValid(g, r, i, n);
  }

  lemma LinesMovedBack(l: map<(int, int), Color>, r: map<(int, int), Color>, b: map<(int, int), Color>, i: int, n: int)
    requires forall k | k in l :: k.0 <= k.1 && !HasEnd(k, n)
    requires LinesMoved(l, r, i, n) && LinesMoved(r, b, n, i)
    ensures b == l
  {
    forall k | k in l
      ensures k in b && b[k] == l[k]
    {
      var a := RenameLine(k, i, n);
      LineRenamedBack(k, i, n);
      assert a in r && RenameLine(a, n, i) == k;
    }
    forall j | j in b
      ensures j in l
    {
      var a := RenameLine(j, i, n);
      assert a in r && RenameLine(a, n, i) == j;
    }
  }

  lemma LineRenamedBack(k: (int, int), i: int, n: int)
    requires k.0 <= k.1 && !HasEnd(k, n)
    ensures RenameLine(RenameLine(k, i, n), n, i) == k
  {
  }

  lemma AngleRenamedBack(k: (int, int, int), i: int, n: int)
    requires k.0 <= k.2 && !HasIndex(k, n)
    ensures RenameAngle(RenameAngle(k, i, n), n, i) == k
  {
  }

  lemma AnglesMovedBack(l: map<(int, int, int), Color>, r: map<(int, int, int), Color>, b: map<(int, int, int), Color>, i: int, n: int)
    requires forall k | k in l :: k.0 <= k.2 && !HasIndex(k, n)
    requires AnglesMoved(l, r, i, n) && AnglesMoved(r, b, n, i)
    ensures b == l
  {
    forall k | k in l
      ensures k in b && b[k] == l[k]
    {
      var a := RenameAngle(k, i, n);
      AngleRenamedBack(k, i, n);
      assert a in r && RenameAngle(a, n, i) == k;
    }
    forall j | j in b
      ensures j in l
    {
      var a := RenameAngle(j, i, n);
      assert a in r && RenameAngle(a, n, i) == j;
    }
  }

  lemma CirclesMovedBack(l: map<(int, int), Color>, r: map<(int, int), Color>, b: map<(int, int), Color>, i: int, n: int)
    requires forall k | k in l :: !HasEnd(k, n)
    requires CirclesMoved(l, r, i, n) && CirclesMoved(r, b, n, i)
    ensures b == l
  {
    forall k | k in l
      ensures k in b && b[k] == l[k]
    {
      var a := RenameCircle(k, i, n);
      assert a in r && RenameCircle(a, n, i) == k;
    }
    forall j | j in b
      ensures j in l
    {
      var a := RenameCircle(j, i, n);
      assert a in r;
      assert RenameCircle(a, n, i) in l;
    }
  }

  /** Moving `i` to `n` and then `n` back to `i` gives the graph started from. */
  lemma MovedBack(g: Graph, r: Graph, b: Graph, i: int, n: int)
    requires CanRelabel(g, i, n)
    requires Moved(g, r, i, n) && Moved(r, b, n, i)
    ensures b == g
  {
    LinesMovedBack(g.lines, r.lines, b.lines, i, n);
    AnglesMovedBack(g.angles, r.angles, b.angles, i, n);
    CirclesMovedBack(g.circles, r.circles, b.circles, i, n);
    forall j | j in b.points
      ensures b.points[j] == g.points[j]
    {
      if j != i {
        assert j in r.points && j != n;
      }
    }
    assert b.points == g.points;
    assert b.pivots == g.pivots;
  }

  /**
   * A self-line (k, k), which line mode can create, survives a relabel of k as the line (k, n)
   * to the point k that no longer exists.
   */
  lemma RelabelOfSelfLineDangles(pos: Geometry.Pos, color: Color, r: Graph)
    requires Moved(Graph(map[7 := Point(pos, color)], map[(7, 7) := color], map[], map[], {}), r, 7, 8)
    ensures Valid(Graph(map[7 := Point(pos, color)], map[(7, 7) := color], map[], map[], {}))
    ensures r.lines == map[(7, 8) := color] && !Valid(r)
  {
    assert RenameLine((7, 7), 7, 8) == (7, 8);
    assert (7, 8) in r.lines;
    forall j | j in r.lines
      ensures j == (7, 8)
    {
      assert RenameLine(j, 8, 7) == (7, 7);
    }
    assert r.lines.Keys == {(7, 8)};
    assert 7 !in r.points;
  }

  /**
   * The graph that relabel leaves is not valid, yet the rewrite loops can still relabel its
   * point 8: modify_index does not depend on integrity, only on KeysFreeOf.
   */
  lemma DanglingGraphRelabelsAgain(pos: Geometry.Pos, color: Color, r: Graph)
    requires Moved(Graph(map[7 := Point(pos, color)], map[(7, 7) := color], map[], map[], {}), r, 7, 8)
    ensures !Valid(r) && 8 in r.points && 9 !in r.points && KeysFreeOf(r, 9)
  {
    RelabelOfSelfLineDangles(pos, color, r);
    assert r.points.Keys == {8};
  }

  // ---------------------------------------------------------------- the checks of modify_index

  /** What the dialog answer led to: no change, one of the two warnings, or the relabel. */
  datatype Verdict = Declined | NotPositive | AlreadyUsed | Renamed

  /**
   * The checks of modify_index(i) after the dialog, in their order: `None` is a cancelled
   * dialog; an answer equal to the old index is no change; then the two warnings.
   */
  function CheckAnswer(points: map<int, Point>, i: int, answer: Option<int>): (v: Verdict)
    ensures v == Declined <==> answer.None? || answer.value == i
    ensures v == NotPositive <==> answer.Some? && answer.value != i && answer.value <= 0
    ensures v == AlreadyUsed <==>
            answer.Some? && answer.value != i && answer.value > 0 && answer.value in points
    ensures v == Renamed <==>
            answer.Some? && answer.value != i && answer.value > 0 && answer.value !in points
  {
    if answer.None? || answer.value == i then Declined
    else if answer.value <= 0 then NotPositive
    else if answer.value in points then AlreadyUsed
    else Renamed
  }

  /** An accepted answer lets the rewrite go ahead on a valid graph. */
  lemma AcceptedAnswerAllowsRelabel(g: Graph, i: int, answer: Option<int>)
    requires Valid(g) && i in g.points && CheckAnswer(g.points, i, answer) == Renamed
    ensures CanRelabel(g, i, answer.value) && answer.value > 0
  {
    ValidAllowsRelabel(g, i, answer.value);
  }

  /**
   * After an accepted relabel of a simple valid graph, the graph is valid and simple, and
   * relabelling the new index back with the old one as answer is accepted and undoes it.
   */
  lemma RelabelRoundTrip(g: Graph, r: Graph, b: Graph, i: int, answer: Option<int>)
    requires Valid(g) && Simple(g) && i in g.points && CheckAnswer(g.points, i, answer) == Renamed
    requires Moved(g, r, i, answer.value)
    requires Moved(r, b, answer.value, i)
    ensures Valid(r) && Simple(r) && answer.value in r.points
    ensures CheckAnswer(r.points, answer.value, Some(i)) == Renamed
    ensures b == g
  {
    var n := answer.value;
    MovedKeepsValid(g, r, i, n);
    ValidAllowsRelabel(g, i, n);
    MovedBack(g, r, b, i, n);
  }
}
