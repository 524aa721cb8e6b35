/**
 * The gesture selection of LabelApp: the three signed slots index_a, index_b, index_c (a
 * negative value marks a point created during the current gesture), the hover index
 * highlight_move_index and the set highlight_points, with trigger_index, get_index_cnt and the
 * clean-up helpers as functions on values.
 */
module Selection {
  import opened Optional

  datatype Slots = Slots(a: Option<int>, b: Option<int>, c: Option<int>)

  const NoSlots := Slots(None, None, None)

  datatype Tracker = Tracker(slots: Slots, hover: Option<int>, highlights: set<int>)

  /** The selection after end_trigger: no slot, no hover index, nothing highlighted. */
  const Idle := Tracker(NoSlots, None, {})

  /** Python truthiness of an `Optional[int]`: None and 0 are false. */
  predicate Truthy(o: Option<int>) {
    o.Some? && o.value != 0
  }

  function Abs(x: int): int {
    if x < 0 then -x else x
  }

  function Values(s: Slots): seq<Option<int>> {
    [s.a, s.b, s.c]
  }

  function Kept(o: Option<int>): seq<int> {
    if Truthy(o) then [o.value] else []
  }

  /** The truthy slot values in slot order: the list trigger_index rebuilds the slots from. */
  function Occupied(s: Slots): (r: seq<int>)
    ensures |r| <= 3
    ensures forall j | 0 <= j < |r| :: r[j] != 0 && Some(r[j]) in Values(s)
  {
    Kept(s.a) + Kept(s.b) + Kept(s.c)
  }

  /** get_index_cnt: the number of truthy slots. */
  function Count(s: Slots): (n: int)
    ensures 0 <= n <= 3
    ensures n == 0 <==> !Truthy(s.a) && !Truthy(s.b) && !Truthy(s.c)
    ensures n == 3 <==> Truthy(s.a) && Truthy(s.b) && Truthy(s.c)
  {
    |Occupied(s)|
  }

  function At(l: seq<int>, j: nat): Option<int> {
    if j < |l| then Some(l[j]) else None
  }

  /** The slots taken from the first three entries of a list, padded with None. */
  function FromList(l: seq<int>): Slots {
    Slots(At(l, 0), At(l, 1), At(l, 2))
  }

  function Dropped(o: Option<int>, x: int): seq<Option<int>> {
    if o == Some(x) then [] else [o]
  }

  /** The slot values other than x, None included: the list of the removing branch. */
  function Without(s: Slots, x: int): seq<Option<int>> {
    Dropped(s.a, x) + Dropped(s.b, x) + Dropped(s.c, x)
  }

  function Pick(v: seq<Option<int>>, j: nat): Option<int> {
    if j < |v| then v[j] else None
  }

  /**
   * trigger_index(index); `active` is the guard `self.img and self.points`. A truthy index equal,
   * as a signed value, to a slot is removed: the other two values move to slots a and b and slot
   * c becomes None. Any other truthy index is put after the truthy slots (a fourth value is
   * dropped). The absolute value leaves or joins the highlights.
   */
  function Trigger(t: Tracker, index: Option<int>, active: bool): Tracker {
    if !active || !Truthy(index) then t
    else
      var x := index.value;
      if index in Values(t.slots) then
        var rest := Without(t.slots, x);
        Tracker(Slots(Pick(rest, 0), Pick(rest, 1), None), t.hover, t.highlights - {Abs(x)})
      else
        Tracker(FromList(Occupied(t.slots) + [x]), t.hover, t.highlights + {Abs(x)})
  }

  /** end_trigger_with(index): all slots None, nothing highlighted, hover on `index`. */
  function EndTriggerWith(index: Option<int>): (t: Tracker)
    ensures Count(t.slots) == 0 && t.highlights == {} && t.hover == index
  {
    Tracker(NoSlots, index, {})
  }

  // ---------------------------------------------------------------- slot discipline

  /** No slot holds 0, and the occupied slots form a prefix of (a, b, c). */
  predicate Packed(s: Slots) {
    && s.a != Some(0) && s.b != Some(0) && s.c != Some(0)
    && (s.b.Some? ==> s.a.Some?) && (s.c.Some? ==> s.b.Some?)
  }

  /** Packed slots are exactly their occupied values, padded with None. */
  lemma PackedIsList(s: Slots)
    requires Packed(s)
    ensures FromList(Occupied(s)) == s
  {
  }

  /** The list a removal leaves, for packed slots holding x once at position j. */
  lemma WithoutPacked(s: Slots, x: int, j: int)
    requires Packed(s) && x != 0
    requires 0 <= j < |Occupied(s)| && Occupied(s)[j] == x
    requires forall m | 0 <= m < |Occupied(s)| && m != j :: Occupied(s)[m] != x
    ensures var rest, o := Without(s, x), Occupied(s)[..j] + Occupied(s)[j + 1..];
      Slots(Pick(rest, 0), Pick(rest, 1), None) == FromList(o)
  {
  }

  /**
   * Removing an occupied value: the occupied values lose exactly that entry, keep their order,
   * stay packed, slot c is empty and the absolute value is no longer highlighted.
   */
  lemma TriggerRemoves(t: Tracker, x: int, active: bool, j: int)
    requires active && Packed(t.slots) && x != 0
    requires 0 <= j < Count(t.slots) && Occupied(t.slots)[j] == x
    requires forall m | 0 <= m < Count(t.slots) && m != j :: Occupied(t.slots)[m] != x
    ensures var r := Trigger(t, Some(x), active);
      && Occupied(r.slots) == Occupied(t.slots)[..j] + Occupied(t.slots)[j + 1..]
      && Packed(r.slots) && r.slots.c.None?
      && r.highlights == t.highlights - {Abs(x)} && r.hover == t.hover
  {
    WithoutPacked(t.slots, x, j);
    var o := Occupied(t.slots)[..j] + Occupied(t.slots)[j + 1..];
    assert forall m | 0 <= m < |o| :: o[m] != 0;
  }

  /**
   * Adding a value that no slot holds: it goes after the occupied values (unless all three are
   * taken), the slots stay packed and its absolute value is highlighted.
   */
  lemma TriggerAppends(t: Tracker, x: int, active: bool)
    requires active && Packed(t.slots) && x != 0 && Some(x) !in Values(t.slots)
    ensures var r := Trigger(t, Some(x), active);
      && Occupied(r.slots) == (if Count(t.slots) < 3 then Occupied(t.slots) + [x] else Occupied(t.slots))
      && Packed(r.slots)
      && r.highlights == t.highlights + {Abs(x)} && r.hover == t.hover
  {
    if Count(t.slots) == 3 {
      PackedIsList(t.slots);
    }
  }

  /** None, 0 or an inactive guard leave the selection as it is. */
  lemma TriggerIgnores(t: Tracker, index: Option<int>, active: bool)
    requires !active || !Truthy(index)
    ensures Trigger(t, index, active) == t
  {
  }

  /**
   * Toggling a fresh value twice gives back the selection, provided there was room for it and its
   * absolute value was not highlighted already.
   */
  lemma TriggerTwiceIsNoChange(t: Tracker, x: int)
    requires Packed(t.slots) && x != 0 && Some(x) !in Values(t.slots) && Count(t.slots) < 3
    requires Abs(x) !in t.highlights
    ensures Trigger(Trigger(t, Some(x), true), Some(x), true) == t
  {
    TriggerAppends(t, x, true);
    var r := Trigger(t, Some(x), true);
    var n := Count(t.slots);
    assert Occupied(r.slots)[n] == x;
    TriggerRemoves(r, x, true, n);
    assert Occupied(r.slots)[..n] + Occupied(r.slots)[n + 1..] == Occupied(t.slots);
    PackedIsList(t.slots);
    PackedIsList(Trigger(r, Some(x), true).slots);
  }

  /**
   * The step the angle, midpoint and vertical handlers rely on: triggering slot a again when two
   * different slots are filled keeps only the latest pick; with three filled it keeps (b, c).
   */
  lemma TriggerFirstDropsIt(t: Tracker)
    requires Packed(t.slots) && Count(t.slots) >= 2
    requires t.slots.a != t.slots.b && t.slots.a != t.slots.c
    ensures var r := Trigger(t, t.slots.a, true);
      && r.slots == Slots(t.slots.b, t.slots.c, None)
      && r.highlights == t.highlights - {Abs(t.slots.a.value)}
  {
  }

  /** Triggering slot c after end_trigger starts a new selection holding only that value. */
  lemma TriggerAfterEnd(c: int, hover: Option<int>)
    requires c != 0
    ensures Trigger(Tracker(NoSlots, hover, {}), Some(c), true) == Tracker(Slots(Some(c), None, None), hover, {Abs(c)})
  {
  }

  // ---------------------------------------------------------------- the selection invariant

  /** The absolute values of the occupied slots. */
  function AbsSet(s: Slots): set<int> {
    set j | 0 <= j < |Occupied(s)| :: Abs(Occupied(s)[j])
  }

  /**
   * The selection between events: slots packed, no two of them the same point, the highlights
   * exactly those points, and every one of them a point of the graph (`keys`).
   */
  predicate Tracks(t: Tracker, keys: set<int>) {
    && Packed(t.slots)
    && (forall i, j | 0 <= i < j < |Occupied(t.slots)| :: Abs(Occupied(t.slots)[i]) != Abs(Occupied(t.slots)[j]))
    && t.highlights == AbsSet(t.slots)
    && AbsSet(t.slots) <= keys
  }

  /** With no slot filled the invariant says only that nothing is highlighted. */
  lemma TracksEmpty(t: Tracker, keys: set<int>)
    requires Count(t.slots) == 0 && Packed(t.slots)
    ensures Tracks(t, keys) <==> t.highlights == {}
    ensures t.slots == NoSlots
  {
  }

  /** The absolute values of a list. */
  function AbsValues(l: seq<int>): set<int> {
    set m | 0 <= m < |l| :: Abs(l[m])
  }

  /** Removing the entry at position j of a list without repeated absolute values. */
  lemma AbsRemoveAt(o: seq<int>, j: int, o': seq<int>)
    requires 0 <= j < |o| && o' == o[..j] + o[j + 1..]
    requires forall i, k | 0 <= i < k < |o| :: Abs(o[i]) != Abs(o[k])
    ensures AbsValues(o') == AbsValues(o) - {Abs(o[j])}
    ensures forall i, k | 0 <= i < k < |o'| :: Abs(o'[i]) != Abs(o'[k])
  {
    assert |o'| == |o| - 1;
    assert forall m | 0 <= m < j :: o'[m] == o[m];
    assert forall m | j <= m < |o'| :: o'[m] == o[m + 1];
    forall y | y in AbsValues(o')
      ensures y in AbsValues(o) && y != Abs(o[j])
    {
      var m :| 0 <= m < |o'| && Abs(o'[m]) == y;
      var m0 := if m < j then m else m + 1;
      assert o'[m] == o[m0];
    }
    forall y | y in AbsValues(o) && y != Abs(o[j])
      ensures y in AbsValues(o')
    {
      var m :| 0 <= m < |o| && Abs(o[m]) == y;
      var m1 := if m < j then m else m - 1;
      assert o'[m1] == o[m];
    }
  }

  /** Removing a selected value keeps the selection invariant. */
  lemma AbsAfterRemoval(t: Tracker, x: int, j: int, keys: set<int>)
    requires Tracks(t, keys) && x != 0
    requires 0 <= j < Count(t.slots) && Occupied(t.slots)[j] == x
    ensures Tracks(Trigger(t, Some(x), true), keys)
  {
    var o := Occupied(t.slots);
    forall m | 0 <= m < |o| && m != j
      ensures o[m] != x
    {
      assert Abs(o[m]) != Abs(o[j]);
    }
    TriggerRemoves(t, x, true, j);
    var r := Trigger(t, Some(x), true);
    AbsRemoveAt(o, j, Occupied(r.slots));
    assert AbsSet(t.slots) == AbsValues(o) && AbsSet(r.slots) == AbsValues(Occupied(r.slots));
  }

  /** Appending a value whose point no slot holds yet, with a slot free. */
  lemma AbsAfterAppend(t: Tracker, x: int, keys: set<int>)
    requires Tracks(t, keys) && x != 0 && Abs(x) in keys && Some(x) !in Values(t.slots)
    requires Abs(x) !in AbsSet(t.slots) && Count(t.slots) < 3
    ensures Tracks(Trigger(t, Some(x), true), keys)
  {
    var o := Occupied(t.slots);
    TriggerAppends(t, x, true);
    var r := Trigger(t, Some(x), true);
    var o' := o + [x];
    assert Occupied(r.slots) == o';
    forall y | y in AbsSet(r.slots)
      ensures y in AbsSet(t.slots) + {Abs(x)}
    {
      var m :| 0 <= m < |o'| && Abs(o'[m]) == y;
      if m < |o| { assert o'[m] == o[m]; }
    }
    forall y | y in AbsSet(t.slots)
      ensures y in AbsSet(r.slots)
    {
      var m :| 0 <= m < |o| && Abs(o[m]) == y;
      assert o'[m] == o[m];
    }
    assert o'[|o|] == x;
    forall i, k | 0 <= i < k < |o'|
      ensures Abs(o'[i]) != Abs(o'[k])
    {
      if k < |o| {
        assert o'[i] == o[i] && o'[k] == o[k];
      } else {
        assert o'[i] == o[i];
        assert Abs(o[i]) in AbsSet(t.slots);
      }
    }
  }

  /**
   * Triggering a point of the graph keeps the invariant, unless it would select the same point
   * a second time under the other sign, or a fourth one.
   */
  lemma TriggerKeepsTracks(t: Tracker, x: int, keys: set<int>)
    requires Tracks(t, keys) && x != 0 && Abs(x) in keys
    requires Some(x) !in Values(t.slots) ==> Abs(x) !in AbsSet(t.slots) && Count(t.slots) < 3
    ensures Tracks(Trigger(t, Some(x), true), keys)
  {
    var s := t.slots;
    if Some(x) in Values(s) {
      var j := if s.a == Some(x) then 0 else if s.b == Some(x) then |Kept(s.a)| else |Kept(s.a)| + |Kept(s.b)|;
      assert 0 <= j < Count(s) && Occupied(s)[j] == x;
      AbsAfterRemoval(t, x, j, keys);
    } else {
      AbsAfterAppend(t, x, keys);
    }
  }
}
