/**
 * Canonical dictionary keys for lines and angles.
 *
 * module/utils.py (which defines get_line_key and get_angle_key) is not part of this model.
 * The two functions below are the model's assumption about them: a line key is the pair of
 * endpoint indices in ascending order, and an angle key keeps the vertex in the middle and puts
 * the two outer indices in ascending order.
 */
module Keys {

  /** get_line_key(a, b): the unordered pair {a, b} written in ascending order. */
  function LineKey(a: int, b: int): (k: (int, int))
    ensures k.0 <= k.1
    ensures (k.0 == a && k.1 == b) || (k.0 == b && k.1 == a)
  {
    if a <= b then (a, b) else (b, a)
  }

  /** get_angle_key(a, b, c) for the angle abc: vertex b in the middle, a and c sorted. */
  function AngleKey(a: int, b: int, c: int): (k: (int, int, int))
    ensures k.1 == b
    ensures k.0 <= k.2
    ensures (k.0 == a && k.2 == c) || (k.0 == c && k.2 == a)
  {
    if a <= c then (a, b, c) else (c, b, a)
  }

  predicate HasEnd(k: (int, int), i: int) {
    k.0 == i || k.1 == i
  }

  predicate HasIndex(k: (int, int, int), i: int) {
    k.0 == i || k.1 == i || k.2 == i
  }

  /** A line key does not depend on the order its endpoints are given in. */
  lemma LineKeySymmetric(a: int, b: int)
    ensures LineKey(a, b) == LineKey(b, a)
  {
  }

  /** Swapping the outer indices of an angle gives the same key. */
  lemma AngleKeySymmetric(a: int, b: int, c: int)
    ensures AngleKey(a, b, c) == AngleKey(c, b, a)
  {
  }

  /** A key that is already canonical is its own key. */
  lemma CanonicalKeysAreFixed(k: (int, int), t: (int, int, int))
    ensures k.0 <= k.1 ==> LineKey(k.0, k.1) == k
    ensures t.0 <= t.2 ==> AngleKey(t.0, t.1, t.2) == t
  {
  }
}
