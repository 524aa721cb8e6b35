/**
 * Generic facts about sets and maps that the dictionary-rewriting loops of LabelApp rely on:
 * picking an element of a non-empty set, re-keying a dictionary one entry at a time (the loops of
 * modify_index), and building a dictionary from a list of rows (the loops of import_labels).
 */
module Collections {

  /** A non-empty set has an element. */
  lemma SomeElement<T>(s: set<T>) returns (y: T)
    requires s != {}
    ensures y in s
  {
    if forall y :: y !in s {
      assert false;
    }
    y :| y in s;
  }

  // ---------------------------------------------------------------- re-keying

  /**
   * `back` undoes `f` on the keys of `m` and leaves the keys of `m` alone: then renaming any
   * subset of the keys of `m` by `f` sends no two keys to the same place.
   */
  ghost predicate Reversible<K(!new), V>(m: map<K, V>, f: K -> K, back: K -> K) {
    forall k | k in m :: back(f(k)) == k && back(k) == k
  }

  /** The keys of `m` after the keys in `done` have been renamed by `f`. */
  function Targets<K(!new), V>(m: map<K, V>, done: set<K>, f: K -> K): set<K> {
    set k | k in m :: if k in done then f(k) else k
  }

  /** `m` with the keys in `done` renamed by `f`, every entry keeping its value. */
  function Rekeyed<K(!new), V>(m: map<K, V>, done: set<K>, f: K -> K, back: K -> K): (r: map<K, V>)
    requires Reversible(m, f, back)
  {
    map j | j in Targets(m, done, f) :: m[back(j)]
  }

  /**
   * A key is in the re-keyed map exactly when `back` leads to a key of `m` that was sent to it,
   * and it then holds that key's value.
   */
  lemma RekeyedAt<K(!new), V>(m: map<K, V>, done: set<K>, f: K -> K, back: K -> K, j: K)
    requires Reversible(m, f, back)
    ensures var i := back(j);
      j in Rekeyed(m, done, f, back) <==> i in m && j == (if i in done then f(i) else i)
    ensures j in Rekeyed(m, done, f, back) ==> Rekeyed(m, done, f, back)[j] == m[back(j)]
  {
    if j in Targets(m, done, f) {
      var i :| i in m && j == (if i in done then f(i) else i);
      assert back(j) == i;
    }
  }

  /** Each key of `m` is found, with its value, under its new name. */
  lemma RekeyedEntry<K(!new), V>(m: map<K, V>, done: set<K>, f: K -> K, back: K -> K, k: K)
    requires Reversible(m, f, back) && k in m
    ensures var j := if k in done then f(k) else k;
      j in Rekeyed(m, done, f, back) && Rekeyed(m, done, f, back)[j] == m[k]
  {
    var j := if k in done then f(k) else k;
    assert j in Targets(m, done, f);
  }

  /**
   * Once every key is renamed: each entry of `m` is found under its new name, and every key of
   * the result is the new name of the key `back` leads to.
   */
  lemma RekeyedAll<K(!new), V>(m: map<K, V>, f: K -> K, back: K -> K)
    requires Reversible(m, f, back)
    ensures var r := Rekeyed(m, m.Keys, f, back);
      && (forall k | k in m :: f(k) in r && r[f(k)] == m[k])
      && (forall j | j in r :: back(j) in m && f(back(j)) == j)
  {
    var r := Rekeyed(m, m.Keys, f, back);
    forall k | k in m
      ensures f(k) in r && r[f(k)] == m[k]
    {
      RekeyedEntry(m, m.Keys, f, back, k);
    }
    forall j | j in r
      ensures back(j) in m && f(back(j)) == j
    {
      RekeyedAt(m, m.Keys, f, back, j);
    }
  }

  /** Nothing renamed yet: the map itself. */
  lemma RekeyedNothing<K(!new), V>(m: map<K, V>, f: K -> K, back: K -> K)
    requires Reversible(m, f, back)
    ensures Rekeyed(m, {}, f, back) == m
  {
    forall j
      ensures j in Rekeyed(m, {}, f, back) <==> j in m
    {
      RekeyedAt(m, {}, f, back, j);
    }
  }

  /**
   * One more step of the rewriting loop: handling key `k` either leaves the map as it is (when
   * `f` fixes `k`) or stores the entry under `f(k)` and pops `k`.
   */
  lemma RekeyStep<K(!new), V>(m: map<K, V>, done: set<K>, f: K -> K, back: K -> K, k: K)
    requires Reversible(m, f, back)
    requires k in m && k !in done
    ensures var cur := Rekeyed(m, done, f, back);
      k in cur && cur[k] == m[k] &&
      Rekeyed(m, done + {k}, f, back) == if f(k) == k then cur else cur[f(k) := cur[k]] - {k}
  {
    RekeyedEntry(m, done, f, back, k);
    var cur, next := Rekeyed(m, done, f, back), Rekeyed(m, done + {k}, f, back);
    var upd := if f(k) == k then cur else cur[f(k) := m[k]] - {k};
    forall j
      ensures j in next <==> j in upd
      ensures j in next ==> next[j] == upd[j]
    {
      RekeyedAt(m, done, f, back, j);
      RekeyedAt(m, done + {k}, f, back, j);
    }
    assert next == upd;
  }

  /** Taking `k` out of the keys still to visit adds it to the keys visited. */
  lemma VisitStep<K>(all: set<K>, todo: set<K>, k: K)
    requires k in todo && todo <= all
    ensures all - (todo - {k}) == (all - todo) + {k}
  {
  }

  // ---------------------------------------------------------------- building from rows

  /** Storing each row under its key, in order, so that a later row overrides an earlier one. */
  function Fold<R, K, V>(m: map<K, V>, rows: seq<R>, key: R -> K, val: R -> V): map<K, V>
    decreases |rows|
  {
    if rows == [] then m
    else Fold(m, rows[..|rows| - 1], key, val)[key(rows[|rows| - 1]) := val(rows[|rows| - 1])]
  }

  /** The keys of the rows, as a set. */
  function KeysOf<R, K>(rows: seq<R>, key: R -> K): set<K> {
    set j | 0 <= j < |rows| :: key(rows[j])
  }

  /** Appending a row adds its key. */
  lemma KeysOfSnoc<R, K>(rows: seq<R>, r: R, key: R -> K)
    ensures KeysOf(rows + [r], key) == KeysOf(rows, key) + {key(r)}
  {
    var rows' := rows + [r];
    forall x | x in KeysOf(rows', key)
      ensures x in KeysOf(rows, key) + {key(r)}
    {
      var j :| 0 <= j < |rows'| && key(rows'[j]) == x;
      if j < |rows| { assert rows'[j] == rows[j]; }
    }
    forall x | x in KeysOf(rows, key)
      ensures x in KeysOf(rows', key)
    {
      var j :| 0 <= j < |rows| && key(rows[j]) == x;
      assert rows'[j] == rows[j];
    }
    assert key(rows'[|rows|]) == key(r);
  }

  /** One more step of a loop that stores rows in order. */
  lemma FoldSnoc<R, K, V>(m: map<K, V>, rows: seq<R>, j: int, key: R -> K, val: R -> V)
    requires 0 <= j < |rows|
    ensures Fold(m, rows[..j + 1], key, val) == Fold(m, rows[..j], key, val)[key(rows[j]) := val(rows[j])]
  {
    assert rows[..j + 1][..j] == rows[..j];
  }

  /** No two rows have the same key. */
  predicate DistinctKeys<R, K(==)>(rows: seq<R>, key: R -> K) {
    forall i, j | 0 <= i < j < |rows| :: key(rows[i]) != key(rows[j])
  }

  /** Appending a row with a new key keeps the keys distinct and adds that key. */
  lemma DistinctSnoc<R, K>(rows: seq<R>, r: R, key: R -> K)
    requires DistinctKeys(rows, key) && key(r) !in KeysOf(rows, key)
    ensures DistinctKeys(rows + [r], key)
    ensures KeysOf(rows + [r], key) == KeysOf(rows, key) + {key(r)}
  {
    KeysOfSnoc(rows, r, key);
    var rows' := rows + [r];
    forall i, j | 0 <= i < j < |rows'|
      ensures key(rows'[i]) != key(rows'[j])
    {
      assert rows'[i] == rows[i];
      if j < |rows| {
        assert rows'[j] == rows[j];
      } else {
        assert key(rows[i]) in KeysOf(rows, key);
      }
    }
  }

  /** The rows list the entries of `mm` exactly: one row per key, reading back to the entry. */
  ghost predicate Lists<R, K, V>(mm: map<K, V>, rows: seq<R>, key: R -> K, val: R -> V) {
    && DistinctKeys(rows, key)
    && KeysOf(rows, key) == mm.Keys
    && (forall j | 0 <= j < |rows| :: key(rows[j]) in mm && val(rows[j]) == mm[key(rows[j])])
  }

  /** The rows list the entries of `mm` whose keys are not in `todo`: the state of a listing loop. */
  ghost predicate ListsBut<R, K, V>(mm: map<K, V>, rows: seq<R>, todo: set<K>, key: R -> K, val: R -> V) {
    && todo <= mm.Keys
    && DistinctKeys(rows, key)
    && KeysOf(rows, key) == mm.Keys - todo
    && (forall j | 0 <= j < |rows| :: key(rows[j]) in mm && val(rows[j]) == mm[key(rows[j])])
  }

  /** Nothing listed yet. */
  lemma ListsButStart<R, K, V>(mm: map<K, V>, key: R -> K, val: R -> V)
    ensures ListsBut(mm, [], mm.Keys, key, val)
  {
  }

  /** Listing one more entry, a row for a key still to visit. */
  lemma ListsButStep<R, K, V>(mm: map<K, V>, rows: seq<R>, todo: set<K>, r: R, key: R -> K, val: R -> V)
    requires ListsBut(mm, rows, todo, key, val)
    requires key(r) in todo && val(r) == mm[key(r)]
    ensures ListsBut(mm, rows + [r], todo - {key(r)}, key, val)
  {
    DistinctSnoc(rows, r, key);
    VisitStep(mm.Keys, todo, key(r));
    var rows' := rows + [r];
    forall j | 0 <= j < |rows'|
      ensures key(rows'[j]) in mm && val(rows'[j]) == mm[key(rows'[j])]
    {
      if j < |rows| { assert rows'[j] == rows[j]; }
    }
  }

  /** All keys visited: the rows list the map. */
  lemma ListsButDone<R, K, V>(mm: map<K, V>, rows: seq<R>, key: R -> K, val: R -> V)
    requires ListsBut(mm, rows, {}, key, val)
    ensures Lists(mm, rows, key, val)
  {
    assert mm.Keys - {} == mm.Keys;
  }

  /** Folding rows into an empty map gives exactly their keys, repeated or not. */
  lemma {:induction false} FoldKeys<R, K, V>(rows: seq<R>, key: R -> K, val: R -> V)
    ensures Fold(map[], rows, key, val).Keys == KeysOf(rows, key)
  {
    if rows != [] {
      var init := rows[..|rows| - 1];
      FoldKeys(init, key, val);
      assert rows == init + [rows[|rows| - 1]];
      KeysOfSnoc(init, rows[|rows| - 1], key);
    }
  }

  /** Folding rows with distinct keys into an empty map stores each row's value under its key. */
  lemma {:induction false} FoldDistinct<R, K, V>(rows: seq<R>, key: R -> K, val: R -> V)
    requires DistinctKeys(rows, key)
    ensures Fold(map[], rows, key, val).Keys == KeysOf(rows, key)
    ensures forall j | 0 <= j < |rows| :: Fold(map[], rows, key, val)[key(rows[j])] == val(rows[j])
  {
    if rows != [] {
      var init := rows[..|rows| - 1];
      assert DistinctKeys(init, key);
      FoldDistinct(init, key, val);
      var last := rows[|rows| - 1];
      assert KeysOf(rows, key) == KeysOf(init, key) + {key(last)} by {
        forall x | x in KeysOf(rows, key) ensures x in KeysOf(init, key) + {key(last)} {
          var j :| 0 <= j < |rows| && key(rows[j]) == x;
          if j < |rows| - 1 { assert init[j] == rows[j]; }
        }
        forall x | x in KeysOf(init, key) ensures x in KeysOf(rows, key) {
          var j :| 0 <= j < |init| && key(init[j]) == x;
          assert rows[j] == init[j];
        }
      }
      forall j | 0 <= j < |rows|
        ensures Fold(map[], rows, key, val)[key(rows[j])] == val(rows[j])
      {
        if j < |rows| - 1 {
          assert init[j] == rows[j];
          assert key(rows[j]) != key(last);
        }
      }
    }
  }

  /** Rows that list a map exactly fold back into that map. */
  lemma FoldOfListing<R, K, V>(mm: map<K, V>, rows: seq<R>, key: R -> K, val: R -> V)
    requires Lists(mm, rows, key, val)
    ensures Fold(map[], rows, key, val) == mm
  {
    FoldDistinct(rows, key, val);
    var r := Fold(map[], rows, key, val);
    forall k | k in mm
      ensures r[k] == mm[k]
    {
      var j :| 0 <= j < |rows| && key(rows[j]) == k;
    }
  }
}
