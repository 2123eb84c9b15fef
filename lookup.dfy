/** What `SourceMap.__getitem__` returns: the exact entry, or the nearest preceding column of the line. */
module LookupProperties {
  import opened Wrappers
  import opened Text
  import opened Mappings
  import opened SourceMaps

  /** Columns in non-decreasing order, as `_index` holds them when every column delta is non-negative. */
  predicate Sorted(a: seq<int>)
  {
    forall i, j :: 0 <= i < j < |a| ==> a[i] <= a[j]
  }

  /** On sorted input `bisect_right` splits `lo .. hi` into the elements up to `x` and those above it. */
  lemma {:induction false} BisectRightSplits(a: seq<int>, x: int, lo: nat, hi: nat)
    requires lo <= hi <= |a| && Sorted(a)
    ensures forall k :: lo <= k < BisectRight(a, x, lo, hi) ==> a[k] <= x
    ensures forall k :: BisectRight(a, x, lo, hi) <= k < hi ==> x < a[k]
    decreases hi - lo
  {
    if lo < hi {
      var mid := (lo + hi) / 2;
      if x < a[mid] {
        BisectRightSplits(a, x, lo, mid);
      } else {
        BisectRightSplits(a, x, mid + 1, hi);
      }
    }
  }

  /** An integer index means column 0. */
  lemma LineMeansColumnZero(m: SourceMap, l: int)
    ensures GetItem(m, LineIndex(l)) == GetItem(m, PairIndex(l, 0))
  {
  }

  /** A position with an entry returns that entry. */
  lemma ExactHit(m: SourceMap, l: int, c: int)
    requires (l, c) in m.entries
    ensures GetItem(m, PairIndex(l, c)) == Success(m.entries[(l, c)])
  {
  }

  /**
   * Without an exact entry: a line that `_index` does not have, or an empty
   * line, raises `IndexError`.
   */
  lemma NoLineOrEmptyLine(m: SourceMap, l: int, c: int)
    requires (l, c) !in m.entries
    ensures !(-|m.index| <= l < |m.index|) ==> GetItem(m, PairIndex(l, c)) == Failure(NoSuchLine)
    ensures 0 <= l < |m.index| && m.index[l] == [] ==> GetItem(m, PairIndex(l, c)) == Failure(EmptyLine)
  {
  }

  /**
   * The nearest-column rule: on a sorted line of an indexed map, a position
   * without an entry returns the entry at the greatest column below it, or
   * at the first column when every column is above it.
   */
  lemma NearestPreceding(m: SourceMap, l: int, c: int)
    requires Indexed(m)
    requires (l, c) !in m.entries && 0 <= l < |m.index| && m.index[l] != [] && Sorted(m.index[l])
    ensures GetItem(m, PairIndex(l, c)).Success?
    ensures var r := GetItem(m, PairIndex(l, c)).value;
      r.line == l && r.column in m.index[l] && r == m.entries[(l, r.column)]
    ensures var r := GetItem(m, PairIndex(l, c)).value;
      (exists k :: 0 <= k < |m.index[l]| && m.index[l][k] <= c) ==>
        r.column < c && forall k :: 0 <= k < |m.index[l]| && m.index[l][k] <= c ==> m.index[l][k] <= r.column
    ensures var r := GetItem(m, PairIndex(l, c)).value;
      (forall k :: 0 <= k < |m.index[l]| ==> c < m.index[l][k]) ==> r.column == m.index[l][0]
  {
    var cols := m.index[l];
    var cidx := BisectRight(cols, c, 0, |cols|);
    BisectRightSplits(cols, c, 0, |cols|);
    var col := cols[if cidx == 0 then 0 else cidx - 1];
    assert (l, col) in m.entries;
    assert c !in cols;
    if exists k :: 0 <= k < |cols| && cols[k] <= c {
      var k :| 0 <= k < |cols| && cols[k] <= c;
      assert cidx > 0;
    }
  }

  /**
   * Whatever the order of the columns, a position on a non-empty line of an
   * indexed map returns one of that line's entries.
   */
  lemma SomeEntryOfTheLine(m: SourceMap, l: int, c: int)
    requires Indexed(m) && 0 <= l < |m.index| && m.index[l] != []
    ensures GetItem(m, PairIndex(l, c)).Success?
    ensures GetItem(m, PairIndex(l, c)).value.line == l
    ensures (l, GetItem(m, PairIndex(l, c)).value.column) in m.entries
  {
    if (l, c) !in m.entries {
      var cols := m.index[l];
      var cidx := BisectRight(cols, c, 0, |cols|);
      var col := cols[if cidx == 0 then 0 else cidx - 1];
      assert (l, col) in m.entries;
    }
  }

  /**
   * A negative line counts from the end of `_index`, but entries are keyed by
   * the line as given, so the final lookup raises `KeyError` (or the line is
   * empty).
   */
  lemma NegativeLine(m: SourceMap, l: int, c: int)
    requires Indexed(m) && -|m.index| <= l < 0
    ensures GetItem(m, PairIndex(l, c)).Failure?
    ensures m.index[|m.index| + l] == [] ==> GetItem(m, PairIndex(l, c)) == Failure(EmptyLine)
    ensures m.index[|m.index| + l] != [] ==> GetItem(m, PairIndex(l, c)) == Failure(NoSuchEntry)
  {
    assert (l, c) !in m.entries;
    var cols := m.index[|m.index| + l];
    if cols != [] {
      var cidx := BisectRight(cols, c, 0, |cols|);
      var col := cols[if cidx == 0 then 0 else cidx - 1];
      assert (l, col) !in m.entries;
    }
  }

  /** One line with columns 2, 5 and 9. */
  function ThreeColumns(): SourceMap
  {
    SourceMap(None, None, map[(0, 2) := Unmapped(0, 2), (0, 5) := Unmapped(0, 5), (0, 9) := Unmapped(0, 9)],
              [[2, 5, 9]])
  }

  /** With columns 2, 5 and 9: column 7 gives the entry at 5, column 0 the one at 2, column 2 itself, column 12 the one at 9. */
  lemma ThreeColumnsExample()
    ensures GetItem(ThreeColumns(), PairIndex(0, 7)) == Success(Unmapped(0, 5))
    ensures GetItem(ThreeColumns(), PairIndex(0, 0)) == Success(Unmapped(0, 2))
    ensures GetItem(ThreeColumns(), LineIndex(0)) == Success(Unmapped(0, 2))
    ensures GetItem(ThreeColumns(), PairIndex(0, 2)) == Success(Unmapped(0, 2))
    ensures GetItem(ThreeColumns(), PairIndex(0, 12)) == Success(Unmapped(0, 9))
    ensures GetItem(ThreeColumns(), PairIndex(1, 0)) == Failure(NoSuchLine)
  {
    var m := ThreeColumns();
    assert (0, 7) !in m.entries && (0, 0) !in m.entries && (0, 12) !in m.entries && (1, 0) !in m.entries;
    assert BisectRight([2, 5, 9], 7, 0, 3) == 2;
    assert BisectRight([2, 5, 9], 0, 0, 3) == 0;
    assert BisectRight([2, 5, 9], 12, 0, 3) == 3;
  }
}
