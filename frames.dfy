/**
 * The slice of pandas the preprocessors rely on: cells that may be missing,
 * rows keyed by column name, `Series.value_counts()` and
 * `DataFrame.groupby([c1, c2])` with its default sorted keys and dropped
 * missing keys.
 */
module Frames {
  import opened Wrappers
  import opened Text
  import opened PyDict

  /** A table cell: a text value, or pandas' missing value (NaN). */
  datatype Cell = Missing | Str(s: string)

  /** One row of a data frame, from column name to cell. */
  type Row = map<string, Cell>

  /** A data frame: its column labels in order and its rows. */
  datatype Table = Table(columns: seq<string>, rows: seq<Row>)

  /** The cell of `r` in column `col`; a row without that column reads as missing. */
  function Get(r: Row, col: string): Cell
  {
    if col in r then r[col] else Missing
  }

  /** The column `col` of a list of rows, as a series. */
  function Column(rows: seq<Row>, col: string): seq<Cell>
  {
    seq(|rows|, i requires 0 <= i < |rows| => Get(rows[i], col))
  }

  lemma ColumnSnoc(rows: seq<Row>, r: Row, col: string)
    ensures Column(rows + [r], col) == Column(rows, col) + [Get(r, col)]
  {
    assert |Column(rows + [r], col)| == |Column(rows, col) + [Get(r, col)]|;
    forall i | 0 <= i < |rows| + 1
      ensures Column(rows + [r], col)[i] == (Column(rows, col) + [Get(r, col)])[i]
    {
    }
  }

  /* ---------------- Counting ---------------- */

  /** The number of cells of `col` equal to the text `a`. */
  function Count(col: seq<Cell>, a: string): (n: nat)
    ensures n <= |col|
    ensures n > 0 <==> Str(a) in col
  {
    if col == [] then 0
    else
      assert col == col[..|col| - 1] + [col[|col| - 1]];
      Count(col[..|col| - 1], a) + (if col[|col| - 1] == Str(a) then 1 else 0)
  }

  /** The number of non-missing cells of `col` (what `Series.count()` reports). */
  function NonMissing(col: seq<Cell>): (n: nat)
    ensures n <= |col|
    ensures n == 0 <==> forall i :: 0 <= i < |col| ==> col[i] == Missing
  {
    if col == [] then 0
    else
      assert forall i :: 0 <= i < |col| - 1 ==> col[..|col| - 1][i] == col[i];
      NonMissing(col[..|col| - 1]) + (if col[|col| - 1].Str? then 1 else 0)
  }

  /** The distinct texts of `col` in order of first appearance. */
  function Uniques(col: seq<Cell>): (u: seq<string>)
    ensures Distinct(u)
    ensures forall a :: a in u <==> Str(a) in col
  {
    if col == [] then []
    else
      assert col == col[..|col| - 1] + [col[|col| - 1]];
      var u := Uniques(col[..|col| - 1]);
      match col[|col| - 1]
      case Str(a) => if a in u then u else u + [a]
      case Missing => u
  }

  /** Each text of `d` paired with its count in `col`. */
  function CountsOf(d: seq<string>, col: seq<Cell>): seq<(string, nat)>
  {
    seq(|d|, i requires 0 <= i < |d| => (d[i], Count(col, d[i])))
  }

  /** The sum of the counts of a list of (value, count) pairs. */
  function SumCounts(s: seq<(string, nat)>): nat
  {
    if s == [] then 0 else SumCounts(s[..|s| - 1]) + s[|s| - 1].1
  }

  /** Two different entries together count at most the total. */
  lemma {:induction false} SumCountsOfTwo(s: seq<(string, nat)>, i: nat, j: nat)
    requires i < |s| && j < |s| && i != j
    ensures s[i].1 + s[j].1 <= SumCounts(s)
  {
    var init := s[..|s| - 1];
    if i < |s| - 1 && j < |s| - 1 {
      SumCountsOfTwo(init, i, j);
    } else {
      var k := if i < |s| - 1 then i else j;
      SumCountsOfOne(init, k);
    }
  }

  lemma {:induction false} SumCountsOfOne(s: seq<(string, nat)>, i: nat)
    requires i < |s|
    ensures s[i].1 <= SumCounts(s)
  {
    if i < |s| - 1 {
      SumCountsOfOne(s[..|s| - 1], i);
    }
  }

  lemma SumCountsSnoc(s: seq<(string, nat)>, x: (string, nat))
    ensures SumCounts(s + [x]) == SumCounts(s) + x.1
  {
    assert (s + [x])[..|s|] == s;
  }

  lemma CountsOfSnoc(d: seq<string>, a: string, col: seq<Cell>)
    ensures CountsOf(d + [a], col) == CountsOf(d, col) + [(a, Count(col, a))]
  {
    assert |CountsOf(d + [a], col)| == |CountsOf(d, col) + [(a, Count(col, a))]|;
    forall i | 0 <= i <= |d|
      ensures CountsOf(d + [a], col)[i] == (CountsOf(d, col) + [(a, Count(col, a))])[i]
    {
    }
  }

  lemma CountSnoc(col: seq<Cell>, c: Cell, a: string)
    ensures Count(col + [c], a) == Count(col, a) + (if c == Str(a) then 1 else 0)
  {
    assert (col + [c])[..|col|] == col;
  }

  lemma NonMissingSnoc(col: seq<Cell>, c: Cell)
    ensures NonMissing(col + [c]) == NonMissing(col) + (if c.Str? then 1 else 0)
  {
    assert (col + [c])[..|col|] == col;
  }

  /**
   * Appending a cell raises the summed counts of a list of distinct texts by
   * one exactly when the cell holds one of them.
   */
  lemma {:induction false} CountsOfCellSnoc(d: seq<string>, col: seq<Cell>, c: Cell)
    requires Distinct(d)
    ensures SumCounts(CountsOf(d, col + [c])) ==
      SumCounts(CountsOf(d, col)) + (if c.Str? && c.s in d then 1 else 0)
  {
    if d == [] {
    } else {
      var d', a := d[..|d| - 1], d[|d| - 1];
      assert d == d' + [a];
      assert Distinct(d') by {
        forall i, j | 0 <= i < j < |d'| ensures d'[i] != d'[j] {
          assert d'[i] == d[i] && d'[j] == d[j];
        }
      }
      assert a !in d' by {
        forall i | 0 <= i < |d'| ensures d'[i] != a {
          assert d'[i] == d[i];
        }
      }
      CountsOfCellSnoc(d', col, c);
      CountsOfSnoc(d', a, col + [c]);
      CountsOfSnoc(d', a, col);
      SumCountsSnoc(CountsOf(d', col + [c]), (a, Count(col + [c], a)));
      SumCountsSnoc(CountsOf(d', col), (a, Count(col, a)));
      CountSnoc(col, c, a);
    }
  }

  /** The counts of the distinct texts of a column add up to its non-missing cells. */
  lemma {:induction false} CountsOfUniques(col: seq<Cell>)
    ensures SumCounts(CountsOf(Uniques(col), col)) == NonMissing(col)
  {
    if col != [] {
      var p, c := col[..|col| - 1], col[|col| - 1];
      assert col == p + [c];
      var u := Uniques(p);
      CountsOfUniques(p);
      CountsOfCellSnoc(u, p, c);
      NonMissingSnoc(p, c);
      match c
      case Missing =>
      case Str(a) =>
        if a !in u {
          assert Count(p, a) == 0;
          CountSnoc(p, c, a);
          CountsOfSnoc(u, a, col);
          SumCountsSnoc(CountsOf(u, col), (a, Count(col, a)));
        }
    }
  }

  /* ---------------- value_counts ---------------- */

  /** No text is listed twice. */
  predicate DistinctKeys<V>(s: seq<(string, V)>)
  {
    forall i, j :: 0 <= i < j < |s| ==> s[i].0 != s[j].0
  }

  /** Counts never increase along the list. */
  predicate NonIncreasing(s: seq<(string, nat)>)
  {
    forall i, j :: 0 <= i < j < |s| ==> s[i].1 >= s[j].1
  }

  /**
   * Inserts `x` after every pair whose count is at least `x`'s, which keeps a
   * count-descending list sorted and keeps ties in arrival order.
   */
  function InsertByCount(s: seq<(string, nat)>, x: (string, nat)): (r: seq<(string, nat)>)
    ensures |r| == |s| + 1
    ensures forall y :: y in r <==> y in s || y == x
    decreases |s|
  {
    if s == [] || s[|s| - 1].1 >= x.1 then s + [x]
    else
      assert s == s[..|s| - 1] + [s[|s| - 1]];
      InsertByCount(s[..|s| - 1], x) + [s[|s| - 1]]
  }

  lemma {:induction false} InsertByCountSum(s: seq<(string, nat)>, x: (string, nat))
    ensures SumCounts(InsertByCount(s, x)) == SumCounts(s) + x.1
    decreases |s|
  {
    if s == [] || s[|s| - 1].1 >= x.1 {
      SumCountsSnoc(s, x);
    } else {
      var init, last := s[..|s| - 1], s[|s| - 1];
      InsertByCountSum(init, x);
      SumCountsSnoc(InsertByCount(init, x), last);
    }
  }

  lemma {:induction false} InsertByCountSorted(s: seq<(string, nat)>, x: (string, nat))
    requires NonIncreasing(s)
    ensures NonIncreasing(InsertByCount(s, x))
    decreases |s|
  {
    if s == [] || s[|s| - 1].1 >= x.1 {
    } else {
      var init, last := s[..|s| - 1], s[|s| - 1];
      var r' := InsertByCount(init, x);
      InsertByCountSorted(init, x);
      forall i | 0 <= i < |r'| ensures r'[i].1 >= last.1 {
        assert r'[i] in r';
        if r'[i] != x {
          var k :| 0 <= k < |init| && init[k] == r'[i];
          assert s[k] == init[k];
        }
      }
    }
  }

  lemma {:induction false} InsertByCountDistinct(s: seq<(string, nat)>, x: (string, nat))
    requires DistinctKeys(s) && !HasKey(s, x.0)
    ensures DistinctKeys(InsertByCount(s, x))
    decreases |s|
  {
    if s == [] || s[|s| - 1].1 >= x.1 {
    } else {
      var init, last := s[..|s| - 1], s[|s| - 1];
      var r' := InsertByCount(init, x);
      assert !HasKey(init, x.0);
      InsertByCountDistinct(init, x);
      forall i | 0 <= i < |r'| ensures r'[i].0 != last.0 {
        assert r'[i] in r';
        if r'[i] == x {
          assert s[|s| - 1].0 == last.0;
        } else {
          var k :| 0 <= k < |init| && init[k] == r'[i];
          assert s[k] == init[k];
        }
      }
    }
  }

  /** A stable sort of (value, count) pairs by descending count. */
  function SortByCount(l: seq<(string, nat)>): (r: seq<(string, nat)>)
    ensures |r| == |l|
    ensures forall y :: y in r <==> y in l
  {
    if l == [] then []
    else
      assert l == l[..|l| - 1] + [l[|l| - 1]];
      InsertByCount(SortByCount(l[..|l| - 1]), l[|l| - 1])
  }

  /** The sort keeps the total count and orders by count. */
  lemma {:induction false} SortByCountSpec(l: seq<(string, nat)>)
    ensures SumCounts(SortByCount(l)) == SumCounts(l)
    ensures NonIncreasing(SortByCount(l))
  {
    if l != [] {
      var init, last := l[..|l| - 1], l[|l| - 1];
      assert l == init + [last];
      var r' := SortByCount(init);
      SortByCountSpec(init);
      SumCountsSnoc(init, last);
      InsertByCountSum(r', last);
      InsertByCountSorted(r', last);
    }
  }

  /** The sort keeps the texts of a list distinct. */
  lemma {:induction false} SortByCountDistinct(l: seq<(string, nat)>)
    requires DistinctKeys(l)
    ensures DistinctKeys(SortByCount(l))
  {
    if l != [] {
      var init, last := l[..|l| - 1], l[|l| - 1];
      assert l == init + [last];
      var r' := SortByCount(init);
      assert DistinctKeys(init) by {
        forall i, j | 0 <= i < j < |init| ensures init[i].0 != init[j].0 {
          assert init[i] == l[i] && init[j] == l[j];
        }
      }
      SortByCountDistinct(init);
      forall k | 0 <= k < |r'| ensures r'[k].0 != last.0 {
        assert r'[k] in r';
      }
      InsertByCountDistinct(r', last);
    }
  }

  /**
   * `Series.value_counts()`: every distinct non-missing value once with its
   * count, most frequent first. Values with equal counts are placed in the
   * order they first appear, which is what this model assumes of pandas.
   */
  function ValueCounts(col: seq<Cell>): seq<(string, nat)>
  {
    SortByCount(CountsOf(Uniques(col), col))
  }

  /** `value_counts` lists exactly the values present, each with its count. */
  lemma ValueCountsEntries(col: seq<Cell>)
    ensures forall a :: HasKey(ValueCounts(col), a) <==> Str(a) in col
    ensures forall i :: 0 <= i < |ValueCounts(col)| ==>
      ValueCounts(col)[i].1 == Count(col, ValueCounts(col)[i].0) && ValueCounts(col)[i].1 >= 1
  {
    var u := Uniques(col);
    var l := CountsOf(u, col);
    var r := ValueCounts(col);
    forall a ensures HasKey(r, a) <==> Str(a) in col {
      if HasKey(r, a) {
        var k :| 0 <= k < |r| && r[k].0 == a;
        assert r[k] in r;
        var m :| 0 <= m < |l| && l[m] == r[k];
        assert u[m] in u;
      }
      if Str(a) in col {
        var m :| 0 <= m < |u| && u[m] == a;
        assert l[m] in l;
        var k :| 0 <= k < |r| && r[k] == l[m];
      }
    }
    forall i | 0 <= i < |r| ensures r[i].1 == Count(col, r[i].0) && r[i].1 >= 1 {
      assert r[i] in r;
      var m :| 0 <= m < |l| && l[m] == r[i];
      assert u[m] in u;
    }
  }

  /**
   * `value_counts` names each value once, most frequent first, and its counts
   * add up to the non-missing cells.
   */
  lemma ValueCountsShape(col: seq<Cell>)
    ensures DistinctKeys(ValueCounts(col))
    ensures NonIncreasing(ValueCounts(col))
    ensures SumCounts(ValueCounts(col)) == NonMissing(col)
  {
    var u := Uniques(col);
    var l := CountsOf(u, col);
    CountsOfUniques(col);
    assert DistinctKeys(l) by {
      forall i, j | 0 <= i < j < |l| ensures l[i].0 != l[j].0 {
        assert l[i].0 == u[i] && l[j].0 == u[j];
      }
    }
    SortByCountSpec(l);
    SortByCountDistinct(l);
  }

  /* ---------------- groupby ---------------- */

  /** A two-column group key, (borough, month) in the preprocessors. */
  type Key = (string, string)

  /** The lexicographic order pandas sorts two-column group keys in. */
  predicate KeyLess(a: Key, b: Key)
  {
    StrLess(a.0, b.0) || (a.0 == b.0 && StrLess(a.1, b.1))
  }

  lemma KeyLessIrreflexive(a: Key)
    ensures !KeyLess(a, a)
  {
    StrLessIrreflexive(a.0);
    StrLessIrreflexive(a.1);
  }

  lemma KeyLessTransitive(a: Key, b: Key, c: Key)
    requires KeyLess(a, b) && KeyLess(b, c)
    ensures KeyLess(a, c)
  {
    if StrLess(a.0, b.0) && StrLess(b.0, c.0) {
      StrLessTransitive(a.0, b.0, c.0);
    } else if a.0 == b.0 && b.0 == c.0 {
      StrLessTransitive(a.1, b.1, c.1);
    }
  }

  lemma KeyLessTotal(a: Key, b: Key)
    ensures a == b || KeyLess(a, b) || KeyLess(b, a)
  {
    StrLessTotal(a.0, b.0);
    StrLessTotal(a.1, b.1);
  }

  /** Keys in strictly increasing order, hence without repetition. */
  predicate StrictlySorted(s: seq<Key>)
  {
    forall i, j :: 0 <= i < j < |s| ==> KeyLess(s[i], s[j])
  }

  /** Inserts a key into a strictly sorted key list unless it is already there. */
  function InsertKey(s: seq<Key>, k: Key): (r: seq<Key>)
    ensures forall y :: y in r <==> y in s || y == k
    ensures StrictlySorted(s) ==> StrictlySorted(r)
  {
    if s == [] then [k]
    else if k == s[0] then s
    else if KeyLess(k, s[0]) then
      assert StrictlySorted(s) ==> StrictlySorted([k] + s) by {
        if StrictlySorted(s) {
          forall j | 0 < j < |s| + 1 ensures KeyLess(k, ([k] + s)[j]) {
            if j > 1 {
              KeyLessTransitive(k, s[0], s[j - 1]);
            }
          }
        }
      }
      [k] + s
    else
      KeyLessTotal(k, s[0]);
      var rest := InsertKey(s[1..], k);
      assert StrictlySorted(s) ==> StrictlySorted([s[0]] + rest) by {
        if StrictlySorted(s) {
          assert StrictlySorted(s[1..]);
          forall y | y in rest ensures KeyLess(s[0], y) {
            if y != k {
              var j :| 0 <= j < |s[1..]| && s[1..][j] == y;
              assert s[j + 1] == y;
            }
          }
          forall i, j | 0 <= i < j < |rest| + 1
            ensures KeyLess(([s[0]] + rest)[i], ([s[0]] + rest)[j])
          {
            if i == 0 {
              assert rest[j - 1] in rest;
            }
          }
        }
      }
      [s[0]] + rest
  }

  /** The group key of a row, absent when either key cell is missing. */
  function KeyOf(r: Row, c1: string, c2: string): Option<Key>
  {
    match (Get(r, c1), Get(r, c2))
    case (Str(a), Str(b)) => Some((a, b))
    case _ => None
  }

  /** The distinct keys of the rows in sorted order. */
  function SortedKeys(rows: seq<Row>, c1: string, c2: string): (ks: seq<Key>)
    ensures StrictlySorted(ks)
    ensures forall k :: k in ks <==> exists i :: 0 <= i < |rows| && KeyOf(rows[i], c1, c2) == Some(k)
  {
    if rows == [] then []
    else
      var init := rows[..|rows| - 1];
      var ks' := SortedKeys(init, c1, c2);
      assert forall i :: 0 <= i < |init| ==> init[i] == rows[i];
      match KeyOf(rows[|rows| - 1], c1, c2)
      case Some(k) => InsertKey(ks', k)
      case None => ks'
  }

  /* ---------------- Filters ---------------- */

  /** `a` is `b` with some elements left out and the others kept in their order. */
  predicate IsSubsequence<T(==)>(a: seq<T>, b: seq<T>)
    decreases |b|
  {
    if a == [] then true
    else if b == [] then false
    else if a[|a| - 1] == b[|b| - 1] then IsSubsequence(a[..|a| - 1], b[..|b| - 1])
    else IsSubsequence(a, b[..|b| - 1])
  }

  /** An element appended to both keeps the one a subsequence of the other. */
  lemma SubsequenceKeep<T>(a: seq<T>, b: seq<T>, x: T)
    requires IsSubsequence(a, b)
    ensures IsSubsequence(a + [x], b + [x])
  {
    assert (a + [x])[..|a|] == a;
    assert (b + [x])[..|b|] == b;
  }

  /** An element appended to the longer one only keeps it a subsequence. */
  lemma {:induction false} SubsequenceSkip<T>(a: seq<T>, b: seq<T>, x: T)
    requires IsSubsequence(a, b)
    ensures IsSubsequence(a, b + [x])
    decreases |b|, 1
  {
    assert (b + [x])[..|b|] == b;
    if a != [] && a[|a| - 1] == x {
      SubsequenceDropLast(a, b);
    }
  }

  /** A subsequence without its last element is still a subsequence. */
  lemma {:induction false} SubsequenceDropLast<T>(a: seq<T>, b: seq<T>)
    requires a != [] && IsSubsequence(a, b)
    ensures IsSubsequence(a[..|a| - 1], b)
    decreases |b|, 0
  {
    var a', b' := a[..|a| - 1], b[..|b| - 1];
    assert b == b' + [b[|b| - 1]];
    if a[|a| - 1] != b[|b| - 1] {
      SubsequenceDropLast(a, b');
    }
    SubsequenceSkip(a', b', b[|b| - 1]);
  }

  /** The rows whose key is `k`, in their original order. */
  function RowsWithKey(rows: seq<Row>, c1: string, c2: string, k: Key): (g: seq<Row>)
    ensures forall r :: r in g ==> KeyOf(r, c1, c2) == Some(k) && r in rows
    ensures forall i :: 0 <= i < |rows| && KeyOf(rows[i], c1, c2) == Some(k) ==> rows[i] in g
    ensures |g| <= |rows|
  {
    if rows == [] then []
    else
      var init := rows[..|rows| - 1];
      var g' := RowsWithKey(init, c1, c2, k);
      assert forall i :: 0 <= i < |init| ==> init[i] == rows[i];
      if KeyOf(rows[|rows| - 1], c1, c2) == Some(k) then g' + [rows[|rows| - 1]] else g'
  }

  /**
   * A group holds each row with key `k` as often as the frame does, no other
   * row, and keeps the frame's order.
   */
  lemma {:induction false} RowsWithKeyFilters(rows: seq<Row>, c1: string, c2: string, k: Key)
    ensures forall x :: (multiset(RowsWithKey(rows, c1, c2, k))[x] ==
      if KeyOf(x, c1, c2) == Some(k) then multiset(rows)[x] else 0)
    ensures IsSubsequence(RowsWithKey(rows, c1, c2, k), rows)
  {
    if rows != [] {
      var init, last := rows[..|rows| - 1], rows[|rows| - 1];
      assert rows == init + [last];
      RowsWithKeyFilters(init, c1, c2, k);
      if KeyOf(last, c1, c2) == Some(k) {
        SubsequenceKeep(RowsWithKey(init, c1, c2, k), init, last);
      } else {
        SubsequenceSkip(RowsWithKey(init, c1, c2, k), init, last);
      }
    }
  }

  /** One group of a `groupby`: its key and its rows. */
  datatype Group = Group(key: Key, rows: seq<Row>)

  /**
   * `DataFrame.groupby([c1, c2])`: one non-empty group per key present, keys
   * in sorted order, rows with a missing key cell dropped.
   */
  function GroupBy(rows: seq<Row>, c1: string, c2: string): (gs: seq<Group>)
    ensures forall i, j :: 0 <= i < j < |gs| ==> KeyLess(gs[i].key, gs[j].key)
    ensures forall i :: 0 <= i < |gs| ==> |gs[i].rows| > 0
  {
    var ks := SortedKeys(rows, c1, c2);
    var gs := seq(|ks|, i requires 0 <= i < |ks| => Group(ks[i], RowsWithKey(rows, c1, c2, ks[i])));
    forall i | 0 <= i < |gs| ensures |gs[i].rows| > 0 {
      assert ks[i] in ks;
      var j :| 0 <= j < |rows| && KeyOf(rows[j], c1, c2) == Some(ks[i]);
      assert rows[j] in gs[i].rows;
    }
    gs
  }

  /**
   * The groups partition the rows with a key: each group holds exactly the
   * rows with its key, and the keys of the groups are the keys present.
   */
  lemma GroupByMembers(rows: seq<Row>, c1: string, c2: string)
    ensures var gs := GroupBy(rows, c1, c2);
      forall i, r :: 0 <= i < |gs| && r in gs[i].rows ==> KeyOf(r, c1, c2) == Some(gs[i].key) && r in rows
    ensures var gs := GroupBy(rows, c1, c2);
      forall i, j :: 0 <= i < |gs| && 0 <= j < |rows| && KeyOf(rows[j], c1, c2) == Some(gs[i].key) ==>
        rows[j] in gs[i].rows
    ensures var gs := GroupBy(rows, c1, c2);
      forall k :: (exists i :: 0 <= i < |gs| && gs[i].key == k) <==>
        (exists j :: 0 <= j < |rows| && KeyOf(rows[j], c1, c2) == Some(k))
  {
    var gs := GroupBy(rows, c1, c2);
    forall i | 0 <= i < |gs|
      ensures forall r :: r in gs[i].rows ==> KeyOf(r, c1, c2) == Some(gs[i].key) && r in rows
      ensures forall j :: 0 <= j < |rows| && KeyOf(rows[j], c1, c2) == Some(gs[i].key) ==> rows[j] in gs[i].rows
    {
      GroupAt(rows, c1, c2, i);
    }
    GroupKeysPresent(rows, c1, c2);
  }

  /** Group `i` holds the rows whose key is the `i`-th smallest key present. */
  lemma GroupAt(rows: seq<Row>, c1: string, c2: string, i: nat)
    requires i < |GroupBy(rows, c1, c2)|
    ensures GroupBy(rows, c1, c2)[i] == Group(GroupBy(rows, c1, c2)[i].key, RowsWithKey(rows, c1, c2, GroupBy(rows, c1, c2)[i].key))
  {
  }

  /** The keys of the groups are the keys of the rows. */
  lemma GroupKeysPresent(rows: seq<Row>, c1: string, c2: string)
    ensures forall k :: (exists i :: 0 <= i < |GroupBy(rows, c1, c2)| && GroupBy(rows, c1, c2)[i].key == k) <==>
      (exists j :: 0 <= j < |rows| && KeyOf(rows[j], c1, c2) == Some(k))
  {
    var ks := SortedKeys(rows, c1, c2);
    var gs := GroupBy(rows, c1, c2);
    forall k | exists j :: 0 <= j < |rows| && KeyOf(rows[j], c1, c2) == Some(k)
      ensures exists i :: 0 <= i < |gs| && gs[i].key == k
    {
      var i :| 0 <= i < |ks| && ks[i] == k;
      assert gs[i].key == k;
    }
    forall k | exists i :: 0 <= i < |gs| && gs[i].key == k
      ensures exists j :: 0 <= j < |rows| && KeyOf(rows[j], c1, c2) == Some(k)
    {
      var i :| 0 <= i < |gs| && gs[i].key == k;
      assert ks[i] in ks;
    }
  }

  /** Every group's key is the key of some row read: that row holds both of its texts. */
  lemma GroupKeyIsRead(rows: seq<Row>, c1: string, c2: string, j: nat)
    requires j < |GroupBy(rows, c1, c2)|
    ensures exists n :: (0 <= n < |rows| &&
      Get(rows[n], c1) == Str(GroupBy(rows, c1, c2)[j].key.0) && Get(rows[n], c2) == Str(GroupBy(rows, c1, c2)[j].key.1))
  {
    var ks := SortedKeys(rows, c1, c2);
    var k := ks[j];
    assert GroupBy(rows, c1, c2)[j].key == k;
    assert k in ks;
    var n :| 0 <= n < |rows| && KeyOf(rows[n], c1, c2) == Some(k);
    KeyOfSome(rows[n], c1, c2, k);
  }

  /** A row has a key exactly when both its cells hold texts, and the key is that pair. */
  lemma KeyOfSome(r: Row, c1: string, c2: string, k: Key)
    requires KeyOf(r, c1, c2) == Some(k)
    ensures Get(r, c1) == Str(k.0) && Get(r, c2) == Str(k.1)
  {
  }
}
