/**
 * The output record both ward-level preprocessors append per (question,
 * group), and the six ethnicity shares they compute from the `ReNQ147`
 * column of a group.
 */
module Measures {
  import opened Wrappers
  import opened PyDict
  import opened Frames

  /**
   * A proportion, kept exactly as numerator over denominator (the value
   * pandas stores is `num / den`); `NaN` is what 0/0 gives.
   */
  datatype Num = Ratio(num: real, den: nat) | NaN

  /** A ratio with a positive denominator whose value lies in [0, 1]. */
  predicate InUnitInterval(n: Num)
  {
    n.Ratio? && n.den > 0 && 0.0 <= n.num <= n.den as real
  }

  /**
   * The six `*_Proportion` columns of a result row, as counts over the group
   * size: each proportion is its count divided by `size`.
   */
  datatype Shares = Shares(size: nat, whiteBritish: nat, whiteOther: nat, black: nat, asian: nat,
                           mixed: nat, other: int)

  /** One row of `results_df`. */
  datatype MeasureRow = MeasureRow(date: string, borough: string, measure: string,
                                   total: Num, shares: Shares)

  /** The column holding each respondent's ethnic group. */
  const EthnicityColumn: string := "ReNQ147"

  /** The five labels whose shares are computed directly. */
  const WhiteBritish: string := "White British"
  const Black: string := "Black"
  const Asian: string := "Asian"
  const WhiteOther: string := "White Other"
  const Mixed: string := "Mixed"

  /** Cells equal to any of five distinct labels are at most all cells. */
  lemma {:induction false} FiveCountsBound(col: seq<Cell>)
    ensures Count(col, WhiteBritish) + Count(col, WhiteOther) + Count(col, Black)
      + Count(col, Asian) + Count(col, Mixed) <= |col|
  {
    if col != [] {
      var p, c := col[..|col| - 1], col[|col| - 1];
      assert col == p + [c];
      FiveCountsBound(p);
      CountSnoc(p, c, WhiteBritish);
      CountSnoc(p, c, WhiteOther);
      CountSnoc(p, c, Black);
      CountSnoc(p, c, Asian);
      CountSnoc(p, c, Mixed);
    }
  }

  /**
   * The ethnicity shares of one non-empty group: each of the five labels'
   * count over the group size (the mean of `ReNQ147 == label`). "Other" is
   * one minus the White British, White Other, Black and Asian shares; it does
   * not subtract the Mixed share, so it is at least that share and the six
   * add up to one plus it.
   */
  function EthnicShares(group: seq<Row>): (s: Shares)
    requires |group| > 0
    ensures s.size == |group| > 0
    ensures s.whiteBritish <= s.size && s.whiteOther <= s.size && s.black <= s.size
    ensures s.asian <= s.size && s.mixed <= s.size
    ensures var col := Column(group, EthnicityColumn);
      s.whiteBritish == Count(col, WhiteBritish) && s.whiteOther == Count(col, WhiteOther)
      && s.black == Count(col, Black) && s.asian == Count(col, Asian) && s.mixed == Count(col, Mixed)
    ensures s.other == s.size - s.whiteBritish - s.whiteOther - s.black - s.asian
    ensures s.mixed <= s.other <= s.size
    ensures s.whiteBritish + s.whiteOther + s.black + s.asian + s.mixed + s.other == s.size + s.mixed
    ensures s.whiteBritish > 0 <==> Str(WhiteBritish) in Column(group, EthnicityColumn)
    ensures s.mixed > 0 <==> Str(Mixed) in Column(group, EthnicityColumn)
  {
    var col := Column(group, EthnicityColumn);
    FiveCountsBound(col);
    var wb, bl, asn, wo, mx := Count(col, WhiteBritish), Count(col, Black), Count(col, Asian),
                               Count(col, WhiteOther), Count(col, Mixed);
    Shares(|group|, wb, wo, bl, asn, mx, |group| - wb - wo - bl - asn)
  }

  /** A weight table whose every weight lies in [0, 1]. */
  predicate UnitWeights(w: map<string, real>)
  {
    forall a :: a in w ==> 0.0 <= w[a] <= 1.0
  }

  /** `sum()` of a series of numbers. */
  function SumReals(s: seq<real>): real
  {
    if s == [] then 0.0 else SumReals(s[..|s| - 1]) + s[|s| - 1]
  }

  /** The counts of a value-count list as numbers. */
  function CountsAsReals(vc: seq<(string, nat)>): (c: seq<real>)
    ensures |c| == |vc|
  {
    seq(|vc|, i requires 0 <= i < |vc| => vc[i].1 as real)
  }

  /** Summing preserves a pointwise bound between non-negative series. */
  lemma {:induction false} SumRealsBetween(a: seq<real>, b: seq<real>)
    requires |a| == |b|
    requires forall i :: 0 <= i < |a| ==> 0.0 <= a[i] <= b[i]
    ensures 0.0 <= SumReals(a) <= SumReals(b)
  {
    if a != [] {
      SumRealsBetween(a[..|a| - 1], b[..|b| - 1]);
    }
  }

  /** The counts of a value-count list sum to its total count. */
  lemma {:induction false} SumCountsAsReals(vc: seq<(string, nat)>)
    ensures SumReals(CountsAsReals(vc)) == SumCounts(vc) as real
  {
    if vc != [] {
      var init := vc[..|vc| - 1];
      SumCountsAsReals(init);
      assert CountsAsReals(vc)[..|vc| - 1] == CountsAsReals(init);
    }
  }

  /* ---------------- Weighted sums ---------------- */

  /** `weights.get(a, 0)`: the weight of an answer, 0 for one the table lacks. */
  function WeightOf(w: map<string, real>, a: string): (x: real)
    ensures a !in w ==> x == 0.0
    ensures UnitWeights(w) ==> 0.0 <= x <= 1.0
  {
    if a in w then w[a] else 0.0
  }

  /**
   * A count times a weight, `n * g`, written as `n` additions of `g` so that
   * sums of such terms stay linear for the verifier.
   */
  function Times(n: nat, g: real): real
  {
    if n == 0 then 0.0 else Times(n - 1, g) + g
  }

  lemma {:induction false} TimesIsProduct(n: nat, g: real)
    ensures Times(n, g) == n as real * g
  {
    if n > 0 {
      TimesIsProduct(n - 1, g);
    }
  }

  /** A count scaled by a weight in [0, 1] stays between 0 and the count. */
  lemma {:induction false} TimesBounds(n: nat, g: real)
    requires 0.0 <= g <= 1.0
    ensures 0.0 <= Times(n, g) <= n as real
  {
    if n > 0 {
      TimesBounds(n - 1, g);
    }
  }

  /** Each answer's count times its weight (0 when unknown), summed over a value-count list. */
  function WeightedSum(vc: seq<(string, nat)>, w: map<string, real>): real
  {
    if vc == [] then 0.0
    else WeightedSum(vc[..|vc| - 1], w) + Times(vc[|vc| - 1].1, WeightOf(w, vc[|vc| - 1].0))
  }

  /** The weights of the respondents' answers, summed cell by cell; a missing answer adds nothing. */
  function CellWeightSum(col: seq<Cell>, w: map<string, real>): real
  {
    if col == [] then 0.0
    else CellWeightSum(col[..|col| - 1], w) + (if col[|col| - 1].Str? then WeightOf(w, col[|col| - 1].s) else 0.0)
  }

  lemma WeightedSumSnoc(vc: seq<(string, nat)>, x: (string, nat), w: map<string, real>)
    ensures WeightedSum(vc + [x], w) == WeightedSum(vc, w) + Times(x.1, WeightOf(w, x.0))
  {
    assert (vc + [x])[..|vc|] == vc;
  }

  lemma {:induction false} InsertByCountWeighted(s: seq<(string, nat)>, x: (string, nat), w: map<string, real>)
    ensures WeightedSum(InsertByCount(s, x), w) == WeightedSum(s, w) + Times(x.1, WeightOf(w, x.0))
    decreases |s|
  {
    if s == [] || s[|s| - 1].1 >= x.1 {
      WeightedSumSnoc(s, x, w);
    } else {
      var init, last := s[..|s| - 1], s[|s| - 1];
      assert s == init + [last];
      InsertByCountWeighted(init, x, w);
      WeightedSumSnoc(InsertByCount(init, x), last, w);
    }
  }

  /** Sorting by count does not change a weighted sum. */
  lemma {:induction false} SortByCountWeighted(l: seq<(string, nat)>, w: map<string, real>)
    ensures WeightedSum(SortByCount(l), w) == WeightedSum(l, w)
  {
    if l != [] {
      var init, last := l[..|l| - 1], l[|l| - 1];
      assert l == init + [last];
      SortByCountWeighted(init, w);
      InsertByCountWeighted(SortByCount(init), last, w);
    }
  }

  /** Appending a cell adds its weight once when it holds one of the distinct texts `d`. */
  lemma {:induction false} CountsOfWeightedSnoc(d: seq<string>, col: seq<Cell>, c: Cell, w: map<string, real>)
    requires Distinct(d)
    ensures WeightedSum(CountsOf(d, col + [c]), w) ==
      WeightedSum(CountsOf(d, col), w) + (if c.Str? && c.s in d then WeightOf(w, c.s) else 0.0)
  {
    if d != [] {
      var d', a := d[..|d| - 1], d[|d| - 1];
      DistinctInit(d);
      CountsOfWeightedSnoc(d', col, c, w);
      CountsOfWeightedLast(d, col + [c], w);
      CountsOfWeightedLast(d, col, w);
      var n1, n0, g := Count(col + [c], a), Count(col, a), WeightOf(w, a);
      CountSnoc(col, c, a);
      if c == Str(a) {
        assert Times(n1, g) == Times(n0, g) + g;
      } else {
        assert n1 == n0;
        assert (c.Str? && c.s in d) == (c.Str? && c.s in d');
      }
    }
  }

  /** The weighted counts of texts `d` are those of all but the last text plus the last text's. */
  lemma CountsOfWeightedLast(d: seq<string>, col: seq<Cell>, w: map<string, real>)
    requires d != []
    ensures WeightedSum(CountsOf(d, col), w) ==
      WeightedSum(CountsOf(d[..|d| - 1], col), w) + Times(Count(col, d[|d| - 1]), WeightOf(w, d[|d| - 1]))
  {
    var d', a := d[..|d| - 1], d[|d| - 1];
    assert d == d' + [a];
    CountsOfSnoc(d', a, col);
    WeightedSumSnoc(CountsOf(d', col), (a, Count(col, a)), w);
  }

  /** Dropping the last of distinct texts leaves distinct texts that do not include it. */
  lemma DistinctInit(d: seq<string>)
    requires Distinct(d) && d != []
    ensures Distinct(d[..|d| - 1]) && d[|d| - 1] !in d[..|d| - 1]
  {
    var d' := d[..|d| - 1];
    forall i, j | 0 <= i < j < |d'| ensures d'[i] != d'[j] {
      assert d'[i] == d[i] && d'[j] == d[j];
    }
    forall i | 0 <= i < |d'| ensures d'[i] != d[|d| - 1] {
      assert d'[i] == d[i];
    }
  }

  /** Weighting the counts of the distinct texts is weighting every cell. */
  lemma {:induction false} CountsOfUniquesWeighted(col: seq<Cell>, w: map<string, real>)
    ensures WeightedSum(CountsOf(Uniques(col), col), w) == CellWeightSum(col, w)
  {
    if col != [] {
      var p, c := col[..|col| - 1], col[|col| - 1];
      assert col == p + [c];
      var u := Uniques(p);
      CountsOfUniquesWeighted(p, w);
      CountsOfWeightedSnoc(u, p, c, w);
      match c
      case Missing =>
      case Str(a) =>
        if a !in u {
          assert Count(p, a) == 0;
          CountSnoc(p, c, a);
          CountsOfSnoc(u, a, col);
          WeightedSumSnoc(CountsOf(u, col), (a, Count(col, a)), w);
        }
    }
  }

  /**
   * Summing count times weight over `value_counts()` is summing the weight
   * of every respondent's answer.
   */
  lemma ValueCountsWeighted(col: seq<Cell>, w: map<string, real>)
    ensures WeightedSum(ValueCounts(col), w) == CellWeightSum(col, w)
  {
    SortByCountWeighted(CountsOf(Uniques(col), col), w);
    CountsOfUniquesWeighted(col, w);
  }

  /** With weights in [0, 1], the weights of the answers add up to at most their number. */
  lemma {:induction false} CellWeightSumBounds(col: seq<Cell>, w: map<string, real>)
    requires UnitWeights(w)
    ensures 0.0 <= CellWeightSum(col, w) <= NonMissing(col) as real
  {
    if col != [] {
      var p, c := col[..|col| - 1], col[|col| - 1];
      assert col == p + [c];
      CellWeightSumBounds(p, w);
      NonMissingSnoc(p, c);
    }
  }

  /* ---------------- Rows appended by a loop ---------------- */

  /** The rows a loop appends when each step appends a row or nothing. */
  function Somes<T>(os: seq<Option<T>>): (r: seq<T>)
    ensures |r| <= |os|
  {
    if os == [] then []
    else Somes(os[..|os| - 1]) + (if os[|os| - 1].Some? then [os[|os| - 1].value] else [])
  }

  /** A row is appended exactly when some step produces it. */
  lemma {:induction false} SomesMembers<T>(os: seq<Option<T>>, x: T)
    ensures x in Somes(os) <==> Some(x) in os
  {
    if os != [] {
      var init := os[..|os| - 1];
      SomesMembers(init, x);
      assert os == init + [os[|os| - 1]];
    }
  }

  lemma SomesSnoc<T>(os: seq<Option<T>>, o: Option<T>)
    ensures Somes(os + [o]) == Somes(os) + (if o.Some? then [o.value] else [])
  {
    assert (os + [o])[..|os|] == os;
  }

  /** When every step produces a row, the loop appends all of them, in order. */
  lemma {:induction false} SomesAllSome<T>(os: seq<Option<T>>)
    requires forall i :: 0 <= i < |os| ==> os[i].Some?
    ensures |Somes(os)| == |os|
    ensures forall i :: 0 <= i < |os| ==> Somes(os)[i] == os[i].value
  {
    if os != [] {
      SomesAllSome(os[..|os| - 1]);
    }
  }

  /** The blocks of rows a nested loop appends, one after the other. */
  function Concat<T>(blocks: seq<seq<T>>): (r: seq<T>)
  {
    if blocks == [] then [] else Concat(blocks[..|blocks| - 1]) + blocks[|blocks| - 1]
  }

  /** Where block `i` starts when every block holds `g` rows: `i * g`, built up by additions. */
  function Offset(i: nat, g: nat): nat
  {
    if i == 0 then 0 else Offset(i - 1, g) + g
  }

  lemma {:induction false} OffsetIsProduct(i: nat, g: nat)
    ensures Offset(i, g) == i * g
  {
    if i > 0 {
      OffsetIsProduct(i - 1, g);
    }
  }

  /** Position `j` of block `i` lies before the end of `n` blocks. */
  lemma {:induction false} OffsetBelow(i: nat, j: nat, n: nat, g: nat)
    requires i < n && j < g
    ensures Offset(i, g) + j < Offset(n, g)
  {
    if i < n - 1 {
      OffsetBelow(i, j, n - 1, g);
    }
  }

  /** Blocks of `g` rows each: row `j` of block `i` sits at position `i * g + j`. */
  lemma {:induction false} ConcatUniform<T>(blocks: seq<seq<T>>, g: nat)
    requires forall i :: 0 <= i < |blocks| ==> |blocks[i]| == g
    ensures |Concat(blocks)| == Offset(|blocks|, g)
    ensures forall i, j :: 0 <= i < |blocks| && 0 <= j < g && Offset(i, g) + j < |Concat(blocks)| ==>
      Concat(blocks)[Offset(i, g) + j] == blocks[i][j]
  {
    if blocks != [] {
      var init := blocks[..|blocks| - 1];
      ConcatUniform(init, g);
      forall i, j | 0 <= i < |blocks| && 0 <= j < g && Offset(i, g) + j < |Concat(blocks)|
        ensures Concat(blocks)[Offset(i, g) + j] == blocks[i][j]
      {
        if i < |init| {
          OffsetBelow(i, j, |init|, g);
          assert init[i] == blocks[i];
        }
      }
    }
  }

  /** A row is in the concatenation exactly when it is in one of the blocks. */
  lemma {:induction false} ConcatMembers<T>(blocks: seq<seq<T>>, x: T)
    ensures x in Concat(blocks) <==> exists i :: 0 <= i < |blocks| && x in blocks[i]
  {
    if blocks != [] {
      var init := blocks[..|blocks| - 1];
      ConcatMembers(init, x);
      assert forall i :: 0 <= i < |init| ==> init[i] == blocks[i];
    }
  }

  /** The blocks keep their order: the blocks before `i`, then block `i`, start the concatenation. */
  lemma {:induction false} ConcatPrefix<T>(blocks: seq<seq<T>>, i: nat)
    requires i < |blocks|
    ensures Concat(blocks[..i]) + blocks[i] <= Concat(blocks)
  {
    var init := blocks[..|blocks| - 1];
    if i == |blocks| - 1 {
      assert init == blocks[..i];
    } else {
      ConcatPrefix(init, i);
      assert init[..i] == blocks[..i];
      assert init[i] == blocks[i];
    }
  }
}
