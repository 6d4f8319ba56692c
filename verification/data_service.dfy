/**
 * The insight engine (services/dataService.ts): per-column statistics and
 * the pairwise Pearson correlation matrix over the numeric columns.
 */
module DataService {
  import opened Types
  import opened Seqs
  import opened RealFacts

  // ---------------------------------------------------------------------
  // Cells and columns
  // ---------------------------------------------------------------------

  /** `typeof val === 'number' && isFinite(val)`: the finite number a cell holds, if any. */
  function FiniteValue(v: DataValue): Option<real>
  {
    if v.Num? && v.number.Finite? then Some(v.number.value) else None
  }

  /** `val === null || val === undefined`. */
  predicate IsMissing(v: DataValue)
  {
    v == Null || v == Undefined
  }

  /** `v !== null`; an `undefined` cell passes. */
  predicate IsNotNull(v: DataValue)
  {
    v != Null
  }

  /** `data.map(row => row[column])`. */
  function ColumnValues(data: seq<Record>, column: string): seq<DataValue>
  {
    seq(|data|, k requires 0 <= k < |data| => Get(data[k], column))
  }

  lemma ColumnValuesAppend(a: seq<Record>, b: seq<Record>, column: string)
    ensures ColumnValues(a + b, column) == ColumnValues(a, column) + ColumnValues(b, column)
  {
  }

  /** `getNumericValues`: the finite numbers of a column, in row order. */
  function GetNumericValues(data: seq<Record>, column: string): (r: seq<real>)
    ensures |r| <= |data|
  {
    Choose(ColumnValues(data, column), FiniteValue)
  }

  /** A number is among the column's numeric values exactly when some row holds it. */
  lemma NumericValuesMembership(data: seq<Record>, column: string, x: real)
    ensures x in GetNumericValues(data, column)
        <==> exists k :: 0 <= k < |data| && FiniteValue(Get(data[k], column)) == Some(x)
  {
    var col := ColumnValues(data, column);
    ChooseMembership(col, FiniteValue, x);
    if exists k :: 0 <= k < |data| && FiniteValue(Get(data[k], column)) == Some(x) {
      var k :| 0 <= k < |data| && FiniteValue(Get(data[k], column)) == Some(x);
      assert FiniteValue(col[k]) == Some(x);
    }
  }

  /** The numeric values of two blocks of rows are those of the first block, then of the second. */
  lemma NumericValuesInRowOrder(a: seq<Record>, b: seq<Record>, column: string)
    ensures GetNumericValues(a + b, column) == GetNumericValues(a, column) + GetNumericValues(b, column)
  {
    ColumnValuesAppend(a, b, column);
    ChooseAppend(ColumnValues(a, column), ColumnValues(b, column), FiniteValue);
  }

  // ---------------------------------------------------------------------
  // Mean and standard deviation
  // ---------------------------------------------------------------------

  /** `calculateMean`: 0 for no values, otherwise Σ values / n. */
  function Mean(values: seq<real>): real
  {
    if |values| == 0 then 0.0 else Sum(values) / (|values| as real)
  }

  /** The mean of a non-empty vector lies between its minimum and its maximum. */
  lemma MeanBetween(values: seq<real>)
    requires |values| > 0
    ensures Min(values) <= Mean(values) <= Max(values)
  {
    MeanWithin(values, Min(values), Max(values));
  }

  /** The mean of values that all lie in [lo, hi] lies in [lo, hi]. */
  lemma MeanWithin(values: seq<real>, lo: real, hi: real)
    requires |values| > 0
    requires forall k :: 0 <= k < |values| ==> lo <= values[k] <= hi
    ensures lo <= Mean(values) <= hi
  {
    SumBetween(values, lo, hi);
    DivisionBetween(Sum(values), |values| as real, lo, hi);
  }

  /** The mean of values that all equal `c` is `c`. */
  lemma MeanOfConstant(values: seq<real>, c: real)
    requires |values| > 0
    requires forall k :: 0 <= k < |values| ==> values[k] == c
    ensures Mean(values) == c
  {
    MeanWithin(values, c, c);
  }

  /** Σ (x - m)² over `xs`. */
  function SumSquares(xs: seq<real>, m: real): (r: real)
    ensures r >= 0.0
  {
    if |xs| == 0 then 0.0
    else
      var d := xs[|xs| - 1] - m;
      SquareNonNegative(d);
      SumSquares(xs[..|xs| - 1], m) + d * d
  }

  /** The squared deviations add up to 0 exactly when every value equals `m`. */
  lemma {:induction false} SumSquaresZero(xs: seq<real>, m: real)
    ensures SumSquares(xs, m) == 0.0 <==> forall k :: 0 <= k < |xs| ==> xs[k] == m
  {
    if |xs| > 0 {
      var init := xs[..|xs| - 1];
      var d := xs[|xs| - 1] - m;
      SumSquaresZero(init, m);
      SumWithSquareZero(SumSquares(init, m), d);
      if SumSquares(xs, m) == 0.0 {
        forall k | 0 <= k < |xs| ensures xs[k] == m {
          if k < |init| { assert xs[k] == init[k]; }
        }
      }
      if forall k :: 0 <= k < |xs| ==> xs[k] == m {
        forall k | 0 <= k < |init| ensures init[k] == m {
          assert init[k] == xs[k];
        }
      }
    }
  }

  /** `calculateStdDev`: √(Σ (x - mean)² / (n - 1)), and 0 for fewer than two values. */
  function StdDev(values: seq<real>, mean: real): (r: SquareRoot)
    ensures r.radicand >= 0.0
    ensures |values| < 2 ==> r.radicand == 0.0
    ensures |values| >= 2 ==> (r.radicand == 0.0 <==> forall k :: 0 <= k < |values| ==> values[k] == mean)
  {
    if |values| < 2 then SquareRoot(0.0)
    else
      SumSquaresZero(values, mean);
      SquareRoot(SumSquares(values, mean) / ((|values| - 1) as real))
  }

  // ---------------------------------------------------------------------
  // Column statistics
  // ---------------------------------------------------------------------

  /** `new Set(values.filter(v => v !== null))`. */
  function DistinctNonNull(values: seq<DataValue>): (r: set<DataValue>)
    ensures |r| <= Count(values, IsNotNull)
    ensures forall v :: v in r <==> v in values && v != Null
  {
    if |values| == 0 then {}
    else
      var init := values[..|values| - 1];
      var last := values[|values| - 1];
      var r' := DistinctNonNull(init);
      assert values == init + [last];
      if last == Null then r'
      else
        assert |r' + {last}| <= |r'| + 1 by {
          if last in r' { assert r' + {last} == r'; }
        }
        r' + {last}
  }

  /**
   * The `isNumeric` heuristic: at least one numeric value, and numeric values
   * make up strictly more than 80 % of the non-null ones. The division runs
   * only after the first test, when the denominator is already positive.
   */
  function IsNumericColumn(values: seq<DataValue>): (b: bool)
    ensures b <==> |Choose(values, FiniteValue)| > 0
                   && 5 * |Choose(values, FiniteValue)| > 4 * Count(values, IsNotNull)
  {
    var n := |Choose(values, FiniteValue)|;
    var d := Count(values, IsNotNull);
    ChooseAtMostCount(values, FiniteValue, IsNotNull);
    n > 0 && ThresholdExceeded(n, d)
  }

  /** `n / d > 0.8` for 0 < n <= d. */
  function ThresholdExceeded(n: nat, d: nat): (b: bool)
    requires 0 < n <= d
    ensures b <==> 5 * n > 4 * d
  {
    RatioAboveFourFifths(n as real, d as real);
    assert (5 * n) as real == 5.0 * (n as real);
    assert (4 * d) as real == 4.0 * (d as real);
    (n as real) / (d as real) > 0.8
  }

  /** Nine numeric values among ten non-null ones make a numeric column, eight do not. */
  lemma ThresholdExamples()
    ensures ThresholdExceeded(9, 10)
    ensures !ThresholdExceeded(8, 10)
  {
  }

  /** The statistics of one column (the callback of `headers.map`). */
  function ColumnStatsOf(data: seq<Record>, header: string): (s: ColumnStats)
    ensures s.column == header && s.count == |data|
    ensures s.missing == Count(ColumnValues(data, header), IsMissing) && s.missing <= s.count
    ensures var nums := GetNumericValues(data, header);
            s.isNumeric <==> |nums| > 0 && 5 * |nums| > 4 * Count(ColumnValues(data, header), IsNotNull)
    ensures var nums := GetNumericValues(data, header);
            s.isNumeric ==>
              && |nums| > 0
              && s.mean == Some(Mean(nums))
              && s.min == Some(Min(nums)) && s.max == Some(Max(nums))
              && s.min.value <= s.mean.value <= s.max.value
              && s.stdDev == Some(StdDev(nums, Mean(nums)))
              && s.stdDev.value.radicand >= 0.0
              && (|nums| < 2 ==> s.stdDev.value.radicand == 0.0)
              && s.unique.None?
    ensures !s.isNumeric ==>
              && s.unique == Some(|DistinctNonNull(ColumnValues(data, header))|)
              && s.unique.value <= s.count
              && s.mean.None? && s.stdDev.None? && s.min.None? && s.max.None?
  {
    var allValues := ColumnValues(data, header);
    var numericValues := GetNumericValues(data, header);
    var isNumeric := IsNumericColumn(allValues);
    var missing := Count(allValues, IsMissing);
    if isNumeric && |numericValues| > 0 then
      var mean := Mean(numericValues);
      MeanBetween(numericValues);
      ColumnStats(header, |data|, missing, isNumeric, Some(mean), Some(StdDev(numericValues, mean)),
                  Some(Min(numericValues)), Some(Max(numericValues)), None)
    else
      ColumnStats(header, |data|, missing, isNumeric, None, None, None, None,
                  Some(|DistinctNonNull(allValues)|))
  }

  /** `stats`: one entry per key of the first row, in key order; none for no rows. */
  function Stats(data: seq<Record>): (stats: seq<ColumnStats>)
    ensures |data| == 0 ==> stats == []
    ensures |data| > 0 ==>
              && |stats| == |Keys(data[0])|
              && forall k :: 0 <= k < |stats| ==>
                   stats[k] == ColumnStatsOf(data, Keys(data[0])[k])
                   && stats[k].column == Keys(data[0])[k] && stats[k].count == |data|
                   && stats[k].missing <= |data|
  {
    if |data| == 0 then []
    else
      var headers := Keys(data[0]);
      seq(|headers|, k requires 0 <= k < |headers| => ColumnStatsOf(data, headers[k]))
  }

  /** `s.isNumeric ? s.column : (skipped)`. */
  function NumericName(s: ColumnStats): Option<string>
  {
    if s.isNumeric then Some(s.column) else None
  }

  /** `stats.filter(s => s.isNumeric).map(s => s.column)`. */
  function NumericColumns(stats: seq<ColumnStats>): (cols: seq<string>)
    ensures |cols| <= |stats|
  {
    Choose(stats, NumericName)
  }

  /** The numeric columns are those of the numeric stats, in the order of the stats. */
  lemma NumericColumnsFilter(a: seq<ColumnStats>, b: seq<ColumnStats>, name: string)
    ensures NumericColumns(a + b) == NumericColumns(a) + NumericColumns(b)
    ensures name in NumericColumns(a)
        <==> exists k :: 0 <= k < |a| && a[k].isNumeric && a[k].column == name
  {
    ChooseAppend(a, b, NumericName);
    ChooseMembership(a, NumericName, name);
    if exists k :: 0 <= k < |a| && a[k].isNumeric && a[k].column == name {
      var k :| 0 <= k < |a| && a[k].isNumeric && a[k].column == name;
      assert NumericName(a[k]) == Some(name);
    }
  }

  // ---------------------------------------------------------------------
  // Pearson correlation
  // ---------------------------------------------------------------------

  /** Σ (x - meanX)(y - meanY) over the paired values. */
  function SumProducts(xs: seq<real>, ys: seq<real>, meanX: real, meanY: real): real
    requires |xs| == |ys|
  {
    if |xs| == 0 then 0.0
    else
      var n := |xs|;
      SumProducts(xs[..n - 1], ys[..n - 1], meanX, meanY) + (xs[n - 1] - meanX) * (ys[n - 1] - meanY)
  }

  /** Cauchy–Schwarz: (Σ dx·dy)² <= Σ dx² · Σ dy², so every coefficient lies in [-1, 1]. */
  lemma {:induction false} CauchySchwarz(xs: seq<real>, ys: seq<real>, meanX: real, meanY: real)
    requires |xs| == |ys|
    ensures Coefficient(SumProducts(xs, ys, meanX, meanY), SumSquares(xs, meanX), SumSquares(ys, meanY)).InUnitRange()
  {
    if |xs| > 0 {
      var n := |xs|;
      var xs', ys' := xs[..n - 1], ys[..n - 1];
      var a, b := xs[n - 1] - meanX, ys[n - 1] - meanY;
      var A, B, C := SumSquares(xs', meanX), SumSquares(ys', meanY), SumProducts(xs', ys', meanX, meanY);
      assert SumSquares(xs, meanX) == A + a * a;
      assert SumSquares(ys, meanY) == B + b * b;
      assert SumProducts(xs, ys, meanX, meanY) == C + a * b;
      CauchySchwarz(xs', ys', meanX, meanY);
      CauchySchwarzStep(A, B, C, a, b);
    }
  }

  /**
   * `calculatePearsonCorrelation`: `null` for vectors of different lengths,
   * for empty vectors and when the denominator √Σdx²·√Σdy² is 0.
   */
  function Pearson(xs: seq<real>, ys: seq<real>, meanX: real, meanY: real): (r: Cell)
    ensures r.None? <==> |xs| != |ys| || |xs| == 0 || SumSquares(xs, meanX) == 0.0 || SumSquares(ys, meanY) == 0.0
    ensures r.Some? ==> r.value.Valid() && r.value.InUnitRange()
  {
    if |xs| != |ys| || |xs| == 0 then None
    else
      var sumSqX := SumSquares(xs, meanX);
      var sumSqY := SumSquares(ys, meanY);
      if sumSqX == 0.0 || sumSqY == 0.0 then None
      else
        CauchySchwarz(xs, ys, meanX, meanY);
        Some(Coefficient(SumProducts(xs, ys, meanX, meanY), sumSqX, sumSqY))
  }

  /** Extending the prefixes by position i adds the term dx·dy to Σ dx·dy. */
  lemma PrefixProducts(x: seq<real>, y: seq<real>, meanX: real, meanY: real, i: nat, dx: real, dy: real)
    requires i < |x| == |y| && dx == x[i] - meanX && dy == y[i] - meanY
    ensures SumProducts(x[..i + 1], y[..i + 1], meanX, meanY) == SumProducts(x[..i], y[..i], meanX, meanY) + dx * dy
  {
    assert x[..i + 1][..i] == x[..i];
    assert y[..i + 1][..i] == y[..i];
  }

  /** Extending the prefix by position i adds the term dx² to Σ dx². */
  lemma PrefixSquares(x: seq<real>, meanX: real, i: nat, dx: real)
    requires i < |x| && dx == x[i] - meanX
    ensures SumSquares(x[..i + 1], meanX) == SumSquares(x[..i], meanX) + dx * dx
  {
    assert x[..i + 1][..i] == x[..i];
  }

  /** The loop of `calculatePearsonCorrelation`. */
  method CalculatePearsonCorrelation(x: seq<real>, y: seq<real>, meanX: real, meanY: real) returns (r: Cell)
    ensures r == Pearson(x, y, meanX, meanY)
  {
    var n := |x|;
    if n != |y| || n == 0 {
      return None;
    }
    var numerator, sumSqX, sumSqY := 0.0, 0.0, 0.0;
    for i := 0 to n
      invariant numerator == SumProducts(x[..i], y[..i], meanX, meanY)
      invariant sumSqX == SumSquares(x[..i], meanX)
      invariant sumSqY == SumSquares(y[..i], meanY)
    {
      var dx := x[i] - meanX;
      var dy := y[i] - meanY;
      PrefixProducts(x, y, meanX, meanY, i, dx, dy);
      PrefixSquares(x, meanX, i, dx);
      PrefixSquares(y, meanY, i, dy);
      numerator := numerator + dx * dy;
      sumSqX := sumSqX + dx * dx;
      sumSqY := sumSqY + dy * dy;
    }
    assert x[..n] == x && y[..n] == y;
    if sumSqX == 0.0 || sumSqY == 0.0 {
      return None;
    }
    r := Some(Coefficient(numerator, sumSqX, sumSqY));
  }

  /** Σ dx·dy does not depend on which vector comes first. */
  lemma {:induction false} SumProductsSymmetric(xs: seq<real>, ys: seq<real>, meanX: real, meanY: real)
    requires |xs| == |ys|
    ensures SumProducts(ys, xs, meanY, meanX) == SumProducts(xs, ys, meanX, meanY)
  {
    if |xs| > 0 {
      SumProductsSymmetric(xs[..|xs| - 1], ys[..|ys| - 1], meanX, meanY);
    }
  }

  // ---------------------------------------------------------------------
  // Pairwise complete-case alignment
  // ---------------------------------------------------------------------

  /** The pair of a row, when both columns hold finite numbers. */
  function AlignedPair(row: Record, col1: string, col2: string): Option<(real, real)>
  {
    match (FiniteValue(Get(row, col1)), FiniteValue(Get(row, col2)))
    case (Some(a), Some(b)) => Some((a, b))
    case _ => None
  }

  /** The rows, in order, where both columns hold finite numbers. */
  function AlignedPairs(data: seq<Record>, col1: string, col2: string): seq<(real, real)>
  {
    Choose(data, row => AlignedPair(row, col1, col2))
  }

  function Firsts(ps: seq<(real, real)>): (r: seq<real>)
  {
    seq(|ps|, k requires 0 <= k < |ps| => ps[k].0)
  }

  function Seconds(ps: seq<(real, real)>): (r: seq<real>)
  {
    seq(|ps|, k requires 0 <= k < |ps| => ps[k].1)
  }

  /** The aligned vectors: equal length, at most one entry per row. */
  lemma AlignedLengths(data: seq<Record>, col1: string, col2: string)
    ensures |Firsts(AlignedPairs(data, col1, col2))| == |Seconds(AlignedPairs(data, col1, col2))| <= |data|
  {
  }

  /** A pair is aligned exactly when some row holds its two values as finite numbers. */
  lemma AlignedMembership(data: seq<Record>, col1: string, col2: string, a: real, b: real)
    ensures (a, b) in AlignedPairs(data, col1, col2)
        <==> exists k :: 0 <= k < |data| && FiniteValue(Get(data[k], col1)) == Some(a)
                                     && FiniteValue(Get(data[k], col2)) == Some(b)
  {
    var f := row => AlignedPair(row, col1, col2);
    ChooseMembership(data, f, (a, b));
    if exists k :: 0 <= k < |data| && FiniteValue(Get(data[k], col1)) == Some(a)
                                   && FiniteValue(Get(data[k], col2)) == Some(b) {
      var k :| 0 <= k < |data| && FiniteValue(Get(data[k], col1)) == Some(a)
                               && FiniteValue(Get(data[k], col2)) == Some(b);
      assert f(data[k]) == Some((a, b));
    }
  }

  /** The aligned pairs of two blocks of rows are those of the first block, then of the second. */
  lemma AlignedInRowOrder(a: seq<Record>, b: seq<Record>, col1: string, col2: string)
    ensures AlignedPairs(a + b, col1, col2) == AlignedPairs(a, col1, col2) + AlignedPairs(b, col1, col2)
  {
    ChooseAppend(a, b, row => AlignedPair(row, col1, col2));
  }

  /** Aligning the columns the other way round swaps the two vectors. */
  lemma {:induction false} AlignedSwapped(data: seq<Record>, col1: string, col2: string)
    ensures Firsts(AlignedPairs(data, col2, col1)) == Seconds(AlignedPairs(data, col1, col2))
    ensures Seconds(AlignedPairs(data, col2, col1)) == Firsts(AlignedPairs(data, col1, col2))
  {
    if |data| > 0 {
      var init := data[..|data| - 1];
      AlignedSwapped(init, col1, col2);
      var p := AlignedPairs(init, col1, col2);
      var q := AlignedPairs(init, col2, col1);
      var row := data[|data| - 1];
      var e := Pick(AlignedPair(row, col1, col2));
      var e' := Pick(AlignedPair(row, col2, col1));
      assert AlignedPairs(data, col1, col2) == p + e;
      assert AlignedPairs(data, col2, col1) == q + e';
      assert Firsts(e') == Seconds(e) && Seconds(e') == Firsts(e);
      FirstsSecondsAppend(p, e);
      FirstsSecondsAppend(q, e');
    }
  }

  lemma FirstsSecondsAppend(a: seq<(real, real)>, b: seq<(real, real)>)
    ensures Firsts(a + b) == Firsts(a) + Firsts(b)
    ensures Seconds(a + b) == Seconds(a) + Seconds(b)
  {
  }

  /** The `k` loop of `processDataForInsights` that fills `alignedX` and `alignedY`. */
  method AlignColumns(data: seq<Record>, col1: string, col2: string) returns (alignedX: seq<real>, alignedY: seq<real>)
    ensures alignedX == Firsts(AlignedPairs(data, col1, col2))
    ensures alignedY == Seconds(AlignedPairs(data, col1, col2))
  {
    alignedX, alignedY := [], [];
    for k := 0 to |data|
      invariant alignedX == Firsts(AlignedPairs(data[..k], col1, col2))
      invariant alignedY == Seconds(AlignedPairs(data[..k], col1, col2))
    {
      var val1 := FiniteValue(Get(data[k], col1));
      var val2 := FiniteValue(Get(data[k], col2));
      assert data[..k + 1][..k] == data[..k];
      ghost var before := AlignedPairs(data[..k], col1, col2);
      assert AlignedPairs(data[..k + 1], col1, col2) == before + Pick(AlignedPair(data[k], col1, col2));
      if val1.Some? && val2.Some? {
        alignedX := alignedX + [val1.value];
        alignedY := alignedY + [val2.value];
      }
    }
    assert data[..|data|] == data;
  }

  /** The cell for the pair (col1, col2), computed from the aligned vectors. */
  function CorrelationOf(data: seq<Record>, col1: string, col2: string): (r: Cell)
    ensures r.Some? ==> r.value.Valid() && r.value.InUnitRange()
  {
    var ps := AlignedPairs(data, col1, col2);
    var xs := Firsts(ps);
    var ys := Seconds(ps);
    var meanX := if |xs| > 0 then Mean(xs) else 0.0;
    var meanY := if |ys| > 0 then Mean(ys) else 0.0;
    Pearson(xs, ys, meanX, meanY)
  }

  /** Every element of `xs` is the same value. */
  predicate AllEqual(xs: seq<real>)
  {
    forall i, j :: 0 <= i < |xs| && 0 <= j < |xs| ==> xs[i] == xs[j]
  }

  /** A non-empty vector is constant exactly when its squared deviations from its mean add up to 0. */
  lemma ConstantWhenNoSpread(xs: seq<real>)
    requires |xs| > 0
    ensures AllEqual(xs) <==> SumSquares(xs, Mean(xs)) == 0.0
  {
    SumSquaresZero(xs, Mean(xs));
    if AllEqual(xs) {
      MeanOfConstant(xs, xs[0]);
    }
  }

  /** A cell is `null` exactly when no row aligns or either aligned vector is constant. */
  lemma CorrelationNullWhen(data: seq<Record>, col1: string, col2: string)
    ensures var xs := Firsts(AlignedPairs(data, col1, col2));
            var ys := Seconds(AlignedPairs(data, col1, col2));
            (CorrelationOf(data, col1, col2).None?) <==> (|xs| == 0 || AllEqual(xs) || AllEqual(ys))
  {
    var xs := Firsts(AlignedPairs(data, col1, col2));
    var ys := Seconds(AlignedPairs(data, col1, col2));
    if |xs| > 0 {
      ConstantWhenNoSpread(xs);
      ConstantWhenNoSpread(ys);
    }
  }

  /**
   * Swapping the columns gives the same coefficient with its two sums of
   * squares exchanged: the same value, so storing one result at [i][j] and
   * [j][i] is sound.
   */
  lemma CorrelationSymmetric(data: seq<Record>, col1: string, col2: string)
    ensures CorrelationOf(data, col2, col1).Some? == CorrelationOf(data, col1, col2).Some?
    ensures CorrelationOf(data, col1, col2).Some? ==>
              CorrelationOf(data, col2, col1).value == CorrelationOf(data, col1, col2).value.Transposed()
  {
    AlignedSwapped(data, col1, col2);
    var ps := AlignedPairs(data, col1, col2);
    var xs, ys := Firsts(ps), Seconds(ps);
    var meanX := if |xs| > 0 then Mean(xs) else 0.0;
    var meanY := if |ys| > 0 then Mean(ys) else 0.0;
    SumProductsSymmetric(xs, ys, meanX, meanY);
  }

  /** Perfectly linear series, y = 2x, correlate with exactly 1. */
  lemma LinearSeriesCorrelateFully()
    ensures Pearson([1.0, 2.0, 3.0], [2.0, 4.0, 6.0], 2.0, 4.0) == Some(Coefficient(4.0, 2.0, 8.0))
    ensures Pearson([1.0, 2.0, 3.0], [2.0, 4.0, 6.0], 2.0, 4.0).value.IsOne()
  {
    var xs, ys := [1.0, 2.0, 3.0], [2.0, 4.0, 6.0];
    assert xs[..2] == [1.0, 2.0] && xs[..2][..1] == [1.0] && xs[..2][..1][..0] == [];
    assert ys[..2] == [2.0, 4.0] && ys[..2][..1] == [2.0] && ys[..2][..1][..0] == [];
    assert SumSquares([1.0], 2.0) == 1.0;
    assert SumSquares([1.0, 2.0], 2.0) == 1.0;
    assert SumSquares(xs, 2.0) == 2.0;
    assert SumSquares([2.0], 4.0) == 4.0;
    assert SumSquares([2.0, 4.0], 4.0) == 4.0;
    assert SumSquares(ys, 4.0) == 8.0;
    assert SumProducts([1.0], [2.0], 2.0, 4.0) == 2.0;
    assert SumProducts([1.0, 2.0], [2.0, 4.0], 2.0, 4.0) == 2.0;
    assert SumProducts(xs, ys, 2.0, 4.0) == 4.0;
  }

  /**
   * A column whose finite values all equal `c` has a `null` cell against
   * every other column, in either order.
   */
  lemma ConstantColumnUncorrelated(data: seq<Record>, col1: string, col2: string, c: real)
    requires forall k :: 0 <= k < |data| ==> FiniteValue(Get(data[k], col1)) in {None, Some(c)}
    ensures CorrelationOf(data, col1, col2).None?
    ensures CorrelationOf(data, col2, col1).None?
  {
    var ps := AlignedPairs(data, col1, col2);
    var xs := Firsts(ps);
    forall k | 0 <= k < |xs| ensures xs[k] == c {
      assert ps[k] in ps;
      AlignedMembership(data, col1, col2, ps[k].0, ps[k].1);
    }
    if |xs| > 0 {
      MeanOfConstant(xs, c);
      SumSquaresZero(xs, c);
    }
    CorrelationSymmetric(data, col1, col2);
  }

  // ---------------------------------------------------------------------
  // The whole engine
  // ---------------------------------------------------------------------

  /** What `processDataForInsights` stores at [i][j]: 1 on the diagonal, else the pair computed with i < j. */
  function MatrixCell(data: seq<Record>, columns: seq<string>, i: nat, j: nat): (r: Cell)
    requires i < |columns| && j < |columns|
    ensures i == j ==> r == Some(Exact(1.0))
    ensures i != j ==> (r.Some? <==> CorrelationOf(data, columns[i], columns[j]).Some?)
    ensures r.Some? ==> r.value.Valid() && r.value.InUnitRange()
  {
    CorrelationSymmetric(data, columns[i], columns[j]);
    if i == j then Some(Exact(1.0))
    else if i < j then CorrelationOf(data, columns[i], columns[j])
    else CorrelationOf(data, columns[j], columns[i])
  }

  /** The n × n table of `MatrixCell`s over the numeric columns. */
  function CorrelationTable(data: seq<Record>, columns: seq<string>): seq<seq<Cell>>
  {
    seq(|columns|, i requires 0 <= i < |columns| =>
      seq(|columns|, j requires 0 <= j < |columns| => MatrixCell(data, columns, i, j)))
  }

  /** The value `processDataForInsights` returns. */
  function InsightsOf(data: seq<Record>): (r: Insights)
    ensures |data| == 0 ==> r == Insights([], CorrelationMatrix([], []))
    ensures r.stats == Stats(data) && r.matrix.columns == NumericColumns(r.stats)
    ensures |data| > 0 ==> r.matrix.matrix == CorrelationTable(data, r.matrix.columns)
    ensures var n := |r.matrix.columns|;
            |r.matrix.matrix| == n && forall i :: 0 <= i < n ==> |r.matrix.matrix[i]| == n
  {
    if |data| == 0 then Insights([], CorrelationMatrix([], []))
    else
      var stats := Stats(data);
      var columns := NumericColumns(stats);
      TableShape(data, columns);
      Insights(stats, CorrelationMatrix(columns, CorrelationTable(data, columns)))
  }

  /** The table is square, has 1 on its diagonal and is symmetric. */
  lemma TableShape(data: seq<Record>, columns: seq<string>)
    ensures var m := CorrelationTable(data, columns);
            var n := |columns|;
            && |m| == n
            && (forall i :: 0 <= i < n ==> |m[i]| == n)
            && (forall i :: 0 <= i < n ==> m[i][i] == Some(Exact(1.0)))
            && (forall i, j :: 0 <= i < n && 0 <= j < n ==> m[i][j] == m[j][i])
  {
    forall i, j | 0 <= i < |columns| && 0 <= j < |columns|
      ensures CorrelationTable(data, columns)[i][j] == CorrelationTable(data, columns)[j][i]
    {
      TableSymmetric(data, columns, i, j);
    }
  }

  lemma TableSymmetric(data: seq<Record>, columns: seq<string>, i: nat, j: nat)
    requires i < |columns| && j < |columns|
    ensures CorrelationTable(data, columns)[i][j] == CorrelationTable(data, columns)[j][i]
  {
    assert CorrelationTable(data, columns)[i][j] == MatrixCell(data, columns, i, j);
    assert CorrelationTable(data, columns)[j][i] == MatrixCell(data, columns, j, i);
  }

  /**
   * Every off-diagonal cell is the coefficient of its own pair of columns,
   * taken in the order (i, j): `null` exactly when that one is, and otherwise
   * the same value (up to exchanging the two sums of squares), in [-1, 1].
   */
  lemma TableCell(data: seq<Record>, columns: seq<string>, i: nat, j: nat)
    requires i < |columns| && j < |columns| && i != j
    ensures var cell := CorrelationTable(data, columns)[i][j];
            var direct := CorrelationOf(data, columns[i], columns[j]);
            && (cell.Some? <==> direct.Some?)
            && (cell.Some? ==> cell.value.Valid() && cell.value.InUnitRange()
                               && (cell.value == direct.value || cell.value == direct.value.Transposed()))
  {
    assert CorrelationTable(data, columns)[i][j] == MatrixCell(data, columns, i, j);
    if j < i {
      CorrelationSymmetric(data, columns[j], columns[i]);
    }
  }

  /** The cells filled so far: all of rows and columns before i, then row and column i before j. */
  predicate Done(a: nat, b: nat, i: nat, j: nat)
  {
    a < i || b < i || (a == i && b < j) || (b == i && a < j)
  }

  /** The n × n array holds the final cells exactly where `Done`, and `null` elsewhere. */
  predicate FilledUpTo(matrix: array2<Cell>, data: seq<Record>, columns: seq<string>, i: nat, j: nat)
    reads matrix
  {
    && matrix.Length0 == |columns| && matrix.Length1 == |columns|
    && forall a: nat, b: nat :: a < |columns| && b < |columns| ==>
         matrix[a, b] == if Done(a, b, i, j) then MatrixCell(data, columns, a, b) else None
  }

  /** Once row i is done up to column n, everything before row and column i + 1 is done. */
  lemma RowFinished(matrix: array2<Cell>, data: seq<Record>, columns: seq<string>, i: nat)
    requires i < |columns|
    requires FilledUpTo(matrix, data, columns, i, |columns|)
    ensures FilledUpTo(matrix, data, columns, i + 1, i + 1)
  {
    forall a: nat, b: nat | a < |columns| && b < |columns|
      ensures Done(a, b, i, |columns|) == Done(a, b, i + 1, i + 1)
    {
    }
  }

  /** The rows of a two-dimensional array, as nested sequences. */
  function Rows(matrix: array2<Cell>): (rows: seq<seq<Cell>>)
    reads matrix
    ensures |rows| == matrix.Length0
    ensures forall a :: 0 <= a < |rows| ==> |rows[a]| == matrix.Length1
  {
    seq(matrix.Length0, a requires 0 <= a < matrix.Length0 reads matrix =>
      seq(matrix.Length1, b requires 0 <= b < matrix.Length1 reads matrix => matrix[a, b]))
  }

  /** A completely filled array holds the correlation table. */
  lemma FilledTable(matrix: array2<Cell>, data: seq<Record>, columns: seq<string>)
    requires FilledUpTo(matrix, data, columns, |columns|, |columns|)
    ensures Rows(matrix) == CorrelationTable(data, columns)
  {
    var rows := Rows(matrix);
    var table := CorrelationTable(data, columns);
    forall a | 0 <= a < |columns| ensures rows[a] == table[a] {
      forall b | 0 <= b < |columns| ensures rows[a][b] == table[a][b] {
        assert Done(a, b, |columns|, |columns|);
      }
    }
  }

  /** One step of the `j` loop: cell [i][j] and its mirror [j][i]. */
  method FillPair(matrix: array2<Cell>, data: seq<Record>, columns: seq<string>, i: nat, j: nat)
    requires i <= j < |columns|
    requires FilledUpTo(matrix, data, columns, i, j)
    modifies matrix
    ensures FilledUpTo(matrix, data, columns, i, j + 1)
  {
    var n := |columns|;
    var cell: Cell;
    if i == j {
      cell := Some(Exact(1.0));
    } else {
      var col1 := columns[i];
      var col2 := columns[j];
      var alignedX, alignedY := AlignColumns(data, col1, col2);
      var meanX := if |alignedX| > 0 then Mean(alignedX) else 0.0;
      var meanY := if |alignedY| > 0 then Mean(alignedY) else 0.0;
      cell := CalculatePearsonCorrelation(alignedX, alignedY, meanX, meanY);
      assert cell == CorrelationOf(data, col1, col2);
    }
    assert cell == MatrixCell(data, columns, i, j) == MatrixCell(data, columns, j, i);
    label before:
    matrix[i, j] := cell;
    matrix[j, i] := cell;
    forall a: nat, b: nat | a < n && b < n
      ensures matrix[a, b] == if Done(a, b, i, j + 1) then MatrixCell(data, columns, a, b) else None
    {
      if !((a == i && b == j) || (a == j && b == i)) {
        assert matrix[a, b] == old@before(matrix[a, b]);
      }
    }
  }

  /** `processDataForInsights`. */
  method ProcessDataForInsights(data: seq<Record>) returns (r: Insights)
    ensures r == InsightsOf(data)
  {
    if |data| == 0 {
      return Insights([], CorrelationMatrix([], []));
    }
    var stats := Stats(data);
    var numericColumns := NumericColumns(stats);
    var n := |numericColumns|;
    var matrix := new Cell[n, n]((_, _) => None);
    for i := 0 to n
      invariant FilledUpTo(matrix, data, numericColumns, i, i)
    {
      for j := i to n
        invariant FilledUpTo(matrix, data, numericColumns, i, j)
      {
        FillPair(matrix, data, numericColumns, i, j);
      }
      RowFinished(matrix, data, numericColumns, i);
    }
    var rows := Rows(matrix);
    FilledTable(matrix, data, numericColumns);
    r := Insights(stats, CorrelationMatrix(numericColumns, rows));
  }
}
