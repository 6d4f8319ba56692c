/**
 * The computations of the insights view (components/DataInsights.tsx): the
 * heatmap's row-major list of non-null correlation cells, its colour
 * scale, and the total-cells figure.
 */
module DataInsights {
  import opened Types
  import opened Seqs
  import opened DataService

  // ---------------------------------------------------------------------
  // Heatmap entries
  // ---------------------------------------------------------------------

  /** `{ x: columns[i], y: columns[j], value: matrix[i][j] }`. */
  datatype ChartEntry = ChartEntry(x: string, y: string, value: Coefficient)

  /** What `CorrelationHeatmap` draws: a notice, or a chart of entries. */
  datatype Heatmap = NotEnoughColumns | Chart(entries: seq<ChartEntry>)

  /** `matrix[i][j]`, `null` outside the table. */
  function CellAt(m: CorrelationMatrix, i: nat, j: nat): Cell
  {
    if i < |m.matrix| && j < |m.matrix[i]| then m.matrix[i][j] else None
  }

  /** The cell (i, j) is inside the n × n chart area and holds a coefficient. */
  predicate Present(m: CorrelationMatrix, p: (nat, nat))
  {
    p.0 < |m.columns| && p.1 < |m.columns| && CellAt(m, p.0, p.1).Some?
  }

  /** The entry drawn for a present cell. */
  function Located(m: CorrelationMatrix, p: (nat, nat)): ChartEntry
    requires Present(m, p)
  {
    ChartEntry(m.columns[p.0], m.columns[p.1], CellAt(m, p.0, p.1).value)
  }

  /** The entry pushed for cell (i, j), if any. */
  function Entry(m: CorrelationMatrix, p: (nat, nat)): Option<ChartEntry>
  {
    if Present(m, p) then Some(Located(m, p)) else None
  }

  function EntryFn(m: CorrelationMatrix): ((nat, nat)) -> Option<ChartEntry>
  {
    p => Entry(m, p)
  }

  /** The cells of row i, left to right. */
  function Row(i: nat, n: nat): (r: seq<(nat, nat)>)
    ensures |r| == n
  {
    seq(n, j requires 0 <= j < n => (i, j))
  }

  /** The cells of the first `rows` rows of width n, in row-major order. */
  function RowMajor(rows: nat, n: nat): (r: seq<(nat, nat)>)
    ensures |r| == rows * n
  {
    if rows == 0 then [] else RowMajor(rows - 1, n) + Row(rows - 1, n)
  }

  /** `dataForChart`: the present cells, in row-major order. */
  function ChartData(m: CorrelationMatrix): seq<ChartEntry>
  {
    Choose(RowMajor(|m.columns|, |m.columns|), EntryFn(m))
  }

  /** What the component shows for a matrix. */
  function HeatmapOf(m: CorrelationMatrix): Heatmap
  {
    if |m.columns| < 2 then NotEnoughColumns else Chart(ChartData(m))
  }

  /** The matrix has one row per column, each with one cell per column. */
  predicate IsSquare(m: CorrelationMatrix)
  {
    |m.matrix| == |m.columns| && forall i :: 0 <= i < |m.matrix| ==> |m.matrix[i]| == |m.columns|
  }

  /**
   * What the loops have pushed once they reach cell (i, j): all rows before
   * i, then row i up to column j.
   */
  function Scanned(m: CorrelationMatrix, i: nat, j: nat): seq<ChartEntry>
    requires j <= |m.columns|
    decreases i, j
  {
    if j > 0 then Scanned(m, i, j - 1) + Pick(Entry(m, (i, j - 1)))
    else if i > 0 then Scanned(m, i - 1, |m.columns|)
    else []
  }

  /** The entries for the cells before (i, j) in row-major order. */
  function EntriesBefore(m: CorrelationMatrix, i: nat, j: nat): seq<ChartEntry>
    requires j <= |m.columns|
  {
    Choose(RowMajor(i, |m.columns|) + Row(i, |m.columns|)[..j], EntryFn(m))
  }

  /** Visiting cell (i, j) adds its entry, if it has one. */
  lemma EntriesStep(m: CorrelationMatrix, i: nat, j: nat)
    requires j < |m.columns|
    ensures EntriesBefore(m, i, j + 1) == EntriesBefore(m, i, j) + Pick(Entry(m, (i, j)))
  {
    var n := |m.columns|;
    var done := RowMajor(i, n) + Row(i, n)[..j];
    var cell: (nat, nat) := (i, j);
    var s := RowMajor(i, n) + Row(i, n)[..j + 1];
    assert s == done + [cell];
    assert s[..|s| - 1] == done;
  }

  /** The scan of the loops visits the cells in row-major order. */
  lemma {:induction false} ScannedInOrder(m: CorrelationMatrix, i: nat, j: nat)
    requires j <= |m.columns|
    ensures Scanned(m, i, j) == EntriesBefore(m, i, j)
    decreases i, j
  {
    var n := |m.columns|;
    if j > 0 {
      ScannedInOrder(m, i, j - 1);
      EntriesStep(m, i, j - 1);
    } else if i > 0 {
      ScannedInOrder(m, i - 1, n);
      assert RowMajor(i, n) + Row(i, n)[..0] == RowMajor(i, n);
      assert Row(i - 1, n)[..n] == Row(i - 1, n);
    }
  }

  /** A whole scan is the chart. */
  lemma ScannedAll(m: CorrelationMatrix)
    ensures Scanned(m, |m.columns|, 0) == ChartData(m)
  {
    var n := |m.columns|;
    ScannedInOrder(m, n, 0);
    assert RowMajor(n, n) + Row(n, n)[..0] == RowMajor(n, n);
  }

  /** The nested loops of `CorrelationHeatmap`. */
  method CorrelationHeatmap(m: CorrelationMatrix) returns (h: Heatmap)
    requires IsSquare(m)
    ensures h == HeatmapOf(m)
  {
    var columns := m.columns;
    var matrix := m.matrix;
    if |columns| < 2 {
      return NotEnoughColumns;
    }
    var n := |columns|;
    var dataForChart: seq<ChartEntry> := [];
    for i := 0 to n
      invariant dataForChart == Scanned(m, i, 0)
    {
      for j := 0 to n
        invariant dataForChart == Scanned(m, i, j)
      {
        assert matrix[i][j] == CellAt(m, i, j);
        if matrix[i][j] != None {
          dataForChart := dataForChart + [ChartEntry(columns[i], columns[j], matrix[i][j].value)];
        }
      }
    }
    ScannedAll(m);
    h := Chart(dataForChart);
  }

  // ---------------------------------------------------------------------
  // What the entries are
  // ---------------------------------------------------------------------

  lemma {:induction false} RowMajorMembership(rows: nat, n: nat, p: (nat, nat))
    ensures p in RowMajor(rows, n) <==> p.0 < rows && p.1 < n
  {
    if rows > 0 {
      RowMajorMembership(rows - 1, n, p);
      if p.0 == rows - 1 && p.1 < n {
        assert Row(rows - 1, n)[p.1] == p;
      }
    }
  }

  /**
   * An entry is drawn exactly when some cell (i, j) inside the chart holds
   * its value, with x the i-th and y the j-th column.
   */
  lemma ChartMembership(m: CorrelationMatrix, e: ChartEntry)
    ensures e in ChartData(m) <==>
              exists i: nat, j: nat :: i < |m.columns| && j < |m.columns|
                && CellAt(m, i, j) == Some(e.value) && e.x == m.columns[i] && e.y == m.columns[j]
  {
    var n := |m.columns|;
    var s := RowMajor(n, n);
    ChooseMembership(s, EntryFn(m), e);
    if e in ChartData(m) {
      var k :| 0 <= k < |s| && EntryFn(m)(s[k]) == Some(e);
      var i: nat, j: nat := s[k].0, s[k].1;
      RowMajorMembership(n, n, s[k]);
      assert CellAt(m, i, j) == Some(e.value) && e.x == m.columns[i] && e.y == m.columns[j];
    }
    if exists i: nat, j: nat :: i < n && j < n
         && CellAt(m, i, j) == Some(e.value) && e.x == m.columns[i] && e.y == m.columns[j] {
      var i: nat, j: nat :| i < n && j < n
         && CellAt(m, i, j) == Some(e.value) && e.x == m.columns[i] && e.y == m.columns[j];
      RowMajorMembership(n, n, (i, j));
      var k :| 0 <= k < |s| && s[k] == (i, j);
      assert EntryFn(m)(s[k]) == Some(e);
    }
  }

  /** One entry per present cell, so at most n² entries. */
  lemma ChartCount(m: CorrelationMatrix)
    ensures var n := |m.columns|;
            |ChartData(m)| == Count(RowMajor(n, n), (p: (nat, nat)) => Present(m, p))
            && |ChartData(m)| <= n * n
  {
    var n := |m.columns|;
    ChooseCount(RowMajor(n, n), EntryFn(m), (p: (nat, nat)) => Present(m, p));
  }

  /** Row-major order on cells. */
  predicate Before(p: (nat, nat), q: (nat, nat))
  {
    p.0 < q.0 || (p.0 == q.0 && p.1 < q.1)
  }

  /** The present cells, in the order the loops visit them. */
  function Origins(m: CorrelationMatrix): seq<(nat, nat)>
  {
    Choose(RowMajor(|m.columns|, |m.columns|),
           (p: (nat, nat)) => if Present(m, p) then Some(p) else None)
  }

  /** Every cell comes strictly before every later one. */
  predicate Increasing(s: seq<(nat, nat)>)
  {
    forall a, b :: 0 <= a < b < |s| ==> Before(s[a], s[b])
  }

  lemma {:induction false} RowMajorSorted(rows: nat, n: nat)
    ensures Increasing(RowMajor(rows, n))
  {
    if rows > 0 {
      RowMajorSorted(rows - 1, n);
      var s' := RowMajor(rows - 1, n);
      var s := RowMajor(rows, n);
      var row := Row(rows - 1, n);
      assert s == s' + row;
      forall a, b | 0 <= a < b < |s| ensures Before(s[a], s[b]) {
        if b < |s'| {
          assert s[a] == s'[a] && s[b] == s'[b];
          assert Before(s'[a], s'[b]);
        } else if a < |s'| {
          assert s[a] == s'[a] && s[b] == row[b - |s'|];
          assert s'[a] in s';
          RowMajorMembership(rows - 1, n, s'[a]);
          assert s[a].0 < rows - 1 && s[b].0 == rows - 1;
        } else {
          assert s[a] == row[a - |s'|] && s[b] == row[b - |s'|];
          assert row[a - |s'|] == (rows - 1, a - |s'|) && row[b - |s'|] == (rows - 1, b - |s'|);
        }
      }
    }
  }

  /**
   * The k-th entry is drawn from the k-th present cell, and the present
   * cells come in strictly increasing row-major order.
   */
  lemma ChartRowMajor(m: CorrelationMatrix)
    ensures |Origins(m)| == |ChartData(m)|
    ensures forall k :: 0 <= k < |Origins(m)| ==>
              Present(m, Origins(m)[k]) && ChartData(m)[k] == Located(m, Origins(m)[k])
    ensures Increasing(Origins(m))
  {
    var n := |m.columns|;
    var s := RowMajor(n, n);
    var pick := (p: (nat, nat)) => if Present(m, p) then Some(p) else None;
    var place := (p: (nat, nat)) => if Present(m, p) then Located(m, p) else ChartEntry("", "", Exact(0.0));
    ChooseCompose(s, pick, place, EntryFn(m));
    RowMajorSorted(n, n);
    ChooseSorted(s, pick, Before);
    forall k | 0 <= k < |Origins(m)| ensures Present(m, Origins(m)[k]) {
      ChooseMembership(s, pick, Origins(m)[k]);
    }
  }

  /** With a symmetric matrix, (x, y, v) is drawn exactly when (y, x, v) is. */
  lemma ChartSymmetric(m: CorrelationMatrix, e: ChartEntry)
    requires IsSquare(m)
    requires forall i, j :: 0 <= i < |m.columns| && 0 <= j < |m.columns| ==> m.matrix[i][j] == m.matrix[j][i]
    ensures e in ChartData(m) <==> ChartEntry(e.y, e.x, e.value) in ChartData(m)
  {
    ChartMembership(m, e);
    ChartMembership(m, ChartEntry(e.y, e.x, e.value));
    var n := |m.columns|;
    if e in ChartData(m) {
      var i: nat, j: nat :| i < n && j < n
         && CellAt(m, i, j) == Some(e.value) && e.x == m.columns[i] && e.y == m.columns[j];
      assert CellAt(m, j, i) == Some(e.value);
    }
    if ChartEntry(e.y, e.x, e.value) in ChartData(m) {
      var i: nat, j: nat :| i < n && j < n
         && CellAt(m, i, j) == Some(e.value) && e.y == m.columns[i] && e.x == m.columns[j];
      assert CellAt(m, j, i) == Some(e.value);
    }
  }

  /** For the engine's matrix every drawn value is a coefficient in [-1, 1]. */
  lemma InsightsChartRange(data: seq<Record>, e: ChartEntry)
    ensures var m := InsightsOf(data).matrix;
            e in ChartData(m) ==> e.value.Valid() && e.value.InUnitRange()
  {
    var m := InsightsOf(data).matrix;
    var n := |m.columns|;
    ChartMembership(m, e);
    if e in ChartData(m) {
      var i: nat, j: nat :| i < n && j < n
         && CellAt(m, i, j) == Some(e.value) && e.x == m.columns[i] && e.y == m.columns[j];
      TableShape(data, m.columns);
      if i != j {
        TableCell(data, m.columns, i, j);
      }
    }
  }

  /** Every numeric column has a full-strength entry with itself. */
  lemma InsightsChartDiagonal(data: seq<Record>, c: string)
    ensures var m := InsightsOf(data).matrix;
            c in m.columns ==> ChartEntry(c, c, Exact(1.0)) in ChartData(m)
  {
    var m := InsightsOf(data).matrix;
    var n := |m.columns|;
    if c in m.columns {
      TableShape(data, m.columns);
      var i :| 0 <= i < n && m.columns[i] == c;
      ChartMembership(m, ChartEntry(c, c, Exact(1.0)));
      assert CellAt(m, i, i) == Some(Exact(1.0));
    }
  }

  // ---------------------------------------------------------------------
  // Colours and totals
  // ---------------------------------------------------------------------

  /** An `rgba(red, green, blue, alpha)` colour; the alpha is a coefficient. */
  datatype Color = Rgba(red: nat, green: nat, blue: nat, alpha: Coefficient)

  /** `colorScale`: grey for `null`, else green above 0 and red otherwise, with alpha |value|. */
  function ColorScale(value: Cell): (c: Color)
    ensures value.None? ==> c == Rgba(107, 114, 128, Exact(0.2))
    ensures value.Some? ==> c.alpha == Magnitude(value.value)
    ensures value.Some? ==> (c.green == 222 <==> value.value.IsPositive())
  {
    match value
    case None => Rgba(107, 114, 128, Exact(0.2))
    case Some(v) =>
      if v.IsPositive() then Rgba(74, 222, 128, Magnitude(v)) else Rgba(248, 113, 113, Magnitude(v))
  }

  /**
   * A coefficient in [-1, 1] gets an alpha in [0, 1]: green exactly when it
   * is positive and red otherwise, zero included.
   */
  lemma ColorOfCoefficient(v: Coefficient)
    requires v.Valid() && v.InUnitRange()
    ensures var c := ColorScale(Some(v));
            && c.alpha.Valid() && c.alpha.numerator >= 0.0 && c.alpha.InUnitRange()
            && (c == Rgba(74, 222, 128, c.alpha) <==> v.numerator > 0.0)
            && (c == Rgba(248, 113, 113, c.alpha) <==> v.numerator <= 0.0)
            && (c.alpha.numerator == 0.0 <==> v.numerator == 0.0)
  {
    var a := Magnitude(v);
    assert a.numerator * a.numerator == v.numerator * v.numerator;
  }

  /** `totalRows * totalCols`, the rows times the number of column statistics. */
  function TotalCells(data: seq<Record>, columnStats: seq<ColumnStats>): (n: nat)
    ensures n == 0 <==> |data| == 0 || |columnStats| == 0
    ensures |data| > 0 ==> n >= |columnStats|
    ensures |columnStats| > 0 ==> n >= |data|
  {
    |data| * |columnStats|
  }

  /** For the engine's statistics the total is rows × keys of the first row. */
  lemma TotalCellsOfInsights(data: seq<Record>)
    ensures TotalCells(data, InsightsOf(data).stats) == if |data| == 0 then 0 else |data| * |Keys(data[0])|
  {
  }
}
