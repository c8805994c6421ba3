/**
  The online accumulator Aggr (src/ops.hpp, lines 3-16; src/ops.cpp, lines 123-199).

  Its state is a count and two optional columns, the running means and the
  running second moments ("variances"). Accumulate folds the columns of a
  table into that state from left to right; on an empty accumulator the
  first column visited initialises it. The update is Welford's recurrence
  with the absolute value of each delta, as the code computes it, not the
  signed recurrence its doc comment quotes.
 */
module Aggregation {
  import opened Ops

  /** The three fields of Aggr, as a value */
  datatype AggrState = AggrState(count: nat, means: Option<Column>, variances: Option<Column>)

  /** A freshly constructed accumulator */
  const Empty: AggrState := AggrState(0, None, None)

  /** The column names of a result table, in order */
  const ResultNames: seq<string> := ["mean", "variance"]

  /** A result table: names and columns, in the same order */
  datatype ResultTable = ResultTable(names: seq<string>, columns: seq<Option<Column>>)

  /** The start index Accumulate uses when the caller gives none: column 0 holds the primary key */
  const DefaultStartIndex: nat := 1

  function Zeros(n: nat): (r: Column)
    ensures |r| == n
    ensures forall i :: 0 <= i < n ==> r[i] == 0.0
  {
    seq(n, _ => 0.0)
  }

  /** The state Initialize leaves behind */
  function Initialized(c: Column): AggrState
  {
    AggrState(1, Some(c), Some(Zeros(|c|)))
  }

  /**
    One fold step over the column col, chained through the vector layer
    exactly as the loop body does it: the count is incremented first and
    the incremented count is the divisor.
   */
  function StepState(s: AggrState, col: Column): AggrState
  {
    var count := s.count + 1;
    var deltaMean := VecAbs(VecSub(Some(col), s.means));
    var means := VecAdd(s.means, VecDivScalar(deltaMean, count as real));
    var deltaVar := VecAbs(VecSub(Some(col), means));
    var variances := VecAdd(s.variances, VecMul(deltaVar, deltaMean));
    AggrState(count, means, variances)
  }

  /** Fold the columns cols into s, leftmost first */
  function FoldCols(s: AggrState, cols: seq<Column>): AggrState
    decreases |cols|
  {
    if cols == [] then s else StepState(FoldCols(s, cols[..|cols| - 1]), cols[|cols| - 1])
  }

  /**
    What Accumulate(table, colNdx) does to the state s. There is no stop
    index: the fold always runs to the last column of the table.
   */
  function AccumulateSpec(s: AggrState, table: seq<Column>, colNdx: nat): AggrState
    requires s.count == 0 ==> colNdx < |table|
  {
    if s.count == 0 then FoldCols(Initialized(table[colNdx]), table[colNdx + 1..])
    else if colNdx <= |table| then FoldCols(s, table[colNdx..])
    else s
  }

  /** The result table built from a state: the means, then the variances */
  function ResultOf(s: AggrState): ResultTable
  {
    ResultTable(ResultNames, [s.means, s.variances])
  }

  // ---------------------------------------------------------------------
  // One row at a time

  /** What one fold step does to a single row; n is the incremented count */
  function RowStep(n: nat, mean: real, m2: real, x: real): (r: (real, real))
    requires n >= 1
    ensures r.0 >= mean && r.1 >= m2
  {
    var deltaMean := Abs(x - mean);
    var newMean := mean + deltaMean / n as real;
    (newMean, m2 + Abs(x - newMean) * deltaMean)
  }

  /** The signed recurrence of the doc comment at src/ops.cpp:154-167 */
  function WelfordStep(n: nat, mean: real, m2: real, x: real): (real, real)
    requires n >= 1
  {
    var delta := x - mean;
    var newMean := mean + delta / n as real;
    (newMean, m2 + delta * (x - newMean))
  }

  /** With k >= 1, dividing a non-negative d by k does not make it larger */
  lemma QuotientBounds(d: real, k: real)
    requires d >= 0.0 && k >= 1.0
    ensures 0.0 <= d / k <= d
  {
    var q := d / k;
    assert q * k == d;
    assert q >= 0.0;
    var j := k - 1.0;
    assert d - q == q * j;
    assert q * j >= 0.0;
  }

  lemma ProductOfEquals(a: real, b: real, c: real, d: real)
    requires a == c && b == d
    ensures a * b == d * c
  {
  }

  /** The second moment of the signed recurrence, in terms of its two deltas */
  lemma WelfordValue(n: nat, mean: real, m2: real, x: real, d: real, e: real)
    requires n >= 1 && d == x - mean && e == x - (mean + d / n as real)
    ensures WelfordStep(n, mean, m2, x).1 == m2 + d * e
  {
  }

  /** Where the new value is not below the mean, the code computes the doc comment's recurrence */
  lemma RowStepAgreesAboveMean(n: nat, mean: real, m2: real, x: real)
    requires n >= 1 && x >= mean
    ensures RowStep(n, mean, m2, x) == WelfordStep(n, mean, m2, x)
  {
    var d := x - mean;
    var k := n as real;
    QuotientBounds(d, k);
    var q := d / k;
    var newMean := mean + q;
    var e := x - newMean;
    assert Abs(x - mean) == d;
    assert Abs(x - mean) / k == q;
    assert RowStep(n, mean, m2, x).0 == newMean;
    assert RowStep(n, mean, m2, x).1 == m2 + Abs(x - newMean) * Abs(x - mean);
    assert Abs(x - newMean) * Abs(x - mean) == e * d by {
      assert Abs(x - newMean) == e;
      ProductOfEquals(Abs(x - newMean), Abs(x - mean), e, d);
    }
    assert WelfordStep(n, mean, m2, x).0 == newMean;
    WelfordValue(n, mean, m2, x, d, e);
  }

  /** Where the new value is below the mean, the code moves the mean up, the doc comment down */
  lemma RowStepDivergesBelowMean(n: nat, mean: real, m2: real, x: real)
    requires n >= 1 && x < mean
    ensures RowStep(n, mean, m2, x).0 > mean > WelfordStep(n, mean, m2, x).0
  {
    var d := mean - x;
    var k := n as real;
    assert d / k > 0.0;
    assert Abs(x - mean) == d;
    assert (x - mean) / k == -(d / k);
  }

  /** Both coordinates of a state are present and have length n */
  predicate Shaped(s: AggrState, n: nat)
  {
    s.means.Some? && s.variances.Some? && |s.means.value| == n && |s.variances.value| == n
  }

  /** Every column has length n */
  predicate AllLength(cols: seq<Column>, n: nat)
  {
    forall j :: 0 <= j < |cols| ==> |cols[j]| == n
  }

  /** On well-shaped input a step works row by row, each row as RowStep */
  lemma StepAt(s: AggrState, col: Column, i: nat)
    requires Shaped(s, |col|) && i < |col|
    ensures Shaped(StepState(s, col), |col|)
    ensures (StepState(s, col).means.value[i], StepState(s, col).variances.value[i])
         == RowStep(s.count + 1, s.means.value[i], s.variances.value[i], col[i])
  {
    var n := (s.count + 1) as real;
    var deltaMean := VecAbs(VecSub(Some(col), s.means));
    var dm := Abs(col[i] - s.means.value[i]);
    assert deltaMean.value[i] == dm;
    var quotient := VecDivScalar(deltaMean, n);
    assert quotient.value[i] * n == dm;
    assert quotient.value[i] == dm / n;
    var means := VecAdd(s.means, quotient);
    var newMean := s.means.value[i] + dm / n;
    assert means.value[i] == newMean;
    var deltaVar := VecAbs(VecSub(Some(col), means));
    assert deltaVar.value[i] == Abs(col[i] - newMean);
    assert VecMul(deltaVar, deltaMean).value[i] == Abs(col[i] - newMean) * dm;
    var r := RowStep(s.count + 1, s.means.value[i], s.variances.value[i], col[i]);
    assert r.0 == newMean;
    assert r.1 == s.variances.value[i] + Abs(col[i] - newMean) * dm;
  }

  // ---------------------------------------------------------------------
  // The state invariant

  /**
    What every reachable state satisfies: an empty accumulator has no
    columns, the two columns are present together and have equal lengths.
   */
  predicate Consistent(s: AggrState)
  {
    && (s.count == 0 ==> s.means.None?)
    && (s.means.Some? <==> s.variances.Some?)
    && (s.means.Some? ==> |s.means.value| == |s.variances.value|)
  }

  lemma StepConsistent(s: AggrState, col: Column)
    requires Consistent(s)
    ensures Consistent(StepState(s, col))
  {
  }

  lemma {:induction false} FoldConsistent(s: AggrState, cols: seq<Column>)
    requires Consistent(s)
    ensures Consistent(FoldCols(s, cols))
    decreases |cols|
  {
    if cols != [] {
      FoldConsistent(s, cols[..|cols| - 1]);
      StepConsistent(FoldCols(s, cols[..|cols| - 1]), cols[|cols| - 1]);
    }
  }

  /** Folding one more column is one more step */
  lemma FoldSnoc(s: AggrState, cols: seq<Column>, c: Column)
    ensures FoldCols(s, cols + [c]) == StepState(FoldCols(s, cols), c)
  {
    assert (cols + [c])[..|cols|] == cols;
  }

  /** Every step adds exactly one to the count */
  lemma {:induction false} FoldCount(s: AggrState, cols: seq<Column>)
    ensures FoldCols(s, cols).count == s.count + |cols|
    decreases |cols|
  {
    if cols != [] {
      FoldCount(s, cols[..|cols| - 1]);
    }
  }

  /** How far Accumulate moves the count */
  lemma AccumulateCount(s: AggrState, table: seq<Column>, colNdx: nat)
    requires s.count == 0 ==> colNdx < |table|
    ensures s.count == 0 ==> AccumulateSpec(s, table, colNdx).count == |table| - colNdx
    ensures s.count > 0 && colNdx <= |table| ==> AccumulateSpec(s, table, colNdx).count == s.count + |table| - colNdx
    ensures s.count > 0 && colNdx > |table| ==> AccumulateSpec(s, table, colNdx) == s
  {
    if s.count == 0 {
      FoldCount(Initialized(table[colNdx]), table[colNdx + 1..]);
    } else if colNdx <= |table| {
      FoldCount(s, table[colNdx..]);
    }
  }

  /** A column whose length differs from the running means makes both columns absent */
  lemma MismatchLosesColumns(s: AggrState, col: Column)
    requires s.means.Some? && |s.means.value| != |col|
    ensures StepState(s, col).means.None? && StepState(s, col).variances.None?
    ensures StepState(s, col).count == s.count + 1
  {
  }

  /**
    Once the means are absent they stay absent, while the count keeps
    growing; the variances are absent after the first step, or throughout
    when they already were.
   */
  lemma {:induction false} AbsentStaysAbsent(s: AggrState, cols: seq<Column>)
    requires s.means.None?
    ensures FoldCols(s, cols).means.None?
    ensures s.variances.None? || cols != [] ==> FoldCols(s, cols).variances.None?
    ensures FoldCols(s, cols).count == s.count + |cols|
    decreases |cols|
  {
    if cols != [] {
      AbsentStaysAbsent(s, cols[..|cols| - 1]);
    }
  }

  // ---------------------------------------------------------------------
  // Shape and monotonicity over a whole fold

  /** Elementwise, t is at least s in both columns */
  predicate Dominates(t: AggrState, s: AggrState, n: nat)
    requires Shaped(t, n) && Shaped(s, n)
  {
    forall i :: 0 <= i < n ==> t.means.value[i] >= s.means.value[i] && t.variances.value[i] >= s.variances.value[i]
  }

  lemma StepDominates(s: AggrState, col: Column)
    requires Shaped(s, |col|)
    ensures Shaped(StepState(s, col), |col|)
    ensures Dominates(StepState(s, col), s, |col|)
  {
    forall i | 0 <= i < |col|
      ensures StepState(s, col).means.value[i] >= s.means.value[i]
      ensures StepState(s, col).variances.value[i] >= s.variances.value[i]
    {
      StepAt(s, col, i);
    }
  }

  /**
    Folding columns of the running length keeps that length, and never
    decreases a mean or a variance.
   */
  lemma {:induction false} FoldDominates(s: AggrState, cols: seq<Column>, n: nat)
    requires Shaped(s, n) && AllLength(cols, n)
    ensures Shaped(FoldCols(s, cols), n)
    ensures Dominates(FoldCols(s, cols), s, n)
    decreases |cols|
  {
    if cols != [] {
      var prefix := cols[..|cols| - 1];
      FoldDominates(s, prefix, n);
      var mid := FoldCols(s, prefix);
      StepDominates(mid, cols[|cols| - 1]);
    }
  }

  /**
    From an empty accumulator and equal-length columns: the result has the
    columns' length, counts every visited column, its variances are
    non-negative and its means are at least the first visited column.
   */
  lemma AccumulateFromEmpty(table: seq<Column>, colNdx: nat, n: nat)
    requires colNdx < |table| && AllLength(table, n)
    ensures var r := AccumulateSpec(Empty, table, colNdx);
      && r.count == |table| - colNdx
      && Shaped(r, n)
      && (forall i :: 0 <= i < n ==> r.variances.value[i] >= 0.0)
      && (forall i :: 0 <= i < n ==> r.means.value[i] >= table[colNdx][i])
  {
    var init := Initialized(table[colNdx]);
    var rest := table[colNdx + 1..];
    assert AllLength(rest, n) by {
      forall j | 0 <= j < |rest| ensures |rest[j]| == n {
        assert rest[j] == table[colNdx + 1 + j];
      }
    }
    FoldDominates(init, rest, n);
    FoldCount(init, rest);
  }

  /** Accumulate never reads the columns before its start index */
  lemma AccumulateSkipsLeadingColumns(s: AggrState, t1: seq<Column>, t2: seq<Column>, colNdx: nat)
    requires colNdx <= |t1| && colNdx <= |t2| && t1[colNdx..] == t2[colNdx..]
    requires s.count == 0 ==> colNdx < |t1|
    ensures AccumulateSpec(s, t1, colNdx) == AccumulateSpec(s, t2, colNdx)
  {
    if s.count == 0 {
      assert t1[colNdx] == t1[colNdx..][0] == t2[colNdx..][0] == t2[colNdx];
      assert t1[colNdx + 1..] == t1[colNdx..][1..] == t2[colNdx..][1..] == t2[colNdx + 1..];
    }
  }

  // ---------------------------------------------------------------------
  // Concrete behaviour

  /** Table [pkey, [1, 3], [5, 1]] accumulated from column 1 */
  lemma WorkedExample()
    ensures AccumulateSpec(Empty, [[0.0, 1.0], [1.0, 3.0], [5.0, 1.0]], DefaultStartIndex)
         == AggrState(2, Some([3.0, 4.0]), Some([8.0, 6.0]))
  {
    var table := [[0.0, 1.0], [1.0, 3.0], [5.0, 1.0]];
    var init := Initialized([1.0, 3.0]);
    assert table[2..] == [[5.0, 1.0]];
    assert FoldCols(init, [[5.0, 1.0]]) == StepState(init, [5.0, 1.0]) by {
      assert [[5.0, 1.0]][..0] == [];
    }
    var r := StepState(init, [5.0, 1.0]);
    StepAt(init, [5.0, 1.0], 0);
    StepAt(init, [5.0, 1.0], 1);
    assert r.means.value == [3.0, 4.0];
    assert r.variances.value == [8.0, 6.0];
  }

  /** Folding the same two one-row columns in the other order gives another state */
  lemma OrderMatters()
    ensures FoldCols(Initialized([0.0]), [[2.0]]) == AggrState(2, Some([1.0]), Some([2.0]))
    ensures FoldCols(Initialized([2.0]), [[0.0]]) == AggrState(2, Some([3.0]), Some([6.0]))
  {
    assert [[2.0]][..0] == [] && [[0.0]][..0] == [];
    var a := StepState(Initialized([0.0]), [2.0]);
    var b := StepState(Initialized([2.0]), [0.0]);
    StepAt(Initialized([0.0]), [2.0], 0);
    StepAt(Initialized([2.0]), [0.0], 0);
    assert a.means.value == [1.0] && a.variances.value == [2.0];
    assert b.means.value == [3.0] && b.variances.value == [6.0];
  }

  // ---------------------------------------------------------------------
  // The accumulator object

  class Aggr {
    var count: nat
    var means: Option<Column>
    var variances: Option<Column>

    function State(): AggrState
      reads this
    {
      AggrState(count, means, variances)
    }

    ghost predicate Valid()
      reads this
    {
      Consistent(State())
    }

    constructor ()
      ensures State() == Empty && Valid()
    {
      count := 0;
      means := None;
      variances := None;
    }

    /** The means become the given column, the variances a zero column of its length */
    method Initialize(initialVals: Column)
      modifies this
      ensures count == 1 && means == Some(initialVals)
      ensures variances.Some? && |variances.value| == |initialVals|
      ensures forall i :: 0 <= i < |initialVals| ==> variances.value[i] == 0.0
      ensures State() == Initialized(initialVals) && Valid()
    {
      variances := Some(Zeros(|initialVals|));
      means := Some(initialVals);
      count := 1;
    }

    /**
      Fold the columns of newVals from index colNdx to the last one into the
      state; on an empty accumulator the column at colNdx initialises it.
     */
    method Accumulate(newVals: seq<Column>, colNdx: nat := DefaultStartIndex)
      requires count == 0 ==> colNdx < |newVals|
      modifies this
      ensures State() == AccumulateSpec(old(State()), newVals, colNdx)
      ensures old(Valid()) ==> Valid()
    {
      ghost var s := State();
      var i := colNdx;
      if count == 0 {
        Initialize(newVals[i]);
        count := 1;
        i := i + 1;
      }
      ghost var start, s0 := i, State();
      ghost var done: seq<Column> := [];
      while i < |newVals|
        invariant start <= i
        invariant i <= |newVals| ==> done == newVals[start..i]
        invariant i > |newVals| ==> i == start && done == []
        invariant State() == FoldCols(s0, done)
      {
        var colVals := newVals[i];
        FoldColumn(colVals);
        FoldSnoc(s0, done, colVals);
        done := done + [colVals];
        i := i + 1;
      }
      assert start <= |newVals| ==> done == newVals[start..];
      if Consistent(s0) {
        FoldConsistent(s0, done);
      }
    }

    /** The body of the fold loop: one step over the column colVals */
    method FoldColumn(colVals: Column)
      modifies this
      ensures State() == StepState(old(State()), colVals)
    {
      count := count + 1;
      var deltaMean := VecAbs(VecSub(Some(colVals), means));
      means := VecAdd(means, VecDivScalar(deltaMean, count as real));
      var deltaVar := VecAbs(VecSub(Some(colVals), means));
      variances := VecAdd(variances, VecMul(deltaVar, deltaMean));
    }

    /** The current means and variances as a two-column table, in that order */
    method TakeResult() returns (r: ResultTable)
      requires count >= 1
      ensures r.names == ["mean", "variance"]
      ensures r.columns == [means, variances]
      ensures r == ResultOf(State())
    {
      r := ResultTable(ResultNames, [means, variances]);
    }
  }
}
