/**
  Composition of per-batch results (the batch loop of src/simple.cpp,
  lines 147-165, which is not itself part of this model).

  A table is cut into consecutive row ranges; each range gets a fresh
  accumulator run from the default start index, and the per-batch result
  tables are concatenated row-wise in batch order. Because every fold step
  works row by row, this equals the result of one accumulator over the
  whole table.
 */
module Batches {
  import opened Ops
  import opened Aggregation

  /** True when every column has at least hi rows */
  predicate RowsAtLeast(table: seq<Column>, hi: nat)
  {
    forall j :: 0 <= j < |table| ==> hi <= |table[j]|
  }

  /** Rows lo..hi of every column of the table */
  function RowSlice(table: seq<Column>, lo: nat, hi: nat): (r: seq<Column>)
    requires lo <= hi && RowsAtLeast(table, hi)
    ensures |r| == |table| && AllLength(r, hi - lo)
    ensures forall j :: 0 <= j < |r| ==> r[j] == table[j][lo..hi]
  {
    seq(|table|, j requires 0 <= j < |table| => table[j][lo..hi])
  }

  function SliceColumn(c: Option<Column>, lo: nat, hi: nat): Option<Column>
    requires c.Some? ==> lo <= hi <= |c.value|
  {
    if c.None? then None else Some(c.value[lo..hi])
  }

  /** Rows lo..hi of both columns of a state; the count is kept */
  function SliceState(s: AggrState, lo: nat, hi: nat): AggrState
    requires s.means.Some? ==> lo <= hi <= |s.means.value|
    requires s.variances.Some? ==> lo <= hi <= |s.variances.value|
  {
    AggrState(s.count, SliceColumn(s.means, lo, hi), SliceColumn(s.variances, lo, hi))
  }

  /** One batch: a fresh accumulator run over the table from the default start, then its result */
  function RunBatch(table: seq<Column>): ResultTable
    requires DefaultStartIndex < |table|
  {
    ResultOf(AccumulateSpec(Empty, table, DefaultStartIndex))
  }

  /** Row-wise concatenation of two columns */
  function ConcatColumns(a: Option<Column>, b: Option<Column>): (r: Option<Column>)
    ensures r.Some? <==> a.Some? && b.Some?
    ensures r.Some? ==> |r.value| == |a.value| + |b.value|
    ensures r.Some? ==> r.value[..|a.value|] == a.value && r.value[|a.value|..] == b.value
  {
    if a.Some? && b.Some? then Some(a.value + b.value) else None
  }

  /** Row-wise concatenation of two result tables; absent when their schemas differ */
  function ConcatTables(a: ResultTable, b: ResultTable): (r: Option<ResultTable>)
    ensures r.Some? <==> a.names == b.names && |a.columns| == |b.columns|
    ensures r.Some? ==> r.value.names == a.names && |r.value.columns| == |a.columns|
    ensures r.Some? ==> forall j :: 0 <= j < |a.columns| ==>
      && (r.value.columns[j].Some? <==> a.columns[j].Some? && b.columns[j].Some?)
      && (r.value.columns[j].Some? ==> r.value.columns[j].value == a.columns[j].value + b.columns[j].value)
  {
    if a.names != b.names || |a.columns| != |b.columns| then None
    else Some(ResultTable(a.names, seq(|a.columns|, j requires 0 <= j < |a.columns| => ConcatColumns(a.columns[j], b.columns[j]))))
  }

  /** Concatenation of a non-empty list of result tables, in order */
  function ConcatAll(rs: seq<ResultTable>): Option<ResultTable>
    requires |rs| >= 1
    decreases |rs|
  {
    if |rs| == 1 then Some(rs[0])
    else match ConcatAll(rs[..|rs| - 1])
      case None => None
      case Some(acc) => ConcatTables(acc, rs[|rs| - 1])
  }

  /** Row boundaries that never decrease and never pass n */
  predicate CutsWithin(cuts: seq<nat>, n: nat)
  {
    && (forall j :: 0 <= j < |cuts| ==> cuts[j] <= n)
    && (forall j, k :: 0 <= j <= k < |cuts| ==> cuts[j] <= cuts[k])
  }

  /** Cut points of a row partition of n rows: from 0 to n, never decreasing */
  predicate Partition(cuts: seq<nat>, n: nat)
  {
    |cuts| >= 2 && cuts[0] == 0 && cuts[|cuts| - 1] == n && CutsWithin(cuts, n)
  }

  /** The per-batch results of a row partition, in batch order */
  function BatchResults(table: seq<Column>, n: nat, cuts: seq<nat>): (rs: seq<ResultTable>)
    requires DefaultStartIndex < |table| && AllLength(table, n)
    requires |cuts| >= 1 && CutsWithin(cuts, n)
    ensures |rs| == |cuts| - 1
  {
    seq(|cuts| - 1, j requires 0 <= j < |cuts| - 1 => RunBatch(RowSlice(table, cuts[j], cuts[j + 1])))
  }

  // ---------------------------------------------------------------------
  // Row independence

  /** Slicing rows commutes with one fold step */
  lemma StepSlice(s: AggrState, col: Column, lo: nat, hi: nat)
    requires Shaped(s, |col|) && lo <= hi <= |col|
    ensures StepState(SliceState(s, lo, hi), col[lo..hi]) == SliceState(StepState(s, col), lo, hi)
  {
    var sliced := SliceState(s, lo, hi);
    var whole := StepState(s, col);
    var left := StepState(sliced, col[lo..hi]);
    assert Shaped(whole, |col|) && Shaped(left, hi - lo);
    var right := SliceState(whole, lo, hi);
    forall i | 0 <= i < hi - lo
      ensures left.means.value[i] == right.means.value[i]
      ensures left.variances.value[i] == right.variances.value[i]
    {
      StepAt(sliced, col[lo..hi], i);
      StepAt(s, col, lo + i);
    }
    assert left.means.value == right.means.value;
    assert left.variances.value == right.variances.value;
  }

  /** Slicing rows commutes with a whole fold over equal-length columns */
  lemma {:induction false} FoldSlice(s: AggrState, cols: seq<Column>, n: nat, lo: nat, hi: nat)
    requires Shaped(s, n) && AllLength(cols, n) && lo <= hi <= n
    ensures Shaped(FoldCols(s, cols), n)
    ensures FoldCols(SliceState(s, lo, hi), RowSlice(cols, lo, hi)) == SliceState(FoldCols(s, cols), lo, hi)
    decreases |cols|
  {
    FoldDominates(s, cols, n);
    if cols != [] {
      var m := |cols| - 1;
      var prefix := cols[..m];
      assert AllLength(prefix, n);
      FoldSlice(s, prefix, n, lo, hi);
      var sliced := RowSlice(cols, lo, hi);
      assert sliced[..m] == RowSlice(prefix, lo, hi);
      FoldDominates(s, prefix, n);
      StepSlice(FoldCols(s, prefix), cols[m], lo, hi);
    }
  }

  /** Slicing rows commutes with Initialize */
  lemma InitSlice(c: Column, lo: nat, hi: nat)
    requires lo <= hi <= |c|
    ensures Initialized(c[lo..hi]) == SliceState(Initialized(c), lo, hi)
  {
    assert Zeros(|c|)[lo..hi] == Zeros(hi - lo);
  }

  /** A fresh accumulator over a row slice gives that slice of the whole table's state */
  lemma AccumulateSlice(table: seq<Column>, n: nat, lo: nat, hi: nat)
    requires DefaultStartIndex < |table| && AllLength(table, n) && lo <= hi <= n
    ensures Shaped(AccumulateSpec(Empty, table, DefaultStartIndex), n)
    ensures AccumulateSpec(Empty, RowSlice(table, lo, hi), DefaultStartIndex)
         == SliceState(AccumulateSpec(Empty, table, DefaultStartIndex), lo, hi)
  {
    var k := DefaultStartIndex;
    AccumulateFromEmpty(table, k, n);
    var sliced := RowSlice(table, lo, hi);
    var rest := table[k + 1..];
    assert AllLength(rest, n);
    assert sliced[k + 1..] == RowSlice(rest, lo, hi);
    InitSlice(table[k], lo, hi);
    FoldSlice(Initialized(table[k]), rest, n, lo, hi);
  }

  /** The results of two adjacent row ranges of a state concatenate to the result of their union */
  lemma ConcatAdjacent(s: AggrState, n: nat, lo: nat, mid: nat, hi: nat)
    requires Shaped(s, n) && lo <= mid <= hi <= n
    ensures ConcatTables(ResultOf(SliceState(s, lo, mid)), ResultOf(SliceState(s, mid, hi)))
         == Some(ResultOf(SliceState(s, lo, hi)))
  {
    assert s.means.value[lo..mid] + s.means.value[mid..hi] == s.means.value[lo..hi];
    assert s.variances.value[lo..mid] + s.variances.value[mid..hi] == s.variances.value[lo..hi];
    var r := ConcatTables(ResultOf(SliceState(s, lo, mid)), ResultOf(SliceState(s, mid, hi)));
    assert r.value.columns == ResultOf(SliceState(s, lo, hi)).columns;
  }

  /** Two batches: concatenating the results of rows 0..k and k..n equals the whole table's result */
  lemma TwoBatches(table: seq<Column>, n: nat, k: nat)
    requires DefaultStartIndex < |table| && AllLength(table, n) && k <= n
    ensures ConcatTables(RunBatch(RowSlice(table, 0, k)), RunBatch(RowSlice(table, k, n))) == Some(RunBatch(table))
  {
    var whole := AccumulateSpec(Empty, table, DefaultStartIndex);
    AccumulateSlice(table, n, 0, k);
    AccumulateSlice(table, n, k, n);
    ConcatAdjacent(whole, n, 0, k, n);
    assert SliceState(whole, 0, n) == whole by {
      assert whole.means.value[0..n] == whole.means.value;
      assert whole.variances.value[0..n] == whole.variances.value;
    }
  }

  /** Dropping the last cut drops the last batch */
  lemma BatchResultsPrefix(table: seq<Column>, n: nat, cuts: seq<nat>)
    requires DefaultStartIndex < |table| && AllLength(table, n)
    requires |cuts| >= 2 && CutsWithin(cuts, n)
    ensures BatchResults(table, n, cuts)[..|cuts| - 2] == BatchResults(table, n, cuts[..|cuts| - 1])
  {
  }

  /** The batches up to the last cut concatenate to the whole table's result on those rows */
  lemma {:induction false} BatchesPrefix(table: seq<Column>, n: nat, cuts: seq<nat>)
    requires DefaultStartIndex < |table| && AllLength(table, n)
    requires |cuts| >= 2 && CutsWithin(cuts, n)
    ensures Shaped(AccumulateSpec(Empty, table, DefaultStartIndex), n)
    ensures ConcatAll(BatchResults(table, n, cuts))
         == Some(ResultOf(SliceState(AccumulateSpec(Empty, table, DefaultStartIndex), cuts[0], cuts[|cuts| - 1])))
    decreases |cuts|
  {
    var whole := AccumulateSpec(Empty, table, DefaultStartIndex);
    AccumulateFromEmpty(table, DefaultStartIndex, n);
    var rs := BatchResults(table, n, cuts);
    var m := |cuts| - 1;
    AccumulateSlice(table, n, cuts[m - 1], cuts[m]);
    assert rs[m - 1] == ResultOf(SliceState(whole, cuts[m - 1], cuts[m]));
    if m == 1 {
      assert ConcatAll(rs) == Some(rs[0]);
    } else {
      var front := cuts[..m];
      BatchesPrefix(table, n, front);
      BatchResultsPrefix(table, n, cuts);
      ConcatAdjacent(whole, n, cuts[0], cuts[m - 1], cuts[m]);
    }
  }

  /**
    Any row partition: concatenating the per-batch results in batch order
    equals one accumulator run over the whole table.
   */
  lemma ManyBatches(table: seq<Column>, n: nat, cuts: seq<nat>)
    requires DefaultStartIndex < |table| && AllLength(table, n) && Partition(cuts, n)
    ensures ConcatAll(BatchResults(table, n, cuts)) == Some(RunBatch(table))
  {
    var whole := AccumulateSpec(Empty, table, DefaultStartIndex);
    BatchesPrefix(table, n, cuts);
    assert SliceState(whole, 0, n) == whole by {
      assert whole.means.value[0..n] == whole.means.value;
      assert whole.variances.value[0..n] == whole.variances.value;
    }
  }
}
