# arrow-partial-aggr in Dafny

This project models the aggregation core of arrow-partial-aggr (`src/ops.cpp`, `src/ops.hpp`). It has two layers, plus a module for chunk layout and one for batch composition.

- **Vector arithmetic** (`ops.dfy`, module `Ops`). These are the null-propagating wrappers `VecAdd`, `VecSub`, `VecDiv`, `VecMul`, `VecPow` and `VecAbs` over Arrow's elementwise kernels.
  - A column is `Option<seq<real>>`. `None` stands for a null column pointer, and also for a kernel that returned an error.
  - `VecDivScalar` and `VecMulScalar` model the column/scalar overloads of `VecDiv` and `VecMul`.
- **The online accumulator `Aggr`** (`aggr.dfy`, module `Aggregation`). A class with the fields `count`, `means` and `variances`, and the methods constructor, `Initialize`, `Accumulate` and `TakeResult`.
  - `Accumulate` is a `while` loop. It is proved equal to a pure left fold, `AccumulateSpec` / `FoldCols`, over the table's columns.
  - Each fold step, `StepState`, chains the vector operations as the loop body does. The count is incremented first, and the incremented count is the divisor. Both deltas are absolute values.
- **Chunk layout** (`chunks.dfy`, module `Chunks`). The model works on logical column values. `Flatten` / `Rechunk` show that re-chunking a column, as every wrapper does with its result, never changes its logical value.
- **Batch composition** (`batches.dfy`, module `Batches`). The driver in `src/simple.cpp` runs a fresh accumulator over each row batch and concatenates the per-batch results in batch order. `ManyBatches` proves that, for equal-length columns, this equals one accumulator over the whole table. The driver itself is not part of this model.

A table is a `seq<seq<real>>` of columns. Column 0 (the primary key) is a column like any other here. Accumulate's default start index of 1 skips it, and `AccumulateSkipsLeadingColumns` shows that columns before the start index are never read.

### Where the code and its descriptions differ (the model follows the code)

- The doc comment at `src/ops.cpp:154-167` gives the signed Welford recurrence. The code takes the absolute value of both deltas (`src/ops.cpp:185`, `src/ops.cpp:191`).
  - `RowStep` is what the code computes; `WelfordStep` is the doc comment's recurrence.
  - `RowStepAgreesAboveMean`: the two are equal on a row exactly when the new value is not below the running mean.
  - `RowStepDivergesBelowMean`: below the mean, the code moves the mean up while the recurrence moves it down.
  - So `means` is elementwise non-decreasing over a fold (`FoldDominates`). It is not the arithmetic mean: `OrderMatters` folds the values 2 then 0 and gets a "mean" of 3.
- `Accumulate` is declared with a stop index `col_stopndx` (`src/ops.hpp:15`). The definition has no such parameter (`src/ops.cpp:169`) and always folds to the last column (`src/ops.cpp:180`). The model has no stop index.
- The count is not tied to the presence of the columns. A column whose length differs from the running means makes `VecSub` fail. From then on `means` and `variances` stay absent while `count` keeps growing (`MismatchLosesColumns`, `AbsentStaysAbsent`).
  - The invariant that does hold is `Consistent`: an empty accumulator has no columns, and the two columns are present together with equal lengths.
- On an empty accumulator, `Accumulate` reads `column(col_ndx)` without a bounds check (`src/ops.cpp:175`). The model therefore requires `colNdx < |table|` in that case. It does not treat an out-of-range start as a no-op.

## Model

| member | source | states |
|---|---|---|
| Ops.VecAdd | src/ops.cpp:11-21 | present exactly when both operands are present with equal lengths; then the elementwise sum, of that length |
| Ops.VecSub | src/ops.cpp:24-34 | present exactly when both operands are present with equal lengths; then the elementwise difference, of that length |
| Ops.VecDiv | src/ops.cpp:37-47 | present exactly when both operands are present with equal lengths and no divisor is zero; each element times its divisor gives back the dividend |
| Ops.VecDivScalar | src/ops.cpp:50-60 | present exactly when the column is present and the scalar is non-zero; each element times the scalar gives back the original element |
| Ops.VecMul | src/ops.cpp:63-73 | present exactly when both operands are present with equal lengths; then the elementwise product, of that length |
| Ops.VecMulScalar | src/ops.cpp:76-86 | present exactly when the column is present; each element scaled by the scalar, length kept |
| Ops.VecPow | src/ops.cpp:89-99 | present exactly when the column is present; each element raised to the (natural) exponent, length kept |
| Ops.VecAbs | src/ops.cpp:102-112 | present exactly when the column is present; length kept; every element non-negative and equal to the input element or its negation |
| Ops.AbsentPropagates | src/ops.cpp:11-112 | every wrapper returns null when any column operand is null |
| Ops.SubThenAdd | src/ops.cpp:15-33 | adding back a subtracted column restores the original (the inverse partner of VecSub) |
| Ops.DivScalarThenMulScalar | src/ops.cpp:54-85 | dividing by a non-zero scalar and multiplying by it restores the column |
| Ops.DivThenMul | src/ops.cpp:41-72 | dividing by a zero-free column and multiplying by it restores the dividend |
| Ops.AddMulCommute | src/ops.cpp:63-73 | addition and multiplication are commutative, including when they fail |
| Ops.AbsSubSymmetric | src/ops.cpp:102-112 | the absolute difference of two columns does not depend on operand order |
| Ops.AbsIdempotent | src/ops.cpp:102-112 | taking the absolute value twice equals taking it once |
| Ops.VecPowAdd | src/ops.cpp:89-99 | raising to m+n equals multiplying the m-th and n-th powers elementwise |
| Ops.VecPowTwo | src/ops.cpp:89-99 | squaring equals multiplying a column with itself |
| Chunks.FlattenRechunk | src/ops.cpp:18-20 | re-chunking a column into any chunk sizes summing to its length keeps its logical value |
| Chunks.FlattenAppend | src/ops.cpp:18-20 | the logical value of concatenated chunk lists is the concatenation of their logical values |
| Aggregation.Zeros | src/ops.cpp:141-146 | the initial variances: a column of the given length whose every element is zero |
| Aggregation.RowStep | src/ops.cpp:184-195 | one row of a fold step never decreases the mean or the second moment |
| Aggregation.RowStepAgreesAboveMean | src/ops.cpp:154-195 | where the new value is not below the mean, the code's step equals the doc comment's signed recurrence |
| Aggregation.RowStepDivergesBelowMean | src/ops.cpp:154-195 | where the new value is below the mean, the code raises the mean while the signed recurrence lowers it |
| Aggregation.StepAt | src/ops.cpp:184-195 | on columns of equal length a step keeps that length and computes every row independently, as RowStep with the incremented count |
| Aggregation.StepConsistent | src/ops.cpp:184-195 | a step preserves the state invariant, for any column |
| Aggregation.FoldConsistent | src/ops.cpp:180-196 | a fold over any columns preserves the state invariant |
| Aggregation.FoldSnoc | src/ops.cpp:180-196 | folding one more column is one more step, applied last |
| Aggregation.FoldCount | src/ops.cpp:180-196 | every folded column adds exactly one to the count |
| Aggregation.AccumulateCount | src/ops.cpp:173-196 | from empty the count ends at n - colNdx; otherwise it grows by n - colNdx, or stays when colNdx > n |
| Aggregation.MismatchLosesColumns | src/ops.cpp:184-195 | a column of another length than the running means makes both means and variances absent, count still incremented |
| Aggregation.AbsentStaysAbsent | src/ops.cpp:180-196 | once the means are absent they stay absent while the count grows by the number of folded columns; the variances are absent after the first folded column, and throughout when they already were |
| Aggregation.StepDominates | src/ops.cpp:184-195 | a step on equal-length columns keeps the length and never decreases a mean or a variance |
| Aggregation.FoldDominates | src/ops.cpp:180-196 | a fold over equal-length columns keeps the length and leaves means and variances elementwise at least their starting values |
| Aggregation.AccumulateFromEmpty | src/ops.cpp:169-199 | from empty on equal-length columns: count is the number of visited columns, both columns have the table's length, variances are non-negative, means are at least the first visited column |
| Aggregation.AccumulateSkipsLeadingColumns | src/ops.hpp:13-14 | Accumulate never reads the columns before its start index (by default the primary key, column 0) |
| Aggregation.WorkedExample | src/ops.cpp:169-199 | columns [1,3] and [5,1] after the key column give count 2, means [3,4], variances [8,6] |
| Aggregation.OrderMatters | src/ops.cpp:180-196 | folding the same columns in the other order gives a different state |
| Aggregation.Aggr.constructor | src/ops.cpp:123-127 | a new accumulator has count 0 and no means or variances |
| Aggregation.Aggr.Initialize | src/ops.cpp:139-151 | count becomes 1, the means become the given column, the variances a zero column of its length |
| Aggregation.Aggr.Accumulate | src/ops.cpp:168-199 | the new state is the left fold of the columns from colNdx to the last (after an implicit Initialize on an empty accumulator); the state invariant is kept |
| Aggregation.Aggr.FoldColumn | src/ops.cpp:182-195 | the loop body: the new state is one fold step of the old state over the column |
| Aggregation.Aggr.TakeResult | src/ops.cpp:129-137 | a table with exactly the columns "mean" and "variance", holding the current means and variances in that order |
| Batches.ConcatColumns | src/simple.cpp:165 | the concatenated column starts with the first operand and continues with the second |
| Batches.ConcatTables | src/simple.cpp:165-172 | concatenation succeeds exactly when the schemas agree and keeps the schema; each result column is present exactly when both operand columns are, and then holds the first table's rows followed by the second's |
| Batches.StepSlice | src/ops.cpp:184-195 | one fold step over a row slice equals the same slice of the step over all rows |
| Batches.FoldSlice | src/ops.cpp:180-196 | a fold over row slices of equal-length columns equals the same slice of the fold over all rows |
| Batches.InitSlice | src/ops.cpp:139-151 | Initialize on a row slice equals the same slice of Initialize on all rows |
| Batches.AccumulateSlice | src/ops.cpp:169-199 | a fresh accumulator over a row slice ends in the same slice of the whole table's state |
| Batches.ConcatAdjacent | src/ops.cpp:129-137 | results of two adjacent row ranges concatenate to the result of their union |
| Batches.TwoBatches | src/simple.cpp:147-165 | concatenating the results of rows 0..k and k..n equals the result over the whole table |
| Batches.BatchesPrefix | src/simple.cpp:129-165 | the batches up to any cut concatenate to the whole table's result restricted to those rows |
| Batches.ManyBatches | src/simple.cpp:129-165 | for any row partition, the per-batch results concatenated in order equal the result over the whole table |

## Left out

- Floating point: values are Dafny `real`, so there is no rounding, overflow, `inf` or `NaN`. Results are exact.
- VecDiv: a zero divisor gives `±inf`/`NaN` elements in IEEE arithmetic. This model has no such values, so a zero divisor makes the whole result absent.
- VecDivScalar: likewise, a zero scalar divisor makes the result absent. The accumulator never divides by zero, because its divisor is the incremented count.
- VecPow: the exponent is a natural number, since Dafny has no real power. Arrow accepts any double exponent.
- The count is a `nat`. The `uint64` wrap-around at 2^64 and its promotion to double at `src/ops.cpp:188` are not modelled.
- The start index is a `nat`. A negative `int64` index reads `column(-1)`, which is undefined behaviour in the source.
- Chunk boundaries are not modelled. Columns are their logical values, and `Chunks` shows that re-chunking keeps them. Arrow's kernel internals are foreign code.
- Initialize: the `Status` errors of the zero-column builder (`src/ops.cpp:143-144`) and the `Status` ignored at `src/ops.cpp:175` are left out. So is a null argument, which the source dereferences.
- Memory management is not modelled: the destructor's `reset()` calls (`src/ops.cpp:118-121`), and `shared_ptr` aliasing, where `means` shares the caller's column after `Initialize`. State is held as values.
- TakeResult: the `float64` field types of the schema are not modelled, nor what `Table::Make` does with a null column. The model requires `count >= 1` and returns the names and columns.
- `src/simple.cpp` is not part of this model: file reading, URI resolution, command-line handling, timing and console output. Its batch loop is captured only as the composition lemmas. `TableBatchReader` yields non-empty batches; `ManyBatches` also allows empty ones.
- `src/simple.hpp` holds only includes and aliases.
