# Stock datasets: assembly and sanitisation

A Dafny model of `data/dataset.py`, the part of the stocks repository that
turns per-symbol quote tables into one dataset for statistics or machine
learning.

- `Dataset` asks the quote source for one batch (rows plus column names) per
  symbol, in list order. It hands each batch to an optional data callback,
  then makes the first batch the table (its column names become the
  dataset's) and stacks every later batch underneath. `_sanitize` marks every
  row holding a feature cell (column 2 onward) that is not a finite float and
  deletes the marked rows with one `np.delete`.
- `MLDataset` installs, as the data callback, a closure that starts or
  extends a target vector with the user's target function applied to each
  batch. Its `_sanitize` checks every column of a row, identifier columns
  included, and the row's target entry, and deletes the same positions from
  data and target. Its iteration pairs each row with its target entry.

Layout:

- `values.dfy` (module `Values`): `Option`, the abstract `Cell` (finite
  float, non-finite float, None, anything else) and `Label` (target entry).
  No floating-point arithmetic is modelled; only the tests
  `isinstance(val, float)`, `val is None` and `np.isfinite(val)` are.
- `seqs.dfy` (module `Seqs`): `Delete`, which removes the listed positions as
  `np.delete(a, delrows, 0)` does for in-range indices, and the reference
  filter `KeepWhere`,
  which it is proved against.
- `tables.dfy` (module `Tables`): the value-level specification: the table,
  column names, callback calls and target after the first `n` batches; the
  tables each `_sanitize` leaves; the read-only views `len`, `raw_data`,
  `pretty_data` and iteration; and the lemmas about them.
- `datasets.dfy` (module `Datasets`): the classes `Dataset` and `MLDataset`.
  Their fields are reassigned step by step as in the source, and every
  method is proved against the functions of `Tables`.

The quote source `get_raw_data` becomes a parameter `fetch: Symbol -> Batch`.
The data callback of `Dataset` is an opaque user function, so it becomes a
flag saying whether one was supplied, plus a ghost log `callbackCalls` of
what it was given and how many rows the table held at that moment. Where the
source raises (`len(None)` before any batch, `target[i]` past the end of the
target, `np.isfinite` of a target entry that is neither None nor a number),
`Sanitize` returns `ok == false` and changes nothing.

In the source `MLDataset` inherits from `Dataset`. The two Dafny classes do
not extend one another, so `MLDataset` repeats the inherited construction
step (`AddBatch`) with `TargetCallback` as the callback. The inherited read-only views are module functions of the
fields (`Tables.Length`, `Tables.RawData`, `Tables.PrettyData`,
`Tables.Rows`), so each is defined once.

Where the source does not do what it evidently means, the model follows the
intent and says so here:

- `data/dataset.py:27` passes the undefined name `stock_callback` to
  `_initialize_dataset`, which would raise NameError on every construction.
  The model passes the constructor's `data_callback`.
- `data/dataset.py:128-131` puts a docstring between `@property` and `def`,
  and `data/dataset.py:160` indents `_generate_callback` by one space too
  many. Both are syntax errors. The model reads them as a `target_data`
  property and as a method of `MLDataset`.
- `data/dataset.py:177` appends the 1-D target to the 2-D data with
  `axis=1`. NumPy raises ValueError for arrays of different dimensions, so
  iteration always fails as written. `Tables.PairedRows` models the evident
  intent: each row followed by its target entry.
- `MLDataset._sanitize` checks every column (`data/dataset.py:145`), while
  `Dataset._sanitize` skips the two identifier columns
  (`data/dataset.py:81`). The difference may well be unintended, but the
  model follows the code as written, so a
  table whose rows start with a symbol and a date loses every row under
  `MLDataset._sanitize` (`Tables.ScenarioSanitize`).

## Model

| member | source | states |
|---|---|---|
| Values.LabelCell | data/dataset.py:146-149 | a target entry placed in a row passes the cell test of line 146 exactly when it passes the target test of line 149 |
| Seqs.Delete | data/dataset.py:88 | np.delete never lengthens the table and only keeps elements of the original |
| Seqs.DeleteExact | data/dataset.py:76-88 | deleting exactly the unflagged positions of a sequence in one pass equals keeping the flagged elements in their original order |
| Seqs.DeleteFlagged | data/dataset.py:157 | deleting the positions marked among the first rows keeps the flagged ones in order and every later element unchanged |
| Seqs.DeleteSuffix | data/dataset.py:157 | elements after the last listed position survive np.delete unchanged and in order |
| Seqs.KeepWhereAt | data/dataset.py:84-88 | each surviving element is the original element at the corresponding kept position |
| Tables.CallsFor | data/dataset.py:52-57 | the callback is called exactly once per batch handled |
| Tables.CallsForAt | data/dataset.py:52-57 | call k receives batch k alone, while the table holds exactly the rows of the batches before k |
| Tables.StackStep | data/dataset.py:60-64 | handling batch i makes it the table when it is the first, and stacks it under the existing rows otherwise |
| Tables.TargetStep | data/dataset.py:166-170 | the wrapped callback starts the target with the target function's output on the first batch and appends that output afterwards |
| Tables.FlattenAt | data/dataset.py:51-64 | row j of batch k sits right after the rows of all earlier batches, so batches appear in symbol order with their own row order |
| Tables.AssembledWellShaped | data/dataset.py:60-64 | when the batches share one column layout, the table and the column names are both set or both unset, and every row has one cell per column name |
| Tables.TargetOutputsAt | data/dataset.py:166-170 | entry j of the k-th target output sits right after the outputs for all earlier batches |
| Tables.TargetLength | data/dataset.py:120 | when the target function returns one entry per row, target and table have the same length |
| Tables.TargetPairsWithRow | data/dataset.py:166-170 | when the target function returns one entry per row, every row of every batch shares its position with the target entry computed for it |
| Tables.SanitizedRows | data/dataset.py:76-88 | Dataset sanitisation keeps exactly the rows whose cells from column 2 on are all finite floats, as an order-preserving subsequence no longer than the original |
| Tables.SanitizeIdempotent | data/dataset.py:72-88 | sanitising an already sanitised table changes nothing |
| Tables.MLSanitizedPairs | data/dataset.py:140-157 | MLDataset sanitisation removes the same positions from data and target: exactly the rows with an invalid cell in any column or an invalid target entry; survivors keep their order and their own target entry, and target entries past the last row stay |
| Tables.MLSanitizeAligned | data/dataset.py:140-157 | sanitising aligned data and target leaves them aligned |
| Tables.MLSanitizeIdempotent | data/dataset.py:135-157 | MLDataset sanitisation of its own result changes neither data nor target |
| Tables.MLStricterThanBase | data/dataset.py:145-147 | every row MLDataset sanitisation keeps, Dataset sanitisation keeps too |
| Tables.ScenarioSanitize | data/dataset.py:140-157 | for a two-row symbol table whose second row holds a NaN, Dataset sanitisation keeps the first row, while MLDataset sanitisation removes both rows and both target entries because of the identifier columns |
| Tables.LengthAssembled | data/dataset.py:90-93 | after n batches, len raises when n is 0 and is otherwise the sum of the batches' row counts |
| Tables.RawDataAssembled | data/dataset.py:35-39 | after n batches, raw_data holds the rows of all n batches, and row j of batch k sits right after the rows of the batches before k |
| Tables.RowsAfterSanitize | data/dataset.py:95-98 | iterating a sanitised dataset yields exactly the rows whose cells from column 2 on are all finite floats, in table order |
| Tables.LengthAfterSanitize | data/dataset.py:90-93 | after Dataset sanitisation, len is the number of rows whose cells from column 2 on are all finite floats |
| Tables.PrettyData | data/dataset.py:29-33 | pretty_data has one more row than the table: the column names first, then the data rows unchanged; before any batch it is two rows holding None |
| Tables.PairedRows | data/dataset.py:174-177 | iteration of MLDataset yields, for aligned data and target, each row followed by its own target entry |
| Tables.PairedRowsAfterSanitize | data/dataset.py:174-177 | after MLDataset sanitisation of aligned data, every field of every iterated row, target included, is a finite float |
| Datasets.ScanRow | data/dataset.py:81-83 | the inner scan sets the deletion flag exactly when some cell is not a finite float |
| Datasets.RowsToDelete | data/dataset.py:76-85 | the marked indices are exactly the rows whose feature cells are not all finite floats |
| Datasets.MLRowsToDelete | data/dataset.py:140-153 | the scan fails exactly when a data row has no target entry or a target entry is neither None nor a number; otherwise it marks exactly the rows with an invalid cell or an invalid target entry |
| Datasets.Dataset.constructor | data/dataset.py:13-27 | the new dataset is well shaped and holds the stacked batches, the first batch's column names, and one callback call per symbol when a callback is given |
| Datasets.Dataset.InitializeDataset | data/dataset.py:48-70 | after the loop, table, column names and callback log are those of all fetched batches; sector, index and size change nothing |
| Datasets.Dataset.AddBatch | data/dataset.py:55-64 | handling the i-th batch takes table, column names and callback log from their values after i batches to their values after i + 1 |
| Datasets.Dataset.Sanitize | data/dataset.py:72-88 | fails, changing nothing, exactly when there is no table; otherwise the table becomes its sanitised version, stays well shaped, and its length becomes the number of rows that pass the row test, never more than before |
| Datasets.MLDataset.constructor | data/dataset.py:106-120 | the new dataset holds the stacked batches and the appended target outputs, and data and target are aligned when the target function keeps row counts |
| Datasets.MLDataset.TargetCallback | data/dataset.py:160-171 | the target becomes the target function's output when unset, and the old target followed by that output otherwise |
| Datasets.MLDataset.AddBatch | data/dataset.py:55-64 | handling the i-th batch takes table, column names and target from their values after i batches to their values after i + 1 |
| Datasets.MLDataset.InitializeDataset | data/dataset.py:48-70 | after the inherited loop, table, column names and target are those of all fetched batches |
| Datasets.MLDataset.Sanitize | data/dataset.py:135-157 | fails, changing nothing, exactly when there is no table, some row has no target entry, or some target entry is neither None nor a number; otherwise data and target become their sanitised versions, and alignment is kept |

## Left out

- `to_csv` (`data/dataset.py:42-45`): file output through `np.savetxt` and NumPy's number formatting.
- `get_raw_data` and `IntradayQuotes` are not part of this model. The quote source is the parameter `fetch`, and retrieval errors are not modelled.
- Datasets.Dataset.constructor: requires the quote source's promise that every batch has the first batch's column layout. The ValueError `np.vstack` raises on a column-count mismatch is not modelled.
- Datasets.MLDataset.constructor: likewise requires the shared column layout. The TypeError raised when no target function is given (calling None on the first batch) is not modelled.
- `sector`, `index` and `size` are accepted and ignored, as in the source (`data/dataset.py:65-70`).
- `training_data` (`data/dataset.py:123-126`): `self.data[:][2:]` drops the first two rows rather than the first two columns, and no intended contract can be stated with confidence.
- `target_data` and the `astype(float)` coercions (`data/dataset.py:126`, `data/dataset.py:131-132`): NumPy type conversion only.
- Floating-point values: cells and target entries are abstract tags, so NumPy's coercion of a whole table to one dtype is not modelled.
- The data callback's own effects: a user callback is opaque, so `Dataset` only records what it was given (ghost field `callbackCalls`).
- Tables.PairedRows: models the intended pairing of `data/dataset.py:177`. As written that line always raises ValueError, which is not modelled.
