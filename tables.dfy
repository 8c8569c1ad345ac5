/** The value-level specification of data/dataset.py: how a dataset is
    assembled from per-symbol batches, what each sanitisation keeps, and the
    read-only views (len, raw_data, pretty_data, iteration). The classes in
    module Datasets are proved against these functions. */
module Tables {
  import opened Values
  import opened Seqs

  type Symbol = string
  type Row = seq<Cell>
  type Table = seq<Row>

  /** What the quote source returns for one symbol: its rows and its column names. */
  datatype Batch = Batch(rows: Table, colNames: seq<string>)

  /** One invocation of the data callback: the table it was given and how many
      rows the dataset held when it ran. */
  datatype CallbackCall = CallbackCall(batch: Table, rowsBefore: nat)

  // ---------------------------------------------------------------------------
  // Assembly

  /** The batches fetched, one per symbol in list order; none when symbols is None. */
  function Fetched(fetch: Symbol -> Batch, symbols: Option<seq<Symbol>>): seq<Batch> {
    if symbols.None? then []
    else seq(|symbols.value|, k requires 0 <= k < |symbols.value| => fetch(symbols.value[k]))
  }

  /** Batch `k` is the one fetched for the `k`-th symbol. */
  lemma FetchedAt(fetch: Symbol -> Batch, symbols: seq<Symbol>, k: nat)
    requires k < |symbols|
    ensures |Fetched(fetch, Some(symbols))| == |symbols|
    ensures Fetched(fetch, Some(symbols))[k] == fetch(symbols[k])
  {
  }

  /** The quote source's promise: every batch has the first batch's column count. */
  predicate SharedLayout(bs: seq<Batch>) {
    forall k, r :: 0 <= k < |bs| && r in bs[k].rows ==> |r| == |bs[0].colNames|
  }

  /** The rows of the first `n` batches stacked vertically, in batch order. */
  function Flatten(bs: seq<Batch>, n: nat): Table
    requires n <= |bs|
  {
    if n == 0 then [] else Flatten(bs, n - 1) + bs[n - 1].rows
  }

  /** The `data` field once the first `n` batches were handled (None before any). */
  function AssembleData(bs: seq<Batch>, n: nat): Option<Table>
    requires n <= |bs|
  {
    if n == 0 then None else Some(Flatten(bs, n))
  }

  /** The `col_names` field once the first `n` batches were handled: the first batch's. */
  function FirstColNames(bs: seq<Batch>, n: nat): Option<seq<string>>
    requires n <= |bs|
  {
    if n == 0 then None else Some(bs[0].colNames)
  }

  /** The calls the data callback received while the first `n` batches were handled. */
  function CallsFor(bs: seq<Batch>, n: nat): (calls: seq<CallbackCall>)
    requires n <= |bs|
    ensures |calls| == n
  {
    if n == 0 then [] else CallsFor(bs, n - 1) + [CallbackCall(bs[n - 1].rows, |Flatten(bs, n - 1)|)]
  }

  /** The target outputs of the first `n` batches appended in batch order. */
  function TargetOutputs(tf: Table -> seq<Label>, bs: seq<Batch>, n: nat): seq<Label>
    requires n <= |bs|
  {
    if n == 0 then [] else TargetOutputs(tf, bs, n - 1) + tf(bs[n - 1].rows)
  }

  /** The `target` field once the wrapped callback ran for the first `n` batches. */
  function AssembleTarget(tf: Table -> seq<Label>, bs: seq<Batch>, n: nat): Option<seq<Label>>
    requires n <= |bs|
  {
    if n == 0 then None else Some(TargetOutputs(tf, bs, n))
  }

  /** The target function returns one entry per row of every batch. */
  predicate LengthPreserving(tf: Table -> seq<Label>, bs: seq<Batch>) {
    forall k :: 0 <= k < |bs| ==> |tf(bs[k].rows)| == |bs[k].rows|
  }

  /** One step of the construction loop: what stacking batch `i` does to the data. */
  lemma StackStep(bs: seq<Batch>, i: nat)
    requires i < |bs|
    ensures AssembleData(bs, i + 1)
      == Some(if i == 0 then bs[i].rows else AssembleData(bs, i).value + bs[i].rows)
  {
    if i == 0 {
      assert Flatten(bs, 0) == [] && [] + bs[0].rows == bs[0].rows;
      assert Flatten(bs, 1) == Flatten(bs, 0) + bs[0].rows;
    }
  }

  /** One step of the construction loop of MLDataset: what the wrapped callback
      does to the target for batch `i`. */
  lemma TargetStep(tf: Table -> seq<Label>, bs: seq<Batch>, i: nat)
    requires i < |bs|
    ensures AssembleTarget(tf, bs, i + 1)
      == Some(if i == 0 then tf(bs[i].rows) else AssembleTarget(tf, bs, i).value + tf(bs[i].rows))
  {
    if i == 0 {
      assert TargetOutputs(tf, bs, 0) == [] && [] + tf(bs[0].rows) == tf(bs[0].rows);
      assert TargetOutputs(tf, bs, 1) == TargetOutputs(tf, bs, 0) + tf(bs[0].rows);
    }
  }

  /** Stacking batches that share one column layout gives a table with one
      cell per column name in every row. */
  lemma {:induction false} AssembledWellShaped(bs: seq<Batch>, n: nat)
    requires n <= |bs| && SharedLayout(bs)
    ensures WellShaped(AssembleData(bs, n), FirstColNames(bs, n))
  {
    if n > 1 {
      AssembledWellShaped(bs, n - 1);
      assert forall r :: r in Flatten(bs, n) ==> r in Flatten(bs, n - 1) || r in bs[n - 1].rows;
    } else if n == 1 {
      StackStep(bs, 0);
    }
  }

  /** Row `j` of batch `k` sits at position |rows of the batches before k| + j,
      once `n` > k batches are stacked. */
  lemma {:induction false} FlattenAt(bs: seq<Batch>, n: nat, k: nat, j: nat)
    requires k < n <= |bs| && j < |bs[k].rows|
    ensures |Flatten(bs, k)| + j < |Flatten(bs, n)|
    ensures Flatten(bs, n)[|Flatten(bs, k)| + j] == bs[k].rows[j]
  {
    if k < n - 1 {
      FlattenAt(bs, n - 1, k, j);
    }
  }

  /** Entry `j` of the `k`-th target output sits at position |earlier outputs| + j. */
  lemma {:induction false} TargetOutputsAt(tf: Table -> seq<Label>, bs: seq<Batch>, n: nat, k: nat, j: nat)
    requires k < n <= |bs| && j < |tf(bs[k].rows)|
    ensures |TargetOutputs(tf, bs, k)| + j < |TargetOutputs(tf, bs, n)|
    ensures TargetOutputs(tf, bs, n)[|TargetOutputs(tf, bs, k)| + j] == tf(bs[k].rows)[j]
  {
    if k < n - 1 {
      TargetOutputsAt(tf, bs, n - 1, k, j);
    }
  }

  /** When the target function keeps row counts, target and data grow in step. */
  lemma {:induction false} TargetLength(tf: Table -> seq<Label>, bs: seq<Batch>, n: nat)
    requires n <= |bs| && LengthPreserving(tf, bs)
    ensures |TargetOutputs(tf, bs, n)| == |Flatten(bs, n)|
  {
    if n > 0 {
      TargetLength(tf, bs, n - 1);
    }
  }

  /** Every data row is paired with the target entry computed for it: row `j`
      of batch `k` and entry `j` of that batch's target output share one position. */
  lemma TargetPairsWithRow(tf: Table -> seq<Label>, bs: seq<Batch>, k: nat, j: nat)
    requires LengthPreserving(tf, bs)
    requires k < |bs| && j < |bs[k].rows|
    ensures var p, n := |Flatten(bs, k)| + j, |bs|;
      p < |Flatten(bs, n)| && |TargetOutputs(tf, bs, n)| == |Flatten(bs, n)|
      && Flatten(bs, n)[p] == bs[k].rows[j]
      && TargetOutputs(tf, bs, n)[p] == tf(bs[k].rows)[j]
  {
    FlattenAt(bs, |bs|, k, j);
    TargetOutputsAt(tf, bs, |bs|, k, j);
    TargetLength(tf, bs, |bs|);
    TargetLength(tf, bs, k);
  }

  /** The callback runs once per batch, with that batch alone, while the table
      holds exactly the rows of the earlier batches. */
  lemma {:induction false} CallsForAt(bs: seq<Batch>, n: nat, k: nat)
    requires k < n <= |bs|
    ensures CallsFor(bs, n)[k] == CallbackCall(bs[k].rows, |Flatten(bs, k)|)
  {
    if k < n - 1 {
      CallsForAt(bs, n - 1, k);
    }
  }

  // ---------------------------------------------------------------------------
  // Sanitisation

  /** The slice `row[2:]`: the feature columns after the two identifier columns. */
  function Features(r: Row): Row {
    if |r| < 2 then [] else r[2..]
  }

  predicate AllFinite(cells: Row) {
    forall m :: 0 <= m < |cells| ==> IsFiniteFloat(cells[m])
  }

  /** The row test of Dataset._sanitize. */
  predicate FeaturesValid(r: Row) {
    AllFinite(Features(r))
  }

  function BaseFlags(t: Table): seq<bool> {
    seq(|t|, i requires 0 <= i < |t| => FeaturesValid(t[i]))
  }

  /** The table Dataset._sanitize leaves. */
  function Sanitized(t: Table): Table {
    KeepWhere(t, BaseFlags(t))
  }

  /** The row test of MLDataset._sanitize: every cell, identifier columns
      included, and the row's target entry. */
  function MLFlags(d: Table, tg: seq<Label>): seq<bool>
    requires |d| <= |tg|
  {
    seq(|d|, i requires 0 <= i < |d| => AllFinite(d[i]) && IsFiniteLabel(tg[i]))
  }

  /** MLDataset._sanitize gets through its scan without raising: every data
      row has a target entry, and none of those entries makes np.isfinite raise. */
  predicate TargetsCheckable(d: Table, tg: seq<Label>) {
    |d| <= |tg| && forall i :: 0 <= i < |d| ==> Checkable(tg[i])
  }

  /** The data MLDataset._sanitize leaves. */
  function MLSanitizedData(d: Table, tg: seq<Label>): Table
    requires |d| <= |tg|
  {
    KeepWhere(d, MLFlags(d, tg))
  }

  /** The target MLDataset._sanitize leaves: the same positions removed; entries
      beyond the last data row are never examined and stay. */
  function MLSanitizedTarget(d: Table, tg: seq<Label>): seq<Label>
    requires |d| <= |tg|
  {
    KeepWhere(tg[..|d|], MLFlags(d, tg)) + tg[|d|..]
  }

  /** Dataset._sanitize keeps exactly the rows whose feature cells are all
      finite floats, as a subsequence of the original in the original order. */
  lemma SanitizedRows(t: Table)
    ensures var r, idx := Sanitized(t), KeptIndices(BaseFlags(t));
      |r| == |idx| <= |t|
      && (forall j :: 0 <= j < |r| ==> idx[j] < |t| && r[j] == t[idx[j]])
      && (forall j, k :: 0 <= j < k < |idx| ==> idx[j] < idx[k])
      && (forall i :: 0 <= i < |t| ==> (i in idx <==> FeaturesValid(t[i])))
  {
    var r, idx := Sanitized(t), KeptIndices(BaseFlags(t));
    forall j | 0 <= j < |r| ensures idx[j] < |t| && r[j] == t[idx[j]] {
      KeepWhereAt(t, BaseFlags(t), j);
    }
  }

  /** Sanitising a sanitised table changes nothing. */
  lemma SanitizeIdempotent(t: Table)
    ensures Sanitized(Sanitized(t)) == Sanitized(t)
  {
    var r := Sanitized(t);
    SanitizedRows(t);
    KeepAll(r, BaseFlags(r));
  }

  /** MLDataset._sanitize removes the same positions from data and target:
      the survivors are the rows whose every cell is a finite float and whose
      target entry is finite, each still paired with its own target entry. */
  lemma MLSanitizedPairs(d: Table, tg: seq<Label>)
    requires |d| <= |tg|
    ensures var d', tg', idx := MLSanitizedData(d, tg), MLSanitizedTarget(d, tg), KeptIndices(MLFlags(d, tg));
      |d'| == |idx| && |tg'| == |idx| + (|tg| - |d|)
      && (forall j :: 0 <= j < |idx| ==> idx[j] < |d| && d'[j] == d[idx[j]] && tg'[j] == tg[idx[j]])
      && (forall j, k :: 0 <= j < k < |idx| ==> idx[j] < idx[k])
      && (forall i :: 0 <= i < |d| ==> (i in idx <==> AllFinite(d[i]) && IsFiniteLabel(tg[i])))
      && tg'[|idx|..] == tg[|d|..]
  {
    var f := MLFlags(d, tg);
    var d', tg', idx := MLSanitizedData(d, tg), MLSanitizedTarget(d, tg), KeptIndices(f);
    forall j | 0 <= j < |idx| ensures idx[j] < |d| && d'[j] == d[idx[j]] && tg'[j] == tg[idx[j]] {
      KeepWhereAt(d, f, j);
      KeepWhereAt(tg[..|d|], f, j);
    }
  }

  /** With data and target aligned, they stay aligned after MLDataset._sanitize. */
  lemma MLSanitizeAligned(d: Table, tg: seq<Label>)
    requires |d| == |tg|
    ensures |MLSanitizedData(d, tg)| == |MLSanitizedTarget(d, tg)|
  {
  }

  /** Sanitising sanitised data and target changes neither. */
  lemma MLSanitizeIdempotent(d: Table, tg: seq<Label>)
    requires |d| <= |tg|
    ensures var d', tg' := MLSanitizedData(d, tg), MLSanitizedTarget(d, tg);
      |d'| <= |tg'| && MLSanitizedData(d', tg') == d' && MLSanitizedTarget(d', tg') == tg'
  {
    var d', tg' := MLSanitizedData(d, tg), MLSanitizedTarget(d, tg);
    MLSanitizedPairs(d, tg);
    var f' := MLFlags(d', tg');
    KeepAll(d', f');
    KeepAll(tg'[..|d'|], f');
    assert tg'[..|d'|] + tg'[|d'|..] == tg';
  }

  /** MLDataset._sanitize is at least as strict as Dataset._sanitize: every
      row it keeps, the base class keeps too. */
  lemma MLStricterThanBase(d: Table, tg: seq<Label>)
    requires |d| <= |tg|
    ensures forall i :: i in KeptIndices(MLFlags(d, tg)) ==> i in KeptIndices(BaseFlags(d))
  {
  }

  /** The two-row example of one symbol whose second row holds a NaN: the base
      class keeps the first row, while MLDataset, which also checks the two
      identifier columns, removes both rows and both target entries. */
  lemma ScenarioSanitize()
    ensures var rowA := [Other("A"), Other("2020-01-01"), FloatFinite(1.0), FloatFinite(2.0)];
      var rowB := [Other("A"), Other("2020-01-02"), FloatFinite(3.0), FloatNonFinite];
      var tg := [LabelFinite(10.0), LabelFinite(20.0)];
      Sanitized([rowA, rowB]) == [rowA]
      && MLSanitizedData([rowA, rowB], tg) == []
      && MLSanitizedTarget([rowA, rowB], tg) == []
  {
    var rowA := [Other("A"), Other("2020-01-01"), FloatFinite(1.0), FloatFinite(2.0)];
    var rowB := [Other("A"), Other("2020-01-02"), FloatFinite(3.0), FloatNonFinite];
    var tg := [LabelFinite(10.0), LabelFinite(20.0)];
    var t := [rowA, rowB];
    assert Features(rowA) == [FloatFinite(1.0), FloatFinite(2.0)];
    assert Features(rowB)[1] == FloatNonFinite;
    assert BaseFlags(t) == [true, false];
    assert t[..1] == [rowA];
    assert !IsFiniteFloat(rowA[0]) && !IsFiniteFloat(rowB[0]);
    assert MLFlags(t, tg) == [false, false];
  }

  // ---------------------------------------------------------------------------
  // Read-only views, shared by Dataset and MLDataset

  /** The object invariant of both classes: data and col_names are set together,
      and every row has one cell per column name. */
  predicate WellShaped(data: Option<Table>, colNames: Option<seq<string>>) {
    && (data.None? <==> colNames.None?)
    && (data.Some? ==> forall r :: r in data.value ==> |r| == |colNames.value|)
  }

  function HeaderRow(names: seq<string>): Row {
    seq(|names|, i requires 0 <= i < |names| => Other(names[i]))
  }

  /** `len(self)`; None stands for the TypeError of len(None) before any batch. */
  function Length(data: Option<Table>): Option<nat> {
    if data.None? then None else Some(|data.value|)
  }

  /** `raw_data`: the table itself. */
  function RawData(data: Option<Table>): Option<Table> {
    data
  }

  /** `pretty_data`: np.vstack of the column names above the data rows. Before
      any batch both are None and vstack yields two rows holding None. */
  function PrettyData(data: Option<Table>, colNames: Option<seq<string>>): (p: seq<Row>)
    requires WellShaped(data, colNames)
    ensures data.Some? ==> |p| == |data.value| + 1 && p[1..] == data.value
    ensures data.Some? ==> (|p[0]| == |colNames.value|
      && forall i :: 0 <= i < |colNames.value| ==> p[0][i] == Other(colNames.value[i]))
    ensures data.Some? ==> forall i :: 0 <= i < |p| ==> |p[i]| == |colNames.value|
    ensures data.None? ==> p == [[NoneVal], [NoneVal]]
  {
    if data.None? then [[NoneVal], [NoneVal]] else [HeaderRow(colNames.value)] + data.value
  }

  /** `Dataset.__iter__`: the rows in table order; None stands for the
      TypeError of iter(None). */
  function Rows(data: Option<Table>): Option<Table> {
    data
  }

  /** `MLDataset.__iter__` as intended: each row with its target entry appended
      as a trailing field. None when there is no data or the lengths differ. */
  function PairedRows(data: Option<Table>, target: Option<seq<Label>>): (rows: Option<Table>)
    ensures rows.Some? <==> data.Some? && target.Some? && |target.value| == |data.value|
    ensures rows.Some? ==> (|rows.value| == |data.value|
      && forall i :: 0 <= i < |data.value| ==>
           |rows.value[i]| == |data.value[i]| + 1
           && rows.value[i][..|data.value[i]|] == data.value[i]
           && rows.value[i][|data.value[i]|] == LabelCell(target.value[i]))
  {
    if data.None? || target.None? || |target.value| != |data.value| then None
    else Some(seq(|data.value|, i requires 0 <= i < |data.value| => data.value[i] + [LabelCell(target.value[i])]))
  }

  /** After MLDataset._sanitize of aligned data, iteration yields only rows in
      which every field, the target included, is a finite float. */
  lemma PairedRowsAfterSanitize(d: Table, tg: seq<Label>)
    requires |d| == |tg|
    ensures var rows := PairedRows(Some(MLSanitizedData(d, tg)), Some(MLSanitizedTarget(d, tg)));
      rows.Some? && forall i :: 0 <= i < |rows.value| ==> AllFinite(rows.value[i])
  {
    var d', tg' := MLSanitizedData(d, tg), MLSanitizedTarget(d, tg);
    MLSanitizedPairs(d, tg);
    var rows := PairedRows(Some(d'), Some(tg'));
    forall i | 0 <= i < |rows.value| ensures AllFinite(rows.value[i]) {
      var row := rows.value[i];
      forall m | 0 <= m < |row| ensures IsFiniteFloat(row[m]) {
        if m < |d'[i]| {
          assert row[m] == row[..|d'[i]|][m];
        }
      }
    }
  }

  /** The number of rows in the first `n` batches, counted batch by batch. */
  function RowCount(bs: seq<Batch>, n: nat): nat
    requires n <= |bs|
  {
    if n == 0 then 0 else RowCount(bs, n - 1) + |bs[n - 1].rows|
  }

  lemma {:induction false} FlattenLength(bs: seq<Batch>, n: nat)
    requires n <= |bs|
    ensures |Flatten(bs, n)| == RowCount(bs, n)
  {
    if n > 0 {
      FlattenLength(bs, n - 1);
    }
  }

  /** `len(self)` once the first `n` batches were added: undefined before any
      batch, and afterwards the rows of all those batches together. */
  lemma LengthAssembled(bs: seq<Batch>, n: nat)
    requires n <= |bs|
    ensures Length(AssembleData(bs, n)) == if n == 0 then None else Some(RowCount(bs, n))
  {
    FlattenLength(bs, n);
  }

  /** `raw_data` once the first `n` batches were added: the batches' rows in
      symbol order, each batch's rows in their own order, so that row `j` of
      batch `k` follows the rows of all the batches before it. */
  lemma RawDataAssembled(bs: seq<Batch>, n: nat, k: nat, j: nat)
    requires k < n <= |bs| && j < |bs[k].rows|
    ensures var t := RawData(AssembleData(bs, n));
      t.Some? && |t.value| == RowCount(bs, n)
      && RowCount(bs, k) + j < |t.value| && t.value[RowCount(bs, k) + j] == bs[k].rows[j]
  {
    FlattenAt(bs, n, k, j);
    FlattenLength(bs, n);
    FlattenLength(bs, k);
  }

  /** The rows of `t` that pass the row test of Dataset._sanitize, in table order. */
  function ValidRows(t: Table): Table {
    if t == [] then []
    else
      var n := |t| - 1;
      ValidRows(t[..n]) + (if FeaturesValid(t[n]) then [t[n]] else [])
  }

  /** How many rows of `t` pass the row test of Dataset._sanitize. */
  function CountValid(t: Table): nat {
    if t == [] then 0
    else
      var n := |t| - 1;
      CountValid(t[..n]) + (if FeaturesValid(t[n]) then 1 else 0)
  }

  /** Iterating a sanitised dataset yields exactly the rows that pass the row
      test, in their original order. */
  lemma {:induction false} RowsAfterSanitize(t: Table)
    ensures Rows(Some(Sanitized(t))) == Some(ValidRows(t))
  {
    if t != [] {
      var n := |t| - 1;
      RowsAfterSanitize(t[..n]);
      assert BaseFlags(t)[..n] == BaseFlags(t[..n]);
    }
  }

  /** `len(self)` after Dataset._sanitize is the number of rows that pass the row test. */
  lemma {:induction false} LengthAfterSanitize(t: Table)
    ensures Length(Some(Sanitized(t))) == Some(CountValid(t))
  {
    if t != [] {
      var n := |t| - 1;
      LengthAfterSanitize(t[..n]);
      assert BaseFlags(t)[..n] == BaseFlags(t[..n]);
    }
  }
}
