/** The Dataset and MLDataset classes of data/dataset.py. Their fields are
    reassigned step by step as in the source; each method is proved against
    the specification functions of module Tables. The read-only views
    (len, raw_data, pretty_data, iteration), inherited by MLDataset in the
    source, are the functions Tables.Length, Tables.RawData, Tables.PrettyData,
    Tables.Rows and Tables.PairedRows applied to an object's fields. */
module Datasets {
  import opened Values
  import opened Seqs
  import opened Tables

  /** The inner loop of both sanitisations: does any cell fail the
      finite-float test? */
  method ScanRow(cells: Row) returns (delrow: bool)
    ensures delrow <==> !AllFinite(cells)
  {
    delrow := false;
    var j := 0;
    while j < |cells|
      invariant 0 <= j <= |cells|
      invariant delrow <==> exists m :: 0 <= m < j && !IsFiniteFloat(cells[m])
    {
      if !IsFiniteFloat(cells[j]) {
        delrow := true;
      }
      j := j + 1;
    }
  }

  /** The outer loop of Dataset._sanitize: the indices, in increasing order,
      of the rows whose feature cells are not all finite floats. */
  method RowsToDelete(t: Table) returns (delrows: seq<nat>)
    ensures forall k :: k in delrows ==> k < |t|
    ensures forall k :: 0 <= k < |t| ==> (k in delrows <==> !FeaturesValid(t[k]))
  {
    delrows := [];
    var i := 0;
    while i < |t|
      invariant 0 <= i <= |t|
      invariant forall k :: k in delrows ==> k < i
      invariant forall k :: 0 <= k < i ==> (k in delrows <==> !FeaturesValid(t[k]))
    {
      var delrow := ScanRow(Features(t[i]));
      if delrow {
        delrows := delrows + [i];
      }
      i := i + 1;
    }
  }

  /** The outer loop of MLDataset._sanitize: the indices of the rows with a
      cell that is not a finite float or with a target entry that is None or
      not finite. `found` is false where the scan raises: `target[i]` past the
      end of the target (IndexError), or np.isfinite of a target entry that is
      neither None nor a number (TypeError). */
  method MLRowsToDelete(d: Table, tg: seq<Label>) returns (found: bool, delrows: seq<nat>)
    ensures found <==> TargetsCheckable(d, tg)
    ensures found ==> forall k :: k in delrows ==> k < |d|
    ensures found ==> forall k :: 0 <= k < |d| ==> (k in delrows <==> !(AllFinite(d[k]) && IsFiniteLabel(tg[k])))
  {
    delrows := [];
    var i := 0;
    while i < |d|
      invariant 0 <= i <= |d| && i <= |tg|
      invariant forall k :: 0 <= k < i ==> Checkable(tg[k])
      invariant forall k :: k in delrows ==> k < i
      invariant forall k :: 0 <= k < i ==> (k in delrows <==> !(AllFinite(d[k]) && IsFiniteLabel(tg[k])))
    {
      var delrow := ScanRow(d[i]);
      if i >= |tg| {
        return false, delrows;
      }
      if tg[i].LabelNone? {
        delrow := true;
      } else if tg[i].LabelOther? {
        return false, delrows;
      } else if !IsFiniteLabel(tg[i]) {
        delrow := true;
      }
      if delrow {
        delrows := delrows + [i];
      }
      i := i + 1;
    }
    found := true;
  }

  /** A table assembled from the batches of several symbols. */
  class Dataset {
    var data: Option<Table>
    var colNames: Option<seq<string>>
    /** What the data callback has been given so far, in call order. */
    ghost var callbackCalls: seq<CallbackCall>

    ghost predicate Valid()
      reads this
    {
      WellShaped(data, colNames)
    }

    /** `sector`, `index` and `size` are accepted and ignored, as in the source.
        `fetch` stands for the quote source; `dataCallback` says whether a
        callback was supplied. */
    constructor (symbols: Option<seq<Symbol>>, sector: Option<seq<string>>, index: Option<seq<string>>,
                 size: Option<nat>, fetch: Symbol -> Batch, dataCallback: bool)
      requires SharedLayout(Fetched(fetch, symbols))
      ensures Valid()
      ensures data == AssembleData(Fetched(fetch, symbols), |Fetched(fetch, symbols)|)
      ensures colNames == FirstColNames(Fetched(fetch, symbols), |Fetched(fetch, symbols)|)
      ensures callbackCalls == if dataCallback then CallsFor(Fetched(fetch, symbols), |Fetched(fetch, symbols)|) else []
    {
      data := None;
      colNames := None;
      callbackCalls := [];
      new;
      InitializeDataset(symbols, sector, index, size, fetch, dataCallback);
      AssembledWellShaped(Fetched(fetch, symbols), |Fetched(fetch, symbols)|);
    }

    /** Fetch each symbol's batch in list order and add it to the dataset. */
    method InitializeDataset(symbols: Option<seq<Symbol>>, sector: Option<seq<string>>, index: Option<seq<string>>,
                             size: Option<nat>, fetch: Symbol -> Batch, dataCallback: bool)
      requires data.None? && colNames.None? && callbackCalls == []
      modifies this`data, this`colNames, this`callbackCalls
      ensures data == AssembleData(Fetched(fetch, symbols), |Fetched(fetch, symbols)|)
      ensures colNames == FirstColNames(Fetched(fetch, symbols), |Fetched(fetch, symbols)|)
      ensures callbackCalls == if dataCallback then CallsFor(Fetched(fetch, symbols), |Fetched(fetch, symbols)|) else []
    {
      if symbols.Some? {
        var syms := symbols.value;
        ghost var bs := Fetched(fetch, symbols);
        assert |bs| == |syms|;
        var i := 0;
        while i < |syms|
          invariant 0 <= i <= |syms|
          invariant data == AssembleData(bs, i)
          invariant colNames == FirstColNames(bs, i)
          invariant callbackCalls == if dataCallback then CallsFor(bs, i) else []
        {
          var batch := fetch(syms[i]);
          FetchedAt(fetch, syms, i);
          AddBatch(batch, dataCallback, bs, i);
          i := i + 1;
        }
      }
    }

    /** The body of the construction loop for the `i`-th of the batches `bs`:
        hand the batch to the callback, then make it the table, with its
        column names, when there is none yet, or stack it under the table. */
    method AddBatch(batch: Batch, dataCallback: bool, ghost bs: seq<Batch>, ghost i: nat)
      requires i < |bs| && batch == bs[i]
      requires data == AssembleData(bs, i) && colNames == FirstColNames(bs, i)
      requires callbackCalls == if dataCallback then CallsFor(bs, i) else []
      modifies this`data, this`colNames, this`callbackCalls
      ensures data == AssembleData(bs, i + 1) && colNames == FirstColNames(bs, i + 1)
      ensures callbackCalls == if dataCallback then CallsFor(bs, i + 1) else []
    {
      StackStep(bs, i);
      if dataCallback {
        var rowsBefore := if data.None? then 0 else |data.value|;
        assert rowsBefore == |Flatten(bs, i)|;
        callbackCalls := callbackCalls + [CallbackCall(batch.rows, rowsBefore)];
      }
      if data.None? {
        data := Some(batch.rows);
        colNames := Some(batch.colNames);
      } else {
        data := Some(data.value + batch.rows);
      }
    }

    /** Delete, in one pass, every row holding a cell from column 2 on that is
        not a finite float. `ok` is false, and nothing changes, where the
        source raises because there is no table yet. */
    method Sanitize() returns (ok: bool)
      requires Valid()
      modifies this`data
      ensures Valid()
      ensures ok <==> old(data).Some?
      ensures !ok ==> data == old(data)
      ensures ok ==> data == Some(Sanitized(old(data).value))
      ensures ok ==> Length(data).value <= Length(old(data)).value
      ensures ok ==> Length(data) == Some(CountValid(old(data).value))
    {
      if data.None? {
        return false;
      }
      var t := data.value;
      var delrows := RowsToDelete(t);
      DeleteExact(t, delrows, BaseFlags(t));
      LengthAfterSanitize(t);
      data := Some(Delete(t, delrows));
      ok := true;
    }
  }

  /** A dataset that also keeps a target vector, extended by the user's
      target function once per batch. */
  class MLDataset {
    var data: Option<Table>
    var colNames: Option<seq<string>>
    var target: Option<seq<Label>>
    const targetFunction: Table -> seq<Label>

    ghost predicate Valid()
      reads this
    {
      WellShaped(data, colNames) && (data.None? <==> target.None?)
    }

    /** One target entry per data row. */
    ghost predicate Aligned()
      reads this
    {
      data.Some? ==> target.Some? && |target.value| == |data.value|
    }

    constructor (symbols: Option<seq<Symbol>>, sector: Option<seq<string>>, index: Option<seq<string>>,
                 size: Option<nat>, fetch: Symbol -> Batch, targetFunction: Table -> seq<Label>)
      requires SharedLayout(Fetched(fetch, symbols))
      ensures Valid()
      ensures this.targetFunction == targetFunction
      ensures data == AssembleData(Fetched(fetch, symbols), |Fetched(fetch, symbols)|)
      ensures colNames == FirstColNames(Fetched(fetch, symbols), |Fetched(fetch, symbols)|)
      ensures target == AssembleTarget(targetFunction, Fetched(fetch, symbols), |Fetched(fetch, symbols)|)
      ensures LengthPreserving(targetFunction, Fetched(fetch, symbols)) ==> Aligned()
    {
      this.targetFunction := targetFunction;
      target := None;
      data := None;
      colNames := None;
      new;
      InitializeDataset(symbols, sector, index, size, fetch);
      ghost var bs := Fetched(fetch, symbols);
      AssembledWellShaped(bs, |bs|);
      if LengthPreserving(targetFunction, bs) {
        TargetLength(targetFunction, bs, |bs|);
      }
    }

    /** The callback built by `_generate_callback`: start the target with the
        target function's output for the first batch, append it afterwards. */
    method TargetCallback(batch: Table)
      modifies this`target
      ensures target == Some(if old(target).None? then targetFunction(batch)
                             else old(target).value + targetFunction(batch))
    {
      if target.None? {
        target := Some(targetFunction(batch));
      } else {
        target := Some(target.value + targetFunction(batch));
      }
    }

    /** The body of the inherited construction loop for the `i`-th of the
        batches `bs`, with TargetCallback as the data callback. */
    method AddBatch(batch: Batch, ghost bs: seq<Batch>, ghost i: nat)
      requires i < |bs| && batch == bs[i]
      requires data == AssembleData(bs, i) && colNames == FirstColNames(bs, i)
      requires target == AssembleTarget(targetFunction, bs, i)
      modifies this`data, this`colNames, this`target
      ensures data == AssembleData(bs, i + 1) && colNames == FirstColNames(bs, i + 1)
      ensures target == AssembleTarget(targetFunction, bs, i + 1)
    {
      TargetStep(targetFunction, bs, i);
      TargetCallback(batch.rows);
      StackStep(bs, i);
      if data.None? {
        data := Some(batch.rows);
        colNames := Some(batch.colNames);
      } else {
        data := Some(data.value + batch.rows);
      }
    }

    /** The inherited construction loop, run with TargetCallback as the data callback. */
    method InitializeDataset(symbols: Option<seq<Symbol>>, sector: Option<seq<string>>, index: Option<seq<string>>,
                             size: Option<nat>, fetch: Symbol -> Batch)
      requires data.None? && colNames.None? && target.None?
      modifies this`data, this`colNames, this`target
      ensures data == AssembleData(Fetched(fetch, symbols), |Fetched(fetch, symbols)|)
      ensures colNames == FirstColNames(Fetched(fetch, symbols), |Fetched(fetch, symbols)|)
      ensures target == AssembleTarget(targetFunction, Fetched(fetch, symbols), |Fetched(fetch, symbols)|)
    {
      if symbols.Some? {
        var syms := symbols.value;
        ghost var bs := Fetched(fetch, symbols);
        assert |bs| == |syms|;
        var i := 0;
        while i < |syms|
          invariant 0 <= i <= |syms|
          invariant data == AssembleData(bs, i)
          invariant colNames == FirstColNames(bs, i)
          invariant target == AssembleTarget(targetFunction, bs, i)
        {
          var batch := fetch(syms[i]);
          FetchedAt(fetch, syms, i);
          AddBatch(batch, bs, i);
          i := i + 1;
        }
      }
    }

    /** Delete, from data and target alike, every row that holds a cell (any
        column) that is not a finite float or whose target entry is None or
        not finite. `ok` is false, and nothing changes, where the source
        raises: no table yet, a data row without a target entry, or a target
        entry that is neither None nor a number. */
    method Sanitize() returns (ok: bool)
      requires Valid()
      modifies this`data, this`target
      ensures Valid()
      ensures ok <==> old(data).Some? && old(target).Some? && TargetsCheckable(old(data).value, old(target).value)
      ensures !ok ==> data == old(data) && target == old(target)
      ensures ok ==> data == Some(MLSanitizedData(old(data).value, old(target).value))
      ensures ok ==> target == Some(MLSanitizedTarget(old(data).value, old(target).value))
      ensures old(Aligned()) ==> Aligned()
    {
      if data.None? {
        return false;
      }
      var d, tg := data.value, target.value;
      var found, delrows := MLRowsToDelete(d, tg);
      if !found {
        return false;
      }
      ghost var flags := MLFlags(d, tg);
      DeleteExact(d, delrows, flags);
      DeleteFlagged(tg, delrows, flags);
      data := Some(Delete(d, delrows));
      target := Some(Delete(tg, delrows));
      MLSanitizedPairs(d, tg);
      ok := true;
    }
  }
}
