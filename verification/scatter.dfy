/**
 * The scatter controller's state and the operations that change it: loading a
 * table (`processData`), adding symbols to the gene list (`addSymbols`),
 * syncing the filters with the chart's brush (`updateList`) and computing
 * the up/down counts (`setup`).
 *
 * The grid, chart and crossfilter objects are reduced to the fields the
 * controller writes into them: the dimensions' ranges, `dataState.data`,
 * `gridOptions.data` and `gridOptions.columnDefs`.
 */
module Scatter {
  import opened Wrappers
  import opened Seqs
  import opened Records
  import opened Crossfilter
  import opened Thresholds
  import opened GeneIndex

  /** An entry of the gene index, `{symbol, count}`; loading increments its count in place. */
  class GeneEntry {
    const symbol: string
    var count: int

    constructor (symbol: string)
      ensures this.symbol == symbol && count == 1
    {
      this.symbol := symbol;
      count := 1;
    }
  }

  /**
   * The map and the list of the index describe the same entries: each symbol
   * maps to the one list entry carrying it, and no two list entries share a
   * symbol.
   */
  ghost predicate IndexConsistent(m: map<string, GeneEntry>, list: seq<GeneEntry>)
  {
    && (forall s :: s in m ==> m[s].symbol == s && m[s] in list)
    && (forall i :: 0 <= i < |list| ==> list[i].symbol in m && m[list[i].symbol] == list[i])
    && (forall i, j :: 0 <= i < j < |list| ==> list[i].symbol != list[j].symbol)
  }

  /** A consistent index, and a gene list holding entries of its map, each once. */
  ghost predicate GeneListValid(m: map<string, GeneEntry>, list: seq<GeneEntry>, geneList: seq<GeneEntry>)
  {
    && IndexConsistent(m, list)
    && NoDuplicates(geneList)
    && (forall e :: e in geneList ==> e in m.Values)
  }

  /** The nested `forEach` that pushes every symbol of every kept record. */
  method CollectSymbols(kept: seq<Record>) returns (full: seq<string>)
    ensures full == Flatten(kept)
  {
    full := [];
    var j := 0;
    while j < |kept|
      invariant 0 <= j <= |kept|
      invariant full == Flatten(kept[..j])
    {
      var symbols := kept[j].symbols;
      var k := 0;
      while k < |symbols|
        invariant 0 <= k <= |symbols|
        invariant full == Flatten(kept[..j]) + symbols[..k]
      {
        full := full + [symbols[k]];
        assert symbols[..k + 1] == symbols[..k] + [symbols[k]];
        k := k + 1;
      }
      assert symbols[..k] == symbols;
      assert kept[..j + 1][..j] == kept[..j];
      j := j + 1;
    }
    assert kept[..j] == kept;
  }

  /**
   * The index after the symbols `seen`: one entry per distinct symbol, in
   * first-seen order, each counting that symbol's occurrences.
   */
  ghost predicate Indexes(m: map<string, GeneEntry>, list: seq<GeneEntry>, seen: seq<string>)
    reads list
  {
    && IndexConsistent(m, list)
    && |list| == |Distinct(seen)|
    && (forall i :: 0 <= i < |list| ==> list[i].symbol == Distinct(seen)[i])
    && (forall i :: 0 <= i < |list| ==> list[i].count == multiset(seen)[list[i].symbol])
    && (forall s :: s in m <==> s in seen)
  }

  /** One turn of the counting loop: `count++` on the entry of a symbol already seen. */
  method IncrementEntry(m: map<string, GeneEntry>, list: seq<GeneEntry>, symbol: string, ghost seen: seq<string>)
    requires Indexes(m, list, seen) && symbol in m
    modifies m[symbol]
    ensures Indexes(m, list, seen + [symbol])
  {
    DistinctSnoc(seen, symbol);
    assert multiset(seen + [symbol]) == multiset(seen) + multiset{symbol};
    var item := m[symbol];
    item.count := item.count + 1;
    forall i | 0 <= i < |list|
      ensures list[i].count == multiset(seen + [symbol])[list[i].symbol]
    {
      if list[i] != item {
        assert list[i].symbol != symbol;
      }
    }
  }

  /** One turn of the counting loop: a new entry with count 1 for a symbol not seen before. */
  method AddEntry(m: map<string, GeneEntry>, list: seq<GeneEntry>, symbol: string, ghost seen: seq<string>)
    returns (m': map<string, GeneEntry>, list': seq<GeneEntry>)
    requires Indexes(m, list, seen) && symbol !in m
    ensures Indexes(m', list', seen + [symbol])
    ensures list' == list + [list'[|list|]] && fresh(list'[|list|])
  {
    DistinctSnoc(seen, symbol);
    assert multiset(seen + [symbol]) == multiset(seen) + multiset{symbol};
    var item := new GeneEntry(symbol);
    m' := m[symbol := item];
    list' := list + [item];
  }

  /** One turn of the counting loop. */
  method CountSymbol(m: map<string, GeneEntry>, list: seq<GeneEntry>, symbol: string, ghost seen: seq<string>)
    returns (m': map<string, GeneEntry>, list': seq<GeneEntry>)
    requires Indexes(m, list, seen)
    modifies if symbol in m then {m[symbol]} else {}
    ensures Indexes(m', list', seen + [symbol])
    ensures forall e :: e in list' ==> e in list || fresh(e)
  {
    if symbol in m {
      IncrementEntry(m, list, symbol, seen);
      m', list' := m, list;
    } else {
      m', list' := AddEntry(m, list, symbol, seen);
    }
  }

  /**
   * The counting loop over the sorted symbols: a new entry with count 1 for a
   * symbol not yet in the map, `count++` on the entry of one that is.
   */
  method BuildIndex(sorted: seq<string>) returns (m: map<string, GeneEntry>, list: seq<GeneEntry>)
    ensures Indexes(m, list, sorted)
    ensures forall e :: e in list ==> fresh(e)
  {
    m := map[];
    list := [];
    var n := 0;
    while n < |sorted|
      invariant 0 <= n <= |sorted|
      invariant Indexes(m, list, sorted[..n])
      invariant forall e :: e in list ==> fresh(e)
    {
      assert sorted[..n + 1] == sorted[..n] + [sorted[n]];
      m, list := CountSymbol(m, list, sorted[n], sorted[..n]);
      n := n + 1;
    }
    assert sorted[..n] == sorted;
  }

  /**
   * The index of the sorted symbols of `kept` has one entry per distinct
   * symbol, in strictly ascending order; each entry counts its symbol's
   * occurrences over all records, and the map holds exactly the records'
   * symbols.
   */
  lemma IndexesKept(m: map<string, GeneEntry>, list: seq<GeneEntry>, kept: seq<Record>)
    requires Indexes(m, list, SortedSymbols(kept))
    ensures |list| == |UniqueSymbols(kept)|
    ensures forall i :: 0 <= i < |list| ==> list[i].symbol == UniqueSymbols(kept)[i]
    ensures forall i, j :: 0 <= i < j < |list| ==> StrLt(list[i].symbol, list[j].symbol)
    ensures forall i :: 0 <= i < |list| ==> list[i].count == Occurrences(kept, list[i].symbol) >= 1
    ensures forall s :: s in m <==> s in Flatten(kept)
  {
    var sorted := SortedSymbols(kept);
    SortSymbols(Flatten(kept));
    GeneIndexSpec(kept);
    forall s
      ensures s in sorted <==> s in Flatten(kept)
    {
      assert s in sorted <==> s in multiset(sorted);
    }
    forall i | 0 <= i < |list|
      ensures Occurrences(kept, list[i].symbol) >= 1
    {
      assert list[i].symbol in UniqueSymbols(kept);
    }
  }

  /** The `forEach` that appends one hidden column per pass-through key. */
  method AppendHiddenColumns(base: seq<Column>, keys: seq<string>) returns (columns: seq<Column>)
    ensures columns == base + HiddenColumns(Filter(keys, NotIgnored))
  {
    columns := base;
    var i := 0;
    while i < |keys|
      invariant 0 <= i <= |keys|
      invariant columns == base + HiddenColumns(Filter(keys[..i], NotIgnored))
    {
      FilterAppend(keys[..i], keys[i], NotIgnored);
      assert keys[..i + 1] == keys[..i] + [keys[i]];
      if NotIgnored(keys[i]) {
        var names := Filter(keys[..i], NotIgnored);
        assert HiddenColumns(names + [keys[i]]) == HiddenColumns(names) + [Column(keys[i], false)];
        columns := columns + [Column(keys[i], false)];
      }
      i := i + 1;
    }
    assert keys[..i] == keys;
  }

  /** What became of a load. */
  datatype Outcome =
    | Crashed(error: TypeError)  // a row's `symbol` is not a string: `split` throws
    | NoFeatures                 // no row survived; the error is reported and nothing changes
    | ColumnsFailed              // rows survived but none has baseMean >= 0.01: `Object.keys(undefined)` throws
    | Loaded

  class Controller {
    /** The symbols text of the dataset (`main.gene`). */
    var gene: string
    /** The highlighted index entries (`main.geneList`). */
    var geneList: seq<GeneEntry>
    /** `main.upDown`: significant records going up, and the rest. */
    const upDown: array<int>
    /** Whether `dataState` holds the two dimensions. */
    var loaded: bool
    /** The records the crossfilter was built from. */
    var records: seq<Record>
    /** The ranges of `dataState.byBaseMean` and `dataState.byLog2FoldChange`. */
    var filters: Filters
    /** `dataState.data`, the records the counts and the chart use. */
    var data: seq<Record>
    /** `gridOptions.data`, the rows the grid shows. */
    var gridData: seq<Record>
    /** `gridOptions.columnDefs`. */
    var columns: seq<Column>
    /** `main.uniqGeneMap`. */
    var uniqGeneMap: map<string, GeneEntry>
    /** `main.uniqGeneList`. */
    var uniqGeneList: seq<GeneEntry>

    ghost predicate Valid()
      reads this`uniqGeneMap, this`uniqGeneList, this`geneList
    {
      upDown.Length == 2 && GeneListValid(uniqGeneMap, uniqGeneList, geneList)
    }

    /** The controller before any table is loaded. */
    constructor (gene: string)
      ensures Valid()
      ensures this.gene == gene && geneList == [] && upDown[..] == [0, 0]
      ensures !loaded && records == [] && data == [] && gridData == []
      ensures columns == BaseColumns && uniqGeneMap == map[] && uniqGeneList == []
    {
      this.gene := gene;
      geneList := [];
      upDown := new int[2] [0, 0];
      loaded := false;
      records := [];
      filters := InitialFilters;
      data := [];
      gridData := [];
      columns := BaseColumns;
      uniqGeneMap := map[];
      uniqGeneList := [];
    }

    /**
     * `addSymbols`: the gene list grows by the entries of the text's tokens, in
     * token order, skipping tokens without an entry and entries already listed.
     */
    method AddSymbols(text: string)
      requires Valid()
      modifies this`geneList
      ensures Valid()
      ensures geneList == Added(old(geneList), Tokens(text), uniqGeneMap)
    {
      var tokens := Tokens(text);
      var list := geneList;
      var i := 0;
      while i < |tokens|
        invariant 0 <= i <= |tokens|
        invariant NoDuplicates(list) && forall e :: e in list ==> e in uniqGeneMap.Values
        invariant Added(list, tokens[i..], uniqGeneMap) == Added(geneList, tokens, uniqGeneMap)
      {
        assert tokens[i..][1..] == tokens[i + 1..];
        var symbol := tokens[i];
        if symbol in uniqGeneMap {
          var item := uniqGeneMap[symbol];
          if item !in list {
            list := list + [item];
          }
        }
        i := i + 1;
      }
      geneList := list;
    }

    /**
     * A new crossfilter over `kept`: both dimensions at their initial ranges,
     * and the records passing both, by descending baseMean, as
     * `dataState.data` and as the grid rows.
     */
    ghost predicate DimensionsInstalled(kept: seq<Record>)
      reads this`loaded, this`records, this`filters, this`data, this`gridData
    {
      && loaded && records == kept && filters == InitialFilters
      && data == Top(kept, InitialFilters, ByBaseMean) && gridData == data
    }

    /**
     * The gene index of `kept`: one entry per distinct symbol in ascending
     * order, each counting the symbol's occurrences, and the gene list rebuilt
     * from the dataset's symbols text.
     */
    ghost predicate IndexedFrom(kept: seq<Record>)
      reads this`uniqGeneMap, this`uniqGeneList, this`geneList, this`gene, uniqGeneList
    {
      && Indexes(uniqGeneMap, uniqGeneList, SortedSymbols(kept))
      && geneList == Added([], Tokens(gene), uniqGeneMap)
    }

    /**
     * The state after `processData` has committed the non-empty list of kept
     * records `kept`: the dimensions, data and grid always; the hidden
     * columns, gene index and gene list only when some record lies in the
     * initial baseMean range, since otherwise `Object.keys(dataState.data[0])`
     * throws.
     */
    ghost predicate Committed(kept: seq<Record>, outcome: Outcome)
      reads this`loaded, this`records, this`filters, this`data, this`gridData, this`columns
      reads this`uniqGeneMap, this`uniqGeneList, this`geneList, this`gene, uniqGeneList
    {
      && DimensionsInstalled(kept)
      && (outcome == ColumnsFailed || outcome == Loaded)
      && (outcome == ColumnsFailed <==> data == [])
      && (outcome == ColumnsFailed ==> columns == BaseColumns)
      && (outcome == Loaded ==>
          && columns == BaseColumns + HiddenColumns(Filter(data[0].keys, NotIgnored))
          && IndexedFrom(kept))
    }

    /**
     * `processData`: normalise and filter the rows; when the callback throws
     * or no row survives, nothing changes; otherwise commit the kept records,
     * leaving the gene index and gene list as they were when the columns fail.
     */
    method ProcessData(rows: seq<Row>) returns (outcome: Outcome)
      requires Valid()
      modifies this`records, this`filters, this`loaded, this`data, this`gridData, this`columns
      modifies this`uniqGeneMap, this`uniqGeneList, this`geneList
      ensures Valid()
      ensures NormaliseRows(rows).Err? ==> outcome == Crashed(NormaliseRows(rows).error) && unchanged(this)
      ensures NormaliseRows(rows) == Ok([]) ==> outcome == NoFeatures && unchanged(this)
      ensures NormaliseRows(rows).Ok? && NormaliseRows(rows).value != [] ==>
        && Committed(NormaliseRows(rows).value, outcome)
        && (outcome == ColumnsFailed ==> unchanged(this`geneList, this`uniqGeneMap, this`uniqGeneList))
    {
      var normalised := NormaliseRows(rows);
      if normalised.Err? {
        return Crashed(normalised.error);
      }
      if |normalised.value| < 1 {
        return NoFeatures;
      }
      outcome := Commit(normalised.value);
    }

    /** The part of `processData` after the empty check. */
    method Commit(kept: seq<Record>) returns (outcome: Outcome)
      requires Valid() && kept != []
      modifies this`records, this`filters, this`loaded, this`data, this`gridData, this`columns
      modifies this`uniqGeneMap, this`uniqGeneList, this`geneList
      ensures Valid()
      ensures Committed(kept, outcome)
      ensures outcome == ColumnsFailed ==> unchanged(this`geneList, this`uniqGeneMap, this`uniqGeneList)
    {
      InstallDimensions(kept);
      if |data| == 0 {
        return ColumnsFailed;
      }
      columns := AppendHiddenColumns(BaseColumns, data[0].keys);
      RebuildGeneIndex(kept);
      outcome := Loaded;
    }

    /**
     * A new crossfilter over the kept records, its two dimensions at their
     * initial ranges, the records passing both as `dataState.data` and grid
     * rows, and the base columns.
     */
    method InstallDimensions(kept: seq<Record>)
      modifies this`records, this`filters, this`loaded, this`data, this`gridData, this`columns
      ensures DimensionsInstalled(kept)
      ensures columns == BaseColumns
    {
      records := kept;
      filters := InitialFilters;
      loaded := true;
      data := Top(kept, filters, ByBaseMean);
      gridData := data;
      columns := BaseColumns;
    }

    /**
     * The second half of `processData`: index the symbols of the kept
     * records, then rebuild the gene list from the dataset's symbols text.
     */
    method RebuildGeneIndex(kept: seq<Record>)
      requires Valid()
      modifies this`uniqGeneMap, this`uniqGeneList, this`geneList
      ensures Valid()
      ensures IndexedFrom(kept)
    {
      IndexSymbols(kept);
      geneList := [];
      AddSymbols(gene);
    }

    /** `uniqGeneMap` and `uniqGeneList` built afresh from the symbols of the kept records. */
    method IndexSymbols(kept: seq<Record>)
      modifies this`uniqGeneMap, this`uniqGeneList
      ensures Indexes(uniqGeneMap, uniqGeneList, SortedSymbols(kept))
    {
      var full := CollectSymbols(kept);
      var sorted := Sort(full, StrLeq);
      uniqGeneMap, uniqGeneList := BuildIndex(sorted);
    }

    /**
     * `updateList`: install the brush's ranges and show the records that pass
     * both. Before any load there are no dimensions and the call throws.
     */
    method UpdateList(brush: Brush) returns (ok: bool)
      modifies this`filters, this`gridData
      ensures ok == old(loaded)
      ensures !ok ==> unchanged(this)
      ensures ok ==> filters == BrushFilters(brush)
      ensures ok ==> gridData == Top(records, BrushFilters(brush), ByLog2FoldChange)
    {
      if !loaded {
        return false;
      }
      match brush {
        case Empty =>
          filters := Filters(InitialBaseMean, Unbounded);
        case Extent(x0, y0, x1, y1) =>
          filters := Filters(Range(Finite(x0), Finite(x1)), Range(Finite(y0), Finite(y1)));
      }
      gridData := Top(records, filters, ByLog2FoldChange);
      return true;
    }

    /**
     * `setup`: the up/down counts over the significant records of
     * `dataState.data`, and the symbols `geneCheck` searches. Before any
     * load `dataState.data` does not exist, filtering it throws and the
     * counts stay as they were.
     */
    method Setup(pcut: real, fccut: real) returns (ok: bool, search: seq<string>)
      requires Valid()
      modifies upDown
      ensures Valid()
      ensures ok == loaded
      ensures !ok ==> unchanged(upDown)
      ensures ok ==> upDown[0] == UpCount(data, pcut, fccut)
      ensures ok ==> upDown[1] == |Significant(data, pcut, fccut)| - UpCount(data, pcut, fccut)
      ensures |search| == |geneList| && forall i :: 0 <= i < |search| ==> search[i] == geneList[i].symbol
    {
      var list := geneList;
      search := seq(|list|, i requires 0 <= i < |list| => list[i].symbol);
      if !loaded {
        return false, search;
      }
      var significant := Significant(data, pcut, fccut);
      upDown[0] := |Filter(significant, (rec: Record) => rec.log2FoldChange > 0.0)|;
      upDown[1] := |significant| - upDown[0];
      ok := true;
    }
  }
}
