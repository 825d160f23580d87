/**
 * Record normalisation: how the scatter controller turns the loader's raw rows
 * (differential-expression tables from DESeq2 or edgeR, with either set of
 * column names) into records of one canonical shape, and which rows it keeps.
 *
 * Numbers follow JavaScript: `Number(x)` is an `Option<real>` whose None is
 * NaN, and `a || b` picks `a` only when it is truthy, i.e. neither 0 nor NaN.
 */
module Records {
  import opened Wrappers
  import opened Seqs

  /**
   * A field value as the loader delivers it. Text carries the result of
   * `Number(text)` beside it, because string-to-number parsing is not part of
   * the model.
   */
  datatype Value = Text(text: string, asNumber: Option<real>) | Num(number: Option<real>)

  /** A raw row: the object's own keys in enumeration order, and their values. */
  datatype Row = Row(keys: seq<string>, values: map<string, Value>)

  /** `row[key]`; None is `undefined`. */
  function Get(row: Row, key: string): Option<Value>
  {
    if key in row.values then Some(row.values[key]) else None
  }

  /** `Number(x)`: a text converts to its parsed number, `undefined` to NaN. */
  function ToNumber(v: Option<Value>): Option<real>
  {
    match v
    case None => None
    case Some(Text(_, n)) => n
    case Some(Num(n)) => n
  }

  /** A number is truthy when it is neither 0 nor NaN. */
  predicate Truthy(n: Option<real>)
  {
    n.Some? && n.value != 0.0
  }

  /** `a || b` on two numbers. */
  function Or(a: Option<real>, b: Option<real>): (r: Option<real>)
    ensures Truthy(r) <==> Truthy(a) || Truthy(b)
  {
    if Truthy(a) then a else b
  }

  /** `a || d` where `d` is a numeric literal: never NaN. */
  function OrLiteral(a: Option<real>, d: real): (r: real)
    ensures Truthy(a) ==> Some(r) == a
    ensures !Truthy(a) ==> r == d
  {
    if Truthy(a) then a.value else d
  }

  /**
   * The first candidate that is neither 0 nor NaN, else `default`: the
   * reference meaning of a `||` fallback chain ending in a literal.
   */
  function FirstTruthy(candidates: seq<Option<real>>, default: real): (r: real)
    ensures (forall i :: 0 <= i < |candidates| ==> !Truthy(candidates[i])) ==> r == default
    ensures forall i ::
      (0 <= i < |candidates| && Truthy(candidates[i]) && forall j :: 0 <= j < i ==> !Truthy(candidates[j]))
      ==> Some(r) == candidates[i]
  {
    if candidates == [] then default
    else if Truthy(candidates[0]) then candidates[0].value
    else FirstTruthy(candidates[1..], default)
  }

  // ---------------------------------------------------------------------------
  // Splitting text

  /**
   * `s.split(c)` for a one-character separator, and `s.split(/[...]/)` for a
   * character class: every separator ends a piece, so the empty text gives one
   * empty piece and adjacent separators give empty pieces.
   */
  function Split(s: string, separators: set<char>): (r: seq<string>)
    ensures |r| >= 1
    ensures forall i :: 0 <= i < |r| ==> forall c :: c in r[i] ==> c !in separators
    decreases |s|
  {
    if s == [] then [[]]
    else
      var rest := Split(s[1..], separators);
      if s[0] in separators then [[]] + rest
      else [[s[0]] + rest[0]] + rest[1..]
  }

  /** `pieces.join(c)`. */
  function Join(pieces: seq<string>, c: char): string
    requires |pieces| >= 1
    decreases |pieces|
  {
    if |pieces| == 1 then pieces[0] else pieces[0] + [c] + Join(pieces[1..], c)
  }

  /** Splitting on one character loses nothing: joining the pieces gives the text back. */
  lemma {:induction false} JoinSplit(s: string, c: char)
    ensures Join(Split(s, {c}), c) == s
    decreases |s|
  {
    if s != [] {
      JoinSplit(s[1..], c);
      var rest := Split(s[1..], {c});
      if s[0] != c {
        if |rest| == 1 {
          assert Split(s, {c}) == [[s[0]] + rest[0]];
        } else {
          assert Split(s, {c})[1..] == rest[1..];
        }
      }
    }
  }

  /** Pieces free of the separator come back from their join unchanged. */
  lemma {:induction false} SplitJoin(pieces: seq<string>, c: char)
    requires |pieces| >= 1
    requires forall i :: 0 <= i < |pieces| ==> c !in pieces[i]
    ensures Split(Join(pieces, c), {c}) == pieces
    decreases |pieces|, |pieces[0]|
  {
    if |pieces| == 1 {
      SplitJoinPiece(pieces[0], [], c);
      assert pieces[0] + [] == pieces[0];
      assert pieces == [pieces[0]];
    } else {
      var tail := Join(pieces[1..], c);
      SplitJoin(pieces[1..], c);
      SplitSeparator(tail, c);
      assert Join(pieces, c) == pieces[0] + ([c] + tail);
      SplitJoinPiece(pieces[0], [c] + tail, c);
      var after := Split([c] + tail, {c});
      assert after == [[]] + pieces[1..];
      assert after[0] == [] && after[1..] == pieces[1..];
      assert pieces[0] + [] == pieces[0];
      assert [pieces[0]] + pieces[1..] == pieces;
    }
  }

  /** A separator in front starts a new, empty piece. */
  lemma SplitSeparator(t: string, c: char)
    ensures Split([c] + t, {c}) == [[]] + Split(t, {c})
  {
    assert ([c] + t)[1..] == t;
  }

  /** A separator-free prefix is glued to the first piece of what follows it. */
  lemma {:induction false} SplitJoinPiece(p: string, t: string, c: char)
    requires c !in p
    ensures Split(p + t, {c}) == [p + Split(t, {c})[0]] + Split(t, {c})[1..]
    decreases |p|
  {
    if p != [] {
      var st := Split(t, {c});
      SplitJoinPiece(p[1..], t, c);
      assert (p + t)[1..] == p[1..] + t;
      var rest := Split(p[1..] + t, {c});
      assert rest == [p[1..] + st[0]] + st[1..];
      assert (p + t)[0] == p[0] && p[0] != c;
      assert Split(p + t, {c}) == [[p[0]] + rest[0]] + rest[1..];
      assert [p[0]] + (p[1..] + st[0]) == p + st[0];
    } else {
      assert p + t == t;
      var st := Split(t, {c});
      assert p + st[0] == st[0];
      assert [st[0]] + st[1..] == st;
    }
  }

  // ---------------------------------------------------------------------------
  // Normalised records

  /** `d.symbol` is a string, so `d.symbol.split(';')` succeeds. */
  predicate HasTextSymbol(row: Row)
  {
    Get(row, "symbol").Some? && Get(row, "symbol").value.Text?
  }

  /** The error raised by `d.symbol.split(';')` when `symbol` is missing or not a string. */
  datatype TypeError = SymbolNotText

  /**
   * A normalised row. The measured fields are typed and take precedence over
   * `values`, which holds the row's fields minus the deleted ones; `keys` is
   * the object's key order after normalisation.
   */
  datatype Record = Record(
    feature: Option<Value>,
    symbol: Option<Value>,
    symbols: seq<string>,
    baseMean: real,
    log2FoldChange: real,
    pvalue: Option<real>,
    padj: Option<real>,
    keys: seq<string>,
    values: map<string, Value>)

  /** The alternative column names that normalisation deletes. */
  const DeletedKeys: set<string> := {"PValue", "FDR", "logCPM", "logFC"}

  /** The columns shown by the grid's base definitions, never added as hidden columns. */
  const IgnoredKeys: set<string> :=
    {"pvalue", "padj", "baseMean", "log2FoldChange", "symbols", "symbol", "feature"}

  /** The keys normalisation assigns, in assignment order (`symbol` already exists). */
  const AssignedKeys: seq<string> := ["pvalue", "padj", "baseMean", "log2FoldChange", "symbols"]

  /** Keys that survive the deletions. */
  predicate Surviving(k: string)
  {
    k !in DeletedKeys
  }

  /** Keys a record passes through untouched. */
  predicate PassThrough(k: string)
  {
    k !in DeletedKeys && k !in IgnoredKeys
  }

  /** Assigning each of `added` in turn to an object with key order `keys`. */
  function AppendMissing(keys: seq<string>, added: seq<string>): (r: seq<string>)
    ensures forall k :: k in r <==> k in keys || k in added
    decreases |added|
  {
    if added == [] then keys
    else AppendMissing(if added[0] in keys then keys else keys + [added[0]], added[1..])
  }

  /**
   * One pass of the normalising callback over a row: the numeric fallbacks, the
   * deletions, the split of `symbol` and its fallback to `feature`.
   */
  function Normalise(row: Row): (r: Result<Record, TypeError>)
    ensures r.Ok? <==> HasTextSymbol(row)
  {
    if HasTextSymbol(row) then Ok(NormaliseText(row, Get(row, "symbol").value)) else Err(SymbolNotText)
  }

  /**
   * The record of a row with a text symbol: its symbols join back to that
   * text, its keys all survive the deletions, and it keeps exactly the
   * surviving fields of the row with their values.
   */
  lemma NormaliseRecord(row: Row)
    requires HasTextSymbol(row)
    ensures |Normalise(row).value.symbols| >= 1
    ensures Join(Normalise(row).value.symbols, ';') == Get(row, "symbol").value.text
    ensures forall k :: k in Normalise(row).value.keys ==> Surviving(k)
    ensures forall k :: k in Normalise(row).value.values <==> k in row.values && Surviving(k)
    ensures forall k :: k in Normalise(row).value.values ==> Normalise(row).value.values[k] == row.values[k]
  {
  }

  /** The record built from a row whose `symbol` is the text `symbol`. */
  function NormaliseText(row: Row, symbol: Value): (rec: Record)
    requires symbol.Text?
    ensures |rec.symbols| >= 1 && Join(rec.symbols, ';') == symbol.text
  {
    JoinSplit(symbol.text, ';');
    Record(
      feature := Get(row, "feature"),
      symbol := if symbol.text != "" then Some(symbol) else Get(row, "feature"),
      symbols := Split(symbol.text, {';'}),
      baseMean := BaseMeanOf(row),
      log2FoldChange := Log2FoldChangeOf(row),
      pvalue := PValueOf(row),
      padj := PAdjOf(row),
      keys := NormalisedKeys(row),
      values := row.values - DeletedKeys)
  }

  /** `Number(d.baseMean) || Number(d.logCPM) || 0.001` */
  function BaseMeanOf(row: Row): real
  {
    OrLiteral(Or(ToNumber(Get(row, "baseMean")), ToNumber(Get(row, "logCPM"))), 0.001)
  }

  /** `Number(d.log2FoldChange) || Number(d.logFC) || 0` */
  function Log2FoldChangeOf(row: Row): real
  {
    OrLiteral(Or(ToNumber(Get(row, "log2FoldChange")), ToNumber(Get(row, "logFC"))), 0.0)
  }

  /** `Number(d.pvalue) || Number(d.PValue)` */
  function PValueOf(row: Row): Option<real>
  {
    Or(ToNumber(Get(row, "pvalue")), ToNumber(Get(row, "PValue")))
  }

  /** `Number(d.padj) || Number(d.FDR) || NaN` */
  function PAdjOf(row: Row): Option<real>
  {
    Or(Or(ToNumber(Get(row, "padj")), ToNumber(Get(row, "FDR"))), None)
  }

  /** The key order after the assignments and deletions of one normalising pass. */
  function NormalisedKeys(row: Row): (r: seq<string>)
    ensures forall k :: k in r ==> Surviving(k)
  {
    var surviving := Filter(row.keys, Surviving);
    assert forall k :: k in AssignedKeys ==> Surviving(k);
    assert forall k :: k in surviving ==> Surviving(k) by {
      forall k | k in surviving ensures Surviving(k) {
        var i :| 0 <= i < |surviving| && surviving[i] == k;
      }
    }
    AppendMissing(surviving, AssignedKeys)
  }

  /** The inclusion gate: a record is kept when its baseMean exceeds 0.001. */
  predicate Expressed(rec: Record)
  {
    rec.baseMean > 0.001
  }

  /**
   * `resource.data.filter(normalise)`: the records of the rows that pass the
   * gate, in row order. A row whose symbol is not text makes the pass raise.
   */
  function NormaliseRows(rows: seq<Row>): (r: Result<seq<Record>, TypeError>)
    ensures r.Ok? <==> forall i :: 0 <= i < |rows| ==> HasTextSymbol(rows[i])
    ensures r.Ok? ==> |r.value| <= |rows|
    ensures r.Ok? ==> forall i :: 0 <= i < |r.value| ==> Expressed(r.value[i])
  {
    if forall i :: 0 <= i < |rows| ==> HasTextSymbol(rows[i]) then
      Ok(Filter(NormaliseAll(rows), Expressed))
    else Err(SymbolNotText)
  }

  /** The record of every row, expressed or not. */
  function NormaliseAll(rows: seq<Row>): (r: seq<Record>)
    requires forall i :: 0 <= i < |rows| ==> HasTextSymbol(rows[i])
    ensures |r| == |rows|
    ensures forall i :: 0 <= i < |rows| ==> Normalise(rows[i]) == Ok(r[i])
  {
    seq(|rows|, i requires 0 <= i < |rows| => Normalise(rows[i]).value)
  }

  /** A row is kept exactly when its record passes the inclusion gate. */
  lemma NormaliseRowsKeeps(rows: seq<Row>, rec: Record)
    requires NormaliseRows(rows).Ok?
    ensures rec in NormaliseRows(rows).value <==>
      Expressed(rec) && exists i :: 0 <= i < |rows| && Normalise(rows[i]) == Ok(rec)
  {
    var all := NormaliseAll(rows);
    FilterMembership(all, Expressed, rec);
    if exists i :: 0 <= i < |rows| && Normalise(rows[i]) == Ok(rec) {
      var i :| 0 <= i < |rows| && Normalise(rows[i]) == Ok(rec);
      assert all[i] == rec;
    }
  }

  // ---------------------------------------------------------------------------
  // Grid columns

  /** A grid column definition, reduced to its field name and visibility. */
  datatype Column = Column(name: string, visible: bool)

  /** The six columns every load starts from, in display order. */
  const BaseColumns: seq<Column> := [
    Column("feature", true), Column("symbol", true), Column("baseMean", true),
    Column("log2FoldChange", true), Column("pvalue", true), Column("padj", true)]

  /** Keys that get a hidden column of their own. */
  predicate NotIgnored(k: string)
  {
    k !in IgnoredKeys
  }

  /** One hidden column per name, in order. */
  function HiddenColumns(names: seq<string>): (r: seq<Column>)
    ensures |r| == |names|
    ensures forall i :: 0 <= i < |r| ==> r[i] == Column(names[i], false)
  {
    seq(|names|, i requires 0 <= i < |names| => Column(names[i], false))
  }

  /**
   * The keys of a normalised record that are not ignored are the row's own
   * keys minus the ignored and the deleted ones, in the row's order: the
   * normalising pass adds only ignored keys.
   */
  lemma HiddenKeysOfRecord(row: Row)
    requires HasTextSymbol(row)
    ensures Filter(Normalise(row).value.keys, NotIgnored) == Filter(row.keys, PassThrough)
  {
    var surviving := Filter(row.keys, Surviving);
    FilterFilter(row.keys, Surviving, NotIgnored, PassThrough);
    AppendIgnored(surviving, AssignedKeys);
  }

  /** Appending ignored keys leaves the non-ignored ones as they were. */
  lemma {:induction false} AppendIgnored(keys: seq<string>, added: seq<string>)
    requires forall k :: k in added ==> !NotIgnored(k)
    ensures Filter(AppendMissing(keys, added), NotIgnored) == Filter(keys, NotIgnored)
    decreases |added|
  {
    if added != [] {
      var next := if added[0] in keys then keys else keys + [added[0]];
      AppendIgnored(next, added[1..]);
      if added[0] !in keys {
        FilterAppend(keys, added[0], NotIgnored);
        assert Filter(keys, NotIgnored) + [] == Filter(keys, NotIgnored);
      }
    }
  }

  // ---------------------------------------------------------------------------
  // What normalisation promises

  /**
   * baseMean is the first of `baseMean` and `logCPM` that is neither 0 nor
   * NaN, else 0.001. A missing column reads as NaN, so a row with neither
   * column gets 0.001 and fails the inclusion gate.
   */
  lemma BaseMeanFallback(row: Row)
    requires HasTextSymbol(row)
    ensures Normalise(row).value.baseMean ==
      FirstTruthy([ToNumber(Get(row, "baseMean")), ToNumber(Get(row, "logCPM"))], 0.001)
    ensures "baseMean" !in row.values && "logCPM" !in row.values ==> !Expressed(Normalise(row).value)
  {
  }

  /** log2FoldChange is the first of `log2FoldChange` and `logFC` that is neither 0 nor NaN, else 0. */
  lemma Log2FoldChangeFallback(row: Row)
    requires HasTextSymbol(row)
    ensures Normalise(row).value.log2FoldChange ==
      FirstTruthy([ToNumber(Get(row, "log2FoldChange")), ToNumber(Get(row, "logFC"))], 0.0)
  {
  }

  /**
   * padj is a usable number exactly when `padj` or `FDR` is one, and is then
   * never 0; pvalue is `pvalue` when that is usable and `PValue` otherwise,
   * which may itself be 0 or NaN.
   */
  lemma PValueFallbacks(row: Row)
    requires HasTextSymbol(row)
    ensures Truthy(Normalise(row).value.padj) <==>
      Truthy(ToNumber(Get(row, "padj"))) || Truthy(ToNumber(Get(row, "FDR")))
    ensures Normalise(row).value.padj.Some? ==> Normalise(row).value.padj.value != 0.0
    ensures Truthy(ToNumber(Get(row, "padj"))) ==> Normalise(row).value.padj == ToNumber(Get(row, "padj"))
    ensures !Truthy(ToNumber(Get(row, "padj"))) && Truthy(ToNumber(Get(row, "FDR"))) ==>
      Normalise(row).value.padj == ToNumber(Get(row, "FDR"))
    ensures !Truthy(ToNumber(Get(row, "padj"))) && !Truthy(ToNumber(Get(row, "FDR"))) ==>
      Normalise(row).value.padj == None
    ensures Truthy(ToNumber(Get(row, "pvalue"))) ==> Normalise(row).value.pvalue == ToNumber(Get(row, "pvalue"))
    ensures !Truthy(ToNumber(Get(row, "pvalue"))) ==> Normalise(row).value.pvalue == ToNumber(Get(row, "PValue"))
  {
  }

  /**
   * An adjusted p-value of exactly 0 (with no FDR column) is falsy, so the
   * chain `padj || FDR || NaN` turns it into NaN.
   */
  lemma PadjZeroBecomesNaN(row: Row)
    requires HasTextSymbol(row)
    requires ToNumber(Get(row, "padj")) == Some(0.0) && "FDR" !in row.values
    ensures Normalise(row).value.padj == None
  {
  }

  /** The symbol list is the symbol text cut at each `;`, with no `;` left in any piece. */
  lemma SymbolsSplit(row: Row)
    requires HasTextSymbol(row)
    ensures Normalise(row).value.symbols == Split(Get(row, "symbol").value.text, {';'})
  {
  }

  /** `symbol` keeps a non-empty symbol text and otherwise falls back to `feature`. */
  lemma SymbolFallback(row: Row)
    requires HasTextSymbol(row)
    ensures Get(row, "symbol").value.text != "" ==> Normalise(row).value.symbol == Get(row, "symbol")
    ensures Get(row, "symbol").value.text == "" ==> Normalise(row).value.symbol == Get(row, "feature")
  {
  }

  /** The symbol text `TP53;BRCA1` names two symbols. */
  lemma SplitTwoSymbols()
    ensures Split("TP53;BRCA1", {';'}) == ["TP53", "BRCA1"]
  {
    SplitJoin(["TP53", "BRCA1"], ';');
    assert Join(["TP53", "BRCA1"], ';') == "TP53;BRCA1";
  }

  /** A row whose symbol text is `TP53;BRCA1` yields the two symbols TP53 and BRCA1. */
  lemma ScenarioTwoSymbols(row: Row)
    requires Get(row, "symbol") == Some(Text("TP53;BRCA1", None))
    ensures Normalise(row).Ok?
    ensures Normalise(row).value.symbols == ["TP53", "BRCA1"]
  {
    SplitTwoSymbols();
    SymbolsSplit(row);
  }

  /** A DESeq2 row with baseMean 5, log2FoldChange 2 and padj 0.01 is kept with those values. */
  lemma ScenarioDeseqRow(row: Row)
    requires HasTextSymbol(row)
    requires Get(row, "baseMean") == Some(Text("5", Some(5.0)))
    requires Get(row, "log2FoldChange") == Some(Text("2", Some(2.0)))
    requires Get(row, "padj") == Some(Text("0.01", Some(0.01)))
    ensures Normalise(row).value.baseMean == 5.0 && Expressed(Normalise(row).value)
    ensures Normalise(row).value.log2FoldChange == 2.0
    ensures Normalise(row).value.padj == Some(0.01)
  {
    BaseMeanFallback(row);
    Log2FoldChangeFallback(row);
    PValueFallbacks(row);
  }
}
