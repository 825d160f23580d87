/**
 * The two predicates `setup` hands to the chart, and the up/down counts it
 * shows: `cutoffCheck` marks a record significant, `geneCheck` picks the
 * highlight colour of a record from the gene list.
 */
module Thresholds {
  import opened Wrappers
  import opened Seqs
  import opened Records

  /** `Math.abs`. */
  function Abs(x: real): (r: real)
    ensures r >= 0.0 && (r == x || r == -x)
  {
    if x < 0.0 then -x else x
  }

  /**
   * `cutoffCheck`: padj at most the FDR cut and |log2FoldChange| above the fold
   * change cut. A NaN padj fails the comparison.
   */
  predicate CutoffCheck(rec: Record, pcut: real, fccut: real)
  {
    && (match rec.padj
        case None => false
        case Some(p) => p <= pcut)
    && Abs(rec.log2FoldChange) > fccut
  }

  /** A record without a number for padj is never significant. */
  lemma NaNNeverPasses(rec: Record, pcut: real, fccut: real)
    requires rec.padj == None
    ensures !CutoffCheck(rec, pcut, fccut)
  {
  }

  /**
   * A row whose padj and FDR are both missing, NaN or 0 is never significant,
   * whatever the cuts.
   */
  lemma {:induction false} NoFdrNeverPasses(row: Row, pcut: real, fccut: real)
    requires HasTextSymbol(row)
    requires !Truthy(ToNumber(Get(row, "padj"))) && !Truthy(ToNumber(Get(row, "FDR")))
    ensures !CutoffCheck(Normalise(row).value, pcut, fccut)
  {
    PValueFallbacks(row);
  }

  /** With the default cuts (FDR 0.1, fold change 0), padj 0.01 and log2FoldChange 2 pass. */
  lemma ScenarioCutoff(rec: Record)
    requires rec.padj == Some(0.01) && rec.log2FoldChange == 2.0
    ensures CutoffCheck(rec, 0.1, 0.0)
  {
  }

  /** With a fold change cut of 0, a record without fold change is never significant. */
  lemma ZeroFoldChangeFails(rec: Record, pcut: real, fccut: real)
    requires fccut >= 0.0 && rec.log2FoldChange == 0.0
    ensures !CutoffCheck(rec, pcut, fccut)
  {
  }

  /** `dataState.data.filter(cutoffCheck)`. */
  function Significant(data: seq<Record>, pcut: real, fccut: real): (r: seq<Record>)
    ensures |r| <= |data|
    ensures forall i :: 0 <= i < |r| ==> CutoffCheck(r[i], pcut, fccut)
  {
    Filter(data, (rec: Record) => CutoffCheck(rec, pcut, fccut))
  }

  /** The significant records are exactly the records passing the cutoff. */
  lemma SignificantExactly(data: seq<Record>, pcut: real, fccut: real, rec: Record)
    ensures rec in Significant(data, pcut, fccut) <==> rec in data && CutoffCheck(rec, pcut, fccut)
  {
    FilterMembership(data, (rec: Record) => CutoffCheck(rec, pcut, fccut), rec);
  }

  /** `upDown[0]`: significant records with a positive fold change. */
  function UpCount(data: seq<Record>, pcut: real, fccut: real): (n: nat)
    ensures n <= |Significant(data, pcut, fccut)|
  {
    |Filter(Significant(data, pcut, fccut), (rec: Record) => rec.log2FoldChange > 0.0)|
  }

  /** `upDown[1]`, the rest of the significant records, counts those whose fold change is not positive. */
  lemma {:induction false} DownCount(data: seq<Record>, pcut: real, fccut: real)
    ensures |Significant(data, pcut, fccut)| - UpCount(data, pcut, fccut) ==
      |Filter(Significant(data, pcut, fccut), (rec: Record) => rec.log2FoldChange <= 0.0)|
  {
    FilterPartition(Significant(data, pcut, fccut), (rec: Record) => rec.log2FoldChange > 0.0, (rec: Record) => rec.log2FoldChange <= 0.0);
  }

  /**
   * When the fold change cut is not negative, the down count is exactly the
   * significant records with a negative fold change.
   */
  lemma {:induction false} DownCountNegative(data: seq<Record>, pcut: real, fccut: real)
    requires fccut >= 0.0
    ensures |Significant(data, pcut, fccut)| - UpCount(data, pcut, fccut) ==
      |Filter(Significant(data, pcut, fccut), (rec: Record) => rec.log2FoldChange < 0.0)|
  {
    var sig := Significant(data, pcut, fccut);
    DownCount(data, pcut, fccut);
    FilterCongruent(sig, (rec: Record) => rec.log2FoldChange <= 0.0, (rec: Record) => rec.log2FoldChange < 0.0);
  }

  /** `Array.prototype.indexOf`: the first position of `x`, or -1. */
  function IndexOf(search: seq<string>, x: string): (j: int)
    ensures -1 <= j < |search|
    ensures j == -1 <==> x !in search
    ensures j >= 0 ==> search[j] == x && forall k :: 0 <= k < j ==> search[k] != x
  {
    if search == [] then -1
    else if search[0] == x then 0
    else
      var j := IndexOf(search[1..], x);
      if j == -1 then -1 else j + 1
  }

  /** `geneCheck`: the search position of the first of the record's symbols that is searched for, or -1. */
  function GeneCheck(symbols: seq<string>, search: seq<string>): (j: int)
    ensures -1 <= j < |search|
    ensures j == -1 <==> forall s :: s in symbols ==> s !in search
    ensures j >= 0 ==> search[j] in symbols
  {
    if symbols == [] then -1
    else
      var j := IndexOf(search, symbols[0]);
      if j > -1 then j else GeneCheck(symbols[1..], search)
  }

  /**
   * A highlighted record gets the position, in the search list, of its
   * earliest symbol that the search list holds.
   */
  lemma {:induction false} GeneCheckFirstMatch(symbols: seq<string>, search: seq<string>)
    requires GeneCheck(symbols, search) >= 0
    ensures exists i :: (0 <= i < |symbols| && symbols[i] in search &&
      (forall k :: 0 <= k < i ==> symbols[k] !in search) &&
      GeneCheck(symbols, search) == IndexOf(search, symbols[i]))
  {
    if IndexOf(search, symbols[0]) == -1 {
      GeneCheckFirstMatch(symbols[1..], search);
      var i :| 0 <= i < |symbols[1..]| && symbols[1..][i] in search &&
        (forall k :: 0 <= k < i ==> symbols[1..][k] !in search) &&
        GeneCheck(symbols[1..], search) == IndexOf(search, symbols[1..][i]);
      assert symbols[i + 1] == symbols[1..][i];
      forall k | 0 <= k < i + 1
        ensures symbols[k] !in search
      {
        if k > 0 {
          assert symbols[k] == symbols[1..][k - 1];
        }
      }
    } else {
      assert symbols[0] in search;
    }
  }
}
