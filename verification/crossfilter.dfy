/**
 * The part of crossfilter the scatter controller relies on, reduced to what
 * the controller can observe: each dimension stores one filter range, a
 * record is visible when its value lies in every dimension's range, and
 * `dimension.top(Infinity)` lists the visible records by descending value.
 *
 * Two properties of the library are assumptions of this model: `filterRange`
 * keeps `lo <= v < hi` (half-open), and `top` orders by descending value of
 * its dimension (the order among equal values is the library's and is not
 * modelled: a fixed insertion sort stands for it).
 */
module Crossfilter {
  import opened Records
  import Seqs

  /** A range bound: a finite number or one of the infinities. */
  datatype Bound = NegInf | Finite(x: real) | PosInf

  /** `lo <= v` for a finite `v`. */
  predicate AtLeast(v: real, lo: Bound)
  {
    match lo
    case NegInf => true
    case Finite(x) => x <= v
    case PosInf => false
  }

  /** `v < hi` for a finite `v`. */
  predicate Below(v: real, hi: Bound)
  {
    match hi
    case NegInf => false
    case Finite(x) => v < x
    case PosInf => true
  }

  /** The argument of `filterRange([lo, hi])`. */
  datatype Range = Range(lo: Bound, hi: Bound)

  /** `filterRange` keeps the half-open interval `[lo, hi)`. */
  predicate InRange(v: real, r: Range)
  {
    AtLeast(v, r.lo) && Below(v, r.hi)
  }

  /** The two dimensions the controller installs. */
  datatype Dim = ByBaseMean | ByLog2FoldChange

  /** The value a dimension reads from a record. */
  function Key(rec: Record, dim: Dim): real
  {
    match dim
    case ByBaseMean => rec.baseMean
    case ByLog2FoldChange => rec.log2FoldChange
  }

  /** The filter ranges of both dimensions. */
  datatype Filters = Filters(baseMean: Range, log2FoldChange: Range)

  /** `[0.01, Infinity]`: the initial and reset range of the baseMean dimension. */
  const InitialBaseMean: Range := Range(Finite(0.01), PosInf)

  /** `[-Infinity, Infinity]`: the initial and reset range of the log2FoldChange dimension. */
  const Unbounded: Range := Range(NegInf, PosInf)

  /** The ranges right after a load and after an empty brush. */
  const InitialFilters: Filters := Filters(InitialBaseMean, Unbounded)

  /** A record passes every filter. */
  predicate Passes(rec: Record, fs: Filters)
  {
    InRange(rec.baseMean, fs.baseMean) && InRange(rec.log2FoldChange, fs.log2FoldChange)
  }

  /**
   * The records that satisfy every active filter, in insertion order. This is
   * `Seqs.Filter` with `Passes` spelled out as a plain recursion, so that the
   * load and brush proofs never carry a predicate value around
   * (`VisibleIsFilter`).
   */
  function Visible(records: seq<Record>, fs: Filters): seq<Record>
    decreases |records|
  {
    if records == [] then []
    else if Passes(records[0], fs) then [records[0]] + Visible(records[1..], fs)
    else Visible(records[1..], fs)
  }

  /** The visible records are the order-preserving filter of the records by `Passes`. */
  lemma {:induction false} VisibleIsFilter(records: seq<Record>, fs: Filters)
    ensures Visible(records, fs) == Seqs.Filter(records, rec => Passes(rec, fs))
    decreases |records|
  {
    if records != [] {
      VisibleIsFilter(records[1..], fs);
    }
  }

  /** A record is visible exactly when it is one of the records and passes both ranges. */
  lemma {:induction false} VisibleExactly(records: seq<Record>, fs: Filters, rec: Record)
    ensures rec in Visible(records, fs) <==> rec in records && Passes(rec, fs)
    ensures multiset(Visible(records, fs))[rec] == if Passes(rec, fs) then multiset(records)[rec] else 0
    decreases |records|
  {
    if records != [] {
      VisibleExactly(records[1..], fs, rec);
      assert records == [records[0]] + records[1..];
    }
  }

  /** Every earlier record has a value at least as large as every later one. */
  ghost predicate DescendingBy(s: seq<Record>, dim: Dim)
  {
    forall i, j :: 0 <= i < j < |s| ==> Key(s[i], dim) >= Key(s[j], dim)
  }

  /** Inserts `x` before the first record whose value does not exceed its own. */
  function InsertByKey(x: Record, s: seq<Record>, dim: Dim): seq<Record>
    decreases |s|
  {
    if s == [] then [x]
    else if Key(x, dim) >= Key(s[0], dim) then [x] + s
    else [s[0]] + InsertByKey(x, s[1..], dim)
  }

  /**
   * The records by descending value of a dimension: `Seqs.Sort` with the
   * descending key order spelled out (`SortByKeyIsSort`).
   */
  function SortByKey(s: seq<Record>, dim: Dim): seq<Record>
    decreases |s|
  {
    if s == [] then [] else InsertByKey(s[0], SortByKey(s[1..], dim), dim)
  }

  /** `InsertByKey` is `Seqs.Insert` under the descending key order. */
  lemma {:induction false} InsertByKeyIsInsert(x: Record, s: seq<Record>, dim: Dim)
    ensures InsertByKey(x, s, dim) == Seqs.Insert(x, s, (a: Record, b: Record) => Key(a, dim) >= Key(b, dim))
    decreases |s|
  {
    if s != [] {
      InsertByKeyIsInsert(x, s[1..], dim);
    }
  }

  /** `SortByKey` is `Seqs.Sort` under the descending key order. */
  lemma {:induction false} SortByKeyIsSort(s: seq<Record>, dim: Dim)
    ensures SortByKey(s, dim) == Seqs.Sort(s, (a: Record, b: Record) => Key(a, dim) >= Key(b, dim))
    decreases |s|
  {
    if s != [] {
      SortByKeyIsSort(s[1..], dim);
      InsertByKeyIsInsert(s[0], SortByKey(s[1..], dim), dim);
    }
  }

  lemma {:induction false} InsertByKeyPermutes(x: Record, s: seq<Record>, dim: Dim)
    ensures multiset(InsertByKey(x, s, dim)) == multiset(s) + multiset{x}
    decreases |s|
  {
    if s != [] && Key(x, dim) < Key(s[0], dim) {
      InsertByKeyPermutes(x, s[1..], dim);
      assert s == [s[0]] + s[1..];
    }
  }

  lemma {:induction false} SortByKeyPermutes(s: seq<Record>, dim: Dim)
    ensures multiset(SortByKey(s, dim)) == multiset(s)
    decreases |s|
  {
    if s != [] {
      SortByKeyPermutes(s[1..], dim);
      InsertByKeyPermutes(s[0], SortByKey(s[1..], dim), dim);
      assert s == [s[0]] + s[1..];
    }
  }

  lemma {:induction false} InsertByKeyDescending(x: Record, s: seq<Record>, dim: Dim)
    requires DescendingBy(s, dim)
    ensures DescendingBy(InsertByKey(x, s, dim), dim)
    ensures |InsertByKey(x, s, dim)| == |s| + 1
    ensures forall i :: 0 <= i < |InsertByKey(x, s, dim)| ==>
      InsertByKey(x, s, dim)[i] == x || InsertByKey(x, s, dim)[i] in s
    decreases |s|
  {
    if s != [] && Key(x, dim) < Key(s[0], dim) {
      InsertByKeyDescending(x, s[1..], dim);
      var r := InsertByKey(x, s[1..], dim);
      forall i | 0 <= i < |r|
        ensures Key(s[0], dim) >= Key(r[i], dim)
      {
        if r[i] != x {
          var k :| 0 <= k < |s[1..]| && s[1..][k] == r[i];
          assert s[k + 1] == r[i];
        }
      }
      forall i | 0 <= i < |r|
        ensures r[i] == x || r[i] in s
      {
        if r[i] != x {
          assert r[i] in s[1..];
        }
      }
    }
  }

  lemma {:induction false} SortByKeyDescending(s: seq<Record>, dim: Dim)
    ensures DescendingBy(SortByKey(s, dim), dim)
    decreases |s|
  {
    if s != [] {
      SortByKeyDescending(s[1..], dim);
      InsertByKeyDescending(s[0], SortByKey(s[1..], dim), dim);
    }
  }

  /** `dimension.top(Infinity)` over the visible records. */
  function Top(records: seq<Record>, fs: Filters, dim: Dim): seq<Record>
  {
    SortByKey(Visible(records, fs), dim)
  }

  /** `top` lists every visible record as often as it occurs, and nothing else. */
  lemma TopExactly(records: seq<Record>, fs: Filters, dim: Dim, rec: Record)
    ensures rec in Top(records, fs, dim) <==> rec in records && Passes(rec, fs)
    ensures multiset(Top(records, fs, dim))[rec] == if Passes(rec, fs) then multiset(records)[rec] else 0
  {
    VisibleExactly(records, fs, rec);
    SortByKeyPermutes(Visible(records, fs), dim);
    assert rec in Top(records, fs, dim) <==> rec in multiset(Top(records, fs, dim));
    assert rec in Visible(records, fs) <==> rec in multiset(Visible(records, fs));
  }

  /** `top` lists values from largest to smallest. */
  lemma TopDescending(records: seq<Record>, fs: Filters, dim: Dim)
    ensures forall i, j :: 0 <= i < j < |Top(records, fs, dim)| ==>
      Key(Top(records, fs, dim)[i], dim) >= Key(Top(records, fs, dim)[j], dim)
  {
    SortByKeyDescending(Visible(records, fs), dim);
  }

  /** The filters after reset: every record with baseMean at least 0.01 passes. */
  lemma InitialFiltersPass(rec: Record)
    ensures Passes(rec, InitialFilters) <==> rec.baseMean >= 0.01
  {
  }

  /** A d3 brush: empty, or the extent `[[x0, y0], [x1, y1]]`. */
  datatype Brush = Empty | Extent(x0: real, y0: real, x1: real, y1: real)

  /** The ranges `updateList` installs for a brush. */
  function BrushFilters(brush: Brush): (fs: Filters)
    ensures brush.Empty? ==> fs == InitialFilters
    ensures brush.Extent? ==> fs.baseMean == Range(Finite(brush.x0), Finite(brush.x1))
    ensures brush.Extent? ==> fs.log2FoldChange == Range(Finite(brush.y0), Finite(brush.y1))
  {
    match brush
    case Empty => InitialFilters
    case Extent(x0, y0, x1, y1) => Filters(Range(Finite(x0), Finite(x1)), Range(Finite(y0), Finite(y1)))
  }

  /** Inside a brush extent: a record is kept when it lies in the brushed rectangle, right and top edges excluded. */
  lemma BrushSelects(brush: Brush, rec: Record)
    requires brush.Extent?
    ensures Passes(rec, BrushFilters(brush)) <==>
      brush.x0 <= rec.baseMean < brush.x1 && brush.y0 <= rec.log2FoldChange < brush.y1
  {
  }
}
