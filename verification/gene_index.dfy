/**
 * The gene index built after each load, and the gene list the user edits.
 *
 * Every symbol of every kept record is collected, sorted with JavaScript's
 * default string order, and folded into one entry per distinct symbol that
 * counts its occurrences. `addSymbols` resolves the tokens of a text against
 * the index and appends the entries it finds to the gene list, once each.
 */
module GeneIndex {
  import opened Wrappers
  import opened Seqs
  import opened Records

  // ---------------------------------------------------------------------------
  // String order

  /** The default order of `Array.prototype.sort`: lexicographic by character. */
  predicate StrLeq(a: string, b: string)
    decreases |a|
  {
    if a == [] then true
    else if b == [] then false
    else if a[0] != b[0] then a[0] < b[0]
    else StrLeq(a[1..], b[1..])
  }

  lemma {:induction false} StrLeqTotal(a: string, b: string)
    ensures StrLeq(a, b) || StrLeq(b, a)
    decreases |a|
  {
    if a != [] && b != [] && a[0] == b[0] {
      StrLeqTotal(a[1..], b[1..]);
    }
  }

  lemma {:induction false} StrLeqTransitive(a: string, b: string, c: string)
    requires StrLeq(a, b) && StrLeq(b, c)
    ensures StrLeq(a, c)
    decreases |a|
  {
    if a != [] && b != [] && c != [] && a[0] == b[0] && b[0] == c[0] {
      StrLeqTransitive(a[1..], b[1..], c[1..]);
    }
  }

  /** Two strings ordered both ways are equal, so the order is a total order. */
  lemma {:induction false} StrLeqAntisymmetric(a: string, b: string)
    requires StrLeq(a, b) && StrLeq(b, a)
    ensures a == b
    decreases |a|
  {
    if a != [] && b != [] {
      StrLeqAntisymmetric(a[1..], b[1..]);
      assert a == [a[0]] + a[1..];
      assert b == [b[0]] + b[1..];
    }
  }

  lemma StrLeqTotalPreorder()
    ensures TotalPreorder(StrLeq)
  {
    forall a, b
      ensures StrLeq(a, b) || StrLeq(b, a)
    {
      StrLeqTotal(a, b);
    }
    forall a, b, c | StrLeq(a, b) && StrLeq(b, c)
      ensures StrLeq(a, c)
    {
      StrLeqTransitive(a, b, c);
    }
  }

  /** `fullGeneList.sort()`: the same symbols, in ascending order. */
  lemma SortSymbols(s: seq<string>)
    ensures multiset(Sort(s, StrLeq)) == multiset(s)
    ensures SortedBy(Sort(s, StrLeq), StrLeq)
  {
    StrLeqTotalPreorder();
    SortSorted(s, StrLeq);
  }

  // ---------------------------------------------------------------------------
  // Collecting and de-duplicating

  /** Every record's symbols, record after record: the list the nested `forEach` pushes. */
  function Flatten(records: seq<Record>): (r: seq<string>)
    decreases |records|
  {
    if records == [] then []
    else Flatten(records[..|records| - 1]) + records[|records| - 1].symbols
  }

  /** A symbol is collected exactly when some record carries it. */
  lemma {:induction false} FlattenMembership(records: seq<Record>, x: string)
    ensures x in Flatten(records) <==> exists rec :: rec in records && x in rec.symbols
    decreases |records|
  {
    if records != [] {
      var init := records[..|records| - 1];
      FlattenMembership(init, x);
      assert records == init + [records[|records| - 1]];
      if x in records[|records| - 1].symbols {
        assert records[|records| - 1] in records;
      }
    }
  }

  /** The first occurrence of each element, in order: the entries the counting loop creates. */
  function Distinct<T(==, !new)>(s: seq<T>): (r: seq<T>)
    ensures forall x :: x in r <==> x in s
    ensures NoDuplicates(r)
    decreases |s|
  {
    if s == [] then []
    else
      var init := s[..|s| - 1];
      var d := Distinct(init);
      assert s == init + [s[|s| - 1]];
      if s[|s| - 1] in d then d else d + [s[|s| - 1]]
  }

  /** One more element is appended exactly when it is new. */
  lemma DistinctSnoc<T(!new)>(s: seq<T>, x: T)
    ensures Distinct(s + [x]) == if x in s then Distinct(s) else Distinct(s) + [x]
  {
    assert (s + [x])[..|s + [x]| - 1] == s;
  }

  /** `a` sorts strictly before `b`. */
  predicate StrLt(a: string, b: string)
  {
    StrLeq(a, b) && a != b
  }

  /** Distinct elements of a sorted list come out strictly ascending. */
  lemma {:induction false} DistinctOfSorted(s: seq<string>)
    requires SortedBy(s, StrLeq)
    ensures forall i, j :: 0 <= i < j < |Distinct(s)| ==> StrLt(Distinct(s)[i], Distinct(s)[j])
    decreases |s|
  {
    if s != [] {
      var init := s[..|s| - 1];
      var y := s[|s| - 1];
      var d := Distinct(init);
      DistinctOfSorted(init);
      if y !in d {
        forall i | 0 <= i < |d|
          ensures StrLeq(d[i], y)
        {
          assert d[i] in init;
          var k :| 0 <= k < |init| && init[k] == d[i];
          assert s[k] == d[i];
        }
      }
    }
  }

  /** The sum of the counts, in `s`, of the elements of `d`. */
  ghost function CountsSum<T>(d: seq<T>, s: seq<T>): nat
    decreases |d|
  {
    if d == [] then 0 else multiset(s)[d[0]] + CountsSum(d[1..], s)
  }

  lemma {:induction false} CountsSumSnoc<T>(d: seq<T>, x: T, s: seq<T>)
    ensures CountsSum(d + [x], s) == CountsSum(d, s) + multiset(s)[x]
    decreases |d|
  {
    if d != [] {
      CountsSumSnoc(d[1..], x, s);
      assert (d + [x])[1..] == d[1..] + [x];
    }
  }

  lemma {:induction false} CountsSumExtend<T>(d: seq<T>, s: seq<T>, y: T)
    requires NoDuplicates(d)
    ensures CountsSum(d, s + [y]) == CountsSum(d, s) + if y in d then 1 else 0
    decreases |d|
  {
    if d != [] {
      CountsSumExtend(d[1..], s, y);
      assert multiset(s + [y]) == multiset(s) + multiset{y};
      assert y in d <==> y == d[0] || y in d[1..];
      assert y == d[0] ==> y !in d[1..];
    }
  }

  /** The per-symbol counts add up to the number of symbols collected. */
  lemma {:induction false} CountsSumTotal<T(!new)>(s: seq<T>)
    ensures CountsSum(Distinct(s), s) == |s|
    decreases |s|
  {
    if s != [] {
      var init := s[..|s| - 1];
      var y := s[|s| - 1];
      var d := Distinct(init);
      CountsSumTotal(init);
      assert s == init + [y];
      CountsSumExtend(d, init, y);
      if y !in d {
        CountsSumSnoc(d, y, s);
        assert multiset(s)[y] == multiset(init)[y] + 1;
        assert y !in multiset(init);
      }
    }
  }

  // ---------------------------------------------------------------------------
  // The index of a load

  /** `fullGeneList` after sorting. */
  function SortedSymbols(records: seq<Record>): seq<string>
  {
    Sort(Flatten(records), StrLeq)
  }

  /** The symbols of `uniqGeneList`, in order. */
  function UniqueSymbols(records: seq<Record>): seq<string>
  {
    Distinct(SortedSymbols(records))
  }

  /** The `count` of a symbol's entry: its occurrences over all records' symbol lists. */
  function Occurrences(records: seq<Record>, x: string): nat
  {
    multiset(Flatten(records))[x]
  }

  /**
   * The index lists each symbol of each record once, in strictly ascending
   * order; every listed symbol occurs at least once, and the counts add up to
   * the number of symbols collected.
   */
  lemma GeneIndexSpec(records: seq<Record>)
    ensures forall i, j :: 0 <= i < j < |UniqueSymbols(records)| ==>
      StrLt(UniqueSymbols(records)[i], UniqueSymbols(records)[j])
    ensures forall x :: x in UniqueSymbols(records) <==> x in Flatten(records)
    ensures forall x :: x in UniqueSymbols(records) ==> Occurrences(records, x) >= 1
    ensures CountsSum(UniqueSymbols(records), SortedSymbols(records)) == |Flatten(records)|
  {
    var full := Flatten(records);
    SortSymbols(full);
    DistinctOfSorted(SortedSymbols(records));
    CountsSumTotal(SortedSymbols(records));
    assert |SortedSymbols(records)| == |multiset(full)|;
    forall x | x in UniqueSymbols(records)
      ensures Occurrences(records, x) >= 1
    {
      assert x in multiset(SortedSymbols(records));
    }
    forall x
      ensures x in UniqueSymbols(records) <==> x in full
    {
      assert x in SortedSymbols(records) <==> x in multiset(SortedSymbols(records));
    }
  }

  // ---------------------------------------------------------------------------
  // addSymbols

  /** The characters JavaScript's `\s` matches. */
  const JsWhitespace: set<char> := {
    '\t', '\n', '\U{000B}', '\U{000C}', '\r', ' ', '\U{00A0}', '\U{1680}',
    '\U{2000}', '\U{2001}', '\U{2002}', '\U{2003}', '\U{2004}', '\U{2005}',
    '\U{2006}', '\U{2007}', '\U{2008}', '\U{2009}', '\U{200A}', '\U{2028}',
    '\U{2029}', '\U{202F}', '\U{205F}', '\U{3000}', '\U{FEFF}'
  }

  /** `list.split(/[\s;]/)`. */
  function Tokens(text: string): (r: seq<string>)
    ensures |r| >= 1
    ensures forall i :: 0 <= i < |r| ==> ';' !in r[i]
  {
    Split(text, JsWhitespace + {';'})
  }

  /** Separators that do not occur in a text make no difference to its split. */
  lemma {:induction false} SplitUnusedSeparators(s: string, small: set<char>, big: set<char>)
    requires small <= big
    requires forall i :: 0 <= i < |s| ==> s[i] in big ==> s[i] in small
    ensures Split(s, big) == Split(s, small)
    decreases |s|
  {
    if s != [] {
      SplitUnusedSeparators(s[1..], small, big);
    }
  }

  /** One token: its entry is appended when the map has one and the list does not hold it yet. */
  function Step<K, V(==)>(list: seq<V>, token: K, m: map<K, V>): seq<V>
  {
    if token in m && m[token] !in list then list + [m[token]] else list
  }

  /** The gene list after resolving `tokens` one after another. */
  function Added<K, V(==)>(list: seq<V>, tokens: seq<K>, m: map<K, V>): seq<V>
    decreases |tokens|
  {
    if tokens == [] then list else Added(Step(list, tokens[0], m), tokens[1..], m)
  }

  /** The old list is a prefix of the new one. */
  lemma {:induction false} AddedPrefix<K, V>(list: seq<V>, tokens: seq<K>, m: map<K, V>)
    ensures list <= Added(list, tokens, m)
    decreases |tokens|
  {
    if tokens != [] {
      AddedPrefix(Step(list, tokens[0], m), tokens[1..], m);
    }
  }

  /** The new list holds the old items and the entries of the resolved tokens, and nothing else. */
  lemma {:induction false} AddedMembership<K, V>(list: seq<V>, tokens: seq<K>, m: map<K, V>, x: V)
    ensures x in Added(list, tokens, m) <==>
      x in list || exists t :: t in tokens && t in m && m[t] == x
    decreases |tokens|
  {
    if tokens != [] {
      AddedMembership(Step(list, tokens[0], m), tokens[1..], m, x);
      assert forall t :: t in tokens <==> t == tokens[0] || t in tokens[1..];
    }
  }

  /** Every appended item is an entry of the map. */
  lemma {:induction false} AddedValues<K, V>(list: seq<V>, tokens: seq<K>, m: map<K, V>)
    ensures forall i :: |list| <= i < |Added(list, tokens, m)| ==> Added(list, tokens, m)[i] in m.Values
    decreases |tokens|
  {
    if tokens != [] {
      var next := Step(list, tokens[0], m);
      AddedValues(next, tokens[1..], m);
      AddedPrefix(next, tokens[1..], m);
      if next != list {
        assert next[|list|] in m.Values;
      }
    }
  }

  /** A duplicate-free list stays duplicate-free. */
  lemma {:induction false} AddedNoDuplicates<K, V>(list: seq<V>, tokens: seq<K>, m: map<K, V>)
    requires NoDuplicates(list)
    ensures NoDuplicates(Added(list, tokens, m))
    decreases |tokens|
  {
    if tokens != [] {
      var next := Step(list, tokens[0], m);
      if next != list {
        forall i, j | 0 <= i < j < |next|
          ensures next[i] != next[j]
        {
          if j == |list| {
            assert next[i] in list;
          }
        }
      }
      AddedNoDuplicates(next, tokens[1..], m);
    }
  }

  /** Tokens the map does not hold change nothing. */
  lemma {:induction false} AddedIgnoresUnresolved<K, V>(list: seq<V>, tokens: seq<K>, m: map<K, V>)
    ensures Added(list, tokens, m) == Added(list, Filter(tokens, t => t in m), m)
    decreases |tokens|
  {
    if tokens != [] {
      AddedIgnoresUnresolved(Step(list, tokens[0], m), tokens[1..], m);
    }
  }

  /** A list that already holds every resolved entry is left as it is. */
  lemma {:induction false} AddedCovered<K, V>(list: seq<V>, tokens: seq<K>, m: map<K, V>)
    requires forall t :: t in tokens && t in m ==> m[t] in list
    ensures Added(list, tokens, m) == list
    decreases |tokens|
  {
    if tokens != [] {
      AddedCovered(list, tokens[1..], m);
    }
  }

  /** Adding the same tokens a second time changes nothing. */
  lemma AddedIdempotent<K, V>(list: seq<V>, tokens: seq<K>, m: map<K, V>)
    ensures Added(Added(list, tokens, m), tokens, m) == Added(list, tokens, m)
  {
    var once := Added(list, tokens, m);
    forall t | t in tokens && t in m
      ensures m[t] in once
    {
      AddedMembership(list, tokens, m, m[t]);
    }
    AddedCovered(once, tokens, m);
  }

  /** A text without whitespace is tokenised exactly like `split(';')`. */
  lemma TokensWithoutWhitespace(text: string)
    requires forall i :: 0 <= i < |text| ==> text[i] !in JsWhitespace
    ensures Tokens(text) == Split(text, {';'})
  {
    SplitUnusedSeparators(text, {';'}, JsWhitespace + {';'});
  }

  /** Pasting `TP53;BRCA1` gives the tokens TP53 and BRCA1. */
  lemma ScenarioTokens()
    ensures Tokens("TP53;BRCA1") == ["TP53", "BRCA1"]
  {
    TokensWithoutWhitespace("TP53;BRCA1");
    SplitTwoSymbols();
  }

  /** With only TP53 in the index, the tokens TP53 and BRCA1 add just TP53's entry. */
  lemma ScenarioAddTokens<V>(tp53: V)
    ensures Added([], ["TP53", "BRCA1"], map["TP53" := tp53]) == [tp53]
  {
    assert "BRCA1" != "TP53";
  }

  /** With only TP53 in the index, pasting `TP53;BRCA1` adds just TP53's entry. */
  lemma ScenarioAddSymbols<V>(tp53: V)
    ensures Added([], Tokens("TP53;BRCA1"), map["TP53" := tp53]) == [tp53]
  {
    ScenarioTokens();
    ScenarioAddTokens(tp53);
  }

  // ---------------------------------------------------------------------------
  // Lookups in a plain object, as written

  /** The properties every plain object inherits from `Object.prototype`. */
  const InheritedNames: set<string> := {
    "constructor", "hasOwnProperty", "isPrototypeOf", "propertyIsEnumerable",
    "toLocaleString", "toString", "valueOf", "__proto__",
    "__defineGetter__", "__defineSetter__", "__lookupGetter__", "__lookupSetter__"
  }

  /** The symbols that receive an entry when `uniqGeneMap` is a plain object `{}`. */
  function IndexedAsWritten(s: seq<string>): (r: seq<string>)
    decreases |s|
  {
    if s == [] then []
    else
      var d := IndexedAsWritten(s[..|s| - 1]);
      var x := s[|s| - 1];
      if x in d || x in InheritedNames then d else d + [x]
  }

  /** A gene named `toString` occurs in the data but gets no entry in the index as written. */
  lemma IndexedAsWrittenDropsInherited()
    ensures IndexedAsWritten(["toString"]) == []
    ensures Distinct(["toString"]) == ["toString"]
  {
    assert "toString" in InheritedNames;
    assert ["toString"][..0] == [];
  }

  /** What `uniqGeneMap[symbol]` yields on a plain object: an own entry or an inherited property. */
  datatype Item<V> = Entry(entry: V) | Inherited(name: string)

  function LookupAsWritten<V>(m: map<string, V>, key: string): Option<Item<V>>
  {
    if key in m then Some(Entry(m[key]))
    else if key in InheritedNames then Some(Inherited(key))
    else None
  }

  /** `addSymbols` over a plain-object index. */
  function AddedAsWritten<V(==)>(list: seq<Item<V>>, tokens: seq<string>, m: map<string, V>): seq<Item<V>>
    decreases |tokens|
  {
    if tokens == [] then list
    else
      var next := match LookupAsWritten(m, tokens[0])
        case None => list
        case Some(item) => if item in list then list else list + [item];
      AddedAsWritten(next, tokens[1..], m)
  }

  /**
   * The token `toString` puts an inherited function into the gene list as
   * written, while the own-key lookup adds nothing.
   */
  lemma AddedAsWrittenPushesInherited<V>(m: map<string, V>)
    requires "toString" !in m
    ensures AddedAsWritten([], ["toString"], m) == [Inherited("toString")]
    ensures Added([], ["toString"], m) == []
  {
    assert "toString" in InheritedNames;
  }
}
