# Scatter controller: data pipeline model

A Dafny model of the data pipeline in the scatter controller of a browser tool for exploring
differential-expression results (`app/components/scatter/scatter.controller.js`). It covers the
following parts:

- **Load (`processData`).** The raw rows of a DESeq2 or edgeR table are normalised into one
  canonical record shape. Each numeric field has a JavaScript `||` fallback chain. The legacy
  column names are deleted, and the `symbol` text is split on `;`. Rows whose baseMean is not
  above 0.001 are dropped. When some row survives, the load installs two crossfilter dimensions at
  their initial ranges, publishes the records that pass both as the data and the grid rows,
  appends one hidden grid column per pass-through key, builds the counted gene index and rebuilds
  the gene list.
- **Gene list (`addSymbols`).** Tokenises a text on whitespace and `;`. Every resolved index entry
  not yet listed is appended.
- **Brush sync (`updateList`).** Turns the chart's brush into the two dimensions' filter ranges
  and republishes the grid rows.
- **Thresholds (`setup`).** The `cutoffCheck` and `geneCheck` predicates handed to the chart, and
  the up/down counts of significant records.

Modules:

- `Wrappers`: Option and Result.
- `Seqs`: filter and insertion sort, with their lemmas.
- `Records`: JavaScript numbers and `||`, `split`/`join`, row normalisation, grid columns.
- `Crossfilter`: range filters and `top(Infinity)`.
- `Thresholds`: `cutoffCheck`, `geneCheck`, the up/down counts.
- `GeneIndex`: string order, the specification of the gene index and of `addSymbols`, and the
  plain-object lookups as written.
- `Scatter`: the controller as a class whose methods update its fields. Index entries are objects
  whose `count` the load increments in place.

How values are represented:

- **Numbers.** `Option<real>` stands for a JavaScript number, with `None` standing for NaN. A
  value is truthy when it is neither 0 nor NaN.
- **Text fields.** A text field carries the result of `Number(text)` beside the text, so string
  parsing is an input rather than part of the model.
- **Crossfilter.** Crossfilter's source is not part of this model. Two of its documented
  behaviours are assumptions here:
  - `filterRange([lo, hi])` keeps `lo <= v < hi`;
  - `top(Infinity)` lists the passing records by descending value of the dimension.

Behaviour of the code worth noting:

- **Gene entry counts.** An entry's count is the number of occurrences of its symbol over all
  records' symbol lists. A record listing a symbol twice counts it twice.
- **Symbol fallback.** `symbol.split(';')` runs before the fallback `symbol || feature`, so the
  fallback to `feature` happens only for an empty symbol text. An absent or non-string `symbol`
  never reaches the fallback: `split` throws first.
- **Missing symbol.** A row whose `symbol` is missing or not a string makes the whole load throw
  a TypeError, and nothing is committed.
- **Brush ranges.** A brush extent sets the half-open ranges `[x0, x1)` and `[y0, y1)`.
- **Before the first load.** `dataState.data` and the dimensions do not exist yet, so `setup` and
  `updateList` throw without changing anything.

## Model

| member | source | states |
|---|---|---|
| Seqs.Filter | app/components/scatter/scatter.controller.js:293 | `Array.prototype.filter`: the kept elements, in order, all satisfying the predicate (membership by `Seqs.FilterMembership`) |
| Seqs.Sort | app/components/scatter/scatter.controller.js:355 | insertion sort: a permutation of its input, sorted under a total preorder by `Seqs.SortSorted` |
| Records.Or | app/components/scatter/scatter.controller.js:294-297 | `a \|\| b` on numbers is truthy exactly when either operand is |
| Records.OrLiteral | app/components/scatter/scatter.controller.js:300-303 | a chain ending in a literal yields the operand when it is truthy and the literal otherwise, never NaN |
| Records.FirstTruthy | app/components/scatter/scatter.controller.js:294-304 | reference meaning of a fallback chain: the first candidate that is neither 0 nor NaN, else the default |
| Records.Split | app/components/scatter/scatter.controller.js:306 | `split` yields at least one piece and no piece contains a separator |
| Records.JoinSplit | app/components/scatter/scatter.controller.js:306 | joining the pieces of a split on `;` gives the text back |
| Records.SplitJoin | app/components/scatter/scatter.controller.js:306 | separator-free pieces survive a join followed by a split unchanged |
| Records.SplitSeparator | app/components/scatter/scatter.controller.js:306 | a leading separator starts an empty piece |
| Records.SplitJoinPiece | app/components/scatter/scatter.controller.js:306 | a separator-free prefix joins the first piece of what follows |
| Records.AppendMissing | app/components/scatter/scatter.controller.js:294-306 | assigning keys to an object leaves it with exactly the old keys and the assigned ones |
| Records.NormalisedKeys | app/components/scatter/scatter.controller.js:294-306 | after the pass no key is one of the deleted legacy names |
| Records.BaseMeanOf | app/components/scatter/scatter.controller.js:300 | the baseMean chain `Number(baseMean) \|\| Number(logCPM) \|\| 0.001` (its meaning is stated by `Records.BaseMeanFallback`) |
| Records.Log2FoldChangeOf | app/components/scatter/scatter.controller.js:303 | the log2FoldChange chain ending in 0 (stated by `Records.Log2FoldChangeFallback`) |
| Records.PValueOf | app/components/scatter/scatter.controller.js:294 | the pvalue chain `Number(pvalue) \|\| Number(PValue)` (stated by `Records.PValueFallbacks`) |
| Records.PAdjOf | app/components/scatter/scatter.controller.js:297 | the padj chain ending in NaN (stated by `Records.PValueFallbacks`) |
| Records.Expressed | app/components/scatter/scatter.controller.js:308 | the filter callback's result: baseMean above 0.001 (used by `Records.NormaliseRowsKeeps`) |
| Records.NormaliseText | app/components/scatter/scatter.controller.js:306 | the record's symbol list is non-empty and joins back to the symbol text |
| Records.Normalise | app/components/scatter/scatter.controller.js:293-308 | the callback succeeds exactly when `symbol` is a string; otherwise `split` throws |
| Records.NormaliseRecord | app/components/scatter/scatter.controller.js:294-307 | the symbols join back to the symbol text; the record keeps exactly the row's fields minus `PValue`, `FDR`, `logCPM`, `logFC`, with their values |
| Records.NormaliseRows | app/components/scatter/scatter.controller.js:293-309 | the filter succeeds exactly when every row has a string symbol; it keeps at most all rows, and every kept record has baseMean > 0.001 |
| Records.NormaliseAll | app/components/scatter/scatter.controller.js:293-309 | one record per row, each the normalisation of its row |
| Records.NormaliseRowsKeeps | app/components/scatter/scatter.controller.js:293-309 | a record is kept exactly when it is some row's record and has baseMean > 0.001 |
| Records.HiddenColumns | app/components/scatter/scatter.controller.js:338-342 | one hidden column per key, in key order |
| Records.HiddenKeysOfRecord | app/components/scatter/scatter.controller.js:311-342 | the keys of a record that get hidden columns are the row's own keys minus the ignored and deleted ones, in the row's order |
| Records.AppendIgnored | app/components/scatter/scatter.controller.js:311-319 | keys the pass adds are all ignored, so they never become hidden columns |
| Records.BaseMeanFallback | app/components/scatter/scatter.controller.js:300-308 | baseMean is the first truthy of `baseMean`, `logCPM`, else 0.001; a row with neither column is dropped |
| Records.Log2FoldChangeFallback | app/components/scatter/scatter.controller.js:303-304 | log2FoldChange is the first truthy of `log2FoldChange`, `logFC`, else 0 |
| Records.PValueFallbacks | app/components/scatter/scatter.controller.js:294-298 | padj is `padj` when that is truthy, else `FDR` when that is truthy, else NaN, so it is usable exactly when one of them is and is never 0; pvalue is `pvalue` when truthy, else `PValue` (possibly NaN) |
| Records.PadjZeroBecomesNaN | app/components/scatter/scatter.controller.js:297 | a padj of exactly 0 without an FDR column becomes NaN |
| Records.SymbolsSplit | app/components/scatter/scatter.controller.js:306 | the symbol list is the original symbol text split on `;` |
| Records.SymbolFallback | app/components/scatter/scatter.controller.js:307 | `symbol` is kept when its text is non-empty and is `feature` otherwise |
| Records.SplitTwoSymbols | app/components/scatter/scatter.controller.js:306 | `"TP53;BRCA1"` splits into `["TP53", "BRCA1"]` |
| Records.ScenarioTwoSymbols | app/components/scatter/scatter.controller.js:306 | a row with symbol `TP53;BRCA1` gets the symbols TP53 and BRCA1 |
| Records.ScenarioDeseqRow | app/components/scatter/scatter.controller.js:294-308 | a DESeq2 row with baseMean 5, log2FoldChange 2, padj 0.01 is kept with those values |
| Crossfilter.Visible | app/components/scatter/scatter.controller.js:327-335 | the records passing both dimensions' ranges, in insertion order (stated by `Crossfilter.VisibleExactly`) |
| Crossfilter.VisibleIsFilter | app/components/scatter/scatter.controller.js:327-335 | the visible records are the order-preserving filter of the records by both ranges |
| Crossfilter.Top | app/components/scatter/scatter.controller.js:335 | `top(Infinity)`: the visible records by descending value (stated by `Crossfilter.TopExactly` and `Crossfilter.TopDescending`) |
| Crossfilter.InsertByKeyIsInsert | app/components/scatter/scatter.controller.js:335 | inserting into the top order is the generic insertion under the descending value order |
| Crossfilter.SortByKeyIsSort | app/components/scatter/scatter.controller.js:335 | the top order is the generic insertion sort under the descending value order |
| Crossfilter.VisibleExactly | app/components/scatter/scatter.controller.js:327-335 | a record is visible exactly when it is loaded and lies in both ranges, as often as it was loaded |
| Crossfilter.InsertByKeyPermutes | app/components/scatter/scatter.controller.js:335 | inserting into the top order adds exactly the inserted record |
| Crossfilter.SortByKeyPermutes | app/components/scatter/scatter.controller.js:335 | the top order is a permutation of its input |
| Crossfilter.InsertByKeyDescending | app/components/scatter/scatter.controller.js:335 | inserting keeps a descending list descending |
| Crossfilter.SortByKeyDescending | app/components/scatter/scatter.controller.js:335 | the top order is descending by the dimension's value |
| Crossfilter.TopExactly | app/components/scatter/scatter.controller.js:335 | `top(Infinity)` lists every record passing both ranges, as often as it occurs, and nothing else |
| Crossfilter.TopDescending | app/components/scatter/scatter.controller.js:335 | `top(Infinity)` lists values from largest to smallest |
| Crossfilter.InitialFiltersPass | app/components/scatter/scatter.controller.js:329-333 | with the initial ranges a record passes exactly when baseMean >= 0.01 |
| Crossfilter.BrushFilters | app/components/scatter/scatter.controller.js:215-226 | an empty brush resets both ranges to `[0.01, ∞)` and `(-∞, ∞)` whatever they were; an extent sets `[x0, x1)` on baseMean and `[y0, y1)` on log2FoldChange |
| Crossfilter.BrushSelects | app/components/scatter/scatter.controller.js:223-226 | inside a brush extent a record is kept exactly when it lies in the rectangle, right and top edges excluded |
| Thresholds.Abs | app/components/scatter/scatter.controller.js:248 | `Math.abs` is non-negative and is `x` or `-x` |
| Thresholds.CutoffCheck | app/components/scatter/scatter.controller.js:248 | `cutoffCheck`: padj at most the p cut and absolute fold change above the fold-change cut (stated by the lemmas below) |
| Thresholds.NaNNeverPasses | app/components/scatter/scatter.controller.js:248 | a NaN padj never passes `cutoffCheck` |
| Thresholds.NoFdrNeverPasses | app/components/scatter/scatter.controller.js:248 | a row without a usable `padj` or `FDR` is never significant, whatever the cuts |
| Thresholds.ScenarioCutoff | app/components/scatter/scatter.controller.js:248 | padj 0.01 and fold change 2 pass the default cuts |
| Thresholds.ZeroFoldChangeFails | app/components/scatter/scatter.controller.js:248 | a zero fold change never passes a non-negative fold-change cut |
| Thresholds.Significant | app/components/scatter/scatter.controller.js:250 | every significant record passes `cutoffCheck` |
| Thresholds.SignificantExactly | app/components/scatter/scatter.controller.js:250 | a record is significant exactly when it is in the data and passes `cutoffCheck` |
| Thresholds.UpCount | app/components/scatter/scatter.controller.js:252 | the up count is at most the number of significant records |
| Thresholds.DownCount | app/components/scatter/scatter.controller.js:253 | the down count is the number of significant records whose fold change is not positive |
| Thresholds.DownCountNegative | app/components/scatter/scatter.controller.js:253 | with a non-negative fold-change cut, the down count is the significant records with a negative fold change |
| Thresholds.IndexOf | app/components/scatter/scatter.controller.js:240 | `indexOf` gives the first position of the symbol, or -1 exactly when it is absent |
| Thresholds.GeneCheck | app/components/scatter/scatter.controller.js:238-246 | `geneCheck` is -1 exactly when none of the record's symbols is searched for, else a position of one of them |
| Thresholds.GeneCheckFirstMatch | app/components/scatter/scatter.controller.js:238-246 | a highlighted record gets the first search position of its earliest symbol that is searched for |
| GeneIndex.StrLeqTotal | app/components/scatter/scatter.controller.js:355-356 | the default sort order relates every two strings |
| GeneIndex.StrLeqTransitive | app/components/scatter/scatter.controller.js:355-356 | the default sort order is transitive |
| GeneIndex.StrLeqAntisymmetric | app/components/scatter/scatter.controller.js:355-356 | two strings ordered both ways are equal |
| GeneIndex.StrLeqTotalPreorder | app/components/scatter/scatter.controller.js:355-356 | the default sort order is a total preorder |
| GeneIndex.SortSymbols | app/components/scatter/scatter.controller.js:355-356 | `fullGeneList.sort()` permutes the symbols into ascending order |
| GeneIndex.Flatten | app/components/scatter/scatter.controller.js:346-353 | every record's symbols, record after record (stated by `GeneIndex.FlattenMembership`) |
| GeneIndex.FlattenMembership | app/components/scatter/scatter.controller.js:346-353 | a symbol is collected exactly when some kept record carries it |
| GeneIndex.Distinct | app/components/scatter/scatter.controller.js:360-373 | the entries created hold each symbol seen exactly once |
| GeneIndex.DistinctSnoc | app/components/scatter/scatter.controller.js:362-372 | one more symbol creates an entry exactly when it is new |
| GeneIndex.DistinctOfSorted | app/components/scatter/scatter.controller.js:355-373 | over sorted symbols the entries are strictly ascending |
| GeneIndex.CountsSumSnoc | app/components/scatter/scatter.controller.js:362-373 | an extra entry adds its symbol's occurrences to the total count |
| GeneIndex.CountsSumExtend | app/components/scatter/scatter.controller.js:362-373 | an extra occurrence adds one to the total count when its symbol has an entry |
| GeneIndex.CountsSumTotal | app/components/scatter/scatter.controller.js:362-373 | the counts of all entries add up to the number of symbols seen |
| GeneIndex.GeneIndexSpec | app/components/scatter/scatter.controller.js:346-376 | the index lists each collected symbol once, strictly ascending; every count is at least 1; the counts add up to the number of symbols collected |
| GeneIndex.Tokens | app/components/scatter/scatter.controller.js:383 | `split(/[\s;]/)` gives at least one token and no token contains `;` |
| GeneIndex.SplitUnusedSeparators | app/components/scatter/scatter.controller.js:383 | separators absent from the text do not change its split |
| GeneIndex.TokensWithoutWhitespace | app/components/scatter/scatter.controller.js:383 | a text without whitespace is tokenised exactly as a split on `;` |
| GeneIndex.Step | app/components/scatter/scatter.controller.js:384-386 | one token: its entry is appended when it resolves and is not listed yet |
| GeneIndex.Added | app/components/scatter/scatter.controller.js:382-389 | the tokens resolved one after another (stated by the `Added` lemmas below) |
| GeneIndex.AddedPrefix | app/components/scatter/scatter.controller.js:382-389 | the old gene list stays a prefix of the new one |
| GeneIndex.AddedMembership | app/components/scatter/scatter.controller.js:382-389 | an entry is listed afterwards exactly when it was listed before or is the entry of some token |
| GeneIndex.AddedValues | app/components/scatter/scatter.controller.js:382-389 | every appended item is an entry of the index |
| GeneIndex.AddedNoDuplicates | app/components/scatter/scatter.controller.js:382-389 | a gene list without duplicates stays without duplicates |
| GeneIndex.AddedIgnoresUnresolved | app/components/scatter/scatter.controller.js:382-389 | tokens without an entry change nothing |
| GeneIndex.AddedCovered | app/components/scatter/scatter.controller.js:382-389 | a text whose entries are all listed already changes nothing |
| GeneIndex.AddedIdempotent | app/components/scatter/scatter.controller.js:382-389 | adding the same text twice equals adding it once |
| GeneIndex.ScenarioAddSymbols | app/components/scatter/scatter.controller.js:382-389 | with only TP53 indexed, pasting `TP53;BRCA1` adds just TP53's entry |
| GeneIndex.ScenarioTokens | app/components/scatter/scatter.controller.js:383 | the text `TP53;BRCA1` splits into the tokens TP53 and BRCA1 |
| GeneIndex.ScenarioAddTokens | app/components/scatter/scatter.controller.js:382-389 | with only TP53 indexed, the tokens TP53 and BRCA1 add just TP53's entry |
| GeneIndex.IndexedAsWritten | app/components/scatter/scatter.controller.js:360-373 | as written, a symbol gets an entry only when it has none yet and is not the name of an inherited property |
| GeneIndex.LookupAsWritten | app/components/scatter/scatter.controller.js:384-386 | as written, a lookup finds own entries and inherited properties alike |
| GeneIndex.AddedAsWritten | app/components/scatter/scatter.controller.js:382-389 | as written, every token the lookup resolves is pushed once |
| GeneIndex.IndexedAsWrittenDropsInherited | app/components/scatter/scatter.controller.js:360-373 | as written, a gene named `toString` gets no index entry, while the intended index has one |
| GeneIndex.AddedAsWrittenPushesInherited | app/components/scatter/scatter.controller.js:384-386 | as written, the token `toString` puts an inherited function into the gene list, while the intended lookup adds nothing |
| Scatter.GeneEntry.constructor | app/components/scatter/scatter.controller.js:367-370 | a new entry carries its symbol with count 1 |
| Scatter.CollectSymbols | app/components/scatter/scatter.controller.js:346-353 | the nested loop pushes every symbol of every kept record, record after record |
| Scatter.IncrementEntry | app/components/scatter/scatter.controller.js:363-365 | `count++` on a seen symbol's entry keeps the index a correct count of the symbols seen so far |
| Scatter.AddEntry | app/components/scatter/scatter.controller.js:366-371 | a new symbol gets a fresh entry appended to the list and mapped in the map, keeping the index correct |
| Scatter.CountSymbol | app/components/scatter/scatter.controller.js:362-373 | one loop turn extends the index from the symbols seen to one more symbol |
| Scatter.BuildIndex | app/components/scatter/scatter.controller.js:360-373 | the loop yields one fresh entry per distinct symbol in first-seen order, each counting its occurrences, map and list agreeing |
| Scatter.IndexesKept | app/components/scatter/scatter.controller.js:346-376 | the index of a load lists each symbol of the kept records once, strictly ascending, with its occurrence count (at least 1), and the map holds exactly those symbols |
| Scatter.AppendHiddenColumns | app/components/scatter/scatter.controller.js:336-342 | the columns are the base columns followed by one hidden column per non-ignored key, in key order |
| Scatter.Controller.constructor | app/components/scatter/scatter.controller.js:132-147 | before any load the gene list is empty, the counts are `[0, 0]`, the columns are the base columns and there is no index |
| Scatter.Controller.AddSymbols | app/components/scatter/scatter.controller.js:382-389 | the gene list becomes the reference `Added` of its tokens, keeping the list duplicate-free and made of index entries |
| Scatter.Controller.ProcessData | app/components/scatter/scatter.controller.js:290-380 | a throwing callback or an empty result leaves the state unchanged; otherwise the kept records are committed |
| Scatter.Controller.Commit | app/components/scatter/scatter.controller.js:326-379 | the dimensions, data and grid rows always; the columns, index and gene list only when a record passes the initial baseMean range, the index and gene list left as they were otherwise |
| Scatter.Controller.InstallDimensions | app/components/scatter/scatter.controller.js:327-336 | both ranges at their initial values, data and grid rows the records passing them by descending baseMean, and the base columns |
| Scatter.Controller.RebuildGeneIndex | app/components/scatter/scatter.controller.js:346-379 | the index counts the kept records' symbols, and the gene list is rebuilt from empty from the dataset's symbols text |
| Scatter.Controller.IndexSymbols | app/components/scatter/scatter.controller.js:346-376 | the map and list index the sorted symbols of the kept records |
| Scatter.Controller.UpdateList | app/components/scatter/scatter.controller.js:215-230 | the ranges become the brush's and the grid rows the records passing both, by descending fold change; the new state depends only on the brush and the loaded records, so syncing the same brush twice changes nothing more |
| Scatter.Controller.Setup | app/components/scatter/scatter.controller.js:232-253 | the search list is the gene list's symbols; before any load the call fails and the counts stay as they were; after a load `upDown[0]` counts the significant records with a positive fold change and `upDown[1]` the remaining significant ones |

## Left out

- The debounced `_draw` and `_update`, the `dirty` class, `change`, `update` and `draw` are left
  out. They are timers and DOM work, and they move no data.
- `loadDataset` and `dropped` are left out. They are network and file I/O through the data
  service. `main.gene`, the dataset's symbols text, is a field of the controller.
- `pasteSymbols` is left out. It only calls `addSymbols` and then `update`.
- The chart, d3, grid, Clipboard and growl are not part of this model. `setup` returns the
  search list instead of handing the predicates to the chart.
- `Math.pow(10, logpcut)` is not modelled: `pcut` and `fccut` are inputs. `Number()` parsing is
  not modelled either: a parsed text arrives with its number. Infinities as field values are not
  modelled.
- Object key enumeration puts integer-like keys first. This is not modelled: a row's key order is
  an input.
- The loader's rows are mutated in place by the normalising callback. The model builds new
  records instead, so writes through aliases of the raw rows are not captured.
- The in-place `fullGeneList.sort()` is modelled as the value `Sort(full, StrLeq)`. Strings are
  ordered by code point, whereas JavaScript compares UTF-16 code units; the two orders differ only
  above U+FFFF.
- Crossfilter's order among records with equal values is the library's own. The model fixes one
  order, a stable insertion sort.
- Scatter.Controller.UpdateList: before the first load there are no dimensions and `updateList`
  throws. The model returns `false` and changes nothing.
- Scatter.Controller.constructor: before the first load `dataState.data`, `uniqGeneMap` and
  `uniqGeneList` are undefined and `gridOptions.data` is unset. The model starts them empty and
  marks the state as not loaded; `Setup` and `UpdateList` fail on that mark.
- Scatter.Controller.Setup: the predicates it installs on the chart are the pure functions
  `Thresholds.CutoffCheck` and `Thresholds.GeneCheck` over the returned search list. Before the
  first load `dataState.data.filter` throws; the model returns `false` and leaves the counts
  unchanged.

## Findings

| source | as written | input that shows it | evidently intended | confidence | as-written member | corrected member |
|---|---|---|---|---|---|---|
| app/components/scatter/scatter.controller.js:360-373 | `uniqGeneMap` is a plain object `{}`. Looking up a symbol also finds properties inherited from `Object.prototype`, so such a symbol counts into that property and gets no entry | a kept record whose symbols are `["toString"]` | every distinct symbol gets an entry (an own-property lookup) | not executed | GeneIndex.IndexedAsWrittenDropsInherited | GeneIndex.GeneIndexSpec |
| app/components/scatter/scatter.controller.js:384-386 | `addSymbols` looks the token up in the same plain object, so an inherited property is truthy and is pushed onto the gene list | the text `toString` with no such gene in the data | unresolved tokens are ignored and only index entries are listed | not executed | GeneIndex.AddedAsWrittenPushesInherited | GeneIndex.AddedValues |
