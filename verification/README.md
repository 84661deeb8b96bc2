# libhyle, modelled and proved in Dafny

libhyle is an in-memory data engine: a keyed row store whose ordered sources keep positional
arrays under flat keys, a query planner whose pre-filters narrow the rows before a
filter/sort/paginate view, an in-place query-string parser, a JSON printer over value pools, and a
Rust layer that plans which referenced models a query must fetch. This project models those five
parts and proves that each refines a simple meaning.

| file | what it models |
|---|---|
| `Text.dfy`, `Wrappers.dfy`, `Collections.dfy` | C strings (a `char` is one byte, never NUL inside a string), decimal numerals, `Option` |
| `OrderedKeys.dfy`, `Records.dfy`, `EntryLaws.dfy`, `OrderedSource.dfy`, `OrderedStore.dfy`, `OrderedLaws.dfy`, `OrderedTokens.dfy` | positional arrays per partition: keys, cells, shift loops, cached counts, runs, and the token streams that stay with positions |
| `Matching.dfy`, `Punctuation.dfy`, `Tokens.dfy`, `SearchLaws.dfy`, `Rows.dfy`, `View.dfy`, `ViewLaws.dfy` | substring, punctuation and token search; filter, sort, paginate, and what each shows |
| `Planner.dfy`, `PlannerLaws.dfy`, `Environments.dfy`, `PlannerExact.dfy`, `FullTables.dfy` | the three pre-filters, what they come to, and exactly when full tables lose a row |
| `Registry.dfy`, `IndexLaws.dfy`, `AnswerLaws.dfy` | the lazy full-text index and what it holds, the whole query, and what it answers |
| `Decoders.dfy`, `QueryParser.dfy`, `QueryLaws.dfy`, `QueryFormat.dfy`, `RustQuery.dfy`, `RustLaws.dfy` | percent-decoding and query strings, parsed and written |
| `Json.dfy`, `JsonPools.dfy` | value pools, the printer, and a reader of the RFC 8259 grammar |
| `Blueprint.dfy`, `PlanLaws.dfy`, `DisplayLaws.dfy` | query plans and what they fetch; display values and what they show |

Main results:

- **Ordered sources.** `OrderedLaws.Run`: over any log of appends, insertions, removals, clears and
  full-text lookups on any partitions, each partition is the list its own operations make, and the
  index is never stale unmarked. `OrderedTokens.RunTexts` adds, over any such log, when the token
  stream at a position is that of its item. `OrderedSource.MoveKey` requires its target not to be
  live, and every shift meets that.
- **Planner.** `Registry.Source.Query` keeps exactly the rows of one predicate, for any filters, in
  the starting order; `PlannerLaws.KeepsIsOneLine` turns that into a predicate over the set of
  filters when the tables hold every grouped one, `PlannerExact.AgreesIff` gives the exact condition
  for it, over all lawful environments, and `AnswerLaws.AnswerMeaning` says which rows are shown in
  terms of the cells, lines, tokens, labels and index replies alone.
- **Index.** `Registry.RebuiltIff`: a rebuilt index holds, for each row and searchable field, the token
  stream or else the text, once, in the order of the rows, and nothing more. `IndexLaws.IndexTrueIff`: after any log of puts, stored token streams and deletes, when
  the index is true of a field of a row.
- **Parser.** `QueryParser.ParseBuffer` works on a mutable array that it cuts and decodes in place,
  and shows the same query as a pure split and decode of the original text. `QueryFormat` writes
  queries: `ParseInvertsWrite` brings every query back, and `MeaningWritable` shows that whatever the
  parser returns can be written.
- **JSON.** `JsonPools.Context.ToJson` prints a text that reads back as the value tree, after any
  pushes and sets; a value put into an array or map stays as it was then. New arrays and maps are
  empty, and no handle is given twice, exactly while fewer than 2^32 ids were given.
- **Plans.** `PlanLaws.PlanFetches` says exactly what a plan fetches, and `Blueprint.PlanIsComplete`: every value of every used field displays with the planned
  lookups as it would with the whole source fetched. `DisplayLaws.PlannedLabels`: references, arrays
  of them and shapes with one show the labels of the rows they name.

External parts are parameters: `lemma_fold`, `lemma_query`, `lemma_tok_encode`, `strtod`, `qsort`,
`corm_pos`, derive providers, and the load callback. The laws assumed of them are predicates named in
the contracts that use them (`Matching.FoldLaw`, `Registry.SearchLaw`, `View.QsortLaw`). A corm map
opened without sorting iterates in insertion order; in a record source the key `row:field` names a
cell of the row's record.

Where the code falls short of its intent the model keeps the code, and a lemma gives the exact
condition:

- A delete or move in a plain map leaves `row:field` entries behind, although
  `include/hyle/registry.h:119` says that all of them are removed: `OrderedLaws.PlainAppendIff`,
  `PlainInsertIff`, `PlainRemoveIff`, with the counterexample `PlainRemoveLeaks`.
- In a plain map two rows share flat keys when one row id goes on with a colon after the other, as
  rows of the partitions "a" and "a__0000:b" do: `Records.FlatKeysCollideIff`,
  `OrderedLaws.SeparateIff`, `ColonRowsCollide`. Runs on plain maps are proved for partitions that are
  separate; records need not be.
- The scan that counts a partition also counts others whose name extends it after `__`:
  `OrderedLaws.CacheAgreesIff`, `FirstAccessIff`, with "a" and "a__b" in `TwoPartitions` and
  `CacheMisses`.
- Long partition values make different positions share a key: `OrderedKeys.FourDigitKeysDistinct`.
  Operations are proved wherever the buffer carries the keys they reach: `OrderedKeys.CarriesFour`.
- A delete leaves the row's token streams, and the index prefers them to the text, so it can hold a
  text that no row has any more: `IndexLaws.IndexTrueIff`, `TextIndexTrueIff`, with the
  counterexample `DeletedTextStays`.
- In an ordered source the streams stay with the positions while the items move, as
  `OrderedLaws.RemoveKeepsTokens` shows. A removal or insertion keeps them true of the items exactly
  when each is true of the item that moves to it: `OrderedTokens.RemoveTruthIff`, `InsertTruthIff`;
  over a log, exactly where nothing was ever coded at the position or the item has the text last
  coded there: `RunTexts`.
- A reference filter that finds no room in the tables of the pre-filter is tested as text, which can
  lose rows that its group asks for: `PlannerLaws.TakenIff`, `PlannerExact.AgreesIff`, with a
  seventeenth filter that loses a row in `FullTables.SeventeenthLoses`. It loses none exactly when each
  such filter is harmless (`PlannerExact.Harmless`): it repeats a value of a plain-reference group of
  two values that both found room, its value occurs in every value asked of the field, and keys cut at
  512 bytes fail another test too. The condition is exact over all environments in which the filters
  take the same ways, the fold is lawful and slugs have positions of their own, and all cells.
- `json_escape` allocates `2 * len + 3` bytes and may need more: `JsonPools.EscapeFitsIff`,
  `EscapeOverflows`. The methods that print require a fit of what they escape.
- A map key is cut to 255 bytes. A name is kept whole exactly if it is no longer than what the id and
  the dot leave (`JsonPools.CutKeyIs`), and two names are one field exactly when they are alike in that
  many bytes and no shorter: `KeysMeetIff`; two such names give a map of one member in `NamesMeet`.
- Value ids are 32-bit and come round. A handle is new exactly while fewer than 2^32 ids were given
  (`JsonPools.HandlesDifferIff`); after that a new string replaces one in use, and a new array can have
  elements, although `include/hyle/value.h:104` promises an empty one: `StringReplaced`,
  `ArrayNotEmpty`.
- A NaN among different numbers makes the sort comparator no order: `View.ComparatorIsOrderIff`, with
  "1", "nan", "2" in `NaNTiesWithAll`.
- `(page - 1) * per_page` wraps in 32 bits: `View.PastEndEmptyIff`, `FarPageRepeatsFirst`.
- `include` items are decoded twice: `QueryLaws.IncludeOnceIff`, `IncludeDecodesTwice`.
- An override for a name of 64 bytes or more goes to the field named by its first 63, and the 65th
  override is dropped: `QueryLaws.OverrideReachesIff`, `LongNameMisses`, `SixtyFifthIsDropped`.
- `hyle_ordered_key_at` builds a key for any position, occupied or not; `hyle_val_array_get` and
  `hyle_val_map_get` return a string holding the element's JSON text.

## Model

| member | source | states |
|---|---|---|
| OrderedKeys.KeyDecodes | src/registry.c:1300-1303 | every key `pval__%04d` decodes to its partition and position, for all partitions (underscores included) and all positions (five digits and more, negatives) |
| OrderedKeys.KeyInjective | src/registry.c:1300-1303 | two keys are equal exactly when partition and position are |
| OrderedKeys.BuildKeyExact | src/registry.c:1326-1328 | a partition value of at most 114 bytes never outgrows the 128-byte key buffer, at any 32-bit position |
| OrderedKeys.FourDigitKeysDistinct | src/registry.c:1326-1328 | the four-digit keys of a partition stay distinct exactly when the value has at most 121 bytes |
| OrderedKeys.CarriesBelow | src/registry.c:1326-1328 | a buffer that carries the key of the last of n positions carries those of all before it, uncut |
| OrderedKeys.CarriesFour | src/registry.c:1326-1328 | the buffer carries the keys of up to 10000 positions exactly when the value has at most 121 bytes |
| OrderedKeys.KeyExamples | src/registry.c:1300-1303 | position 7 of "list" is "list__0007", position -3 of "a" is "a__-003" |
| Records.TokenKeyIs | src/registry.c:300-310 | a token key is the row, a colon and the field, cut to 1023 bytes |
| EntryLaws.ItemIs | src/registry.c:284-295 | of the entries of one name the last decides the record, a missing value being the empty text |
| EntryLaws.LastCodeIs | src/registry.c:296-313 | of the entries of one name the last whose text encodes decides the token stream |
| OrderedKeys.CountedAsIff | src/registry.c:1314-1316 | the counting scan takes a key of q for one of p exactly when `q__` begins with `p__` |
| Records.PutFields | src/registry.c:284-313 | the field writes of a put overlay the row's record with the named entries and touch no other row, in record and plain maps; token streams follow what encodes |
| Records.FlatKeysCollideIff | src/registry.c:293-295 | two rows can share a flat key exactly when one row id goes on with a colon after the other |
| Records.RenameFields | src/registry.c:1343-1360 | the rename loop of a plain-map move, even if it revisits entries it inserts, overlays the target row with the source row's fields and changes no other row |
| OrderedSources.OrderedSource.constructor | src/registry.c:1485-1523 | a new ordered source is empty, nothing is loaded, the index is marked stale, and the invariant holds |
| OrderedSources.OrderedSource.Put | src/registry.c:267-318 | the row is live and its cell overlaid; no other row changes; token streams follow what encodes; the index is marked stale |
| OrderedSources.OrderedSource.Del | src/registry.c:322-335 | the row is gone; its record goes with it, a plain row's entries and the token streams stay; the index is marked stale |
| OrderedSources.OrderedSource.MoveKey | src/registry.c:1323-1366 | one item moves to a position that must not be live; source and target rows change, no other |
| OrderedSources.OrderedSource.EnsureLoaded | src/registry.c:1368-1388 | the first access loads and counts the partition without changing what it shows, and leaves all other partitions alone; the token streams are the loader's; an index not marked stale is still that of the present maps |
| OrderedSources.PartitionCount | src/registry.c:1306-1320 | the scan counts the live rows whose key starts with the partition and two underscores |
| OrderedSources.OrderedSource.OrderedCount | src/registry.c:1525-1537 | the count is the length of the partition's list |
| OrderedSources.OrderedSource.KeyAt | src/registry.c:1539-1548 | the key of the given position, cut to the buffer, negative and large ones included, whether or not it is occupied; nothing shown changes |
| OrderedSources.OrderedSource.Append | src/registry.c:1550-1570 | the list grows by the item, overlaid in a plain map on what lay past the end; other partitions and density are kept; token streams are stated, and an index not marked stale is that of the present maps |
| OrderedSources.OrderedSource.InsertAt | src/registry.c:1572-1600 | in range, the items shift up and the new one stands at the position; out of range nothing shown changes; other partitions and density are kept; token streams are stated, and an index not marked stale is that of the present maps |
| OrderedSources.OrderedSource.RemoveAt | src/registry.c:1602-1627 | in range, the item goes and the later ones shift down; out of range nothing shown changes; what stays past the end is stated; token streams are stated, and an index not marked stale is that of the present maps |
| OrderedSources.OrderedSource.Clear | src/registry.c:1629-1649 | the partition is empty and dense, and what its cells keep is stated; token streams are stated, and an index not marked stale is that of the present maps |
| OrderedSources.OrderedSource.Refresh | src/registry.c:751-788 | a lookup rebuilds a stale index, from the present rows, fields and token streams, and changes nothing else; the index is what it was built from, not the postings |
| OrderedStore.StoredItems | src/registry.c:1300-1342 | a loaded partition has as many items as its count says, and each is what the maps hold under its key: the record, or the flat entries that go on with a colon and a name |
| OrderedStore.LoaderItems | src/registry.c:1368-1388 | before the first access, unless rows are counted along, it has the items its loader supplies |
| OrderedStore.FirstCount | src/registry.c:1525-1537 | a new source counts exactly what its loader supplied |
| OrderedLaws.RecordModeIsList | src/registry.c:1330-1342 | with records the specifications of append, insert and remove are exactly s + [x], s[..p] + [x] + s[p..] and s[..p] + s[p + 1..] |
| OrderedLaws.PlainAppendIff | src/registry.c:1343-1363 | a plain-map append is a list append exactly when the new item has all fields of the stale row it lands on |
| OrderedLaws.PlainInsertIff | src/registry.c:1343-1363 | a plain-map insertion is a list insertion exactly when every item covers the fields it lands on |
| OrderedLaws.PlainRemoveIff | src/registry.c:1343-1363 | a plain-map removal is a list removal exactly when every shifted item covers the fields it lands on |
| OrderedLaws.PlainRemoveLeaks | src/registry.c:331-332 | two items with different fields: removing the first leaves its extra field on the second |
| OrderedLaws.CacheAgreesIff | src/registry.c:1306-1320 | in a dense partition the cached count equals a fresh scan exactly when no live row of another partition is counted along |
| OrderedLaws.FirstAccessIff | src/registry.c:1381-1386 | a first access shows exactly what the loader supplies, and is dense, exactly when no live row of another partition is counted along |
| OrderedLaws.TwoPartitions | src/registry.c:1368-1388 | one item in q and then a first access to p: p shows a blank item, and is not dense, exactly when the scan counts q along |
| OrderedLaws.CacheMisses | src/registry.c:1306-1320 | accessed first, "a" keeps a count of 0 while a scan finds the row of "a__b" |
| OrderedLaws.SeparateIff | src/registry.c:293-295 | no fields of two partitions can share a flat key exactly when neither value goes on with a colon after a key of the other |
| OrderedLaws.ColonRowsCollide | src/registry.c:293-295 | a field of a row of "a__0000:b" shows up on a row of "a" |
| OrderedLaws.RemoveKeepsTokens | src/registry.c:1323-1366 | removing the first of two items leaves the removed text's token stream with the item that moves into its place |
| OrderedLaws.Perform | src/registry.c:1550-1649 | each operation on a record partition, or on a plain one of one field-name set, is the list operation, keeps that condition, and codes the texts it puts and no others |
| OrderedLaws.Run | src/registry.c:1550-1649 | over every log of operations and lookups each partition equals the replay of its own operations on a list, dense partitions stay dense, and the index is never stale unmarked |
| OrderedTokens.RemoveTruthIff | src/registry.c:1602-1627 | if the token streams of a partition are those of its items, a removal keeps that exactly when each stream is true of the item that moves to its position |
| OrderedTokens.InsertTruthIff | src/registry.c:1572-1600 | an insertion keeps it exactly when each stream is true of the item that moves to its position, and the one at the position, once the texts are put, of the new item |
| OrderedTokens.NewItemTrueIff | src/registry.c:296-313 | of an item whose texts all encode it is, exactly when the item has the field or no stream was there |
| OrderedTokens.RemoveFrom | src/registry.c:1602-1627 | the operation leaves the streams as they are, and them true exactly under that condition |
| OrderedTokens.InsertInto | src/registry.c:1572-1600 | the operation leaves the streams true exactly under that condition |
| OrderedTokens.AppendTo | src/registry.c:1550-1570 | an append leaves the streams true exactly when the one at the new position is, once the texts are put |
| OrderedTokens.RunTexts | src/registry.c:1550-1649 | over every log, a stream is true of the item at its position exactly when nothing was ever coded there or the item has the text that was last coded there, whatever moved since |
| Matching.FindSub | src/view.c:36-49 | the nested scan finds a substring exactly when there is one |
| Matching.CiSubstr | src/view.c:82-114 | case-folded containment, bytewise without case when a fold fails; an empty value matches everything, any other nothing in a missing cell |
| Matching.CiSubstrFolded | src/view.c:52-80 | with the value folded beforehand the answer is that of the per-row search, also when folding the cell fails |
| SearchLaws.TextFoundIff | src/view.c:52-114 | a text is found exactly when the folds, in buffers of 256 and 4096 bytes, succeed and one stands in the other byte by byte, or one fails and the bytes agree but for capitals |
| Punctuation.PunctNormalize | src/view.c:124-154 | the buffer holds the normal form of the text, cut to the buffer, and a NUL |
| Punctuation.NormIsNormal | src/view.c:121-154 | a normal form has only words and single spaces, no apostrophe, no space at its end |
| Punctuation.NormIsStable | src/view.c:124-154 | a normal form is its own normal form |
| Punctuation.NormOccurs | src/view.c:124-154 | the normal form of a text occurs in that of any text around it that fits the buffer |
| SearchLaws.NormGrows | src/view.c:124-154 | one byte more adds to the normal form of a text that fits nothing, unless it is a letter, digit or byte above 127, and then that byte, after a space if a gap other than apostrophes came before it |
| SearchLaws.SearchFoundIff | src/view.c:187-220 | a search text is found exactly when the folds of the normal forms succeed and one stands in the other byte by byte |
| Punctuation.PunctSearchFinds | src/view.c:187-220 | punctuation search never misses a literal occurrence in a text that fits its buffer, whatever the length of the query |
| Matching.SearchFinds | src/view.c:82-114 | plain search never misses a literal occurrence, whether or not the folds succeed |
| Punctuation.CiSubstrPunct | src/view.c:187-220 | the search compares the folded normal forms, and fails when either fold fails |
| Tokens.MultiRefTokenMatch | src/registry.c:402-425 | the token scan decides whether any of the non-empty values is among the newline-separated tokens |
| Tokens.MultiRefAllTokensMatch | src/registry.c:429-457 | the token scan decides whether all of the non-empty values are tokens |
| Tokens.TokenMatch | src/view.c:233-254 | the token scan decides case-insensitive membership; a missing or empty value always matches |
| SearchLaws.TokenIsLine | src/registry.c:402-457 | a token of a text is one of its lines, from a newline or its start to the next or its end |
| SearchLaws.LineAlikeIff | src/view.c:233-254 | the token test of the view finds a line that agrees with the value but for capitals |
| View.FilterRows | src/view.c:272-394 | folding values and search text once, before the row loop, keeps exactly the rows that pass every filter and the search, in order |
| ViewLaws.PassingMeaning | src/view.c:272-394 | the rows that pass are those whose cell, under a key of at most 511 bytes, has the value of every filter as a text or a line, and in which the folded search text is found; a text that does not fold is not searched for |
| View.ComparatorIsOrderIff | src/view.c:405-426 | after the all-numbers pass the comparator, ascending or descending, is a total preorder exactly when no NaN stands among different numbers |
| View.NaNTiesWithAll | src/view.c:405-426 | of the cells "1", "nan" and "2" the NaN ties with both others, which do not tie |
| View.OrderByKey | src/view.c:405-421 | the order is: no cell, the empty text, then numbers by value or texts without case |
| ViewLaws.SortedMeaning | src/view.c:405-495 | a sorted view is a permutation of the rows in which none stands after a later one of the order: no cell, the empty text, numbers by value if all texts are numbers, else texts as in a dictionary without capitals; reversed when descending |
| View.MixedComparesInACircle | src/view.c:482-485 | without that pass "9" < "10" < "1a" < "9" |
| View.SortRows | src/view.c:428-495 | the result is a permutation of the rows, sorted in the chosen direction; without a sort field the rows as they are |
| View.LoadEntries | src/view.c:452-485 | the two passes give every row its sort entry, numeric exactly when every text of the field is a number |
| View.Paginate | src/view.c:499-545 | the page and the total, which does not depend on the page |
| View.UnpagedShowsAll | src/view.c:513-521 | with page or page size 0 all rows are shown, without a sort field in the order there is |
| View.PageShows | src/view.c:524-545 | a page that starts inside the rows shows, one by one, those that are shown without paging from (page - 1) * per_page on, as many as there are or fit |
| View.InRangeNeverWraps | src/view.c:524-528 | a page that starts inside the rows starts there in 32-bit arithmetic too |
| View.PagesCover | src/view.c:499-545 | pages 1 to the last concatenate to exactly the rows |
| View.PastEndEmptyIff | src/view.c:524-528 | a page past the end is empty exactly when its 32-bit start is past the end |
| View.FarPageRepeatsFirst | src/view.c:524-528 | page 2147483649 of two rows is page 1 again |
| View.ApplyView | src/view.c:565-627 | the output is a page of the sorted filtered rows, all of them without paging, and the total is the number of filtered rows |
| Planner.PrefilterFullText | src/registry.c:790-874 | the answered filters are erased and the candidates are the fold of their hits |
| Planner.FullTextMeaning | src/registry.c:850-871 | the candidates are exactly the rows every answered filter hits, in the first one's order |
| Planner.CollectRefs | src/registry.c:501-543 | pass 0 takes reference filters in order until a table is full, and tracks the plain ones per field |
| Planner.SwapRemove | src/registry.c:577-586 | the scan replaces the entry by the last one |
| Planner.SwapOutMembers | src/registry.c:577-586 | replacing an entry by the last removes exactly that entry |
| Planner.PruneRefs | src/registry.c:549-593 | the pruning loops leave the taken filters in the order that later decides a field's operator |
| Planner.OrderMembers | src/registry.c:549-593 | what pruning leaves is exactly the filters whose plain-reference field is asked for at least two values, and all multi-reference ones, each once |
| Planner.RowMatchesIsGroupOk | src/registry.c:666-681 | the row test is the group's all-or-any meaning; answering "no match" for a plain reference in AND mode is right once two values differ |
| Planner.AllWithinAny | src/registry.c:673-679 | AND rows are OR rows, and the modes agree when all filters of the group ask for one value |
| Planner.IntersectRows | src/registry.c:374-399 | intersecting by scanning the smaller set keeps the common rows in the base order |
| Planner.CombineGroups | src/registry.c:598-699 | the rows are those satisfying every field's group, or none were pre-filtered if there is no group |
| Planner.PrefilterMultiRef | src/registry.c:475-710 | exactly the grouped filters are erased, and the rows left are those of the base that satisfy every group |
| Planner.StoredLabelsMatch | src/registry.c:926-953 | the token scan decides whether the label of any stored token matches |
| Planner.FindQ | src/registry.c:955-995 | a row matches the search text in its id, a stored value, or the label of something it refers to |
| Planner.PrefilterQ | src/registry.c:997-1019 | the rows left are those of the base that match the search text |
| PlannerLaws.StagesKeep | src/registry.c:1054-1089 | filtering in stages and erasing what a stage dealt with neither loses nor repeats a filter: the result is one sift by one predicate |
| Registry.KeptInside | src/registry.c:1054-1089 | kept rows are rows of the source, each once; with no full-text filter all rows that satisfy the predicate |
| PlannerLaws.TakenIff | src/registry.c:494-543 | a filter is taken exactly when it is a reference filter reached with fewer than 32 taken, on fewer than 16 fields |
| PlannerLaws.FewFilters | src/registry.c:369-370 | at most 16 reference filters, or at most 32 on fewer than 16 fields, all find room |
| PlannerLaws.KeepsIsOneLine | src/registry.c:475-710 | when every grouped filter finds room the predicate is one line over the set of filters |
| PlannerLaws.KeepsWithTwins | src/registry.c:475-710 | when each filter that finds no room repeats one that does, the kept rows are those of the one line that pass the repeats as texts |
| PlannerExact.HarmlessAgree | src/registry.c:494-543 | when every grouped filter without room is harmless, the kept rows are those asked for, in a lawful environment |
| PlannerExact.Lost | src/registry.c:494-543 | when one is not, a lawful environment like this one has a row that the filters ask for and the planner drops |
| PlannerExact.AgreesIff | src/registry.c:494-543 | if some row can satisfy the filters: the kept rows are those the filters ask for, in every lawful environment like this one and for all cells, exactly when every grouped filter without room is harmless |
| FullTables.SeventeenthLoses | src/registry.c:520-523 | sixteen fields asked for "x" and then the first for "y": a row asked for is lost, and kept when that filter comes second |
| PlannerLaws.FilterOrderIrrelevant | src/registry.c:475-710 | reordering or repeating filters that all find room does not change which rows are kept |
| AnswerLaws.WantedIff | src/registry.c:475-874 | what a filter demands, said of the cells: a reply of the index, a line that is the token of any or all values asked, one of several plain references, or a text in the cell |
| AnswerLaws.RowHasQIff | src/registry.c:926-995 | the search text is in the id, in the text of a field, stored or derived, or in the label, by the first field but "id", of the row that a line names by slug or position |
| AnswerLaws.PlaceIff | src/registry.c:501-543 | a filter finds room when fewer than 32 reference filters come before it, on fewer than 16 fields |
| AnswerLaws.AnswerMeaning | src/registry.c:1023-1099 | with room for every grouped filter a query shows a page of exactly the rows that satisfy every filter and the search text, in the order of the source or of the first reply of the index |
| AnswerLaws.WrittenFilters | src/query.c:37-190 | the filters of a written query come to the planner as they were written, operators included |
| Registry.ParsedOpsAgree | src/query.c:179-185 | whatever the query string, its filters agree on each field's operator |
| Registry.Source.constructor | src/registry.c:192-263 | a registered source is empty, and its index is marked stale |
| Registry.Source.Put | src/registry.c:267-318 | the row joins at the end unless present, its record grows by the stored entries, token streams follow what encodes, and the index invariant holds |
| EntryLaws.PutStores | src/registry.c:284-295 | after a put each field named holds what the record type stores for the last of its values, and no other field of any row changed |
| Registry.Source.PutTokens | src/registry.c:112-139 | the row joins and the token stream is stored, its length taken in 16 bits; the index invariant holds |
| Registry.Source.Del | src/registry.c:322-335 | row and record go, token streams stay; the index invariant holds |
| Registry.RebuiltIff | src/registry.c:756-787 | a posting is in a rebuilt index exactly when its row is a row, its field a searchable one with a name, and it has the token stream of the row and field, or without one the text there, not empty |
| Registry.RebuiltOnce | src/registry.c:756-787 | each stands in it once, when searchable fields have different names |
| Registry.RebuiltInOrder | src/registry.c:756-787 | postings of an earlier row stand before those of a later one |
| Registry.Source.RebuildIndex | src/registry.c:751-788 | the loops build exactly that index, and clear the mark |
| Registry.Source.Refresh | src/registry.c:730-755 | when a searchable field is asked for, the index is that of the current rows |
| Registry.Source.Query | src/registry.c:1023-1099 | the answer is a page of the sorted rows kept by one predicate, as from an index that holds the current rows; the total is the number kept; a field's operator is the first in the order pruning leaves |
| IndexLaws.Replay | src/registry.c:112-335 | a log of puts, stored token streams and deletes leaves the texts and the streams that a fold of the log says |
| IndexLaws.PostsTruthIff | src/registry.c:765-781 | what a rebuild posts stands for the present text exactly when there is no token stream or it is that of the text |
| IndexLaws.IndexTrueIff | src/registry.c:112-335 | after any such log, the index is true of a field of a row exactly when no tokens were ever put there or the present text has those last put |
| IndexLaws.TextIndexTrueIff | src/registry.c:322-335 | when only texts are put, exactly when none was ever put there or one since the last delete |
| IndexLaws.DeletedTextStays | include/hyle/registry.h:114-127 | a text deleted with its row is still in the index once the row is put back without it |
| Decoders.UrlDecode | src/query.c:6-22 | decoding in place leaves the decoded text and a NUL inside the value's own bytes |
| Decoders.QsDecodeInto | src/url.c:5-27 | the bounded decode writes exactly a prefix of the full decode |
| Decoders.QsParam | src/url.c:29-52 | the value of the first parameter with the key, decoded and cut to the buffer; empty if there is none |
| Decoders.FindParamIs | src/url.c:39-50 | the first piece that is the key, an equals sign and a value decides |
| Decoders.PercentDecode | crates/hyle/src/query.rs:74-93 | the loop decodes escapes of two hex digits and leaves the rest |
| Decoders.CDecodersAgreeIff | src/query.c:6-22 | the two C decoders agree exactly on texts whose escapes the stricter one accepts |
| Decoders.DecodersAgree | src/query.c:6-22 | on texts whose percent signs each start two hex digits all three decoders agree |
| Decoders.DecodeInvertsEncode | src/query.c:6-22 | decoding inverts percent-encoding (section 2.1 of RFC 3986, with plus for space) of any bytes |
| Decoders.EscapeExamples | src/query.c:6-22 | what the three decoders make of escapes that are not two hexadecimal digits |
| QueryParser.CountParams | src/query.c:24-35 | the count is one more than the number of ampersands, so it bounds the parameters |
| QueryParser.CutParams | src/query.c:52-86 | cutting the buffer yields a slot for every parameter of the text: the guard never stops early |
| QueryParser.TakeSlot | src/query.c:96-177 | one parameter is decoded inside its own slot and taken over as the meaning says |
| QueryParser.TakeIncludes | src/query.c:144-164 | the list is cut and decoded in place inside the value |
| QueryParser.ApplyOps | src/query.c:179-185 | each filter gets the last override of its field |
| QueryParser.ParseBuffer | src/query.c:37-190 | the buffer after the call, read through the returned positions, shows exactly the meaning of the original text |
| QueryParser.ShowsUnique | src/query.c:37-190 | the returned positions show one query only, so the buffer determines it |
| QueryLaws.CollectSplits | src/query.c:96-177 | filters and overrides are collected independently, the overrides up to 64 |
| QueryLaws.OverridesIndependent | src/query.c:91-123 | how overrides and filters are interleaved does not matter |
| QueryLaws.LastOverrideWins | src/query.c:179-185 | the last recorded override of a field decides |
| QueryLaws.OverrideAtEnd | src/query.c:105-123 | an override added at the end decides the filters on the field named by its first 63 bytes, if fewer than 64 came before, and no others |
| QueryLaws.OverrideReachesIff | src/query.c:108-119 | whatever the query before it, it reaches the field it names exactly when the name is shorter than 64 bytes |
| QueryLaws.LongNameMisses | src/query.c:108-119 | a name of 64 bytes gives its override to the name of 63 that it starts with |
| QueryLaws.SixtyFifthIsDropped | src/query.c:111-112 | the 65th override is dropped, although it is the last |
| QueryLaws.ParseInvertsFormat | src/query.c:37-190 | any list of field filters, written as a query string, parses back to itself |
| QueryFormat.ParseInvertsWrite | src/query.c:37-190 | a query with sort field and order, page, page size, search text, include list, and filters with operators, written as a string, parses back to itself |
| QueryFormat.MeaningWritable | src/query.c:37-190 | whatever the parser returns for a string of bytes can be written, and then parses back to itself |
| QueryFormat.LastNumberDecides | src/query.c:134-137 | page=n or per_page=n at the end sets that number, below 2^32, and leaves all else as it is |
| QueryFormat.PageNumberIs | src/query.c:135-137 | a numeral is held to 64 bits and then taken modulo 2^32, with its sign, whatever follows it |
| QueryFormat.LastTextDecides | src/query.c:138-139 | q=text at the end sets the search text only |
| QueryFormat.LastSortDecides | src/query.c:125-133 | sort=field:order at the end sets field and order only, ascending unless the order is desc |
| QueryFormat.LastSortKeepsOrder | src/query.c:131-132 | sort=field without an order keeps the order there was |
| QueryFormat.LastIncludeAdds | src/query.c:144-164 | an include list at the end, its items encoded twice, adds its items |
| QueryFormat.LastFilterAdds | src/query.c:165-177 | a field filter at the end is added with the operator its field has; one without a text is not |
| QueryFormat.PassedOver | src/query.c:140-143 | custom, mode and search_mode change nothing |
| QueryFormat.NamesAre | src/query.c:105-143 | which names are those of operators and of fields |
| QueryFormat.PagedExample | src/hyle_test.c:384-388 | page=2&per_page=10 gives page 2 and page size 10 |
| QueryLaws.IncludeOnceIff | src/query.c:150 | the list is the once-decoded one exactly when no item has a plus sign or a complete escape left |
| QueryLaws.IncludeDecodesTwice | src/query.c:103-150 | a plus sign sent as %2B arrives as a space |
| RustQuery.ParseQueryParams | crates/hyle/src/query.rs:37-72 | page numbers are the last valid ones, at least 1; each other key has its non-empty values joined by commas, in order of the keys' first values |
| RustQuery.KeysOfIff | crates/hyle/src/query.rs:55-67 | the keys are exactly those given a value and not used for paging, each once |
| RustLaws.ParseWritten | crates/hyle/src/query.rs:37-93 | page numbers and filters of different keys, written as a query string, parse back to themselves |
| RustLaws.LastNumberIs | crates/hyle/src/query.rs:43-54 | the last number given for a key is the page, at least 1; without one it is the default |
| RustLaws.UsizeOfDigits | crates/hyle/src/query.rs:43-54 | numerals below 2^64 are numbers, with or without a plus sign |
| RustLaws.OneMorePair | crates/hyle/src/query.rs:55-67 | one pair more goes after a comma to the filter of its key, or becomes the last filter |
| Json.RenderReadsBack | src/value.c:176-305 | every printed value tree is a JSON text and reads back as the tree |
| Json.EscapesWritten | src/value.c:144-164 | the escapes that are written, and which |
| Json.MarksWritten | src/value.c:217-300 | brackets, braces, commas and colons of arrays and objects |
| JsonPools.EscapeFitsIff | src/value.c:144-164 | the escaped text fits its buffer exactly when there are four plain characters for every control character |
| JsonPools.EscapeOverflows | src/value.c:144-164 | one control character alone needs nine bytes of five |
| JsonPools.JsonEscape | src/value.c:141-174 | the byte loop writes the escaped text and a NUL within the buffer |
| JsonPools.AppendPair | src/value.c:264-295 | growing the buffer and copying appends comma, name, colon and value |
| JsonPools.PrefixDecides | src/value.c:259-266 | a map key starts with the prefix of its own map only |
| JsonPools.MembersIff | src/value.c:253-268 | the members printed for a map are exactly the fields stored under it |
| JsonPools.MembersInOrder | src/ctx.c:15-16 | they are printed in the byte order of their names, as the pool is sorted |
| JsonPools.PrintArray | src/value.c:217-245 | the element loop prints the array of the pooled values |
| JsonPools.PrintMap | src/value.c:248-300 | the pool scan prints the object of the map's fields |
| JsonPools.PoolTextsAreJson | src/value.c:73-126 | in every reachable state each pooled text is a JSON text and reads as the value put there |
| JsonPools.Context.StringVal | src/value.c:43-48 | a string value with the given text; its handle is new exactly while fewer than 2^32 ids were given; no value of another handle changes |
| JsonPools.Context.NewArray | src/value.c:50-54 | an array value, empty while its handle is new, which it is exactly while fewer than 2^32 ids were given; nothing else changes |
| JsonPools.Context.NewMap | src/value.c:56-60 | a map value, likewise |
| JsonPools.HandlesDifferIff | src/value.c:43-60 | the first n handles are all different exactly when n is at most 2^32 |
| JsonPools.UnusedId | include/hyle/value.h:103-115 | an id not given out names no string, an empty array and an empty map |
| JsonPools.StringReplaced | src/value.c:43-48 | after 2^32 ids the next string gets the handle of the first, which then has its text |
| JsonPools.ArrayNotEmpty | src/value.c:50-54 | after 2^32 ids the next array gets the handle of the first, and has its element |
| JsonPools.Context.ArrayPush | src/value.c:73-82 | the array grows by the element as it is now; no other value changes |
| JsonPools.Context.ArrayGet | src/value.c:84-105 | a string whose text reads as the element and can be printed again, or null out of range |
| JsonPools.Context.ArrayLen | src/value.c:107-112 | the number of elements |
| JsonPools.CutKeyIs | src/value.c:122-123 | cutting a map key cuts the field name only, and leaves it whole exactly when it has at most the bytes that the id and the dot leave |
| JsonPools.KeysMeetIff | src/value.c:16-20 | two cut keys are one exactly when the ids are and the names are, or both names are at least that long and alike so far |
| JsonPools.NamesMeet | src/value.c:116-126 | setting two fields of such names leaves one member, with the second value |
| JsonPools.Context.MapSet | src/value.c:116-126 | the field, its name cut to the buffer, holds the value as it is now, other fields stay, no name occurs twice, and the names are in byte order; no other value changes |
| JsonPools.Context.MapGet | src/value.c:128-137 | a string whose text reads as the field's value, or null without the field |
| JsonPools.Context.ToJson | src/value.c:176-305 | null, true, false, a numeral with the sign and value of an integer, the text of a float, a string that reads as the text; for all values the printed tree, which for finite floats reads back |
| JsonPools.ScalarTree | src/value.c:176-205 | such a value is the same null, boolean, number or string as an element |
| Blueprint.NeedsAreMentions | crates/hyle/src/blueprint.rs:181-233 | the references collected from a type are exactly those it mentions at any depth; inside arrays always as lookups |
| Blueprint.CollectReferences | crates/hyle/src/blueprint.rs:181-233 | the recursion inserts every reference up to the first unknown one, and reports that one |
| Blueprint.MakeManifest | crates/hyle/src/blueprint.rs:53-150 | the manifest, or the first error, in the order of the checks |
| Blueprint.PlanCarries | crates/hyle/src/blueprint.rs:78-148 | the conditions are split into the id and the others, and the other parts of the query are carried along |
| PlanLaws.PlanFetches | crates/hyle/src/blueprint.rs:53-150 | the fields are those selected, or all in their order; lookups are exactly what used fields refer to in arrays, and laid-out fields at all; inlines what the other chosen fields refer to outside of arrays |
| PlanLaws.PlanRefuses | crates/hyle/src/blueprint.rs:53-120 | each error, and what is wrong with the query then |
| Blueprint.PlanListsExactly | crates/hyle/src/blueprint.rs:53-150 | lookups and inlines list exactly what the used fields refer to, each once, and all exist |
| Blueprint.PlanSucceedsIff | crates/hyle/src/blueprint.rs:53-150 | a manifest is made exactly when all names are known and everything mentioned exists |
| Blueprint.Resolve | crates/hyle/src/blueprint.rs:160-178 | the base rows and their total, and by id the rows of every listed model that the source has |
| Blueprint.LastRowWins | crates/hyle/src/blueprint.rs:235-242 | of rows with one id the last is found |
| Blueprint.DisplayDepends | crates/hyle/src/view.rs:96-165 | what a value displays as depends only on the models its type mentions |
| DisplayLaws.TextIsWritten | crates/hyle/src/view.rs:206-217 | null is nothing, a boolean true or false, an integer its numeral, a string itself, bytes two hexadecimal digits each, a list its items with ", " between, a map its entries in braces |
| DisplayLaws.TypeIsShown | crates/hyle/src/view.rs:96-165 | a boolean field shows Yes or No, a reference the display field of its row or else the value, an array its items with ", " between, a shape the title and text of its fields that are not null with "; " between |
| DisplayLaws.ValueIsShown | crates/hyle/src/view.rs:74-94 | null shows nothing, a value of a known field as its type shows it, any other as it is written |
| DisplayLaws.NamesIff | crates/hyle/src/view.rs:102-104 | strings, integers and floats name a row by their text, other values none |
| DisplayLaws.PlannedLabels | crates/hyle/src/view.rs:74-165 | with the planned lookups a value that names rows shows the strings of their display fields: as a reference, an array of references, and as part of a shape |
| Blueprint.PlanIsComplete | crates/hyle/src/view.rs:74-165 | with the planned lookups every used field displays as with the whole source fetched |
| Blueprint.ReferenceShowsLabel | crates/hyle/src/view.rs:104-117 | with the planned lookups every reference in the type of a used field, at any depth, displays as the display field of the row it names |

## Left out

- Save callbacks of ordered sources, and load callbacks that write anything but the partition's own rows from position 0 on.
- Queries over ordered sources: queries are modelled on sources that are not ordered.
- OrderedLaws.Run: positions whose key reaches 128 bytes, which the buffer cuts, and in plain maps partitions that are not separate; what goes wrong with either is stated by `OrderedKeys.FourDigitKeysDistinct` and `OrderedLaws.SeparateIff`.
- OrderedTokens.RunTexts: the partitions must be separate in record sources too, since token keys are flat there as well; token keys of 1024 bytes or more are excluded.
- OrderedTokens.InsertInto: token keys of 1024 bytes or more are excluded, as in `OrderedTokens.AppendTo`.
- Records.PutFields: in plain maps, field names of 128 bytes or more, which the 256-byte key of a move may cut.
- OrderedSources.OrderedSource.Put: rows that are not positions of a loaded partition.
- OrderedSources.OrderedSource.Del: in plain maps, rows that share flat keys with a loaded partition.
- OrderedSources.OrderedSource.Refresh: the index is the maps it was built from, not the postings; how postings come from maps is `Registry.Source.RebuildIndex`.
- Plain (non-record) sources in the planner: `corm_field_get` on such a map is outside this repository.
- Registration of several sources, re-registration, and failure of an unknown source: one source is modelled, its targets are given with each query.
- OrderedSources.OrderedSource.Append: counts are natural numbers up to the largest 32-bit integer; the overflow after that is not modelled.
- Registry.Source.Query: derived fields are not searchable by full text, because derive providers change without marking the index; a row key of 1024 bytes or more is excluded.
- IndexLaws.IndexTrueIff: rows whose ids go on with a colon after one another, and keys of 1024 bytes or more, which share token streams.
- Planner.PrefilterMultiRef: reference fields with names of 64 bytes or more, which a fixed buffer cuts, are excluded when a source is registered.
- Planner.FindQ: the 1024-byte keys built for labels are taken to fit.
- PlannerLaws.KeepsIsOneLine: assumes that the filters of a field agree on their operator, as parsed ones do; without that the operator is the first in the order of pruning, as `Registry.Source.Query` states it.
- PlannerExact.AgreesIff: of filters that no row can satisfy nothing is said.
- AnswerLaws.AnswerMeaning: when a grouped filter finds no room, `PlannerLaws.KeepsWithTwins` and `PlannerExact.AgreesIff` say what becomes of it.
- SearchLaws.NormGrows: texts that outgrow the buffer; that their normal form is cut is stated by `Punctuation.PunctNormalize`.
- PlanLaws.PlanRefuses: which of several unknown laid-out fields, or unknown references, is reported; `Blueprint.MakeManifest` states it.
- Registry.Source.Put: how a record stores a value (slug to position) is a parameter, as is the token encoder.
- View.FilterRows: with no field list the search reads the flat entries of a plain map, of which the cells are the reading by row; that it finds no cell in a map of records is not modelled.
- Json.RenderReadsBack: the reader takes `\u` escapes up to 007F, all that the printer writes; strings are bytes, without a check of UTF-8.
- JsonPools.Context.ToJson: the text `%g` gives a float is a parameter; it must be a JSON number, which infinities and NaN are not.
- Decoders.PercentDecode: the final replacement of invalid UTF-8.
- View.LoadEntries: `strtod` is a parameter giving a real number, an infinity or NaN.
- View.SortRows: the ids of equal rows come in any order, as `qsort` is not stable.
- Allocation failures, handle closing, `hyle_purify_row`, bindings, and concurrency.
