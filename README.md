# movies-hp: a Dafny model of the watch-list application

movies-hp is a single-page watch list. It reads two tabs of a Google Sheet (movies and
series) as CSV. It normalises every row to a fixed set of fields and enriches the rows, eight
at a time, with metadata from TMDB (The Movie Database). That metadata is cached in the
browser's `localStorage` for seven days. The user can override a wrong match permanently.
The list view filters and sorts the rows of the active tab and offers facet lists for genre,
status and service. A card shows status and subtitle badges. The detail view shows a trailer,
the genre tags and a picker for a different match.

This project models that core in Dafny, module by module:

- `Sheets` (sheets.dfy): the CSV line scanner, as a loop method proved equal to a recursive
  definition. Also the header clean-up, the `raw` dictionary (a loop), the field fall-backs
  and the text-to-rows pipeline.
- `Tmdb` (tmdb.dfy): the storage keys and their three disjoint namespaces. The cache with
  its time-to-live, the override store, result normalisation, and the search, candidate and
  trailer look-ups. They are pure functions (`Resolve`, `ResolveTrailer`), and class
  `LocalStore` holds the store as a `map` field with methods proved equal to those functions.
  The remote service is a function parameter, the clock a `now` parameter, and a ghost log
  records every remote request.
- `MediaHook` (media_data.dfy): the hook's state as class `MediaData`. The batched
  enrichment loop `EnrichBatch` is proved to deliver the batches that partition the rows and
  to leave the lists equal to the merges of the answers. It also holds the merge rule that
  lets the sheet win, and `overrideItem`.
- `App` (app.dfy): `applyFilters`, `applySort` (a sort proved stable, with the comparator's NaN
  behaviour), the facet lists, and the tab, search and correction state changes.
- `FilterBar` (filter_bar.dfy): the service icon and brand look-up, the fallback colour hash,
  the three-letter label and the active status class.
- `MediaCard` (media_card.dfy): the "no subtitles" badge and the status badge.
- `MediaModal` (media_modal.dfy): the status colour, the genre tags, and the detail view's
  state as class `Modal` with its trailer, picker, Escape and selection handlers.

The shared modules are `Wrappers` (Option), `Records` (JavaScript values and plain objects
as `map<string, Value>`, so that object spread is map union), `Text` (the string built-ins,
ASCII only), `Seqs` (filter, `new Set`, `flatMap`) and `Sorting` (an insertion sort with a
comparator, proved stable).

## Model

| member | source | states |
|---|---|---|
| `Records.Or` | src/utils/sheets.js:46-58 | `a \|\| b` is `a` when `a` is truthy and `b` otherwise |
| `Records.TextOf` | src/App.jsx:11-14 | a property reads as text exactly when it is present and holds a string |
| `Records.TextOr` | src/hooks/useMediaData.js:12 | a missing or non-string property reads as the empty string |
| `Text.Lower` | src/App.jsx:11-14 | `toLowerCase` keeps the length and maps each character to its lower-case form |
| `Text.LowerIdempotent` | src/App.jsx:11-14 | lower-casing twice is lower-casing once |
| `Text.LowerAppend` | src/App.jsx:11-14 | lower-casing distributes over concatenation |
| `Text.TrimStart` | src/utils/sheets.js:30 | the result is the suffix left after dropping the leading white space, and it does not start with white space |
| `Text.TrimEnd` | src/utils/sheets.js:30 | the result is the prefix left after dropping the trailing white space, and it does not end with white space |
| `Text.Trim` | src/utils/sheets.js:30 | `trim` gives the slice of the input that has only white space before and after it, and neither starts nor ends with white space |
| `Text.TrimAround` | src/utils/sheets.js:34 | white space around a string without surrounding white space trims to exactly that string |
| `Text.TrimUntouched` | src/utils/sheets.js:30 | a string without surrounding white space is its own trim |
| `Text.TrimEmptyIff` | src/utils/sheets.js:30 | a line trims to '' exactly when it is all white space, so the line filter drops exactly the blank lines |
| `Text.Contains` | src/App.jsx:11 | `includes` holds exactly when the needle occurs at some index |
| `Text.FirstContained` | src/components/MediaModal.jsx:12-15 | the search returns the first key in table order that the text contains, or nothing when none is contained |
| `Text.Split` | src/App.jsx:51 | `split(sep)` gives one piece more than there are separators, and no piece holds the separator |
| `Text.JoinSplit` | src/App.jsx:51 | joining the pieces of a split with the separator gives back the string |
| `Text.SplitJoin` | src/App.jsx:51 | splitting a join of separator-free pieces gives back the pieces |
| `Text.SplitNoSep` | src/App.jsx:51 | a string without the separator splits into itself alone |
| `Text.SplitAfterSep` | src/App.jsx:51 | a separator after a separator-free prefix starts a new piece |
| `Text.TrimmedSplit` | src/App.jsx:51 | `split(sep).map(p => p.trim())` gives one piece per part of the split, piece `k` the trimmed part `k`; no piece holds the separator or surrounding white space |
| `Text.CollapseSpaces` | src/utils/tmdb.js:6 | `replace(/\s+/g, '_')` leaves no white space and never lengthens the string |
| `Text.CollapseNoSpace` | src/utils/tmdb.js:6 | a string without white space is left unchanged |
| `Text.CollapseOneRun` | src/utils/tmdb.js:6 | a white-space run between text without white space and text not starting with white space becomes exactly one '_' |
| `Text.CollapsePlain` | src/utils/tmdb.js:6 | text without white space at the front is copied unchanged |
| `Text.CollapseRun` | src/utils/tmdb.js:6 | a white-space run becomes one '_', or nothing when it continues a run already replaced |
| `Text.CollapseLongerRun` | src/utils/tmdb.js:6 | a run of white space one character longer gives the same result |
| `Text.NatToString` | src/App.jsx:26 | a decimal rendering is all digits, reads back as the number, and has no leading zero |
| `Text.IntToString` | src/App.jsx:26 | a negative number renders as a minus sign in front of its magnitude |
| `Text.DigitPrefix` | src/App.jsx:26 | the longest run of leading digits |
| `Text.ParseInt` | src/App.jsx:26 | `parseInt` is NaN exactly when no digit follows the leading white space and an optional sign |
| `Text.ParseIntRoundTrip` | src/App.jsx:26-29 | `parseInt` of the decimal rendering of any integer gives the integer back |
| `Text.LessIrreflexive` | src/App.jsx:52 | no string sorts before itself |
| `Text.LessTransitive` | src/App.jsx:52 | the string order of `sort()` is transitive |
| `Text.LessTotal` | src/App.jsx:52 | any two different strings are ordered one way or the other |
| `Text.LessAsymmetric` | src/App.jsx:52 | two strings are never each before the other |
| `Seqs.Filter` | src/App.jsx:10-16 | `filter` keeps an element exactly when it satisfies the predicate |
| `Seqs.FilterCounts` | src/App.jsx:10-16 | a filter keeps each element that satisfies the predicate as many times as it occurs, and no other |
| `Seqs.FilterAppend` | src/App.jsx:10-16 | filtering a concatenation filters each part |
| `Seqs.FilterIsSubsequence` | src/App.jsx:10-16 | a filter keeps the kept elements in their original order |
| `Seqs.FilterAll` | src/App.jsx:10-16 | a predicate every element satisfies keeps the whole list |
| `Seqs.FilterIdempotent` | src/App.jsx:10-16 | filtering twice with the same predicate is filtering once |
| `Seqs.Distinct` | src/App.jsx:50 | `[...new Set(s)]` holds the values of `s` and no value twice |
| `Seqs.NoDupPermutation` | src/App.jsx:52 | sorting a duplicate-free list keeps it duplicate-free |
| `Seqs.FlatMap` | src/App.jsx:51 | a value is in the `flatMap` exactly when it is in the piece list of some element |
| `Sorting.Insert` | src/App.jsx:21 | one insertion step keeps the elements, one more than before |
| `Sorting.Sort` | src/App.jsx:21 | the sort returns a permutation of its input |
| `Sorting.InsertSorted` | src/App.jsx:21 | inserting into a sorted list keeps it sorted under a consistent comparator |
| `Sorting.SortSorted` | src/App.jsx:21 | under a consistent comparator no element of the result belongs after a later one |
| `Sorting.SortIdentity` | src/App.jsx:31 | a comparator that never says "after" leaves the order unchanged |
| `Sorting.InsertStable` | src/App.jsx:21 | inserting an element never moves it past an element of a group none of which belongs after another |
| `Sorting.SortStable` | src/App.jsx:21 | the sort is stable: the elements of a group none of which belongs after another come out in their input order |
| `Sheets.ParseCSVLine` | src/utils/sheets.js:3-22 | the loop builds exactly the cells of the recursive scanner definition |
| `Sheets.CellCount` | src/utils/sheets.js:3-22 | a line has at least one cell, and one more cell than commas outside quotes |
| `Sheets.ScanUnquoted` | src/utils/sheets.js:13-17 | without quotes the scanner cuts the text at every comma |
| `Sheets.UnquotedCells` | src/utils/sheets.js:3-22 | a line without quotes parses into its comma-separated pieces, and joining them restores the line |
| `Sheets.Escape` | src/utils/sheets.js:10-11 | doubling the quotes adds one character per quote |
| `Sheets.EncodedTail` | src/utils/sheets.js:13-15 | what follows an encoded first cell is empty or starts with a comma |
| `Sheets.ScanEscaped` | src/utils/sheets.js:10-12 | inside quotes a doubled quote reads as one quote, and the closing quote ends the quoted part |
| `Sheets.ScanEncoded` | src/utils/sheets.js:3-22 | the scanner reads every cell of an encoded row back |
| `Sheets.EncodeRowRoundTrip` | src/utils/sheets.js:3-22 | any cells, quoted with inner quotes doubled and joined by commas, parse back to those cells |
| `Sheets.StripQuotes` | src/utils/sheets.js:34 | `replace(/^"\|"$/g, '')` removes a leading quote exactly when there is one, then a trailing quote exactly when one is left, and keeps the rest in place |
| `Sheets.StripQuotesSurrounding` | src/utils/sheets.js:34 | surrounding quotes are removed as a pair or one-sided, and a string not starting or ending with a quote is left alone |
| `Sheets.HeaderName` | src/utils/sheets.js:33-35 | a header name is no longer than its cell and holds no upper-case letter |
| `Sheets.CellText` | src/utils/sheets.js:41 | a missing cell reads as '', and a cell's text is never longer than the cell |
| `Sheets.QuotedCell` | src/utils/sheets.js:33-41 | a quoted cell with white space around it reads as the text between the quotes, and as a header as that text in lower case |
| `Sheets.PlainCell` | src/utils/sheets.js:33-41 | an unquoted cell with white space around it reads as its text, and as a header as that text in lower case |
| `Sheets.CellTexts` | src/utils/sheets.js:40-42 | one cell text per header column |
| `Sheets.Assign` | src/utils/sheets.js:40-42 | the dictionary's keys are exactly the assigned keys |
| `Sheets.AssignLastWins` | src/utils/sheets.js:40-42 | a key repeated in the headers is bound to the value under its last occurrence |
| `Sheets.RawRow` | src/utils/sheets.js:38-42 | the `raw` dictionary has one key per distinct header |
| `Sheets.RawRowLastWins` | src/utils/sheets.js:40-42 | a header's value is the cell text under its last column |
| `Sheets.BuildRaw` | src/utils/sheets.js:40-42 | the `forEach` loop builds exactly the `raw` dictionary of the definition |
| `Sheets.Pick` | src/utils/sheets.js:46-57 | the `\|\|` chain gives the value of the first filled column, or '' exactly when every column is empty |
| `Sheets.Columns` | src/utils/sheets.js:46-57 | every field has one to three columns, and its own column comes first except for overview, rotten tomatoes and poster |
| `Sheets.FieldValue` | src/utils/sheets.js:45-58 | a field is the picked text of its columns, except that a missing poster is `null` |
| `Sheets.SheetRow` | src/utils/sheets.js:45-58 | a row has exactly the twelve fields, each the value of its columns |
| `Sheets.PickIgnores` | src/utils/sheets.js:45-58 | a column outside a field's fallback chain does not change what the chain picks |
| `Sheets.ProtoNotAColumn` | src/utils/sheets.js:45-58 | no field falls back on a column named `__proto__` |
| `Sheets.FieldIgnoresProto` | src/utils/sheets.js:45-58 | each row field has the same value whether or not `raw` holds a `__proto__` column |
| `Sheets.ProtoColumnIgnored` | src/utils/sheets.js:39-41 | a row is the same whether or not `raw` holds a `__proto__` column |
| `Sheets.SheetRowTitle` | src/utils/sheets.js:46 | a row's title falls back from title to show to name, and the row is kept exactly when one of them is filled |
| `Sheets.RowsOf` | src/utils/sheets.js:37-58 | every data line becomes the row of its cells under the headers, in order |
| `Sheets.Headers` | src/utils/sheets.js:33-35 | one cleaned header name per cell of the first line |
| `Sheets.DataLines` | src/utils/sheets.js:30 | a line is kept exactly when it is a line of the text that is not blank |
| `Sheets.SheetRows` | src/utils/sheets.js:29-59 | the text-to-rows pipeline; its properties are the three lemmas below |
| `Sheets.SheetRowsTooShort` | src/utils/sheets.js:30-31 | fewer than two non-blank lines give no rows, and every kept line is non-blank |
| `Sheets.SheetRowsKept` | src/utils/sheets.js:37-59 | the rows are, in order, the rows of the data lines that have a title, each as many times as it was built, and only those |
| `Sheets.SheetRowsFields` | src/utils/sheets.js:45-58 | every row of a sheet has exactly the twelve fixed fields |
| `Tmdb.TitleKey` | src/utils/tmdb.js:6 | a title in a key holds no white space |
| `Tmdb.CacheKey` | src/utils/tmdb.js:5-7 | a cache key is in neither the override nor the trailer namespace |
| `Tmdb.OverrideKey` | src/utils/tmdb.js:9-11 | an override key is in the override namespace and not in the trailer one |
| `Tmdb.TrailerKey` | src/utils/tmdb.js:101 | a trailer key is in the trailer namespace and not in the override one |
| `Tmdb.KeysDisjoint` | src/utils/tmdb.js:5-11 | cache, override and trailer keys never coincide, whatever the titles, years and ids |
| `Tmdb.KeysIgnoreCase` | src/utils/tmdb.js:5-11 | titles that differ only in letter case share their keys |
| `Tmdb.KeysIgnoreRunLength` | src/utils/tmdb.js:5-11 | titles that differ only in the length of a white-space run share their keys |
| `Tmdb.CacheRead` | src/utils/tmdb.js:13-21 | a cache read answers the entry's data exactly when the entry is at most `TTL` old, and removes only an expired entry |
| `Tmdb.CacheWrite` | src/utils/tmdb.js:23-25 | a cache write adds or replaces only its own key |
| `Tmdb.OverrideRead` | src/utils/tmdb.js:34-40 | an override read answers the stored data, `null` included, exactly when an override entry is stored |
| `Tmdb.CacheRoundTrip` | src/utils/tmdb.js:13-25 | a cached value, `null` included, reads back unchanged for `TTL` milliseconds |
| `Tmdb.CacheExpiry` | src/utils/tmdb.js:18 | an expired entry reads as absent and is removed, so every later read is absent too |
| `Tmdb.OverrideRoundTrip` | src/utils/tmdb.js:28-40 | a saved override reads back unchanged, and it never expires |
| `Tmdb.NormaliseFields` | src/utils/tmdb.js:42-52 | a normalised hit has the seven fields, the image URLs are `null` without a path, the title falls back on the name, and the year is the first four characters of the date |
| `Tmdb.Normalise` | src/utils/tmdb.js:42-52 | a normalised hit has exactly the seven fields and no `undefined` value |
| `Tmdb.Resolve` | src/utils/tmdb.js:54-81 | a lookup makes no request or exactly one search for its kind, title and year |
| `Tmdb.ResolveUnconfigured` | src/utils/tmdb.js:55 | without an API key or a title the lookup answers `null`, touching neither the store nor the service |
| `Tmdb.ResolveOverrideWins` | src/utils/tmdb.js:57-59 | a stored override, `null` included, is the answer whatever the cache holds, and nothing else is consulted |
| `Tmdb.ResolveCacheHit` | src/utils/tmdb.js:61-63 | without an override a fresh cache entry is the answer, and the service is not asked |
| `Tmdb.ResolveRemote` | src/utils/tmdb.js:65-80 | otherwise the service is asked once: a failure answers `null` and caches nothing, no hit caches `null`, and a hit caches and answers the normalised first result |
| `Tmdb.ResolveThenCached` | src/utils/tmdb.js:54-81 | after a lookup the service answered, the same lookup within `TTL` answers the same without asking again |
| `Tmdb.ResolveKeepsPartition` | src/utils/tmdb.js:54-81 | a lookup keeps the store's layout: timed entries under cache and trailer keys, plain ones under override keys |
| `Tmdb.ResolveNeverText` | src/utils/tmdb.js:54-81 | on a store with that layout a title lookup answers `null` or a record, never a string |
| `Tmdb.Candidates` | src/utils/tmdb.js:84-96 | at most ten normalised hits of a search without year, in the service's order, and none without a key or title or on failure |
| `Tmdb.FirstTrailer` | src/utils/tmdb.js:109-111 | `find` gives the first YouTube trailer or teaser |
| `Tmdb.TrailerPayload` | src/utils/tmdb.js:112 | the answer is the first accepted video's key, or `null` when there is none or its key is empty |
| `Tmdb.ResolveTrailer` | src/utils/tmdb.js:98-116 | a trailer lookup makes no request or exactly one video request for its kind and id |
| `Tmdb.ResolveTrailerSpec` | src/utils/tmdb.js:98-116 | a fresh cached value is answered without asking; otherwise the videos are asked for once and the answer is cached, except after a failure |
| `Tmdb.ResolveTrailerKeepsPartition` | src/utils/tmdb.js:98-116 | a trailer lookup keeps the store's layout, and on such a store never answers a record |
| `Tmdb.SaveOverrideKeepsPartition` | src/utils/tmdb.js:28-32 | saving a record as an override keeps the store's layout |
| `Tmdb.LocalStore.constructor` | src/utils/tmdb.js:1 | an empty store with the usual layout and an empty request log; `configured` stands for the imported API key |
| `Tmdb.LocalStore.FromCache` | src/utils/tmdb.js:13-21 | the method reads and removes as `CacheRead` says and keeps the store's layout |
| `Tmdb.LocalStore.ToCache` | src/utils/tmdb.js:23-25 | the method writes as `CacheWrite` says, and keeps the layout when the entry fits its key |
| `Tmdb.LocalStore.SaveOverride` | src/utils/tmdb.js:28-32 | the store gains exactly the override entry, no request is made, and the layout is kept for a non-string entry |
| `Tmdb.LocalStore.GetOverride` | src/utils/tmdb.js:34-40 | the method answers as `OverrideRead` says and changes nothing |
| `Tmdb.LocalStore.SearchTmdb` | src/utils/tmdb.js:54-81 | answer, new store and requests made are those of `Resolve`; the layout is kept and the answer is never a string |
| `Tmdb.LocalStore.SearchTmdbMultiple` | src/utils/tmdb.js:84-96 | the answer is `Candidates`, the store is untouched, and one request is made when a key and a title are given |
| `Tmdb.LocalStore.FetchTrailer` | src/utils/tmdb.js:98-116 | answer, new store and requests made are those of `ResolveTrailer`; the layout is kept and the answer is never a record |
| `MediaHook.Merge` | src/hooks/useMediaData.js:50-58 | every sheet field wins, except that poster, backdrop and overview fall back on the metadata when falsy and the rating is always the metadata's |
| `MediaHook.MergeIdempotent` | src/hooks/useMediaData.js:50-58 | merging the same metadata again changes nothing |
| `MediaHook.ApplyUpdate` | src/hooks/useMediaData.js:47-59 | a record answer is merged into its row only, and a `null` answer is skipped |
| `MediaHook.ApplyUpdates` | src/hooks/useMediaData.js:45-61 | the callback keeps the list's length |
| `MediaHook.ApplyUpdatesUntouched` | src/hooks/useMediaData.js:45-61 | a row no record answer is for keeps its value |
| `MediaHook.ApplyUpdatesAppend` | src/hooks/useMediaData.js:43-62 | applying two batches one after the other is applying their concatenation |
| `MediaHook.ApplyDistinct` | src/hooks/useMediaData.js:45-61 | when no row gets two updates, each record answer is merged into its row as it was |
| `MediaHook.Tagged` | src/hooks/useMediaData.js:35-36 | each row gains `mediaType` and keeps every other field |
| `MediaHook.Overridden` | src/hooks/useMediaData.js:94-98 | rows with the same title and year get the new fields over their own, and the other rows are unchanged |
| `MediaHook.ResolveAll` | src/hooks/useMediaData.js:11-13 | one answer per row |
| `MediaHook.ResolveAllLast` | src/hooks/useMediaData.js:11-13 | the lookups of one more row extend those before by that row's lookup |
| `MediaHook.ResolveAllPrefix` | src/hooks/useMediaData.js:9-15 | the lookups of a prefix of the rows answer what the lookups of all rows answer for it |
| `MediaHook.ResolveAllKeepsPartition` | src/hooks/useMediaData.js:9-15 | on a store with the usual layout the lookups of a list keep it and never answer a string |
| `MediaHook.BatchOf` | src/hooks/useMediaData.js:10 | a batch holds one to eight rows |
| `MediaHook.BatchesPartition` | src/hooks/useMediaData.js:9-15 | the batches partition the rows in order, each update carries its row's answer, there are `ceil(n / 8)` of them, and all but the last hold eight |
| `MediaHook.BatchCount` | src/hooks/useMediaData.js:9 | `n` rows make `ceil(n / 8)` batches |
| `MediaHook.MediaData.constructor` | src/hooks/useMediaData.js:19-25 | empty lists, loading, no error, mounted |
| `MediaHook.MediaData.Load` | src/hooks/useMediaData.js:33-39 | when mounted, both lists are set to the tagged rows and loading stops; otherwise nothing changes |
| `MediaHook.MediaData.LoadFailed` | src/hooks/useMediaData.js:83-85 | when mounted, the message is kept and loading stops; the lists never change |
| `MediaHook.MediaData.ApplyBatch` | src/hooks/useMediaData.js:43-62 | when mounted the list of the kind becomes the merged list; the other list never changes |
| `MediaHook.MediaData.OverrideItem` | src/hooks/useMediaData.js:92-99 | the list of the kind is `Overridden`, the other list is unchanged |
| `MediaHook.MediaData.Teardown` | src/hooks/useMediaData.js:89 | the hook is unmounted and nothing else changes |
| `MediaHook.Updates` | src/hooks/useMediaData.js:14 | the updates carry the indices `i + j` and the answers of those rows |
| `MediaHook.LookupRow` | src/hooks/useMediaData.js:12 | the lookup of row `j` answers what the lookups of all rows answer for it |
| `MediaHook.LookupBatch` | src/hooks/useMediaData.js:10-14 | the lookups of one batch give its updates in row order, and the store has seen exactly the lookups so far |
| `MediaHook.EnrichRound` | src/hooks/useMediaData.js:9-15 | one round emits the next batch and hands it to the callback, keeping the loop's progress invariant |
| `MediaHook.Finished` | src/hooks/useMediaData.js:9-15 | once every row is past, all batches are emitted and the lists are final |
| `MediaHook.EnrichBatch` | src/hooks/useMediaData.js:8-16 | the delivered batches partition the rows, the store and the request log are those of the lookups of all rows, the list is the merge of all answers, and a store with the usual layout keeps it and gives no string answer |
| `App.ApplyFilters` | src/App.jsx:9-17 | the kept items are in their original order, an item is kept exactly when it passes every filter, and each kept item as many times as it occurs |
| `App.Keep` | src/App.jsx:10-15 | the filter callback: every non-empty filter value matches; its properties are `KeptMeetFilters` and `MissingFieldExcluded` |
| `App.KeptMeetFilters` | src/App.jsx:11-14 | a kept item matches each set filter without regard to letter case, genre and title by substring |
| `App.MissingFieldExcluded` | src/App.jsx:11-14 | an item lacking the field of a set filter is never kept |
| `App.NoFiltersIdentity` | src/App.jsx:9-17 | with no filter set the list is shown as it is |
| `App.ApplyFiltersIdempotent` | src/App.jsx:9-17 | filtering the filtered list changes nothing |
| `App.ApplySort` | src/App.jsx:19-33 | no sort mode keeps the list, and any sort mode gives a permutation |
| `App.YearKey` | src/App.jsx:26-29 | `parseInt(item.year \|\| 0)`; its properties are `YearKeyValues` |
| `App.YearKeyValues` | src/App.jsx:26-29 | a falsy year counts as 0, and a year written out in decimal reads as that year |
| `App.Compare` | src/App.jsx:21-32 | the comparator of each sort mode, 0 for an unknown one; its properties are the consistency lemmas below |
| `App.UnknownSortKeepsOrder` | src/App.jsx:31 | an unknown sort mode keeps the order |
| `App.YearCompareConsistent` | src/App.jsx:25-30 | with every year readable the year comparators are consistent |
| `App.YearAscSorted` | src/App.jsx:28-30 | 'year-asc' with readable years gives years that never decrease |
| `App.YearDescSorted` | src/App.jsx:25-27 | 'year-desc' with readable years gives years that never increase |
| `App.RatingCompareConsistent` | src/App.jsx:22-24 | with every rating readable the rating comparator is consistent |
| `App.RatingSorted` | src/App.jsx:22-24 | 'rating' with readable ratings gives ratings that never increase |
| `App.SameYearKeepsOrder` | src/App.jsx:25-30 | with every year readable, under either year sort the titles of one year keep their list order |
| `App.SameRatingKeepsOrder` | src/App.jsx:22-24 | with every rating readable, under the rating sort the titles of one rating keep their list order |
| `App.GenrePieces` | src/App.jsx:51 | no genre gives no pieces; a genre gives one piece per comma-separated part, piece `k` the trimmed part `k` |
| `App.AllGenrePieces` | src/App.jsx:51 | a piece is listed exactly when it is a piece of some item |
| `App.FieldTexts` | src/App.jsx:56 | a text is listed exactly when it is the non-empty value of the field in some item |
| `App.SortStrings` | src/App.jsx:52 | the default sort is a permutation |
| `App.SortStringsIncreasing` | src/App.jsx:52 | distinct strings come out strictly increasing |
| `App.Genres` | src/App.jsx:49-53 | the genre facet; its properties are `GenresFacet` |
| `App.GenresOf` | src/App.jsx:50-52 | the sorted distinct non-empty strings of a list increase strictly and are exactly its non-empty strings |
| `App.Statuses` | src/App.jsx:55-57 | the status facet; its properties are `StatusesFacet` |
| `App.Services` | src/App.jsx:59-61 | the service facet; its properties are `ServicesFacet` |
| `App.GenresFacet` | src/App.jsx:49-53 | the genres are strictly increasing, and are exactly the non-empty trimmed pieces of the items' genres |
| `App.StatusesFacet` | src/App.jsx:55-57 | the statuses are strictly increasing, and are exactly the non-empty statuses of the items |
| `App.ServicesFacet` | src/App.jsx:59-61 | the services are strictly increasing, and are exactly the non-empty services of the items |
| `App.Displayed` | src/App.jsx:44-47 | the grid shows a permutation of the active tab's filtered items, and exactly those items in list order when no sort is chosen |
| `App.TabChange` | src/App.jsx:63-67 | a tab change switches tab, clears every filter and the sort, and keeps the selection and poster size |
| `App.TabChangeShowsAll` | src/App.jsx:63-67 | after a tab change the grid shows the new tab's whole list in sheet order |
| `App.SetSearch` | src/App.jsx:87 | the search box changes the search filter only; tab, sort, selection and poster size stay |
| `App.Corrected` | src/App.jsx:122-125 | the new fields win, the selected item's other fields stay, with nothing selected the new fields alone become the selection, and nothing else changes |
| `FilterBar.ServiceIcon` | src/components/FilterBar.jsx:19-26 | the icon table is consulted first, then the brand table, and a name in neither gets nothing |
| `FilterBar.ServiceIconIgnoresCase` | src/components/FilterBar.jsx:20 | names that differ only in letter case get the same icon |
| `FilterBar.PlainKey` | src/components/FilterBar.jsx:20 | a lower-case name without surrounding white space is its own key |
| `FilterBar.PrimeEntries` | src/components/FilterBar.jsx:12-17 | 'prime' and 'prime video' have no icon and the same brand |
| `FilterBar.PrimeAliases` | src/components/FilterBar.jsx:12-26 | 'prime' and 'prime video', in any letter case, are drawn as the same brand |
| `FilterBar.ServiceIconInheritedKey` | src/components/FilterBar.jsx:19-26 | the service 'Constructor' gets a broken icon as written, and nothing in the corrected look-up |
| `FilterBar.ServiceIconAsWritten` | src/components/FilterBar.jsx:19-26 | the look-up as written, inherited object properties included; its property is `ServiceIconInheritedKey` |
| `FilterBar.UnknownServiceLabel` | src/components/FilterBar.jsx:190 | the label is the first three characters of the name, or the whole of a shorter name |
| `FilterBar.CharCode` | src/components/FilterBar.jsx:37 | a character code fits in one UTF-16 unit |
| `FilterBar.Hash` | src/components/FilterBar.jsx:36-37 | the hash always fits in one byte |
| `FilterBar.HashStep` | src/components/FilterBar.jsx:37 | each character multiplies the hash by 31, adds the code and keeps the low byte |
| `FilterBar.FallbackColor` | src/components/FilterBar.jsx:35-39 | the loop computes the hash, and the colour is the table entry the hash picks |
| `FilterBar.StatusActiveClass` | src/components/FilterBar.jsx:47-50 | the three statuses, in any letter case, get their classes; everything else gets the default |
| `FilterBar.StatusActiveClassCases` | src/components/FilterBar.jsx:41-50 | a status gets its own classes exactly when it is one of the three, and an absent status gets the default |
| `FilterBar.StatusActiveClassInheritedKey` | src/components/FilterBar.jsx:47-50 | the status 'Constructor' gets the constructor's source text as classes as written, and the default in the corrected look-up |
| `FilterBar.StatusActiveClassAsWritten` | src/components/FilterBar.jsx:47-50 | the look-up as written, inherited object properties included; its property is `StatusActiveClassInheritedKey` |
| `MediaCard.LowerNo` | src/components/MediaCard.jsx:2-3 | lower-casing gives 'n' or 'no' exactly for the six spellings of those words |
| `MediaCard.NoSubs` | src/components/MediaCard.jsx:1-4 | the badge shows exactly when the trimmed field is a spelling of 'n' or 'no', and never for an absent or blank field |
| `MediaCard.StatusBadge` | src/components/MediaCard.jsx:29-33 | no badge for an absent or empty status or one containing no key; otherwise a badge of the table |
| `MediaCard.StatusBadgeFirstMatch` | src/components/MediaCard.jsx:23-32 | the badge is that of the first key in table order that the status contains |
| `MediaModal.StatusColor` | src/components/MediaModal.jsx:4-16 | the colour is that of the first key the status contains, and gray exactly when it contains none |
| `MediaModal.GetStatusColor` | src/components/MediaModal.jsx:10-16 | the loop returns the colour `StatusColor` defines |
| `MediaModal.ColourFollowsBadge` | src/components/MediaModal.jsx:10-16 | a non-empty status is gray exactly when its card has no badge, and otherwise in the colour of its badge's key |
| `MediaModal.GenreTags` | src/components/MediaModal.jsx:104-106 | no tags for an absent or empty genre; otherwise the trimmed pieces in order, each non-empty piece as many times as it occurs and no empty one |
| `MediaModal.GenreTagsArePieces` | src/components/MediaModal.jsx:104-106 | the tags are the non-empty pieces the genre facet is built from |
| `MediaModal.GenreTagsInFacet` | src/components/MediaModal.jsx:104-106 | every tag of a listed title is offered by its list's genre facet |
| `MediaModal.KindOf` | src/components/MediaModal.jsx:79-99 | the list a title belongs to: movies for 'movie', series otherwise |
| `MediaModal.TrailerFrom` | src/components/MediaModal.jsx:79-81 | only a non-empty key replaces the trailer |
| `MediaModal.Modal.constructor` | src/components/MediaModal.jsx:71-72 | no trailer, picker hidden |
| `MediaModal.Modal.ItemChanged` | src/components/MediaModal.jsx:75-83 | a new id or media type clears the trailer and hides the picker, and otherwise both are kept |
| `MediaModal.Modal.LoadTrailer` | src/components/MediaModal.jsx:78-82 | with an id and a type the trailer lookup runs and a non-empty key is shown, otherwise nothing changes; the store keeps its layout |
| `MediaModal.Modal.StartPicking` | src/components/MediaModal.jsx:223 | the picker is shown and nothing else changes |
| `MediaModal.Modal.CancelPicking` | src/components/MediaModal.jsx:142 | the picker is hidden and nothing else changes |
| `MediaModal.Modal.Escape` | src/components/MediaModal.jsx:87 | Escape leaves the picker when it is shown and closes the view otherwise |
| `MediaModal.Modal.HandleSelect` | src/components/MediaModal.jsx:98-102 | the choice is saved as the title's override, spread over the matching rows of its list, and the picker is hidden; the store keeps its layout |
| `MediaModal.CorrectionSticks` | src/components/MediaModal.jsx:98-100 | after a selection the next lookup of that title and year answers the chosen record, with no remote call and no store change |

## Left out

- Network I/O is not modelled: the CSV download, URL building and encoding, and HTTP status
  codes. The remote service is a function parameter whose `Failed` answer stands for a
  response that is not ok and for any exception.
- The sheet's CSV text is a parameter of `Sheets.SheetRows`, so the download and its error
  are not part of the model. `MediaHook.MediaData.LoadFailed` takes the error message.
- Lookups inside a batch run together in the application: every lookup of a batch reads the
  store before any of them stores a fetched answer. Here they run one after the other, in row order, each
  seeing the entries the earlier ones wrote. Within one batch the application can therefore
  ask the service more often than the model does. Two rows of a batch whose keys coincide
  (exact duplicates, or titles such as "The Office" and "THE OFFICE") are both asked for
  there, while the model's second lookup is a cache hit. The surviving cache entry can also
  differ. The model does not capture these within-batch effects.
- A single `now` is used for all lookups of one enrichment run.
- Floating point is not modelled. `toFixed(1)` of the vote average is a given string of the
  hit, and `parseFloat` of a rating is a function parameter where `None` is NaN.
- `JSON.stringify`/`JSON.parse` and the `try`/`catch` around storage are not modelled. Entries
  are stored as values and storage writes always succeed.
- Letter case and white space cover ASCII only. There is no Unicode case mapping and no
  Unicode white space.
- The string order of `sort()` compares characters, not UTF-16 code units. `slice(0, 3)`
  counts characters, not UTF-16 units.
- `Text.ParseInt`: the `0x` prefix and digits beyond base 10 are not modelled.
- Record fields hold only `undefined`, `null`, strings and integers. A number-valued field
  where the code expects a string reads as absent, and `toLowerCase` on it is not modelled.
- `Sheets.RawRow` keeps a header named `__proto__` as a key. In the source the assignment
  `raw['__proto__'] = text` runs the inherited setter, which ignores a string, so that column
  is dropped. No row field falls back on it, so the rows agree (`Sheets.ProtoColumnIgnored`).
- `MediaHook.ApplyUpdate`: a string answer is skipped like `null`. It cannot occur on a store
  with the usual layout (`MediaHook.EnrichBatch`, `Tmdb.ResolveNeverText`). Every store the
  model creates has that layout (`Tmdb.LocalStore.constructor`). Every method keeps it, with
  two conditions: `Tmdb.LocalStore.SaveOverride` keeps it for a non-string entry, and
  `Tmdb.LocalStore.ToCache` for an entry that fits its key. The lookups only store entries of
  those kinds.
- A record stored under a trailer key is ignored by `MediaModal.TrailerFrom`. It cannot occur
  on a store with the usual layout (`Tmdb.LocalStore.FetchTrailer`,
  `Tmdb.ResolveTrailerKeepsPartition`).
- `MediaModal.Modal.HandleSelect` and `MediaModal.Modal.LoadTrailer` key the override and the
  trailer by the list the item belongs to (`KindOf`) rather than by its raw `mediaType`
  string. The two agree for every row the hook tags.
- `MediaModal.Modal.LoadTrailer`: a truthy `tmdbId` that is not a number skips the lookup.
- `MediaModal.Modal.LoadTrailer` delivers the lookup's answer before the shown item can
  change. In the source the effect has no cancellation and no staleness check. The lookup of
  an earlier item can still answer after `ItemChanged` has cleared the trailer, for example
  after a correction gives the item a new `tmdbId`. That late answer then sets the earlier
  title's trailer, and it stays when the new lookup answers `null`. The model does not capture
  this late delivery.
- The comparator's behaviour when a year or rating is NaN and the values are not
  consistent: the result order of `sort` is then engine-defined. The sort lemmas
  (`App.YearAscSorted`, `App.YearDescSorted`, `App.RatingSorted`, `App.SameYearKeepsOrder`,
  `App.SameRatingKeepsOrder`) require every key to be readable.
- Rendering is not modelled: JSX markup, CSS classes other than the computed ones,
  `MediaGrid`, `Header`, `CategoryTabs`, `PickerGrid`'s display of the candidates, the body
  scroll lock, the click-outside close and the poster size buttons. `src/config.js` is not
  part of this model. Its key and the TTL are a `configured` flag and the `TTL` constant.

## Findings

| source | as written | input that shows it | evidently intended | confidence | as-written member | corrected member |
|---|---|---|---|---|---|---|
| src/components/FilterBar.jsx:19-26 | the icon table is an object literal, so the look-up also finds the properties every object inherits; for the key 'constructor' it finds the `Object` function, which is truthy, and builds an icon URL ending in `undefined/undefined` | the service name "Constructor" | a name in neither table gets no icon and is drawn with its fallback colour and three-letter label | not executed | `FilterBar.ServiceIconInheritedKey` | `FilterBar.ServiceIcon` |
| src/components/FilterBar.jsx:47-50 | the status class table is an object literal, so the status 'constructor' finds the inherited `Object` function, whose source text becomes the class text | the status "Constructor" | a status other than the three known ones gets the purple default classes | not executed | `FilterBar.StatusActiveClassInheritedKey` | `FilterBar.StatusActiveClass` |
