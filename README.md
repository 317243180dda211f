# Russian dictionary: record store, search engine and record views

This project models the logic of a small bilingual dictionary service and proves
properties of that model in Dafny.

The server (`server/src/index.ts`) keeps dictionary records in sharded JSON files named by an
index file. It walks them lazily with a generator and answers three requests:

- `/api/search`: a case-folding substring search with `limit`/`offset` paging. It stops
  reading as soon as the page is full.
- `/api/by-id/:id`: the first record whose `objectId` is the given string.
- `/api/stats`: the index itself.

The web client decides how an arbitrary JSON value is shown as a table
(`web/src/components/TableRenderer.tsx`). It also normalizes a fetched record for the word page:
eleven fields fall back from the top level to the record's `content` object, and the leftover
`content` entries are listed apart (`web/src/pages/WordDetail.tsx`).

Modules:

- `JsValue`: loosely typed JSON values plus `undefined`.
  - Objects keep their own properties in enumeration order.
  - It also holds truthiness, `||`, `??`, property access, `Object.entries`, and object
    spread as repeated property assignment.
- `Decimal`: `parseInt(s, 10)` as a small parser (white space, sign, digit prefix, NaN), and the
  decimal printer used for array-index keys.
- `RecordStore`: the index and shard files as given data, and the generator as the class
  `RecordStream`.
  - The stream holds one shard's records at a time.
  - It fails lazily, when it reaches a missing index or an unreadable shard.
- `Matcher`: `normalizeText` and `recordMatches`. Lower-casing is a per-character map
  passed in as a parameter.
- `SearchParams`: the `q`, `limit` and `offset` defaults.
- `QueryEngine`:
  - the search and by-id handlers, each as a specification function plus a method with
    the handler's loop over a `RecordStream`;
  - the pagination theorem.
- `TableRenderer`: the shape classifier, and `uniqueKeys` as a method with its loops.
- `WordDetail`: `normalized` and `otherContentEntries`.

How the source's failures are modelled:

- An uncaught exception in a handler is a failure response (Express answers 500). This covers
  a missing index file, an unreadable shard, and a TypeError from a malformed record.
- Where the client code would throw while rendering, the table shape is `Crash`.

## Model

| member | source | states |
|---|---|---|
| RecordStore.Records | server/src/index.ts:26-34 | The records the generator yields: the readable shards' arrays concatenated in index order, up to the first unreadable shard |
| RecordStore.StreamError | server/src/index.ts:18-31 | The failure the generator reaches: the missing index, or the first unreadable shard in index order; ReadableConcat relates both to shard lists |
| RecordStore.ReadableConcat | server/src/index.ts:26-34 | With every shard of the first list readable, the record stream is the first list's records followed by the second's, and the first unreadable shard is found in the second list |
| RecordStore.Stats | server/src/index.ts:97-101 | /api/stats returns the stored index with the stream's shard list, and fails exactly when the stream fails on the missing index, without loading a shard |
| RecordStore.RecordStream.constructor | server/src/index.ts:26 | A fresh generator has read nothing and yielded nothing |
| RecordStore.RecordStream.Open | server/src/index.ts:18-27 | The first step reads the index; the stream closes exactly when the index is missing |
| RecordStore.RecordStream.Refill | server/src/index.ts:28-31 | Shards are loaded in index order until a record is buffered or the shards run out; an unreadable shard closes the stream with the error the stream specification names |
| RecordStore.RecordStream.Emit | server/src/index.ts:32 | The next record yielded is the next record of the concatenated shards |
| RecordStore.RecordStream.Finish | server/src/index.ts:28-34 | After the last shard, everything has been yielded and the stream ends without error |
| RecordStore.RecordStream.Next | server/src/index.ts:26-34 | Each step yields the next record of the shards concatenated in index order (each shard in array order), or ends with every record yielded; it halts with the store error exactly when the stream specification has one; buffer and position only hold the last shard loaded |
| Matcher.NormalizeText | server/src/index.ts:36-38 | normalizeText: a falsy value becomes "" and a string is lower-cased character by character, keeping its length; it throws (None) exactly on a truthy value that is not a string |
| Matcher.RecordMatches | server/src/index.ts:40-46 | recordMatches: the headword test first, then the translation test; RecordMatchesCases states its results and its throws |
| Matcher.RecordMatchesCases | server/src/index.ts:36-46 | For a record with text fields, it matches iff q occurs in the lower-cased headword or the lower-cased translation; it throws exactly on a null record, a non-text headword, or a non-text translation that has to be read |
| Matcher.HeadwordFallback | server/src/index.ts:41 | The headword is `query` if truthy, else `original_form` if truthy, else "" |
| SearchParams.Text | server/src/index.ts:69-71 | `String(x || fallback)` for a raw query parameter: an absent or empty parameter gives the fallback |
| SearchParams.NormalizeQuery | server/src/index.ts:69-72 | The normalized q is empty iff the raw q is absent or empty; a white-space q is not rejected |
| SearchParams.LimitParam | server/src/index.ts:70 | The limit is parsed from the raw text or the default '20'; it is never 0 and never above 100, and an absent or empty limit is 20 |
| SearchParams.OffsetParam | server/src/index.ts:71 | The offset is parsed from the raw text or the default '0'; an absent or empty offset is 0 |
| SearchParams.DefaultLimitParses | server/src/index.ts:70 | The default text '20' parses to 20 |
| SearchParams.DefaultOffsetParses | server/src/index.ts:71 | The default text '0' parses to 0 |
| SearchParams.LimitOfDecimal | server/src/index.ts:70 | A decimal limit after white space and before non-digit text, unsigned or with '+', is min(n, 100); 0 falls back to 20; a negative limit passes through |
| SearchParams.LimitNotANumber | server/src/index.ts:70 | A limit with no digit after its white space and optional sign (NaN) falls back to 20 |
| SearchParams.OffsetOfDecimal | server/src/index.ts:71 | A decimal offset is taken as written, unsigned, with '+' or with '-' |
| SearchParams.OffsetNotANumber | server/src/index.ts:71 | An offset with no digit after its white space and optional sign (NaN) falls back to 0 |
| SearchParams.LimitOfNat | server/src/index.ts:70 | The decimal text of a limit between 1 and 100 reads as that limit |
| SearchParams.OffsetOfNat | server/src/index.ts:71 | The decimal text of an offset reads as that offset |
| Decimal.ParseInt | server/src/index.ts:70-71 | parseInt(s, 10): leading white space, an optional sign, then the longest digit prefix, or NaN without digits; the ParseInt lemmas state the cases |
| Decimal.ParseIntOfDecimal | server/src/index.ts:70-71 | parseInt reads back a printed number after any white space, with an optional sign, whatever non-digit text follows |
| Decimal.ParseIntNoDigits | server/src/index.ts:70-71 | Text without a digit after the white space and an optional sign gives NaN |
| Decimal.FromNat | web/src/components/TableRenderer.tsx:111 | The decimal key of an array index is a non-empty digit string denoting that index |
| Decimal.FromNatInjective | web/src/components/TableRenderer.tsx:111 | Distinct indices have distinct keys |
| QueryEngine.SearchRecords | server/src/index.ts:74-85 | The search loop over a record sequence: skip offset matches, collect up to limit, stop after the page fills; the paging lemmas and the handler method state its results |
| QueryEngine.SearchSpec | server/src/index.ts:68-86 | GET /api/search as a function of the store and the raw parameters: 400 on an empty query, else the page or the failure the search loop meets |
| QueryEngine.SearchOutcomes | server/src/index.ts:74-85 | The search keeps at most max(limit, 1) records, all matching, and echoes its parameters; a TypeError means some record made the matcher throw; a store error means the stream ended with it and no record threw |
| QueryEngine.SearchSpecOutcomes | server/src/index.ts:68-86 | The handler answers 400 exactly when q is absent or empty; otherwise each result passes recordMatches for the lower-cased q, at most 100 come back, and q, limit and offset are echoed as read |
| QueryEngine.SearchInStreamOrder | server/src/index.ts:76-82 | The results are a subsequence of the record stream |
| QueryEngine.CleanSearchIsPage | server/src/index.ts:74-84 | Over records none of which throws and a stream that reads cleanly, the result is the slice of all matches from max(offset, 0), of length max(limit, 1), cut at the end |
| QueryEngine.ScanEnds | server/src/index.ts:76-85 | When the stream runs out in a loop state, the response is the collected page, or the stream's error |
| QueryEngine.ScanThrows | server/src/index.ts:77 | A throwing record after a loop state makes the whole search a TypeError |
| QueryEngine.ScanFull | server/src/index.ts:82-83 | A page filled within the records read is the search's answer, whatever follows |
| QueryEngine.PassOver | server/src/index.ts:77 | A non-matching record keeps the loop state |
| QueryEngine.CountTowardsOffset | server/src/index.ts:78-80 | A match met before offset matches are skipped is counted and not kept |
| QueryEngine.Push | server/src/index.ts:82 | A match met after the offset is used up extends the page by that record |
| QueryEngine.Visit | server/src/index.ts:77-83 | One loop body: it throws exactly when the matcher does; otherwise the loop state holds for the records seen, or the page is exactly max(limit, 1) matches from the offset |
| QueryEngine.Scan | server/src/index.ts:74-84 | The loop over a fresh stream returns exactly the search specification of the stream's records and ending |
| QueryEngine.Search | server/src/index.ts:68-86 | The handler returns exactly the specification of /api/search for the raw parameters |
| QueryEngine.PagesCover | server/src/index.ts:74-84 | Consecutive pages of size lim from an offset join into one contiguous run of the matches |
| QueryEngine.PagesFromStart | server/src/index.ts:74-84 | Consecutive pages from offset 0 join into a prefix of the matches |
| QueryEngine.SpanIsProduct | server/src/index.ts:74-84 | n pages of lim records span n * lim records |
| QueryEngine.CleanSearchSpec | server/src/index.ts:68-86 | Over a clean store, a request with q is answered with the page of all matches its limit and offset select |
| QueryEngine.PageRequestIsPage | server/src/index.ts:70-84 | Requesting limit lim in 1..100 and offset o over a clean store gives the matches from o, lim of them, cut at the end |
| QueryEngine.PagedPrefix | server/src/index.ts:70-84 | The pages requested at offsets 0, lim, 2 * lim, ... join into a prefix of the matches |
| QueryEngine.Pagination | server/src/index.ts:70-84 | n consecutive page requests of size lim return exactly the first min(n * lim, all) matching records in stream order: no gaps, no duplicates |
| QueryEngine.FindById | server/src/index.ts:89-95 | A found record has the requested objectId and is the first such record in stream order; not found means the stream read cleanly and no record has it; a TypeError means a null record was reached before any record with the id; a store error is the stream's |
| QueryEngine.LookupStopsAt | server/src/index.ts:91-92 | The lookup answers with the first record that has the id or is null |
| QueryEngine.LookupRunsOut | server/src/index.ts:91-94 | Without such a record, the lookup answers 404 or the stream's error |
| QueryEngine.ScanForId | server/src/index.ts:90-93 | The handler's loop over a fresh stream stops at the first record that is null or has the id, with no earlier record stopping it, or reads every record without stopping; a failed read is the stream's error |
| QueryEngine.GetById | server/src/index.ts:89-95 | The early-returning loop over a fresh stream returns exactly the by-id specification |
| Seqs.DedupFirstOccurrence | web/src/components/TableRenderer.tsx:14-16 | The distinct keys are ordered by first occurrence |
| Seqs.DedupNoDuplicates | web/src/components/TableRenderer.tsx:14-16 | A Set holds no key twice |
| Seqs.DedupMember | web/src/components/TableRenderer.tsx:14-16 | A key is in the Set iff it was added |
| TableRenderer.Is2DArray | web/src/components/TableRenderer.tsx:5-7 | is2DArray: an array all of whose elements are arrays (the empty array included) |
| TableRenderer.IsRowObjectArray | web/src/components/TableRenderer.tsx:9-11 | isRowObjectArray: an array all of whose elements are truthy non-array objects |
| TableRenderer.Cell | web/src/components/TableRenderer.tsx:99 | A record-table cell: the row's value at the header, "" when that is nullish |
| TableRenderer.HeaderCells | web/src/components/TableRenderer.tsx:30-44 | The header cells of `headers || []`: the elements of an array, a crash for a non-empty string, no header row for any other value |
| TableRenderer.Classify | web/src/components/TableRenderer.tsx:26-130 | The shape the renderer picks, in the order the source tests them; ClassifyShapes states its cases |
| TableRenderer.AllKeysMember | web/src/components/TableRenderer.tsx:15 | A key is among the keys of the rows iff some row has it |
| TableRenderer.AddKeys | web/src/components/TableRenderer.tsx:15 | Adding one row's keys to the Set of the earlier keys gives the Set of all of them |
| TableRenderer.UniqueKeys | web/src/components/TableRenderer.tsx:13-17 | uniqueKeys returns the distinct keys of the rows in insertion order |
| TableRenderer.UniqueKeysSpec | web/src/components/TableRenderer.tsx:13-17 | The headers have no duplicates, are exactly the keys of the rows, and are ordered by first occurrence scanning rows left to right |
| TableRenderer.RowObjectArrayIsObjects | web/src/components/TableRenderer.tsx:9-11 | isRowObjectArray holds iff every element is a non-null, non-array object |
| TableRenderer.ClassifyShapes | web/src/components/TableRenderer.tsx:26-130 | Falsy data renders nothing; an object with a rows array gets the headers/rows table (or throws); an array of arrays, the empty one included, is a grid; a non-empty array of objects is a record table; any other object, and a mixed array, is a key/value table; a truthy primitive is shown as is; a grid keeps every row, a key/value table lists exactly the entries of the data, and an atom holds the data itself |
| TableRenderer.HeadersRowsTable | web/src/components/TableRenderer.tsx:29-52 | Headers are the headers array or none; every row and cell keeps its position; it throws if and only if the headers are a non-empty string or some row is not an array |
| TableRenderer.RecordsTable | web/src/components/TableRenderer.tsx:81-99 | The record table has the unique keys as headers and one cell per header in each row: the row's value, or '' where it is absent or nullish |
| TableRenderer.EmptyArrayIsGrid | web/src/components/TableRenderer.tsx:5-7 | The empty array is shown as an empty grid |
| TableRenderer.MixedArrayIsKeyValue | web/src/components/TableRenderer.tsx:109-111 | Every array with an element that is not an array and one that is not an object is a key/value table whose i-th entry is the decimal index i with the i-th element |
| JsValue.Truthy | web/src/pages/WordDetail.tsx:28 | JavaScript truthiness: undefined, null, false, 0 and "" are falsy, every array and object truthy; the test behind `||` and `if (!data)` |
| JsValue.Get | web/src/pages/WordDetail.tsx:27 | Optional property access: an own property of an object, undefined on a missing key or a non-object; the lookup lemmas state its results |
| JsValue.Entries | web/src/components/TableRenderer.tsx:111 | Object.entries: an object's own properties in order, an array's elements keyed by their decimal index, a string's characters likewise, nothing for other values |
| JsValue.Spread | web/src/pages/WordDetail.tsx:46-47 | Object spread as repeated assignment: an existing key keeps its place and takes the new value, a new key is appended; SetPropKeys and the spread lemmas state this |
| JsValue.SpreadLookup | web/src/pages/WordDetail.tsx:46-47 | After a spread, a key of the source reads the source's value and any other key the target's |
| JsValue.SpreadKeys | web/src/pages/WordDetail.tsx:46-59 | A spread keeps every key of the target and adds no duplicate key |
| JsValue.SetPropKeys | web/src/pages/WordDetail.tsx:46-59 | Assigning an existing key keeps the key order; a new key is appended |
| WordDetail.Merge | web/src/pages/WordDetail.tsx:28 | merge: the spread of a then b, a falsy argument counting as {}; MergeRightBiased states its lookups |
| WordDetail.Override | web/src/pages/WordDetail.tsx:30-44 | The value each of the eleven known fields takes; the Normalized lemmas state each one |
| WordDetail.Normalize | web/src/pages/WordDetail.tsx:25-60 | normalized: null without a word, else the word spread with the eleven overrides; NormalizedField and NormalizeKeepsOtherFields state its fields |
| WordDetail.OtherContentEntries | web/src/pages/WordDetail.tsx:62-79 | otherContentEntries: the entries of content whose key is not known; OtherContentExact states them |
| WordDetail.NoWord | web/src/pages/WordDetail.tsx:26 | Without a word, normalized is null and there are no other content entries |
| WordDetail.OverridesLookup | web/src/pages/WordDetail.tsx:46-59 | Each of the eleven field names reads its own override |
| WordDetail.NormalizedField | web/src/pages/WordDetail.tsx:46-59 | Each of the eleven fields of normalized is its override, whatever the word holds under that name |
| WordDetail.NormalizedOther | web/src/pages/WordDetail.tsx:46-47 | Any other field of normalized is the word's own |
| WordDetail.NormalizedQuery | web/src/pages/WordDetail.tsx:30 | query is the first truthy of word.query and content.query, else original_form |
| WordDetail.NormalizedPreferTopLevel | web/src/pages/WordDetail.tsx:31-44 | translation, ai_explanation, cultural_notes, etymology and type are the top-level value if truthy, else the content value |
| WordDetail.NormalizedTables | web/src/pages/WordDetail.tsx:41 | tables is the top-level tables if truthy, else the content tables if truthy, else [] |
| WordDetail.UsageObjectField | web/src/pages/WordDetail.tsx:34-38 | Each usage list falls back from the top-level usage to the content usage, then to [] |
| WordDetail.NormalizedUsage | web/src/pages/WordDetail.tsx:34-38 | usage holds exactly examples, expressions and contexts, in that order, each falling back on its own |
| WordDetail.RelatedWordsIgnoresTopLevel | web/src/pages/WordDetail.tsx:39 | related_words is the content value, {} when that is nullish; the top-level related_words is never read |
| WordDetail.MergeRightBiased | web/src/pages/WordDetail.tsx:28 | merge reads a key from b when b has it and from a otherwise, a falsy argument counting as {}; two falsy arguments give {} |
| WordDetail.NormalizedMerges | web/src/pages/WordDetail.tsx:32-33 | pronunciation and grammar are the merge of the top-level and the content value, so the content keys win |
| WordDetail.NormalizeKeepsOtherFields | web/src/pages/WordDetail.tsx:46-59 | Every field outside the eleven is carried over unchanged, every field of the word stays, and no key appears twice |
| WordDetail.OtherContentExact | web/src/pages/WordDetail.tsx:62-79 | otherContentEntries holds exactly the entries of content whose key is not one of the eleven, in their original order |

## Behaviour of the code worth knowing

The model keeps these behaviours of the code:

- A query is rejected only when it is empty. It is not trimmed, so a white-space query is
  searched.
- `limit` is not clamped to [1, 100]. A limit of 0 or NaN becomes 20, and a negative limit
  passes through. Because the page is tested only after a push, a limit below 1 keeps one
  record. A negative offset skips nothing and is echoed unchanged.
- Consecutive pages are gap-free only for 1 <= limit <= 100 (QueryEngine.Pagination). Above 100 the
  page is capped at 100 records, so a client that steps the offset by its own limit skips records.
- A page that fills up before a broken shard is returned in full: the stream never reaches
  that shard.
- Lookup compares `objectId`, not `id`.
- The index's fields are `className`, `total` and `shards`.
- A missing index, an unreadable shard, or a null record gives a 500 (an uncaught exception),
  never a 404.

## Left out
- Express wiring, CORS, Swagger, `app.listen`, the port setting and `/health`: framework plumbing with no logic.
- File access and `JSON.parse`: the index and the shard contents are given data. A malformed index, or a shard whose JSON is not an array, is not modelled: the source iterates a string shard as one-character records and a string `shards` as shard names, throws on other non-iterables, and /api/stats returns a malformed index as parsed.
- Matcher.Lower: the Unicode tables of `toLowerCase` are a per-character parameter. Mappings that change a string's length are not modelled.
- The `/api/search` parameters as Express query arrays or objects: the raw parameters are strings or absent.
- SearchParams.OffsetParam: parseInt's floating-point result is an unbounded integer here. Precision loss on very long digit strings, and Infinity, are not modelled; for a positive limit they make no difference, because it is capped at 100.
- SearchParams.LimitParam: a negative limit beyond 2^53 in magnitude is echoed as the exact integer. The source echoes parseInt's rounded double, or `null` for one so long that it parses to -Infinity. The page holds one record either way.
- Numbers are real values, so NaN and fractional record contents are modelled only as far as truthiness needs.
- Using a generator after it has closed: the handlers always use a fresh one, and Next then answers Done.
- `web/src/services/api.ts`, `web/src/viewmodels/searchViewModel.ts`, `web/src/App.tsx`, and all JSX markup: network wrappers and UI rendering.
- The text conversion of cells (`String(cell)`, `JSON.stringify`) and date formatting (`toLocaleString`): the shapes hold the values before their conversion.
- React errors for an object rendered as a cell: only the TypeErrors of the classifier itself are modelled (`Crash`).
- TableRenderer.HeaderCells: a `headers` value that is an object with a numeric `length` would crash on `map` in the source; here only the string case crashes.
- JavaScript's enumeration of integer-like keys before other keys, property access on arrays and strings by index key, and prototype properties: objects keep insertion order, and `Get` reads own properties of objects only (the dictionary reads only named fields).
- Strings are sequences of Unicode scalar values, not UTF-16 code units: `Object.entries` and spread of a string with characters outside the Basic Multilingual Plane give one entry per character here and two in JavaScript.
- The `Set` in uniqueKeys and the known-key set are sequences without duplicates, with a Set's insertion-order semantics.
