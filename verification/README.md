# fetchFontFiles, modelled in Dafny

This project models the core of `server/logic/fetchFontFiles.ts` of google-webfonts-helper. That is
the step that downloads every format of every variant of a Google Font and packs the files into one
zip archive in the cache directory. The model covers four parts of that step:

- **Response acceptance.** One download attempt of `fetchFontFileStream` keeps a response only if its
  status is exactly 200 and its content-type header is present, non-empty and contains the requested
  format token (`FetchResponse`).
- **File naming.** The cache path of each fetched format, the archive entry name (the base name of
  that path) and the path of the zip file (`FontPaths`).
- **Fan-out accounting.** Each (variant, url) fetch ends with a stream or is discarded. A success adds
  one archive entry and one `paths` record, in the order the fetches complete. The `streams` list keeps
  the successful streams in input order (`FanOut`, `FontArchive.RecordFetch`,
  `FontArchive.RecordFetches`, `FontArchive.CollectFetches`).
- **Cleanup.** If writing the archive fails, every stream in the list is destroyed, the zip file's own
  write stream included, and the write error is rethrown. Otherwise the archive record is returned
  (`FontArchive.WriteArchive`, `FontArchive.DestroyAll`, `FontArchive.FetchFontFiles`).

The environment is passed in as inputs:

- `outcomes[i][j]`: the result of the retried fetch of `variants[i].urls[j]`, either a stream or
  `None`.
- `completed`: the order in which the concurrent fetches completed. The caller must give a permutation
  of the fetches.
- `writeError`: the result of writing the archive, either `None` or the error thrown.

Streams are objects of class `Streams.Stream`. The only thing modelled about them is whether they are
destroyed. The JSZip archive is a class holding a map from entry names to streams (`Zip.ZipArchive`).

Some behaviour of the code that the model states explicitly:

- **Zip name with no variants.** The zip name uses the first variant's subsets, not the `subsets`
  argument. With no variants, the subset part of the name is the text `undefined`
  (`ZippedFileNameWithoutVariants`).
- **Format matching is by substring.** A `font/woff2` response is accepted when `woff` was requested.
  An empty format token is accepted for any non-empty content type (`Woff2AcceptedForWoff`,
  `EmptyFormatAcceptsAnyContentType`).
- **Entries can be replaced.** `archive.file` replaces an entry of the same name. So the archive holds
  one entry per record only when the records' entry names are distinct. A variant that lists one format
  twice leaves two records but one entry (`RepeatedFormatSharesEntry`).
- **Streams are destroyed only on failure.** The code calls `destroy()` only when the archive write
  fails. A failure to open the zip file is reported on the write stream while the write is awaited, so
  it is cleaned up like any other write failure. Three kinds of failure escape the cleanup. A
  synchronous throw from `fs.createWriteStream` (line 67) and a rejected fan-out (lines 38-65) happen
  before the write is awaited. An error of the generated archive stream (a fetched body failing while
  JSZip reads it, for example) is not forwarded to the write stream by `.pipe` (line 76), so the
  awaited `finished` never settles and the cleanup never runs. On success the run makes no `destroy()` call of its own: the fetched streams keep the
  state they had and the zip write stream is not destroyed. Streams that the stream libraries close
  by themselves after a successful write are not modelled (see "Left out").

## Model

| member | source | states |
|---|---|---|
| `Lists.Compact` | server/logic/fetchFontFiles.ts:38 | `_.compact` keeps at most as many elements as it is given, and keeps all of them exactly when none is null |
| `Lists.CompactMember` | server/logic/fetchFontFiles.ts:38 | a stream is in the compacted list exactly when it is one of the non-null fan-out results |
| `Lists.CompactConcat` | server/logic/fetchFontFiles.ts:38-39 | compacting keeps the surviving streams in input order: compacting a concatenation concatenates the compacted parts |
| `Lists.Flatten` | server/logic/fetchFontFiles.ts:39 | `_.flatten` keeps every element of every inner list and adds no other; `FanOut.FlattenIsTaskOrder` fixes the order |
| `FontPaths.Join` | server/logic/fetchFontFiles.ts:42 | `join` of at least one part is at least as long as its first and its last part; `JoinEnds` and `SplitJoin` give the rest of its meaning |
| `FontPaths.JoinEnds` | server/logic/fetchFontFiles.ts:42 | a join of at least one part starts with the first part and ends with the last |
| `FontPaths.Split` | server/logic/fetchFontFiles.ts:42 | the reference inverse of `subsets.join("_")`: it returns at least one piece and no piece holds the cut character |
| `FontPaths.JoinFreeOf` | server/logic/fetchFontFiles.ts:42 | joining subset names adds no character that is in neither the names nor the separator, so a name without '/' gets a signature without '/' |
| `FontPaths.SplitJoin` | server/logic/fetchFontFiles.ts:42 | a non-empty list of subset names without '_' is recovered from `join("_")` |
| `FontPaths.SubsetSignatureInjective` | server/logic/fetchFontFiles.ts:42 | two different non-empty subset lists without '_' get different signatures; `SubsetsDistinguishCachePaths` carries this to the cache paths |
| `FontPaths.TrimTrailingSeparators` | server/logic/fetchFontFiles.ts:48 | the first step of `path.basename`: the result is a prefix of the path and does not end with '/' |
| `FontPaths.LastComponent` | server/logic/fetchFontFiles.ts:48 | the part after the last '/' holds no '/' and is no longer than the path |
| `FontPaths.TrimDropsOnlySeparators` | server/logic/fetchFontFiles.ts:48 | every character trimmed from the end of the path is a '/' |
| `FontPaths.LastComponentFollowsSeparator` | server/logic/fetchFontFiles.ts:48 | the last component is a suffix of the path that is either the whole path or preceded by a '/' |
| `FontPaths.PathJoin` | server/logic/fetchFontFiles.ts:42 | the joined path is the directory, one '/' and the name, one character longer than both together; `BasenameOfJoin` recovers the name |
| `FontPaths.LastComponentOfJoin` | server/logic/fetchFontFiles.ts:42-48 | the part after the last '/' of `path.join(dir, "/" + name)` is `name` when `name` holds no '/' |
| `FontPaths.Basename` | server/logic/fetchFontFiles.ts:48 | `path.basename` never returns a string containing '/' |
| `FontPaths.BasenameOfJoin` | server/logic/fetchFontFiles.ts:42-48 | the base name of `path.join(dir, "/" + name)` is `name` when `name` is non-empty and holds no '/' |
| `FontPaths.FontFileName` | server/logic/fetchFontFiles.ts:42 | the cache file name of a format ends with "." followed by that format |
| `FontPaths.CachedFontPath` | server/logic/fetchFontFiles.ts:42 | a cache path is longer than the cache directory, a '/' and the format together; `CachedFontPathShape`, `EntryNameIsFileName` and `CachedFontPathInjective` give its meaning |
| `FontPaths.CachedFontPathShape` | server/logic/fetchFontFiles.ts:42 | a cache path starts with the cache directory and a '/', and ends with "." followed by the format |
| `FontPaths.EntryNameIsFileName` | server/logic/fetchFontFiles.ts:42-48 | the archive entry name of a fetched file is `<fontID>-<fontVersion>-<subsets>-<variant>.<format>` when no component holds '/' |
| `FontPaths.CachedFontPathInjective` | server/logic/fetchFontFiles.ts:42 | two formats of one variant never share a cache path, and neither do two variants fetched in one format |
| `FontPaths.SubsetsDistinguishCachePaths` | server/logic/fetchFontFiles.ts:42 | two requests that differ only in their non-empty, '_'-free subset lists give different cache paths for every variant and format |
| `FontPaths.SubsetJoinFreeOfSeparator` | server/logic/fetchFontFiles.ts:32 | subset names without '/' join by "_" into a signature without '/' |
| `FontPaths.SubsetSignature` | server/logic/fetchFontFiles.ts:32 | with no variants the subset part of the zip name is "undefined"; otherwise it holds no '/' when the first variant's subset names hold none |
| `FontPaths.ZippedFileName` | server/logic/fetchFontFiles.ts:32 | the zip path lies in the cache directory and ends in ".zip" |
| `FontPaths.ZippedFileNameUsesFirstVariant` | server/logic/fetchFontFiles.ts:32 | the zip path depends only on the cache directory, font id, version and the first variant's subsets, not on the `subsets` argument or later variants |
| `FontPaths.ZippedFileNameWithoutVariants` | server/logic/fetchFontFiles.ts:32 | with no variants the zip path is `<cache>/<fontID>-<fontVersion>-undefined.zip` |
| `FetchResponse.IndexFrom` | server/logic/fetchFontFiles.ts:99 | the search returns the first occurrence at or after the start position, or -1 when there is none |
| `FetchResponse.IndexOf` | server/logic/fetchFontFiles.ts:99 | `indexOf` returns -1 exactly when the format is not a substring of the content type; otherwise it returns the first occurrence |
| `FetchResponse.AcceptResponse` | server/logic/fetchFontFiles.ts:95-105 | any status other than 200 is refused with a status error, whatever the content type; a 200 is accepted exactly when the content type is present, non-empty and contains the format, and then yields the body; otherwise it is refused with a content-type error |
| `FetchResponse.HtmlRefusedForWoff2` | server/logic/fetchFontFiles.ts:99-101 | a 200 response of type `text/html` is refused when woff2 was requested |
| `FetchResponse.Woff2AcceptedForWoff` | server/logic/fetchFontFiles.ts:99-101 | a 200 response of type `font/woff2` is accepted when woff was requested |
| `FetchResponse.EmptyFormatAcceptsAnyContentType` | server/logic/fetchFontFiles.ts:99-101 | an empty format is accepted for every non-empty content type |
| `Streams.Stream.Open` | server/logic/fetchFontFiles.ts:67 | a newly created write stream is not destroyed |
| `Streams.Stream.Destroy` | server/logic/fetchFontFiles.ts:81 | after `destroy()` the stream is destroyed |
| `Zip.ZipArchive.constructor` | server/logic/fetchFontFiles.ts:36 | a new archive has no entries |
| `Zip.ZipArchive.File` | server/logic/fetchFontFiles.ts:48 | adding a file sets the entry of that name to the stream and leaves the other entries alone |
| `FanOut.VariantTasks` | server/logic/fetchFontFiles.ts:41 | the fetches of one variant carry that variant, one of its own sources each, and the outcomes in source order; `PairIsFetched` pins each source to its own outcome |
| `FanOut.Tasks` | server/logic/fetchFontFiles.ts:40-41 | every fetch of the fan-out is for a variant of the run and one of that variant's own sources; `PairIsFetched` gives the converse |
| `FanOut.PairIsFetched` | server/logic/fetchFontFiles.ts:40-47 | every (variant, url) pair of the run has a fetch in the fan-out, carrying that pair's own outcome |
| `FanOut.SuccessfulPairRecorded` | server/logic/fetchFontFiles.ts:46-59 | whatever the completion order, a pair whose fetch succeeded leaves the record `{variant.id, url.format, filename}` of its cache path |
| `FanOut.SuccessfulPairHasEntry` | server/logic/fetchFontFiles.ts:42-48 | whatever the completion order, a pair whose fetch succeeded has an archive entry named by the base name of its cache path |
| `FanOut.Record` | server/logic/fetchFontFiles.ts:55-59 | the record of a fetch names its variant and format, and its path ends with "." followed by that format |
| `FanOut.EntryName` | server/logic/fetchFontFiles.ts:48 | an archive entry name holds no '/'; `EntryNameIsFileName` gives it as the cache file name |
| `FanOut.Records` | server/logic/fetchFontFiles.ts:55-59 | completed fetches leave at most one `paths` record each; `RecordsMatchStreams` gives the exact count |
| `FanOut.Entries` | server/logic/fetchFontFiles.ts:48 | no archive entry name holds a '/'; `EntriesNameRecords` and `EntriesFromSuccesses` tie the entries to the records and the streams |
| `FanOut.FetchedStreamsKept` | server/logic/fetchFontFiles.ts:38-39 | every stream that some fetch produced is in the compacted stream list |
| `FanOut.FlattenIsTaskOrder` | server/logic/fetchFontFiles.ts:38-41 | flattening the per-variant results lists the fetch results variant by variant and url by url |
| `FanOut.RecordsMatchStreams` | server/logic/fetchFontFiles.ts:38-65 | there are as many `paths` records as there are non-null streams |
| `FanOut.RecordsConcat` | server/logic/fetchFontFiles.ts:55 | records pushed by two batches of completions are those of the first batch followed by those of the second |
| `FanOut.RecordsOfOneTask` | server/logic/fetchFontFiles.ts:46-59 | a failed fetch adds no record and removes none of its siblings'; a successful fetch adds exactly its own record |
| `FanOut.RecordsPermutation` | server/logic/fetchFontFiles.ts:40-59 | whatever order the fetches complete in, the records are a permutation of those of the input order |
| `FanOut.RecordsAreSuccesses` | server/logic/fetchFontFiles.ts:46-59 | a record is present exactly when some fetch for its variant and format succeeded |
| `FanOut.RecordsFromVariants` | server/logic/fetchFontFiles.ts:55-59 | every record names a variant of the run, one of that variant's declared formats, and the cache path of that pair |
| `FanOut.EntriesNameRecords` | server/logic/fetchFontFiles.ts:48 | the archive's entry names are exactly the base names of the records' paths |
| `FanOut.EntriesFromSuccesses` | server/logic/fetchFontFiles.ts:48 | every archive entry reads the stream of a successful fetch with that entry name |
| `FanOut.DistinctEntryNamesCount` | server/logic/fetchFontFiles.ts:48 | records with pairwise distinct entry names have as many entry names as records |
| `FanOut.FanOutAccounting` | server/logic/fetchFontFiles.ts:38-68 | for any completion order: the kept streams are the successes in input order, one per record; the records are the input-order records permuted; the entries are named by the records, one each when the names are distinct |
| `FanOut.RegularWoff2OnlyScenario` | server/logic/fetchFontFiles.ts:46-59 | variant "regular" with a successful woff2 fetch and a failed ttf fetch leaves exactly one record, for woff2 |
| `FanOut.LaterEntryReplaces` | server/logic/fetchFontFiles.ts:48 | two successful fetches with the same entry name leave one entry, holding the later stream |
| `FanOut.RepeatedFormatSharesEntry` | server/logic/fetchFontFiles.ts:48 | a variant listing one format twice, both fetched, leaves two records but a single archive entry |
| `FontArchive.SubsetFontArchive.constructor` | server/logic/fetchFontFiles.ts:31-34 | the archive record starts with the given zip path and no paths |
| `FontArchive.SubsetFontArchive.Push` | server/logic/fetchFontFiles.ts:55 | `paths.push` appends the record and keeps the earlier ones |
| `FontArchive.DestroyAll` | server/logic/fetchFontFiles.ts:80-82 | every stream in the list ends up destroyed |
| `FontArchive.RecordFetch` | server/logic/fetchFontFiles.ts:46-59 | a successful fetch sets its archive entry and appends its record; a failed one changes neither |
| `FontArchive.RecordFetches` | server/logic/fetchFontFiles.ts:40-62 | after all fetches completed, the archive holds the entries and `paths` the records of the successes, in completion order |
| `FontArchive.CollectFetches` | server/logic/fetchFontFiles.ts:31-68 | the fan-out phase: a fresh record with the precomputed zip path and `paths` in completion order (a permutation of the input-order records), the archive entries named by the records, the fetched streams in input order (one per record), the record of every successful pair, and a fresh, undestroyed write stream |
| `FontArchive.WriteArchive` | server/logic/fetchFontFiles.ts:70-86 | a failed write rethrows its error with every listed stream destroyed; a successful one returns the record unchanged and leaves every stream's state as it was |
| `FontArchive.FetchFontFiles` | server/logic/fetchFontFiles.ts:25-87 | the stream list is the successful streams in input order plus the zip write stream (successes + 1); the run fails exactly when the archive write fails, and then rethrows that error with every listed stream destroyed; otherwise it returns a fresh record with the precomputed zip path and `paths` in completion order (a permutation of the input-order records, holding the record of every pair whose fetch succeeded), the zip write stream is not destroyed and every fetched stream keeps the state it had before the run |

## Left out

- The HTTP `fetch`, the response body and `Readable.fromWeb`. A response is its status, its content-type header and an opaque body value.
- `asyncRetry` and `RETRIES = 5`. The retry helper is not part of this model. Each (variant, url) outcome is the result of the whole retried fetch, and the model does not derive it from `AcceptResponse`.
- The error messages thrown on a refused response. Only the kind of refusal and the values it carries are modelled.
- JSZip compression, `generateNodeStream`, `pipe`, `finished` and `fs.createWriteStream`. The archive is a map from entry names to streams. Whether the write succeeds is an input, and no bytes are modelled.
- Bluebird concurrency. The fetches run one after another in a completion order that is an input. The only observable effect, the order of `paths` and of archive updates, follows that input.
- `console.error` logging of discarded fetches.
- Loading `config`. `CACHE_DIR` is the `cacheDir` field of `FontTypes.FontRequest`.
- `FontPaths.PathJoin` does not model `path.join` normalisation (doubled separators, `.` and `..` segments). It joins the directory, one '/' and the name. Windows separators are not modelled either.
- `Streams.Stream` models only whether a stream is destroyed, not its data or its end.
- `writeError` stands for a failure reported on the zip file's write stream, the only failure that reaches the cleanup. An error of the generated archive stream (a fetched body failing mid-read, for example) is not forwarded by `.pipe` (line 76) and escapes the cleanup, leaving the run unsettled; that path is not modelled.
- `Streams.Stream.destroyed` records only the run's own `destroy()` calls (line 81). The stream libraries close streams by themselves after a successful write (`autoClose`/`autoDestroy` of the file stream, JSZip reading each entry to its end); that is not modelled.
- `FanOut.VariantTasks` does not state in its own contract that fetch `j` is for source `j`; that fact is the lemma `FanOut.PairIsFetched`, because as an ensures of the function it makes the proof of `FontArchive.FetchFontFiles` too costly.
- `FanOut.Records` states only the bound `|r| <= |ts|` in its own contract; the exact count, one record per kept stream, is the separate lemma `FanOut.RecordsMatchStreams`, because as an ensures of the recursive function it makes the loop proof of `FontArchive.RecordFetches` too costly.
