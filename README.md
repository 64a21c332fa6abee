# OpenSearch: five pieces of sequential logic, modelled in Dafny

This project models five small pieces of OpenSearch as Dafny datatypes, classes, functions and methods, and proves properties of them.

- **Per-segment id lookup** (`PerThreadIDVersionAndSeqNoLookup`, module `IdLookup`):
  - A segment is modelled by what the lookup reads from it: the postings of each term, the live-docs bits, the numeric doc values and the live-document count.
  - Opening a lookup checks that the segment is consistent.
  - `getDocID` walks an id's postings and keeps the last live one. This is a method with a loop, proved against the function `LastLive`.
  - `lookupVersion` and `lookupSeqNo` read the doc values of the document found.
- **File-inventory recovery request** (`RecoveryFilesInfoRequest`, module `RecoveryFilesInfo`, proofs in `RecoveryFilesInfoProofs`):
  - A stream is the sequence of primitive values written to it. The primitives are longs, var-ints, var-longs, strings, shard ids and the parent request's header.
  - The stream constructor and `writeTo` are loops over `StreamInput` and `StreamOutput` objects.
  - They are proved against `DecodeAt` and `Encode`, which are shown to be inverse in both directions.
- **YAML REST test skip section** (`SkipSection`, module `SkipSections`):
  - The section's token stream is a sequence of `XToken`s. `parse` is the source's token loop, proved against `ParseSpec`, a recursive scan.
  - `parseVersionRanges` is the source's loop over the `,`-pieces, proved against `VersionRanges`.
  - Lemmas state how features, versions and reasons are read and checked.
  - `skip`, `isVersionCheck`, `isEmpty`, the version getters and `getSkipMessage` are functions.
  - `Version.fromString`, the first version, `Version.CURRENT`, `VersionRange.contains` and `Features.areAllSupported` are parameters.
- **Painless local-function table** (`FunctionTable`, module `FunctionTables`):
  - A class with a map field, keyed by `name/arity`.
  - It is proved that two keys are equal only if both the names and the arities are, so an insert never disturbs another overload.
- **Adjacency-matrix buckets** (`ParsedAdjacencyMatrix`, module `AdjacencyMatrix`):
  - The by-key index is built lazily, in a loop, on the first lookup.
  - A lookup returns the last bucket in list order with that key.

`JavaText` models the `java.lang.String` behaviour the code relies on:
- `trim`;
- `split` on one literal character, with limit 0 and with limit -1;
- the decimal rendering of an `int` in string concatenation.

`Wrappers` holds `Option` and `Result`. Every Java exception the modelled code can throw becomes a `Failure` value, and every Java `null` result becomes `None`.

## Model

| member | source | states |
|---|---|---|
| `IdLookup.OpenError` | server/src/main/java/org/opensearch/common/lucene/uid/PerThreadIDVersionAndSeqNoLookup.java:85-102 | Opening succeeds iff the segment has uid terms, or is a no-op segment (soft-deletes and tombstone doc values), or is an all-deleted segment (soft-deletes with no live docs), and it also has version doc values. It fails "not a no-op segment" exactly when the first condition fails. It fails with the IllegalArgumentException for the missing version field exactly when the first condition holds and the version doc values are missing, even on an acceptable no-op segment. |
| `IdLookup.PerThreadIDVersionAndSeqNoLookup.Open` | server/src/main/java/org/opensearch/common/lucene/uid/PerThreadIDVersionAndSeqNoLookup.java:83-106 | The constructor fails exactly when `OpenError` reports an error, and with that error. Otherwise the lookup holds the uid field's terms, or none for a segment without uid terms. |
| `IdLookup.LastLiveIsLastLivePosting` | server/src/main/java/org/opensearch/common/lucene/uid/PerThreadIDVersionAndSeqNoLookup.java:143-154 | The last live posting is NO_MORE_DOCS iff every posting is deleted. Otherwise it is a live posting after which all postings are deleted, and it is the greatest live doc id. No live-docs bits means every posting is live. |
| `IdLookup.LastLiveOfTwoLive` | server/src/main/java/org/opensearch/common/lucene/uid/PerThreadIDVersionAndSeqNoLookup.java:146-153 | When one id has two live postings, the earlier one is never the one found; the result is at least the later one. |
| `IdLookup.DocIdForNotFound` | server/src/main/java/org/opensearch/common/lucene/uid/PerThreadIDVersionAndSeqNoLookup.java:141-158 | `getDocID` gives NO_MORE_DOCS in exactly three cases: there is no terms enum, the id is absent, or every posting for the id is deleted. |
| `IdLookup.PerThreadIDVersionAndSeqNoLookup.GetDocID` | server/src/main/java/org/opensearch/common/lucene/uid/PerThreadIDVersionAndSeqNoLookup.java:141-158 | The loop's result is the last live posting of the id, or NO_MORE_DOCS. A found doc id is one of the id's postings and is live. |
| `IdLookup.ReadNumericDocValues` | server/src/main/java/org/opensearch/common/lucene/uid/PerThreadIDVersionAndSeqNoLookup.java:160-167 | A read succeeds iff the field exists and has a value for the doc, and then returns that value. Otherwise it throws the IllegalStateException for that field and doc. |
| `IdLookup.FirstMissing` | server/src/main/java/org/opensearch/common/lucene/uid/PerThreadIDVersionAndSeqNoLookup.java:123-130 | This finds the first field, in read order, whose read throws: every field before it reads successfully. It is None iff every read succeeds. |
| `IdLookup.PerThreadIDVersionAndSeqNoLookup.LookupVersion` | server/src/main/java/org/opensearch/common/lucene/uid/PerThreadIDVersionAndSeqNoLookup.java:114-135 | The result is null iff `getDocID` finds nothing. An exception is thrown iff a field read in source order (seqNo, primary term, version) has no value, and it names the first such field. Otherwise the result carries the doc id, the doc's version, the context's reader and `docBase`, and either the doc's seqNo and primary term (`loadSeqNo`) or UNASSIGNED_SEQ_NO and UNASSIGNED_PRIMARY_TERM. |
| `IdLookup.PerThreadIDVersionAndSeqNoLookup.LookupSeqNo` | server/src/main/java/org/opensearch/common/lucene/uid/PerThreadIDVersionAndSeqNoLookup.java:170-180 | The result is null iff `getDocID` finds nothing. It throws iff that doc has no seqNo. Otherwise it pairs the same doc id with its seqNo and the context. |
| `RecoveryFilesInfo.WriteNameList` | server/src/main/java/org/opensearch/indices/recovery/RecoveryFilesInfoRequest.java:112-115 | The loop appends the list's size as a var-int, then every name as a string, in order. |
| `RecoveryFilesInfo.WriteSizeList` | server/src/main/java/org/opensearch/indices/recovery/RecoveryFilesInfoRequest.java:117-120 | The loop appends the list's size as a var-int, then every size as a var-long, in order. |
| `RecoveryFilesInfo.ReadNameList` | server/src/main/java/org/opensearch/indices/recovery/RecoveryFilesInfoRequest.java:59-63 | The loop reads a count, then that many strings, and agrees with `ReadNameListAt` on the value, the new position and the error. |
| `RecoveryFilesInfo.ReadSizeList` | server/src/main/java/org/opensearch/indices/recovery/RecoveryFilesInfoRequest.java:65-69 | The loop reads a count, then that many var-longs, and agrees with `ReadSizeListAt` on the value, the new position and the error. |
| `RecoveryFilesInfo.EncodeInOrder` | server/src/main/java/org/opensearch/indices/recovery/RecoveryFilesInfoRequest.java:107-132 | Wire order is fixed: the header, recoveryId as a long, the shard id, then names, sizes, existing names and existing sizes, then totalTranslogOps as a var-int. |
| `RecoveryFilesInfo.RecoveryFilesInfoRequest.constructor` | server/src/main/java/org/opensearch/indices/recovery/RecoveryFilesInfoRequest.java:85-96 | The field constructor stores exactly what it is given. It makes no check on the lists' lengths. |
| `RecoveryFilesInfo.RecoveryFilesInfoRequest.RecoveryId` | server/src/main/java/org/opensearch/indices/recovery/RecoveryFilesInfoRequest.java:98-100 | The accessor returns the stored recovery id. |
| `RecoveryFilesInfo.RecoveryFilesInfoRequest.GetShardId` | server/src/main/java/org/opensearch/indices/recovery/RecoveryFilesInfoRequest.java:102-104 | The accessor returns the stored shard id. |
| `RecoveryFilesInfo.RecoveryFilesInfoRequest.ReadFrom` | server/src/main/java/org/opensearch/indices/recovery/RecoveryFilesInfoRequest.java:55-83 | The stream constructor succeeds iff `DecodeAt` does, with the same request and end position. It fails with the error of the first read that fails. |
| `RecoveryFilesInfo.RecoveryFilesInfoRequest.WriteTo` | server/src/main/java/org/opensearch/indices/recovery/RecoveryFilesInfoRequest.java:106-132 | `writeTo` appends exactly `Encode` of the request to the stream. |
| `RecoveryFilesInfoProofs.ReadNamesOfEncoded` | server/src/main/java/org/opensearch/indices/recovery/RecoveryFilesInfoRequest.java:61-63 | Reading n strings where n names were written gives those names, appended in order, and stops after them. |
| `RecoveryFilesInfoProofs.ReadSizesOfEncoded` | server/src/main/java/org/opensearch/indices/recovery/RecoveryFilesInfoRequest.java:67-69 | Reading n var-longs where n sizes were written gives those sizes, appended in order, and stops after them. |
| `RecoveryFilesInfoProofs.EncodedNamesOfRead` | server/src/main/java/org/opensearch/indices/recovery/RecoveryFilesInfoRequest.java:61-63 | A successful read of n names consumed exactly n values, and those values are the names' encodings. |
| `RecoveryFilesInfoProofs.EncodedSizesOfRead` | server/src/main/java/org/opensearch/indices/recovery/RecoveryFilesInfoRequest.java:67-69 | A successful read of n sizes consumed exactly n values, and those values are the sizes' encodings. |
| `RecoveryFilesInfoProofs.NameListRoundTrip` | server/src/main/java/org/opensearch/indices/recovery/RecoveryFilesInfoRequest.java:59-63 | A name list written as its count and then its elements reads back as the same list. |
| `RecoveryFilesInfoProofs.SizeListRoundTrip` | server/src/main/java/org/opensearch/indices/recovery/RecoveryFilesInfoRequest.java:65-69 | A size list written as its count and then its elements reads back as the same list. |
| `RecoveryFilesInfoProofs.NegativeCountRejected` | server/src/main/java/org/opensearch/indices/recovery/RecoveryFilesInfoRequest.java:59-60 | A negative list count fails before any element is read, because `new ArrayList<>(size)` throws. |
| `RecoveryFilesInfoProofs.FileListsRoundTrip` | server/src/main/java/org/opensearch/indices/recovery/RecoveryFilesInfoRequest.java:59-81 | The four independently prefixed lists, followed by anything, read back as the same four lists, each of any length, and leave the rest unread. |
| `RecoveryFilesInfoProofs.DecodeEncode` | server/src/main/java/org/opensearch/indices/recovery/RecoveryFilesInfoRequest.java:55-83 | Round trip: decoding what `writeTo` wrote, at any position, gives the same request (ids, shard, four lists element by element, op count) and stops right after it. |
| `RecoveryFilesInfoProofs.EncodeDecode` | server/src/main/java/org/opensearch/indices/recovery/RecoveryFilesInfoRequest.java:106-132 | Everything the stream constructor accepts is exactly the encoding of the request it returns. |
| `SkipSections.RangeOf` | test/framework/src/main/java/org/opensearch/test/rest/yaml/section/SkipSection.java:185-196 | A piece with more than two `-`-parts fails "malformed", and one with fewer fails on the missing upper bound. A parsed range has both bounds. An empty lower or upper bound means the first version or CURRENT, and a non-empty one is the version read from the trimmed part. A trimmed part that does not read as a version fails with that part, the lower bound first. A piece of two parts, each empty or readable as a version, always parses. |
| `SkipSections.RangesOfInOrder` | test/framework/src/main/java/org/opensearch/test/rest/yaml/section/SkipSection.java:184-197 | Parsing succeeds iff every piece parses. The result then has one range per piece, in the pieces' order. |
| `SkipSections.PieceWithoutDashFails` | test/framework/src/main/java/org/opensearch/test/rest/yaml/section/SkipSection.java:190-191 | A `,`-piece without a `-` makes the whole version string fail. |
| `SkipSections.ParseVersionRanges` | test/framework/src/main/java/org/opensearch/test/rest/yaml/section/SkipSection.java:175-199 | The method equals `VersionRanges`: null gives one range with null bounds, and `all` (trimmed) gives one range from the first version to CURRENT. |
| `SkipSections.ParseRanges` | test/framework/src/main/java/org/opensearch/test/rest/yaml/section/SkipSection.java:182-198 | The loop over the pieces gives the ranges of all pieces in order, or the first piece's failure. |
| `SkipSections.TrimAll` | test/framework/src/main/java/org/opensearch/test/rest/yaml/section/SkipSection.java:92-94 | Every piece is trimmed, in order, one result per piece. |
| `SkipSections.AddTrimmed` | test/framework/src/main/java/org/opensearch/test/rest/yaml/section/SkipSection.java:87-94 | A scalar `features` value appends its trimmed `,`-pieces, in order, after the features already read. |
| `SkipSections.ReadFeaturesArray` | test/framework/src/main/java/org/opensearch/test/rest/yaml/section/SkipSection.java:103-108 | The inner loop agrees with the scan. It stops just after the first END_ARRAY and leaves the array. The features read before are kept as a prefix, and the ones it appends are exactly the texts of the value tokens it passed, in order. |
| `SkipSections.NewSection` | test/framework/src/main/java/org/opensearch/test/rest/yaml/section/SkipSection.java:135-141 | Construction succeeds iff the version string parses to at least one range, which is the constructor's assertion. The section then holds exactly those ranges, the features and the reason. |
| `SkipSections.Finish` | test/framework/src/main/java/org/opensearch/test/rest/yaml/section/SkipSection.java:112-120 | No version and no features fails "version or features is mandatory". A version without a reason fails "reason is mandatory". When both checks pass, the result is the constructed section. Success keeps the features and reason read and the ranges of the version. |
| `SkipSections.ParseFinish` | test/framework/src/main/java/org/opensearch/test/rest/yaml/section/SkipSection.java:114-120 | The method's checks and construction equal `Finish`. |
| `SkipSections.Parse` | test/framework/src/main/java/org/opensearch/test/rest/yaml/section/SkipSection.java:68-121 | The token loop equals `ParseSpec`. A section not starting with START_OBJECT fails "not properly indented". |
| `SkipSections.ParseIfNext` | test/framework/src/main/java/org/opensearch/test/rest/yaml/section/SkipSection.java:56-66 | A `skip` field is parsed. Any other field gives `EMPTY`. |
| `SkipSections.RunStopsAtEndObject` | test/framework/src/main/java/org/opensearch/test/rest/yaml/section/SkipSection.java:78-110 | A successful scan ends just after an END_OBJECT, outside any array. |
| `SkipSections.RunOnlyAddsFeatures` | test/framework/src/main/java/org/opensearch/test/rest/yaml/section/SkipSection.java:86-108 | Features are only appended: what was read earlier is a prefix of the final list. |
| `SkipSections.RunOverArrayValues` | test/framework/src/main/java/org/opensearch/test/rest/yaml/section/SkipSection.java:104-107 | Inside a features array, every value is appended as it is (untrimmed), in order. |
| `SkipSections.FeaturesArrayParsed` | test/framework/src/main/java/org/opensearch/test/rest/yaml/section/SkipSection.java:103-120 | `features: [a, b, ...]` gives exactly those features in order, no reason, and one range with null bounds. |
| `SkipSections.ScalarFeaturesParsed` | test/framework/src/main/java/org/opensearch/test/rest/yaml/section/SkipSection.java:86-120 | `features: "a, b"` gives the trimmed `,`-pieces. A value with no pieces leaves no features and fails the mandatory check. |
| `SkipSections.VersionNeedsReason` | test/framework/src/main/java/org/opensearch/test/rest/yaml/section/SkipSection.java:114-120 | A version without a reason is refused. With a reason, the section gets the version's ranges. |
| `SkipSections.UnsupportedFieldRefused` | test/framework/src/main/java/org/opensearch/test/rest/yaml/section/SkipSection.java:99-101 | Wherever the scan stands outside an array, a value under a field other than version, reason or features (or before any field name) makes the parse fail, naming that field. |
| `SkipSections.NullValueIgnored` | test/framework/src/main/java/org/opensearch/test/rest/yaml/section/SkipSection.java:79-109 | A null value is not a value token, so outside an array it is skipped whatever the field. |
| `SkipSections.NullVersionParsed` | test/framework/src/main/java/org/opensearch/test/rest/yaml/section/SkipSection.java:81-85 | `version: null` leaves the version unset: the section parses as if the field were absent. |
| `SkipSections.NonValueInArrayRefused` | test/framework/src/main/java/org/opensearch/test/rest/yaml/section/SkipSection.java:105-106 | Inside a features array, any token other than a value or END_ARRAY fails, because it has no text to read. |
| `SkipSections.ObjectInFeaturesArrayRefused` | test/framework/src/main/java/org/opensearch/test/rest/yaml/section/SkipSection.java:103-107 | `features: [{}]` fails on the object instead of reading it as text. |
| `SkipSections.AnyContains` | test/framework/src/main/java/org/opensearch/test/rest/yaml/section/SkipSection.java:163 | The result is true iff some range contains the version. |
| `SkipSections.Skip` | test/framework/src/main/java/org/opensearch/test/rest/yaml/section/SkipSection.java:159-165 | `EMPTY` (`SkipSection.IsEmpty`) never skips. Any other section skips iff some range contains the current version or not all features are supported. |
| `SkipSections.VersionCheckHasVersion` | test/framework/src/main/java/org/opensearch/test/rest/yaml/section/SkipSection.java:167-169 | A parsed section without features is a version check (`IsVersionCheck`), and it was given a version and a reason. |
| `SkipSections.GetLowerVersion` | test/framework/src/main/java/org/opensearch/test/rest/yaml/section/SkipSection.java:143-145 | The result is the lower bound of the first range. It throws iff there are no ranges (only `EMPTY`). |
| `SkipSections.GetUpperVersion` | test/framework/src/main/java/org/opensearch/test/rest/yaml/section/SkipSection.java:147-149 | The result is the upper bound of the last range. It throws iff there are no ranges (only `EMPTY`). |
| `SkipSections.ParsedSectionHasBounds` | test/framework/src/main/java/org/opensearch/test/rest/yaml/section/SkipSection.java:135-149 | Both version getters succeed on every parsed section. |
| `SkipSections.SkipMessageShape` | test/framework/src/main/java/org/opensearch/test/rest/yaml/section/SkipSection.java:201-211 | The message `GetSkipMessage` builds opens with `[description] skipped,`. A reason follows it when there is one, and the bracketed feature list ends it when there are features. With neither, the message is just the opening. |
| `JavaText.TrimIsSlice` | test/framework/src/main/java/org/opensearch/test/rest/yaml/section/SkipSection.java:190-191 | `trim` gives a slice of its input: every char cut off before or after it is a char up to U+0020, and the slice neither starts nor ends with one. It is empty iff every char is trimmable. |
| `JavaText.JoinSplitAll` | test/framework/src/main/java/org/opensearch/test/rest/yaml/section/SkipSection.java:185 | `split(sep, -1)` loses nothing: joining the pieces with the separator gives back the string. |
| `JavaText.SplitAllJoin` | test/framework/src/main/java/org/opensearch/test/rest/yaml/section/SkipSection.java:185 | Splitting the join of separator-free pieces gives back the pieces. |
| `JavaText.SplitPieces` | test/framework/src/main/java/org/opensearch/test/rest/yaml/section/SkipSection.java:182 | `split(sep)` gives separator-free pieces. When the separator does not occur, the result is the string itself as the only piece, even for the empty string. When it occurs, the pieces are those of `split(sep, -1)` with the trailing empty ones dropped, so the last piece kept is not empty and a string of separators gives no pieces. |
| `FunctionTables.BuildLocalFunctionKey` | modules/lang-painless/src/main/java/org/opensearch/painless/symbol/FunctionTable.java:115-117 | The key is the name, then `/`, then the decimal arity. That arity reads back as the number given and holds no `/`. |
| `FunctionTables.KeyInjective` | modules/lang-painless/src/main/java/org/opensearch/painless/symbol/FunctionTable.java:115-117 | Two keys are equal only when both the names and the arities are. |
| `FunctionTables.Put` | modules/lang-painless/src/main/java/org/opensearch/painless/symbol/FunctionTable.java:126 | A put adds exactly the function's own key to the table's keys. |
| `FunctionTables.LookupAfterPut` | modules/lang-painless/src/main/java/org/opensearch/painless/symbol/FunctionTable.java:124-138 | After a function is added, looking up its name and arity finds it. |
| `FunctionTables.LookupOtherAfterPut` | modules/lang-painless/src/main/java/org/opensearch/painless/symbol/FunctionTable.java:121-134 | Adding a function leaves the lookup of every other (name, arity) unchanged. Only an entry of the same name and arity is replaced. |
| `FunctionTables.PutKeepsWellKeyed` | modules/lang-painless/src/main/java/org/opensearch/painless/symbol/FunctionTable.java:121-134 | Every entry stays filed under its own name/arity key. |
| `FunctionTables.LookupNeverAdded` | modules/lang-painless/src/main/java/org/opensearch/painless/symbol/FunctionTable.java:121-139 | Adding any sequence of functions, none with a given name and arity, leaves that lookup as it was. On a new table, a (name, arity) never added looks up to null. |
| `FunctionTables.FunctionTable.constructor` | modules/lang-painless/src/main/java/org/opensearch/painless/symbol/FunctionTable.java:119 | A new table is empty. |
| `FunctionTables.FunctionTable.AddFunction` | modules/lang-painless/src/main/java/org/opensearch/painless/symbol/FunctionTable.java:121-128 | This builds the function, files it under its name and parameter count, replacing any entry there, and returns it. `getFunction(name, size)` then returns it. |
| `FunctionTables.FunctionTable.AddLocalFunction` | modules/lang-painless/src/main/java/org/opensearch/painless/symbol/FunctionTable.java:130-134 | This files the given function under its own key, replacing any entry there, and returns that same function. |
| `FunctionTables.FunctionTable.GetFunction` | modules/lang-painless/src/main/java/org/opensearch/painless/symbol/FunctionTable.java:136-139 | Lookup by name and arity equals lookup by the built key, and equals `Lookup` on the table, so the put and lookup lemmas apply to the class. A found function has that name and arity. |
| `FunctionTables.FunctionTable.GetFunctionByKey` | modules/lang-painless/src/main/java/org/opensearch/painless/symbol/FunctionTable.java:141-143 | The result is null iff the key was never filed. Otherwise it is the function filed under that key, and that function's own key is the key asked for. |
| `AdjacencyMatrix.ParsedBucket.GetKeyAsString` | server/src/main/java/org/opensearch/search/aggregations/bucket/adjacency/ParsedAdjacencyMatrix.java:87-95 | A bucket's key as a string is its key (`ParsedBucket.GetKey`). |
| `AdjacencyMatrix.LastWithKey` | server/src/main/java/org/opensearch/search/aggregations/bucket/adjacency/ParsedAdjacencyMatrix.java:62-66 | This is the reference lookup: a bucket it finds is in the list and carries the key. |
| `AdjacencyMatrix.LastWithKeyIsLast` | server/src/main/java/org/opensearch/search/aggregations/bucket/adjacency/ParsedAdjacencyMatrix.java:59-67 | The reference lookup finds nothing iff no bucket has the key. Otherwise no later bucket has the key. |
| `AdjacencyMatrix.KeyIndexFindsLast` | server/src/main/java/org/opensearch/search/aggregations/bucket/adjacency/ParsedAdjacencyMatrix.java:61-66 | The index built by putting every bucket in list order answers every key with the last bucket that has it. |
| `AdjacencyMatrix.ParsedAdjacencyMatrix.GetBuckets` | server/src/main/java/org/opensearch/search/aggregations/bucket/adjacency/ParsedAdjacencyMatrix.java:53-56 | The result is the parsed bucket list, element for element. |
| `AdjacencyMatrix.ParsedAdjacencyMatrix.GetBucketByKey` | server/src/main/java/org/opensearch/search/aggregations/bucket/adjacency/ParsedAdjacencyMatrix.java:59-67 | This builds the index only when there is none, and never rebuilds it. It returns null iff no bucket has the key, and otherwise the last bucket in list order with that key. This holds for the list as parsed: the model's list cannot change (see Left out). |

## Behaviour taken from the code

In these places the code does something other than what a reader of the system's overall design might expect. The model follows the code.
- `PerThreadIDVersionAndSeqNoLookup` raises its consistency error only when a lookup is opened on a segment without uid terms. Looking up an absent id returns null and never raises.
- That opening check accepts a segment without uid terms in two cases:
  - it has both soft-deletes and tombstone doc values (any live-doc count);
  - it has soft-deletes and no live documents (with or without tombstones).
- `RecoveryFilesInfoRequest` does not require the names list and the sizes list to have the same length. The lists are written and read independently, and the round-trip lemmas hold for any lengths.
- Some version strings for a skip section produce no range at all, for example one made only of commas. Such a string reaches the constructor's `assert versionRanges.isEmpty() == false`. This is modelled as the error `NoRanges`, which is what happens with assertions enabled, as in tests.
- An empty version string that comes with features produces one empty piece, and indexing its missing upper bound throws. This is modelled as `MissingUpperBound`.

## Left out

- The StreamInput/StreamOutput primitives (var-int, var-long, string, `ShardId.writeTo`) and the `RecoveryTransportRequest` header are not part of this model. They are single values of a token stream that round-trip by construction, not bytes.
- A null element in a request list, and the constructor storing the caller's `List` objects by reference: lists are values here.
- `LocalFunction`'s `MethodType` and ASM method descriptor. These are JVM reflection and bytecode-library calls.
- `LocalFunction`'s null checks and read-only type-parameter list. The datatype's fields are values and cannot be null or mutated.
- The ObjectParser wiring of `ParsedAdjacencyMatrix` and `ParsedBucket.fromXContent`: the bucket list and keys are constructor arguments.
- `ParsedBucket.key` is a `const`, because only parsing sets it.
- AdjacencyMatrix.ParsedBucket: a parsed bucket's key is a `string`, so the model has no bucket with a null key. In the source a bucket can have a null key, the `HashMap` accepts it, and `getBucketByKey(null)` finds that bucket.
- AdjacencyMatrix.ParsedAdjacencyMatrix.GetBuckets and AdjacencyMatrix.ParsedAdjacencyMatrix.GetBucketByKey: `getBuckets` returns the mutable `buckets` list itself, and `getBucketByKey` never invalidates its cache. A caller could change the list after the first by-key lookup and later lookups would answer from the stale map. The model's bucket list is a `const`, so it does not capture that aliasing or staleness.
- The Lucene internals of the id lookup: `TermsEnum`/`PostingsEnum` reuse (the `docsEnum` field), reader cache keys and the `readerKey` assertions.
- IdLookup.PerThreadIDVersionAndSeqNoLookup.Open: it requires ascending postings below NO_MORE_DOCS, which Lucene guarantees of every postings list.
- The `DocValues` iterators are a map from doc id to value, so `advanceExact` is membership.
- IdLookup.ReadNumericDocValues: the server code is modelled as it runs in production, with assertions disabled. A missing doc value then gives the IllegalStateException. With assertions enabled, the `assert false` before the throw raises an AssertionError instead. The test-framework code (`SkipSection`) is modelled with assertions enabled, as tests run it (see `NoRanges`).
- XContent token locations and exception messages. `ParserUtils.advanceToFieldName` is not part of this model: `ParseIfNext` takes the current field name as a parameter.
- The `parser.nextToken()` after the loop in `parse`, and the one in `parseIfNext`, only move the parser. The model returns no parser position.
- Tokens that run out before the section's END_OBJECT give `UnexpectedEnd`. In Java the parser's null token would end in an exception.
- `NoText` stands for the IllegalStateException that the XContent parser's `text()` throws on a token that is not a value.
- The `fs == null` branch of `parse` is unreachable, because `split` never returns null, and it is not modelled.
- `Version` parsing and comparison, `VersionRange.contains` and `Features.areAllSupported` are parameters. `Version.fromString` is a partial function whose failure is `BadVersion`.
- Java `String.split` is modelled only for a literal one-character separator, which is all the code uses. Strings are sequences of Unicode scalar values, not UTF-16 units. `trim` and that `split` act the same on both, since surrogates lie above U+0020 and the separators are ASCII.
- The peer-recovery handlers, the recovery state machine and file diffing are not part of this model: none of the modelled files implements them.
