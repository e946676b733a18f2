# Gallery token registry — store, ranking and creation pipeline

This project models the core of the gallery backend (`src/index.js`) and proves properties of that model:

- **Token store.** `all` holds the records in `data.json` order, newest first. `byTokenId` is the index by token id. `hashtags` is the hashtag ranking.
  - It is a `class TokenStore` with a `Valid()` invariant: the index covers the records, the ranking is the ranking of all their tags, and the persisted file holds `all`.
  - `readData` is a loop proved against the function `IndexOf` (last record with an id wins).
  - `addTokenData` is a method that prepends the record, updates the index and recomputes the ranking.
- **Hashtag ranking** (`calculateHashtags`). It is imperative, as in the server:
  - a nested counting loop over a count object whose keys remember their insertion order;
  - the key order of `Object.entries`;
  - a stable sort by descending count.

  Each step is proved against a specification (`Tally`, `KeyBefore`, `CountOrdered`), and the result satisfies `IsRanking`, which is shown to determine the ranking uniquely.

  The count object in the server is a plain `{}`, which inherits the members of `Object.prototype`. Tags that name one of them are miscounted (third finding below). The method models the corrected count object, one with no inherited names. The as-written count object is `Ranking.CountAsWritten`, and it agrees with the corrected one when no tag is an inherited name.
- **Hashtag normalisation** (`(s || '').split(/[^\w]+/).filter(tag => tag != '')`). It is written as pure functions over the `\w` character class. Proved: every tag is a non-empty word-character run, no word character is lost, and joining tags with spaces and normalising again gives them back.
- **Creation request** (`POST /tokens`). It is a state machine over the multipart parts: `Step` is one loop iteration, `ProcessParts` the loop as a function, and `ReadParts` the `for await` loop.
  - A `tokenId` part that does not parse or is taken stops the request with 422.
  - `image` and `preview` files are named after the token id read so far.
  - The record is assembled from `params`.
- **Presentation and errors.** `formatToken`, the `attributes` of the single-token view, and the error handler's choice of status and body.
- **JavaScript primitives the above relies on.** These are written out in `jstext.dfy`:
  - `parseInt` with no radix: white space, sign, `0x` prefix, longest digit run, `NaN`;
  - `String(n)`;
  - `Array.prototype.join`;
  - POSIX `path.extname`.

Clock readings are a parameter (`now`, milliseconds since the epoch). File writes are recorded as values (`FileWrite`). The rewrite of `data.json` is the ghost field `persisted`.

**Tie order follows the code.** Tags with equal counts keep the order of `Object.entries` on the count object. For keys that are not array indices, that is the order of first occurrence (`Ranking.TiesKeepFirstOccurrence`). Keys that are canonical numerals below 2^32 - 1 (a tag such as `7`) come first, in ascending numeric order (`Ranking.ArrayIndexTagRanksFirst`). A plain "stable on first occurrence" description of the ranking does not hold for such tags. The model follows the code.

## Model

| member | source | states |
|---|---|---|
| JsText.ParseIntOfIntToString | src/index.js:109-110 | `parseInt` reads back `String(n)` for every integer, also when a suffix that cannot extend a numeral follows, so the handler's second `parseInt` never rejects a parsed id |
| JsText.ExtName | src/index.js:186 | the extension is a suffix of the uploaded name with its trailing slashes removed; it is empty or starts with `.`, and contains no further `.` and no `/` |
| Records.ImageFileName | src/index.js:186 | `parseInt` of the full-image file name is the token id it was derived from |
| Records.PreviewFileName | src/index.js:194 | the preview name ends in `.jpg`; `parseInt` of it is the token id, or `NaN` (`undefined.jpg`) when no id was read |
| Records.UndefinedIsNotANumber | src/index.js:194 | a name built from an `undefined` id parses to `NaN`, so it names no token |
| Hashtags.SplitOnNonWord | src/index.js:180 | `split(/[^\w]+/)` yields at least one piece and every piece consists of word characters only |
| Hashtags.DropEmpty | src/index.js:180 | the filter keeps every non-empty piece exactly as often as it occurs, and drops every empty one |
| Hashtags.DropEmptyAppend | src/index.js:180 | filtering the concatenation of two lists of pieces concatenates their filtered lists, so the order of the pieces is kept |
| Hashtags.ParseHashtags | src/index.js:180 | every tag is a non-empty run of `[A-Za-z0-9_]`; a missing field gives no tags |
| Hashtags.ParseHashtagsKeepsWordChars | src/index.js:180 | the tags, concatenated, are exactly the word characters of the field, in order |
| Hashtags.ParseJoinRoundTrip | src/index.js:180 | normalising tags joined with spaces gives the same tags back |
| Ranking.Distinct | src/index.js:58-60 | the keys of the count object: no duplicates, and exactly the tags that occur |
| Ranking.DistinctKeepsFirstOccurrence | src/index.js:58-60 | a key is inserted before another exactly when its tag occurs first |
| Ranking.CountTags | src/index.js:55-63 | (corrected count object) after the loops, the keys are the distinct tags in insertion order and each count is the tag's number of occurrences |
| Ranking.CountRecordTags | src/index.js:57-62 | (corrected count object) counting one record's tags extends the tally by exactly those tags, creating a key at 0 for a new tag |
| Ranking.EntriesOrder | src/index.js:64 | `Object.entries` lists every key once: array-index keys ascending, then the others in insertion order |
| Ranking.InsertionPoint | src/index.js:64 | the position of a new array-index key among the ascending ones (two equal values are the same key) |
| Ranking.SortByCountDescending | src/index.js:65 | the stable sort returns every entry exactly once, by descending count, and keeps the entry order among equal counts |
| Ranking.CalculateHashtags | src/index.js:54-67 | (corrected count object) the result holds every distinct tag of every record exactly once and nothing else, in ranking order |
| Ranking.RankingIsUnique | src/index.js:54-67 | two rankings of the same tags are equal, so the ranking is determined by the records |
| Ranking.RankingCountsNonIncreasing | src/index.js:65 | down the ranking, occurrence counts never increase |
| Ranking.TiesKeepFirstOccurrence | src/index.js:64-65 | tags with equal counts that are not array indices keep their first-occurrence order |
| Ranking.ArrayIndexTagRanksFirst | src/index.js:64 | with one `b` and then one `7`, the ranking is `7`, `b`: array-index tags precede other tags with the same count |
| Ranking.CountAsWritten | src/index.js:55-61 | as written, on a `{}` that inherits from `Object.prototype`: every tag except `__proto__` becomes an own key; a tag naming an inherited member counts `NaN`, any other tag its number of occurrences |
| Ranking.CountAsWrittenAgrees | src/index.js:55-61 | when no tag names an inherited member, the as-written keys are `Distinct(tags)` (the corrected keys, in the same order), and every tag is a key holding its number of occurrences |
| Ranking.ProtoTagDroppedAsWritten | src/index.js:55-66 | as written, a `__proto__` tag is never a key, so no order of the keys is a ranking of the tags |
| Ranking.InheritedTagCountsNaNAsWritten | src/index.js:57-60 | as written, a tag such as `toString` is a key whose count is `NaN` |
| Ranking.ProtoIsATag | src/index.js:178-181 | a `hashtags` field `__proto__` normalises to that one tag, so a request can store it |
| Store.IndexOf | src/index.js:47-50 | every record's id is a key, and every key maps to a record carrying that id |
| Store.IndexOfLastWins | src/index.js:48-50 | when ids repeat, the key maps to the last record with that id |
| Store.ReadData | src/index.js:45-52 | `readData` returns the stored records and the index `IndexOf` builds from them |
| Store.IndexFromInvariant | src/index.js:45-51 | with distinct ids, any index covering the records is the one `readData` would build |
| Store.FreshIdKeepsIdsUnique | src/index.js:69-71 | prepending a record whose id is not in the index keeps ids distinct |
| Store.TokenStore.Load | src/index.js:78-79 | start-up loads the records and builds the index and a valid ranking |
| Store.TokenStore.AddTokenData | src/index.js:69-76 | `all` gains the record at its front and is otherwise unchanged; the index gains the record under its id with every other entry unchanged; the ranking is that of the new records; the file holds `all` |
| Store.StoredRankingIsCalculated | src/index.js:72 | the stored ranking equals any ranking of the records, i.e. what `calculateHashtags(all)` returns |
| Store.ReloadRebuildsIndex | src/index.js:73-75 | with distinct ids, reading back the persisted file rebuilds the in-memory index |
| Errors.ErrorReply | src/index.js:82-91 | 422 for validation errors, the error's status when at least 400, else 500; the message is sent below 500 and a generic text from 500 on |
| Errors.RejectionReachesClient | src/index.js:84-90 | a deliberate rejection reaches the client as 422 with its message |
| Errors.CrashIsHidden | src/index.js:84-90 | an unanticipated exception is answered with 500 and its message is not revealed |
| Presentation.FormatToken | src/index.js:93-99 | the view keeps the record's fields; `fullimage` is the image URL; `image` becomes the preview URL named after the id; `external_url` ends with a numeral that parses to the id |
| Presentation.UrlNamesToken | src/index.js:97 | the part of the external URL after its base parses back to the token id |
| Presentation.Attributes | src/index.js:124-140 | `Date of creation` (whole seconds, rounded down) and `Artist` are always present; `Tags` is present exactly when the record has tags, as the tags joined with spaces |
| Presentation.TagsAttributeRoundTrip | src/index.js:135-140 | normalising the `Tags` attribute gives back the token's tags |
| Ingest.Step | src/index.js:155-198 | each part is stored in `params`. A `tokenId` part is accepted exactly when it parses to an id not in the index; that id becomes the token id; otherwise it is rejected with 422 and the message for a bad or a taken id. A `hashtags` part sets the tags to its normalised value. An `image` part fails exactly when no id was read or it carries no file; otherwise it writes and records `<id><extension>`. A `preview` part fails exactly when it carries no file; otherwise it writes `<id>.jpg`. These failures are exceptions with no status code. Every other part changes only `params`, and nothing a part does not name changes |
| Ingest.ReadParts | src/index.js:155-199 | the part loop computes `ProcessParts`: it stops at the first rejected or failing part |
| Ingest.StoppedIsFinal | src/index.js:164-175 | once a part stops the request, later parts change nothing |
| Ingest.TokenIdRejected | src/index.js:160-175 | a `tokenId` part that does not parse, or names an existing token, stops the request with 422 whatever follows |
| Ingest.ProcessPartsConsistent | src/index.js:155-199 | while reading, the token id is fresh, every written file name names no existing token, full images are named after an id, and tags are normalised |
| Ingest.WritesSpareExistingTokens | src/index.js:184-197 | no file a request writes has a name derived from the id of a token already in the index: neither that id's preview name nor a full-image name built from that id |
| Ingest.HashtagsHoldLastPart | src/index.js:178-181 | after the loop, the tags are the normalised value of the last `hashtags` part |
| Ingest.SecondTokenIdRenamesNothing | src/index.js:160-187 | a request naming fresh ids `a` and then `b` around an `image` part creates a record with id `b` whose image is named after `a` |
| Ingest.EarlierIdWritesImage | src/index.js:160-189 | a request for a fresh id `a` that uploads a file writes and records the full-image name built from `a`, so it writes over the image of a record stored as above |
| Ingest.ParamsHoldLastPart | src/index.js:157 | after the loop, `params` holds under each field name the value of the last part with that name |
| Ingest.Assemble | src/index.js:201-213 | (corrected) a request that never set a token id is rejected with 422; otherwise the record carries the id, the tags or none, the image name and the creation instant |
| Ingest.CreatedTokenIsFresh | src/index.js:170-175 | a created record's id is not in the index, its tags are normalised, and its image name names no existing token |
| Ingest.CreatedFieldsFromParts | src/index.js:201-209 | the created record's text fields are the values of the last parts with those names, and its tags the normalised value of the last `hashtags` part |
| Ingest.MissingTokenIdRejected | src/index.js:201-202 | (corrected) a request without a `tokenId` part is rejected with 422 |
| Ingest.MissingHashtagsDefaultToEmpty | src/index.js:205 | (corrected) a request without a `hashtags` part creates a record with no tags |
| Ingest.TagsAsWritten | src/index.js:56-57 | iterating the tags of the records throws exactly when some record has no `hashtags` |
| Ingest.MissingHashtagsBreaksRankingAsWritten | src/index.js:69-72 | as written, a request with an id but no `hashtags` part adds a record that makes every later ranking throw |
| Ingest.MissingTokenIdAcceptedAsWritten | src/index.js:201-217 | as written, a request without a `tokenId` part reaches `addTokenData` with an undefined id |
| Ingest.IncompleteRequestExamples | src/index.js:201-217 | on an empty store, a request with only a `name` part reaches `addTokenData` with no id as written and is rejected with "invalid token id" when corrected; a request with only a `tokenId` part stores a record that makes the tag walk throw as written, and is created with no tags when corrected |
| Api.ListTokens | src/index.js:101-106 | the list has every record, newest first, formatted, and the ranking of all their tags |
| Api.GetToken | src/index.js:108-143 | the view exists exactly when the parameter parses to an indexed id, and is then that record's view with its attributes; every failure is a 422, "invalid token id" exactly when the parameter does not parse |
| Api.ExternalUrlResolves | src/index.js:108-123 | the id at the end of a listed token's `external_url` resolves to a token with that id, and with distinct ids to that record |
| Api.CreateToken | src/index.js:146-220 | the request's outcome is `CreateOutcome`; on success the record is prepended with a fresh id and indexed; on failure the store is unchanged; distinct ids stay distinct |

## Left out

- The fastify server, route registration, CORS, static file serving and `listen` are not modelled; the handlers are functions and methods over the store.
- Configuration loading, the command-line argument and the seeding of an empty `data.json` are not modelled. `Store.TokenStore.Load` takes the stored records as a parameter.
- JSON parsing and serialisation are not modelled. Stored records are assumed well formed: an integer id, a list of tags, and the other fields as text or absent.
- The bytes written to files are not modelled. Each write is a `FileWrite` value: a directory and a file name.
- The temporary-file-and-rename write of `data.json` is not modelled. It is the ghost assignment `persisted := all`.
- Failures of the file system are not modelled.
- The clock is not modelled: `now` is a parameter holding milliseconds since the epoch.
- `toISOString` is not modelled, so `dateCreated` is kept as that number rather than as ISO text.
- `JSON.parse(JSON.stringify(token))` in `formatToken` is modelled as value semantics. A field that is `undefined` is `None`.
- JavaScript numbers are modelled as unbounded integers. Precision loss beyond 2^53 is not captured. Neither are numerals so long that `parseInt` returns `Infinity`.
- Strings are sequences of Unicode scalar values rather than UTF-16 code units. This does not affect `\w`, digits or white space as used here.
- The index and `params` are plain maps. A JavaScript object is keyed by `String(tokenId)`, and that conversion is injective on integers. Inherited keys such as `__proto__` in `params` are not modelled.
- Concurrent requests are not modelled. The id check and `addTokenData` are separated by `await`s, so two overlapping requests for the same id can both pass the check.
- Logging is not modelled.
- The messages of `Errors.Crash` errors are illustrative. The client never sees them, because they are answered with 500.
- Ranking.CalculateHashtags: models the corrected count object, which has no inherited names (third finding). As written, a tag such as `toString` has a `NaN` count. The comparator `b[1] - a[1]` is then inconsistent, so the order of the sort is left to the engine. That order is not modelled; `Ranking.CountAsWritten` models the counts.
- Ranking.CountTags: counts on the corrected count object. The as-written counts, with `NaN` and the missing `__proto__` key, are `Ranking.CountAsWritten`.
- Ranking.CountRecordTags: creates the key at 0 for every new tag, as on the corrected count object. As written, no key is created at 0 for a name inherited from `Object.prototype`.
- Ingest.WritesSpareExistingTokens: covers names derived from an indexed id only. A request with a second `tokenId` part after its `image` part stores a record whose image is named after the earlier id (`Ingest.SecondTokenIdRenamesNothing`). A later request for that earlier id writes over that image (`Ingest.EarlierIdWritesImage`). The model keeps this behaviour as written and proposes no corrected one.
- Ingest.Step: a `preview` part that is a plain field is modelled as writing nothing. The server opens `<id>.jpg` for writing before the stream copy throws, so it may leave an empty file.
- Files written before a request is stopped stay in place in the server. The model returns them in `written`, and no cleanup is modelled.
- The as-written behaviour of the first two findings is modelled only up to the point where the server diverges. That is the record handed to `addTokenData`, and the tag walk over records that contain it. The rest of the store uses the corrected records.

## Findings

| source | as written | input that shows it | evidently intended | confidence | as-written member | corrected member |
|---|---|---|---|---|---|---|
| src/index.js:178-181 | without a `hashtags` part the local `hashtags` stays `undefined`. The record is stored with no tags. `calculateHashtags` then throws when it iterates them. By then `addTokenData` has already put the record into memory, so every later creation fails with 500 until restart. | parts `[tokenId = "7"]` on an empty store | a missing field yields no tags, as `(hashtags \|\| '')` intends | high, not executed | Ingest.MissingHashtagsBreaksRankingAsWritten | Ingest.MissingHashtagsDefaultToEmpty |
| src/index.js:201-217 | the token id is checked only when a `tokenId` part arrives. A request without one is stored with an undefined id, indexed under `undefined`, and listed with `external_url` ending in `undefined`. | parts `[name = "Sunset"]` | a request without a token id is rejected with 422 "invalid token id" | medium, not executed | Ingest.MissingTokenIdAcceptedAsWritten | Ingest.MissingTokenIdRejected |
| src/index.js:55-61 | the count object `{}` inherits from `Object.prototype`. For a tag naming an inherited member, `hashtags[tag] == null` is false, so no 0 is stored. `++` then stores `NaN` (for `toString` and the like), or nothing at all for `__proto__`, whose setter ignores a number. A `__proto__` tag never appears in the ranking, and a `NaN` count makes the sort order engine-defined. | records whose only tag is `__proto__`: the ranking is empty instead of `__proto__` | every tag is counted, as on an object without a prototype | high, not executed | Ranking.ProtoTagDroppedAsWritten | Ranking.CalculateHashtags |
