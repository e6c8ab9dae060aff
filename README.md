# Challenge indexing core, modelled in Dafny

This project models the two logic-bearing parts of a small service that loads
freeCodeCamp challenges into an Elasticsearch cluster and answers searches
over it:

- **The challenge transformer and ingestion dispatch** (`init/challenges/index.js`).
  This covers the slug function `dasherize`, the snippet builder `snippetGen`,
  and the `reduce` that turns a block `{ name, challenges }` into
  `{ block, challenges: formatted[] }`. It also covers the module flag
  `isAnUpdate`, which chooses `bulkUpsert` or `bulkInsert` for each block.
  Module `Challenges` (`challenges.dfy`) holds these. The class
  `Challenges.Ingestor` holds the flag and the log of writes handed to the
  indexing module.
- **The indexing and query layer** (`elastic/index.js`). This covers the
  alternating action/document body of `bulkInsert`, the request shapes of
  `findTheThings` and `getAllTitleFields`, the hit projection, and how each
  promise settles. It also covers the connection-readiness gate: the module
  flag `connected`, the ping callback, the `'connection'` listeners and
  `deleteAll`. Module `Elastic` (`elastic.dfy`) holds these. The class
  `Elastic.Cluster` is the module's mutable state plus a log of every call
  issued on the engine client.

Two helper modules support them:

- `JsString` (`jsstring.dfy`) holds the JavaScript string built-ins the code
  relies on: the `\s`/`trim` whitespace set, `trim`, `join`, `slice(0, n)` and
  ASCII `toLowerCase`.
- `Wrappers` (`wrappers.dfy`) holds `Option`, used for `undefined`, and
  `Result`, used for a settled promise.

The engine client is not modelled as code. Each call is recorded as a
`WireCall` value. The engine's answers (the ping outcome, a search response
or error) are parameters. The content checkout is also a parameter: the
blocks the content source yields.

Three points where the code's literal behaviour is easy to misread; the
model follows the code:

- **`snippetGen` on an empty array.** An empty description array is truthy
  in JavaScript, so `snippetGen([])` is `"..."`, not `""`.
- **Whitespace runs.** Every single whitespace character becomes its own
  `-`. Runs are not collapsed, so `"Say  Hello"` gives `"say--hello"`.
- **Join separators.** The snippet joins lines with `' '` and the
  `description` field joins them with `''`. For the lines `["Print",
  "hello world"]` the snippet is therefore `"Print hello world..."`, not
  `"Printhello world..."`.

## Model

| member | source | states |
|---|---|---|
| `JsString.IsWhitespace` | init/challenges/index.js:16 | The ECMAScript WhiteSpace and LineTerminator code points: the set `\s` matches here and `trim` removes at line 28 |
| `JsString.TrimStart` | init/challenges/index.js:28 | Result is a suffix of the input; every dropped character is whitespace; the result does not start with whitespace |
| `JsString.TrimEnd` | init/challenges/index.js:28 | Result is a prefix of the input; every dropped character is whitespace; the result does not end with whitespace |
| `JsString.TrimIsInfix` | init/challenges/index.js:28 | `trim` keeps one contiguous piece of its input, cuts only whitespace on both sides, and leaves no whitespace at either end |
| `JsString.Trim` | init/challenges/index.js:28 | `trim()` defined as `trimEnd` after `trimStart`; it carries no contract of its own, and what it keeps is stated by `TrimIsInfix` |
| `JsString.Join` | init/challenges/index.js:26 | `join(sep)`: the lines with `sep` between neighbours, and `""` for no lines |
| `JsString.LowerChar` | init/challenges/index.js:15 | A-Z moves to a-z (code point + 32); every other character is unchanged |
| `JsString.ToLower` | init/challenges/index.js:15 | `toLowerCase()` keeps the length; per character it is `LowerChar`, as `ToLowerAt` states |
| `JsString.ToLowerAt` | init/challenges/index.js:15 | Lowering keeps the length and works per character: A-Z becomes a-z, every other character is kept |
| `JsString.Slice` | init/challenges/index.js:27 | `slice(0, n)` is the prefix of exactly `min(n, length)` characters: the first n characters, or the whole string when it is shorter |
| `Challenges.IsDashedChar` | init/challenges/index.js:17 | The class `[a-z0-9\-\.]`: a lower-case ASCII letter, a digit, `-` or `.` |
| `Challenges.IsKeptChar` | init/challenges/index.js:17 | The same class under the `/i` flag: `IsDashedChar` or an upper-case ASCII letter |
| `Challenges.Dasherize` | init/challenges/index.js:13-19 | `dasherize` as the four passes in source order: lower-case, dash whitespace, strip unsafe characters, remove colons. It carries no contract of its own; its meaning is stated by `DasherizeIsPerChar` and the lemmas below |
| `Challenges.DashWhitespace` | init/challenges/index.js:16 | `.replace(/\s/g, '-')`, defined character by character: each whitespace character becomes `-`, the rest is kept; stated through `DasherizeWhitespace` |
| `Challenges.StripUnsafe` | init/challenges/index.js:17 | `.replace(/[^a-z0-9\-\.]/gi, '')`, defined character by character: keeps exactly the characters of `[a-zA-Z0-9\-\.]`, in order; stated through `DasherizeIsPerChar` |
| `Challenges.RemoveColons` | init/challenges/index.js:18 | `.replace(/\:/g, '')`, defined character by character: drops every `:`; that it changes nothing after the strip is `RemoveColonsAfterStrip` |
| `Challenges.DasherizeIsPerChar` | init/challenges/index.js:13-19 | `dasherize` equals an independent per-character definition: whitespace gives `-`, a character whose lower case is in `[a-z0-9\-\.]` gives that lower case, anything else gives nothing |
| `Challenges.DasherizeAppend` | init/challenges/index.js:13-19 | `dasherize(a + b) == dasherize(a) + dasherize(b)` |
| `Challenges.DasherizeCharset` | init/challenges/index.js:13-19 | Every output character is in `[a-z0-9\-\.]`, so never `:` or whitespace; the output is never longer than the input |
| `Challenges.DasherizeKeepsDashed` | init/challenges/index.js:13-19 | A string made only of `[a-z0-9\-\.]` is a fixed point |
| `Challenges.DasherizeIdempotent` | init/challenges/index.js:13-19 | `dasherize(dasherize(x)) == dasherize(x)` |
| `Challenges.RemoveColonsAfterStrip` | init/challenges/index.js:17-18 | The final colon-removal pass never changes anything, because the strip already removed every `:` |
| `Challenges.DasherizeWhitespace` | init/challenges/index.js:16 | One whitespace character becomes exactly one `-`, wherever it stands |
| `Challenges.DasherizeDoubleWhitespace` | init/challenges/index.js:16 | Two whitespace characters in a row give two dashes, so runs are not collapsed |
| `Challenges.DasherizeCapitalized` | init/challenges/index.js:15 | Before slug characters only, an upper-case first letter is lowered and the rest is kept, so the capitalized word and its lower-case form give the same slug |
| `Challenges.DasherizeSayHello` | init/challenges/index.js:13-19 | `"Say Hello"` gives `"say-hello"` |
| `Challenges.DasherizeTwoSpaces` | init/challenges/index.js:16 | `"Say  Hello"` gives `"say--hello"` |
| `Challenges.SnippetGen` | init/challenges/index.js:21-30 | Absent description gives `""`; any present array, the empty one included, gives a result ending in `"..."` with length between 3 and 103 |
| `Challenges.SnippetText` | init/challenges/index.js:25-29 | The text before `"..."` is one contiguous piece of the first 100 characters of the `' '`-joined lines; only whitespace is cut on either side, and none is left at its ends |
| `Challenges.SnippetOfShortText` | init/challenges/index.js:25-29 | A joined text of at most 100 characters without edge whitespace appears whole, followed by `"..."` |
| `Challenges.SnippetOfEmptyArray` | init/challenges/index.js:22-29 | `snippetGen([])` is `"..."` |
| `Challenges.DescriptionField` | init/challenges/index.js:46 | Absent gives `""`; otherwise the result is no longer than the `''`-joined lines and has no whitespace at either end |
| `Challenges.DescriptionText` | init/challenges/index.js:46 | A present description's field is one contiguous piece of the `''`-joined lines with only whitespace cut off on either side; with `DescriptionField`'s ends clause this is exactly `join('').trim()` |
| `Challenges.FormatChallenge` | init/challenges/index.js:39-49 | The document the reducer builds for one challenge; its fields are stated by `FormatBlockFields` |
| `Challenges.FormatChallenges` | init/challenges/index.js:37-51 | The `reduce` that appends one document per challenge to `[]`; stated by `FormatChallengesAt` |
| `Challenges.FormatBlock` | init/challenges/index.js:36-55 | The `{ block, challenges }` value emitted for one block; stated by `FormatBlockFields` |
| `Challenges.FormatChallengesAt` | init/challenges/index.js:37-51 | The reducer yields exactly one document per challenge, in input order, each formatted from its own challenge |
| `Challenges.FormatBlockFields` | init/challenges/index.js:36-55 | Block type is `dasherize(name)`. Per document: `id` and `title` copied, `blockName` the raw name, `dashedName = dasherize(title)` (slug characters only, a fixed point of `dasherize`), `url` the challenges prefix plus `dashedName`, description and snippet derived from that challenge's lines |
| `Challenges.FormatExample` | init/challenges/index.js:37-51 | Block "Basics" with challenge "Say Hello" and lines `["Print","hello world"]` gives `dashedName` "say-hello", description "Printhello world", snippet "Print hello world..." and the URL ending in "say-hello" |
| `Challenges.Truthy` | init/challenges/index.js:69 | `!!update` is false exactly for `undefined`, `null`, `false`, `0` and `""` |
| `Challenges.BlockWrite` | init/challenges/index.js:57-62 | A block is written to index `'challenge'` with the block slug as type and the formatted documents, by upsert exactly when `isAnUpdate` is set |
| `Challenges.BlockWrites` | init/challenges/index.js:33-63 | The writes of one ingestion run, one appended per block; stated by `BlockWritesAt` and `BlockWritesShape` |
| `Challenges.BlockWritesAt` | init/challenges/index.js:33-63 | One write per block, in block order; write i is the write of formatted block i |
| `Challenges.BlockWritesShape` | init/challenges/index.js:36-61 | Write i goes to `'challenge'` under type `dasherize(blocks[i].name)`, carries one document per challenge, and is an upsert iff the run is an update |
| `Challenges.InsertRequestForBlock` | init/challenges/index.js:59-61 | On the insert path the engine gets, per block, a body of 2 lines per challenge whose documents are the formatted challenges in order |
| `Challenges.BlockWriteAsWritten` | init/challenges/index.js:6-9 | As written, a dispatch goes out exactly when its callee (`bulkUpsert` on an update, else `bulkInsert`) is exported by the indexing module, and then it is the corrected write; otherwise it throws a TypeError naming that callee |
| `Challenges.UpdatePathThrowsAsWritten` | init/challenges/index.js:59-61 | As written, the update path throws a TypeError for `bulkUpsert`, while the insert path issues the corrected write |
| `Challenges.Ingestor.constructor` | init/challenges/index.js:11 | The flag starts false and nothing has been written |
| `Challenges.Ingestor.ParseAndInsert` | init/challenges/index.js:32-64 | Appends exactly `BlockWrites(isAnUpdate, blocks)` to the write log and leaves the flag alone |
| `Challenges.Ingestor.GetChallengeData` | init/challenges/index.js:68-69 | Sets `isAnUpdate` to `!!update`, then ingests the blocks with that choice |
| `Elastic.Exports` | elastic/index.js:136-142 | The names the indexing module exports: `bulkInsert`, `deleteAll`, `findTheThings`, `getAllTitleFields`, `singleInsert`, and no `bulkUpsert` |
| `Elastic.BulkInsertBody` | elastic/index.js:49-53 | Request length is exactly 2 × the document count, so empty for no documents; entry 2i is the action `{index: {_index, _type}}` and entry 2i+1 is document i |
| `Elastic.BulkInsertBodyDocuments` | elastic/index.js:50-53 | Reading the documents back out of the body gives the input list |
| `Elastic.BulkInsertBodyAlternates` | elastic/index.js:50-53 | Even positions are exactly the action lines, each for the given index and type; odd positions are documents |
| `Elastic.FindTheThingsRequest` | elastic/index.js:84-92 | The query is `match` on `_all` with the query text unchanged, with no index or size given |
| `Elastic.SettleFindTheThings` | elastic/index.js:94-102 | Resolves to `response.hits.hits` unchanged, or rejects with the engine error untouched |
| `Elastic.TitleFieldsRequest` | elastic/index.js:106-112 | The query targets `'challenge,guides,youtube'` with size 10000 and `_source` `['title','url']` |
| `Elastic.TitleFields` | elastic/index.js:120-130 | One entry per hit, in hit order; entry i is `{index: _index, title: _source.title, type: _type, url: _source.url}`, where a `_source` field missing from the hit reads as `undefined` (`SourceField` gives `None` exactly when the key is absent) |
| `Elastic.TitleEntryOf` | elastic/index.js:124-129 | The entry built for one hit, with no contract of its own; its fields are stated, for every hit of a response, by `TitleFields` |
| `Elastic.SettleTitleFields` | elastic/index.js:114-133 | Resolves to the projection of the hits, or rejects with the error untouched |
| `Elastic.TitleFieldsIgnoresRest` | elastic/index.js:120-130 | Hits that agree on `_index`, `_type`, title and url project to equal lists |
| `Elastic.Cluster.constructor` | elastic/index.js:13-34 | At load `connected` is false, no listener is registered, and a ping with timeout 1000 ms has been issued |
| `Elastic.Cluster.DeleteActualCall` | elastic/index.js:62-74 | Module-private `deleteActual`, callable only when connected: issues one delete of index `'_all'` and changes nothing else |
| `Elastic.Cluster.Emit` | elastic/index.js:32 | The module-private emitter, callable only when connected: runs each registered listener once, in registration order; that is one `'_all'` delete per listener |
| `Elastic.Cluster.OnPing` | elastic/index.js:26-34 | Success: `connected` becomes true and every waiting delete runs exactly once. Failure: nothing is issued and the flag stays false for good. The gate invariant is kept |
| `Elastic.Cluster.DeleteAll` | elastic/index.js:76-81 | Connected: one `'_all'` delete now, listeners unchanged. Not connected: no call, exactly one more listener. The flag never changes here |
| `Elastic.Cluster.BulkInsert` | elastic/index.js:49-60 | Issues one bulk call whose body is `BulkInsertBody` of the arguments |
| `Elastic.Cluster.FindTheThings` | elastic/index.js:83-103 | Issues one search with `FindTheThingsRequest(query)` |
| `Elastic.Cluster.GetAllTitleFields` | elastic/index.js:105-134 | Issues one search with `TitleFieldsRequest()` |
| `Elastic.GateScenario` | elastic/index.js:76-81 | A delete-all asked for before the ping answers issues nothing. After a successful ping it and a later one issue one delete each; after a failed ping neither is issued by the end of the scenario. That no delete is issued later either follows from `Cluster.Valid` and from `OnPing` requiring that the ping has not been answered yet, since `OnPing` is the only member that sets `connected` |

The gate's invariant is `Elastic.Cluster.Valid`. The flag is set only by a
ping answer. Before the transition, no delete has been issued and each
`deleteAll` waits as exactly one listener. After it, the number of deletes
issued equals the number of `deleteAll` calls. `OnPing` requires that the
callback has not run yet, because the client runs it once. Since it is the
only member that changes `connected`, the flag is set at most once and
never goes back to false.

## Findings

| source | as written | input that shows it | evidently intended | confidence | as-written member | corrected member |
|---|---|---|---|---|---|---|
| init/challenges/index.js:6-9 | `bulkUpsert` is taken from the indexing module and called at line 60, but elastic/index.js neither defines nor exports it (exports at elastic/index.js:136-142), so the call is a call of `undefined` and throws a TypeError | `getChallengeData(true)` with any content block | on an update run each block is upserted into `'challenge'` under its slug type | not executed; high that the call throws | `Challenges.UpdatePathThrowsAsWritten` | `Challenges.BlockWrite` |

The rest of the model uses `Challenges.BlockWrite`. It records an upsert
call at the boundary of the indexing module. It does not fix a wire format,
because the source defines none for an upsert.

## Left out

- `server/index.js` is not part of this model: HTTP routing, middleware, page rendering, metering and `listen` are plumbing around `findTheThings`.
- The Elasticsearch client itself is left out: `ping`, `bulk`, `search` and `indices.delete` are recorded as `WireCall` values (`create`, used only by `singleInsert`, is left out with it). Their answers are parameters (`OnPing(ok)`, the `Settle*` functions), and the 1000 ms timeout is recorded, not enforced.
- `singleInsert` is left out. It is a thin `client.create` wrapper with a random `uuidv4()` id and no logic of its own.
- `getChallenges`, `fs.remove`, the svn checkout and the errors they throw in `getChallengeData` are left out as filesystem and network I/O. The fetched blocks are a parameter of `GetChallengeData`.
- Rx `Observable.from/flatMap/subscribe` scheduling is left out. Ingestion is a loop over the blocks. Completion order of asynchronous writes, and write errors (logged and swallowed), are out of scope.
- Logging and JSON serialisation of errors are left out.
- `Challenges.Dasherize`: `toLowerCase` is modelled on ASCII letters only; other characters keep their case. Full Unicode lower-casing, which can turn a non-ASCII letter into an ASCII one, is not captured. The `'' + name` coercion of a non-string title is not modelled; titles are strings.
- `Challenges.SnippetGen`: `slice(0, 100)` counts characters here, while JavaScript counts UTF-16 code units, so the two differ for characters outside the Basic Multilingual Plane. Description lines are assumed to be strings, so `join` of `null` or `undefined` elements is not modelled.
- `Challenges.Truthy`: numbers are integers, so `NaN` and `-0` are not modelled.
- `Elastic.FindTheThingsRequest`: the query text is a string; an absent `q` parameter (`undefined`) is not modelled.
- `Elastic.Cluster.OnPing` requires that the callback has not run before. It relies on the client running the probe callback once rather than modelling a client that calls it twice.
- The body of the nonexistent `bulkUpsert` is left out. Only the call is recorded (`Challenges.BlockWrite`).
