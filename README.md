# IFS sync service: JSON repair engine and table synchronisation, modelled in Dafny

The service takes webhook payloads from an IFS ERP system and mirrors the rows
into a Prisma-managed database. The payloads are often malformed JSON, typically
with unescaped quotes inside values such as `1/4"`. So the core of the service is
a JSON repair engine, which comes in two variants:

* **The scanner variant** (`src/utilities/json-repair.ts`) has six repair
  strategies.
  * Each strategy is first tried alone. Then the strategies are applied
    cumulatively, 1, then 1+2, and so on.
  * The first candidate text that `JSON.parse` accepts wins.
  * Strategy 1 is a character scanner with a look-ahead heuristic for closing
    quotes.
  * Strategy 6 is a DESCRIPTION-field fix with a regex fallback.
* **The regex variant** (`src/common/utils/json-repair.util.ts`) uses the same
  search with different strategies: two regex passes, an identity "escape fix"
  and a neighbour-character quote fix.
* **The middleware** (`src/common/middleware/json-repair.middleware.ts`) takes
  the place of the stock body parser and uses the regex variant.

Behind the repair engine sit two synchronisation paths:

* the **IFS sync service** (`processData`: rowkey check, previous-row read,
  upsert or delete through `createMany`/`updateMany`/`deleteMany`, key
  normalisation, payment field renaming, field filtering);
* the **table synchronisation service**: a handler factory, three table handlers,
  the Prisma error mapper and the audit SQL statement with its hash.

## How the model is built

* **Text and values.**
  * Strings are `seq<char>`.
  * A JS object is an ordered list of entries (`JsValues.Entries`), which keeps
    the insertion order of `Object.entries`.
  * `undefined` and `Date` are values of their own.
* **Quote escaping.** Every quote fix in the engine is shown to be
  `TextRepairs.EscapeQuotesAt(s, marks)`, which writes a `\` before the quotes
  that `marks` selects. Three facts are proved about that relation once:
  * it round-trips (`UnescapeAt`);
  * it only adds backslashes;
  * it is additive over concatenation.
* **Regexes.**
  * The deterministic regexes are modelled exactly: trailing commas, unquoted
    keys, single quotes, slashes, newlines, and the DESCRIPTION pattern (whose
    content runs to the last quote of the input).
  * The backtracking patterns are a `Matcher` parameter. It returns the match
    spans, and the replacement callbacks are modelled exactly.
* **Parser and clock.** `JSON.parse` is a `Parser` parameter. The clock
  (`new Date()`) is a `now` parameter.
* **Database.**
  * The database is `DbTable.Table`, a class holding rows, the unique columns and
    an optional fault that makes every call throw.
  * Its operations (`create`, `createMany` with `skipDuplicates`, `updateMany`,
    `deleteMany`, `findFirst`) follow Prisma's semantics: a column whose value is
    `undefined` is neither stored nor used as a condition, and a `create` or
    `updateMany` that would leave two rows with the same non-null value in a
    unique column throws P2002.
* **Imperative code.** The loops of the source are methods proved against
  specification functions:
  * the scanner;
  * the DESCRIPTION escape loop;
  * the strategy search;
  * `filterValidFields`;
  * the hash.

  The stateful objects are classes whose methods are proved equal to state-step
  functions:
  * the middleware's request/response pair;
  * the handler factory;
  * the services;
  * the handlers.

## Model

| member | source | states |
|---|---|---|
| RepairSearch.RepairAndParse | src/utilities/json-repair.ts:33-73 | the two loops return the `Repair` outcome and the number of `JSON.parse` attempts, which is at most twice the number of strategies |
| RepairSearch.TrySingles | src/utilities/json-repair.ts:34-46 | the first loop finds the first single-strategy candidate that parses, or reports that none of them does |
| RepairSearch.TryPrefixes | src/utilities/json-repair.ts:49-67 | the second loop finds the first cumulative candidate that parses, given that no single candidate did |
| RepairSearch.ApplyPrefix | src/utilities/json-repair.ts:51-54 | the inner loop applies the first `count` strategies in order |
| RepairSearch.ApplyInOrderSnoc | src/utilities/json-repair.ts:51-54 | applying one more strategy means applying it to the previous cumulative result |
| RepairSearch.Candidates | src/utilities/json-repair.ts:33-67 | there are 2·n candidates, in the order they are tried |
| RepairSearch.CandidateSingle | src/utilities/json-repair.ts:35-36 | candidate i is strategy i applied to the raw input |
| RepairSearch.CandidatePrefix | src/utilities/json-repair.ts:50-55 | candidate n+i is strategies 1..i+1 applied in order |
| RepairSearch.FirstParsed | src/utilities/json-repair.ts:37-44 | the result is a candidate index at or after k whose text parses, with its parsed value |
| RepairSearch.FirstParsedIsFirst | src/utilities/json-repair.ts:37-44 | no earlier candidate at or after k parses, and none parses when the result is absent |
| RepairSearch.FirstParsedStep | src/utilities/json-repair.ts:37-44 | a parsing candidate stops the search; a failing one moves it to the next candidate |
| RepairSearch.StoppedAt | src/utilities/json-repair.ts:39-43 | when candidate k is the first to parse, the outcome is its value after k+1 attempts |
| RepairSearch.Exhausted | src/utilities/json-repair.ts:69-73 | when no candidate parses, the outcome is the fixed failure message after all 2·n attempts |
| RepairSearch.PrefixStep | src/utilities/json-repair.ts:56-64 | one step of the second loop agrees with the search over the candidates |
| RepairSearch.CandidateStep | src/utilities/json-repair.ts:37-44 | one step of the first loop agrees with the search over the candidates |
| RepairSearch.RepairFailsIffNothingParses | src/utilities/json-repair.ts:34-73 | repair fails if and only if no candidate parses |
| RepairSearch.RepairTakesFirstParse | src/utilities/json-repair.ts:34-67 | a successful repair returns the value of the first candidate that parses, and all earlier candidates fail |
| RepairSearch.FirstPrefixRepeatsFirstStrategy | src/utilities/json-repair.ts:49-55 | the first cumulative candidate equals the first single candidate, so a success never needs exactly n+1 attempts |
| JsonRepair.Strategies | src/utilities/json-repair.ts:13-31 | the scanner variant has six strategies |
| JsonRepair.RepairAndParseJson | src/utilities/json-repair.ts:12-74 | the scanner variant's result is the search over its six strategies, and it fails exactly when no candidate parses |
| JsonRepair.ValidObjectMisrepaired | src/utilities/json-repair.ts:12-46 | for any parser that accepts the scanner's output, that valid object is answered with the parse of the rewritten text, after one attempt, and not with its own value |
| JsonRepair.RepairAndParseJsonStrictFirst | src/utilities/json-repair.ts:12-74 | corrected entry: text that parses comes back as its own value; other text gets the search over the six strategies |
| JsonRepair.FirstCandidatesAreTheScan | src/utilities/json-repair.ts:13-31 | candidates 0 and 6 are both the scanner output; candidate 11 runs all six strategies |
| JsonRepair.FixCommonEscapeSequencesClean | src/utilities/json-repair.ts:195-205 | the escape fix leaves no raw newline, carriage return or tab, and every `/` it leaves follows a `\` |
| JsonRepair.FixUnescapedQuotesShape | src/utilities/json-repair.ts:167-190 | either the DESCRIPTION fix rewrote the text, or the fallback only inserted `\` before some quotes of the input |
| QuoteScanner.FixUnescapedQuotesAdvanced | src/utilities/json-repair.ts:79-161 | the scanner loop computes `Scan(s)` |
| QuoteScanner.ScanOne | src/utilities/json-repair.ts:86-157 | one iteration emits `\"` exactly when the quote is escaped there, and a single copied character otherwise |
| QuoteScanner.ScanStep | src/utilities/json-repair.ts:86-157 | the emitted text of one position is `\"` when it escapes and the character itself otherwise |
| QuoteScanner.SkipWhitespaceLoop | src/utilities/json-repair.ts:140-141 | the look-ahead loop stops at the first non-whitespace character |
| QuoteScanner.PropertyNameLookahead | src/utilities/json-repair.ts:111-129 | an opening quote starts a property name exactly when the look-ahead finds `"` followed by whitespace and `:` |
| QuoteScanner.FirstClosing | src/utilities/json-repair.ts:118-128 | the look-ahead finds the first quote not preceded by `\`, or shows that there is none |
| QuoteScanner.Marks | src/utilities/json-repair.ts:79-161 | the positions the scanner escapes are quote positions |
| QuoteScanner.ScanFromUnfold | src/utilities/json-repair.ts:86-157 | the scan is one step followed by the scan of the rest |
| QuoteScanner.ScanFromEscapes | src/utilities/json-repair.ts:86-157 | every suffix of the scan escapes exactly the marked quotes |
| QuoteScanner.ScanIsQuoteEscaping | src/utilities/json-repair.ts:79-161 | the scanner only writes `\` before the quotes it marks |
| QuoteScanner.ScanRoundTrip | src/utilities/json-repair.ts:79-161 | removing the inserted backslashes gives back the input; the output differs only by backslashes; it is one character longer per escaped quote |
| QuoteScanner.ScanWithoutQuotes | src/utilities/json-repair.ts:79-161 | text without quotes is returned unchanged |
| QuoteScanner.OutsideStringNotPropertyName | src/utilities/json-repair.ts:132-136 | the property-name flag is only set inside a string |
| QuoteScanner.BackslashCopiesNext | src/utilities/json-repair.ts:90-102 | a backslash and the character after it are copied unchanged, and escape mode ends after them |
| QuoteScanner.ValueQuote | src/utilities/json-repair.ts:138-150 | a quote inside a value stays unescaped exactly when it ends the value, and only an escaped quote keeps the string open |
| QuoteScanner.OpeningQuote | src/utilities/json-repair.ts:111-129 | a quote outside a string opens one and is never escaped |
| QuoteScanner.PropertyNameQuote | src/utilities/json-repair.ts:132-136 | a quote inside a property name closes it and is never escaped |
| QuoteScanner.ClosingQuoteBeforeBracketEscaped | src/utilities/json-repair.ts:138-150 | the valid text `["a"]` comes out as `["a\"]` |
| QuoteScanner.ValidObjectRescanned | src/utilities/json-repair.ts:99-150 | the valid object `{"k":["a"],"m":["b",1]}` comes out as `{"k":["a\"],\"m\":[\"b",1]}`, which is valid JSON of another value |
| QuoteScanner.EscapedBackslashBeforeClosingQuote | src/utilities/json-repair.ts:115-128 | the valid text `{"a\\":1}` comes out altered, because `\\` is not recognised before a closing quote |
| DescriptionFix.PrefixAt | src/utilities/json-repair.ts:216 | a match of `"DESCRIPTION"\s*:\s*"` ends just after a quote |
| DescriptionFix.LastQuoteFrom | src/utilities/json-repair.ts:216 | the content of the field runs to the last quote of the input, or there is no such quote |
| DescriptionFix.FirstMatch | src/utilities/json-repair.ts:215-216 | a match is a field prefix followed by content up to the last quote |
| DescriptionFix.DescriptionMarks | src/utilities/json-repair.ts:221-235 | the callback escapes only quote positions |
| DescriptionFix.EscapeContent | src/utilities/json-repair.ts:220-235 | the loop escapes every quote that does not follow a backslash |
| DescriptionFix.NoMatchWithoutQuotes | src/utilities/json-repair.ts:215-216 | text without quotes has no match |
| DescriptionFix.FixShape | src/utilities/json-repair.ts:210-239 | no match leaves the text unchanged; a match rewrites it to the normalised field with escaped content |
| DescriptionFix.EscapeLeavesNoBareQuote | src/utilities/json-repair.ts:223-231 | after the escape, every quote is preceded by a backslash |
| DescriptionFix.ContentQuotesEscaped | src/utilities/json-repair.ts:220-235 | the escaped content holds no bare quote |
| RegexPasses.AllQuotes | src/utilities/json-repair.ts:181 | `content.replace(/"/g, '\\"')` marks every quote |
| RegexPasses.EscapeAllQuotesMarksAll | src/utilities/json-repair.ts:181 | escaping all quotes is the quote escaping with every quote marked |
| RegexPasses.EscapeNothing | src/utilities/json-repair.ts:184 | a declined match returns its text unchanged |
| RegexPasses.MatchMarks | src/utilities/json-repair.ts:176-186 | one match's replacement marks only quotes of the matched text |
| RegexPasses.MatchOutputEscapes | src/utilities/json-repair.ts:178-185 | a callback's output is the matched text with its content quotes escaped, or the match unchanged |
| RegexPasses.EscapeMiddle | src/utilities/json-repair.ts:182 | prefix, escaped content and suffix together are one quote escaping of the match |
| RegexPasses.MatchStepEscapes | src/utilities/json-repair.ts:176-186 | the text before a match, its replacement and the rest together are one quote escaping |
| RegexPasses.ReplaceMatchesEscapes | src/utilities/json-repair.ts:176-186 | a global replacement with such a callback is one quote escaping of the input |
| RegexPasses.RegexReplaceEscapes | src/utilities/json-repair.ts:176-186 | the same holds for whatever spans the regex matches |
| RegexPasses.ReplaceMatchesDeclined | src/common/utils/json-repair.util.ts:84-94 | when the callback declines every match, the text is unchanged |
| JsonRepairUtil.Strategies | src/common/utils/json-repair.util.ts:13-31 | the regex variant has six strategies |
| JsonRepairUtil.RepairAndParseJson | src/common/utils/json-repair.util.ts:12-74 | the regex variant's result is the search over its six strategies, and it fails exactly when no candidate parses |
| JsonRepairUtil.AdvancedMarks | src/common/utils/json-repair.util.ts:76-114 | the two passes choose one mark per position |
| JsonRepairUtil.AdvancedOnlyEscapesQuotes | src/common/utils/json-repair.util.ts:76-114 | the two passes only escape quotes, and removing those backslashes gives back the input |
| JsonRepairUtil.FirstPassDeclined | src/common/utils/json-repair.util.ts:84-111 | when the first pass declines every match, the result is the second pass |
| JsonRepairUtil.SecondPassOnlyAfterNoChange | src/common/utils/json-repair.util.ts:96-111 | the second pass runs only when the first changed nothing |
| JsonRepairUtil.FixCommonEscapeSequencesIdentity | src/common/utils/json-repair.util.ts:116-122 | strategy 5 returns its input unchanged |
| JsonRepairUtil.NeighbourMarks | src/common/utils/json-repair.util.ts:124-139 | a quote is escaped exactly when it is neither already escaped nor next to a JSON delimiter |
| JsonRepairUtil.FixUnescapedQuotesFromEscapes | src/common/utils/json-repair.util.ts:124-139 | every suffix of the character loop escapes exactly the marked quotes |
| JsonRepairUtil.FixUnescapedQuotesEscapes | src/common/utils/json-repair.util.ts:124-139 | the quote fix is quote escaping: it round-trips and adds one character per escaped quote |
| JsonRepairUtil.DelimitedQuotesUntouched | src/common/utils/json-repair.util.ts:124-139 | text whose quotes are all escaped or next to delimiters is unchanged |
| JsonRepairUtil.ArrayStringEscaped | src/common/utils/json-repair.util.ts:124-139 | the valid text `["a"]` comes out as `[\"a\"]` |
| JsonRepairUtil.IdentityStrategyRetriesInput | src/common/utils/json-repair.util.ts:26-27 | strategy 5 alone yields the raw input, and the cumulative candidate through strategy 5 repeats the one through strategy 4, so input that parses is never reported unrepairable |
| JsonRepairMiddleware.ReplayCollectsChunks | src/common/middleware/json-repair.middleware.ts:13-15 | the collected body is the `data` chunks in arrival order |
| JsonRepairMiddleware.DataThenEnd | src/common/middleware/json-repair.middleware.ts:13-42 | a request made of data events and then `end` is decided on the concatenated chunks |
| JsonRepairMiddleware.DataReplay | src/common/middleware/json-repair.middleware.ts:13-15 | data events alone neither reply nor call `next` |
| JsonRepairMiddleware.ReplayAppend | src/common/middleware/json-repair.middleware.ts:13-49 | events can be replayed in two parts |
| JsonRepairMiddleware.EndAnswersOnce | src/common/middleware/json-repair.middleware.ts:17-42 | `end` either calls `next` once or sends one reply, never both |
| JsonRepairMiddleware.EndSetsBody | src/common/middleware/json-repair.middleware.ts:18-40 | empty body gives `{}`; a strictly parseable body is used as parsed; otherwise the body is the repaired value, or an invalid-payload reply is sent |
| JsonRepairMiddleware.Exchange.OnEnd | src/common/middleware/json-repair.middleware.ts:17-42 | the `end` handler updates the body, `next` calls and replies as `EndStep` says |
| JsonRepairMiddleware.Exchange.Handle | src/common/middleware/json-repair.middleware.ts:4-50 | a request that is not JSON only calls `next`; a JSON request replays its events |
| TextRepairs.UnescapeEscapeRoundTrip | src/utilities/json-repair.ts:79-161 | escaping the marked quotes and then unescaping them gives back the input |
| TextRepairs.EscapeQuotesLength | src/utilities/json-repair.ts:79-161 | escaping adds one character per marked quote |
| TextRepairs.EscapeWithoutQuotes | src/utilities/json-repair.ts:79-161 | text without quotes is unchanged |
| TextRepairs.EscapeQuotesConcat | src/utilities/json-repair.ts:79-161 | escaping distributes over concatenation |
| TextRepairs.EscapeOnlyAddsBackslashes | src/utilities/json-repair.ts:79-161 | once backslashes are removed, input and output are the same |
| TextRepairs.ReplaceAllSelf | src/utilities/json-repair.ts:198 | replacing a pattern by itself changes nothing |
| TextRepairs.ReplaceAllChars | src/utilities/json-repair.ts:196-204 | every output character comes from the input or the replacement |
| TextRepairs.ReplaceCharRemovesIt | src/utilities/json-repair.ts:202-204 | replacing a character by text without it removes it |
| TextRepairs.SingleToDoubleQuotesPointwise | src/utilities/json-repair.ts:24 | strategy 4 turns every `'` into `"` and keeps the other characters |
| TextRepairs.RemoveTrailingCommasOnlyCommas | src/utilities/json-repair.ts:18 | strategy 2 removes only commas |
| TextRepairs.RemoveTrailingCommasKeepsClean | src/utilities/json-repair.ts:18 | text without a trailing comma is unchanged |
| TextRepairs.RemoveTrailingCommasSelects | src/utilities/json-repair.ts:18 | strategy 2 removes exactly the commas followed by whitespace and a closing bracket |
| TextRepairs.TrailingCommaKeep | src/utilities/json-repair.ts:18 | a character is kept exactly when it is not a trailing comma |
| TextRepairs.IdentifierEnd | src/utilities/json-repair.ts:21 | `[a-zA-Z0-9_$]*` stops at the first non-identifier character |
| TextRepairs.UnquotedKeyAt | src/utilities/json-repair.ts:21 | a match is `{` or `,`, whitespace, an identifier, whitespace and `:` |
| TextRepairs.KeyStep | src/utilities/json-repair.ts:21 | each step of the replacement advances |
| TextRepairs.QuoteUnquotedKeysSkeleton | src/utilities/json-repair.ts:21 | strategy 3 only adds quotes and drops the whitespace before `:` |
| TextRepairs.QuoteUnquotedKeysNoMatch | src/utilities/json-repair.ts:21 | without an unquoted key the text is unchanged |
| TextRepairs.EscapeSlashesEscapes | src/utilities/json-repair.ts:200 | after the slash replacement every `/` follows a `\` |
| TextRepairs.ReplaceKeepsSlashesEscaped | src/utilities/json-repair.ts:202-204 | the newline, return and tab replacements keep that property |
| JsText.SkipWhitespace | src/utilities/json-repair.ts:140-141 | the index of the first non-whitespace character at or after j |
| JsText.ToLower | src/modules/ifs-sync/services/ifs-sync.service.ts:159 | lower-casing keeps the length and changes only upper-case letters |
| JsText.ToLowerIdempotent | src/modules/ifs-sync/services/ifs-sync.service.ts:159 | lower-casing twice is lower-casing once |
| JsText.Trim | src/modules/ifs-sync/services/ifs-sync.service.ts:14 | the trimmed text is empty exactly when the input is all whitespace |
| JsText.ToHex | src/utilities/ifs-table-sql-audit-logger.ts:78 | `toString(16)` gives lower-case hex digits without a leading zero |
| JsText.HexRoundTrip | src/utilities/ifs-table-sql-audit-logger.ts:78 | reading the hex text back gives the number |
| JsText.HexLength | src/utilities/ifs-table-sql-audit-logger.ts:78 | a number below 16^k has at most k hex digits |
| JsValues.Lookup | src/modules/ifs-sync/services/ifs-sync.service.ts:158 | a key is found exactly when the object has it |
| JsValues.Put | src/modules/ifs-sync/services/ifs-sync.service.ts:160 | an assignment sets one key and keeps the others |
| JsValues.PutKeys | src/modules/ifs-sync/services/ifs-sync.service.ts:160 | a new key is appended and an existing key keeps its place |
| JsValues.PutKeepsKeysUnique | src/modules/ifs-sync/services/ifs-sync.service.ts:160 | assignment keeps the keys distinct |
| JsValues.Remove | src/modules/ifs-sync/services/ifs-sync.service.ts:173 | `delete` removes one key and keeps the rest |
| KeyNormalization.NormalizeKeysLookup | src/modules/ifs-sync/services/ifs-sync.service.ts:144-164 | a key of the result holds the value of the last input key that lower-cases to it |
| KeyNormalization.NormalizeEntriesLookup | src/modules/ifs-sync/services/ifs-sync.service.ts:158-161 | the same for each step of the entry loop |
| KeyNormalization.LastWithLowerKey | src/modules/ifs-sync/services/ifs-sync.service.ts:158-161 | the value comes from an entry whose key lower-cases to k |
| KeyNormalization.NormalizeLowersKeys | src/modules/ifs-sync/services/ifs-sync.service.ts:144-164 | every key of the result, at every depth, is lower case, and the keys of an object are distinct |
| KeyNormalization.NormalizeItems | src/modules/ifs-sync/services/ifs-sync.service.ts:153-155 | arrays are mapped element by element |
| KeyNormalization.NormalizeItemsLower | src/modules/ifs-sync/services/ifs-sync.service.ts:153-155 | each element is normalised and has lower-case keys |
| KeyNormalization.NormalizeEntriesLower | src/modules/ifs-sync/services/ifs-sync.service.ts:158-161 | the entry loop keeps the keys lower case |
| KeyNormalization.NormalizeEntriesUnique | src/modules/ifs-sync/services/ifs-sync.service.ts:158-161 | the entry loop keeps the keys distinct |
| KeyNormalization.Normalize | src/modules/ifs-sync/services/ifs-sync.service.ts:144-164 | the method computes `NormalizeKeys` |
| KeyNormalization.RenameMoves | src/modules/ifs-sync/services/ifs-sync.service.ts:171-179 | a renaming moves a defined value to the new name and removes the old one |
| KeyNormalization.MapPaymentFieldsDropsOldNames | src/modules/ifs-sync/services/ifs-sync.service.ts:167-182 | afterwards `supplier_name` and `bank_name` are absent or undefined |
| KeyNormalization.MapPaymentFieldsMovesValues | src/modules/ifs-sync/services/ifs-sync.service.ts:167-182 | defined values move to `data10` and `description` |
| KeyNormalization.MapPaymentFieldsKeepsOthers | src/modules/ifs-sync/services/ifs-sync.service.ts:167-182 | all other keys are unchanged |
| KeyNormalization.FilterEntriesLookup | src/modules/ifs-sync/services/ifs-sync.service.ts:189-195 | the filter loop keeps a key exactly when it is valid |
| KeyNormalization.FilterKeepsValidFields | src/modules/ifs-sync/services/ifs-sync.service.ts:185-198 | a key survives with its value exactly when it is a valid field |
| KeyNormalization.FilterValidFieldsLoop | src/modules/ifs-sync/services/ifs-sync.service.ts:185-198 | the loop computes `FilterValidFields` |
| IfsSync.MirrorOf | src/modules/ifs-sync/services/ifs-sync.service.ts:78-82 | exactly the three IFS tables have a mirror table |
| IfsSync.WithTable | src/modules/ifs-sync/services/ifs-sync.service.ts:58-68 | writing one mirror table leaves the other two unchanged |
| IfsSync.RowkeyOf | src/modules/ifs-sync/services/ifs-sync.service.ts:14 | the rowkey is accepted exactly when it is a string that is not blank |
| IfsSync.EntriesRow | src/modules/ifs-sync/services/ifs-sync.service.ts:97-113 | the row sent to the database holds the record's values under their keys |
| IfsSync.RejectedRequestsWriteNothing | src/modules/ifs-sync/services/ifs-sync.service.ts:14-36 | a missing rowkey or an unknown action returns its message and writes nothing |
| IfsSync.OnlyNamedTableChanges | src/modules/ifs-sync/services/ifs-sync.service.ts:49-93 | a request changes only the mirror table it names |
| IfsSync.WriteActionsAreOneUpsert | src/modules/ifs-sync/services/ifs-sync.service.ts:27-30 | insert, update and upsert behave the same |
| IfsSync.PerformUpsertSucceedsUnlessThrown | src/modules/ifs-sync/services/ifs-sync.service.ts:95-120 | `performUpsert` reports success whenever it returns; it throws exactly when the table faults, or when the create is skipped and the fallback update would duplicate a unique value (P2002, with nothing written) |
| IfsSync.UpsertOnlyFailsByThrowing | src/modules/ifs-sync/services/ifs-sync.service.ts:49-75 | an upsert fails only by a missing rowkey, an unsupported table or a thrown error |
| IfsSync.DeleteSucceedsIffRowExisted | src/modules/ifs-sync/services/ifs-sync.service.ts:122-141 | delete succeeds exactly when a row of the organisation with that rowkey existed, and removes exactly those rows |
| IfsSync.PreviousDataIsTheRowBefore | src/modules/ifs-sync/services/ifs-sync.service.ts:21-30 | `previousData` is a matching row of the table before the write |
| IfsSync.PreviousDataIsTheRead | src/modules/ifs-sync/services/ifs-sync.service.ts:22 | `previousData` is what `readExistingData` returned |
| IfsSync.ReadExistingMatches | src/modules/ifs-sync/services/ifs-sync.service.ts:201-227 | a row that was read exists and matches the organisation and rowkey |
| IfsSync.UpsertCreatesNewRecord | src/modules/ifs-sync/services/ifs-sync.service.ts:97-104 | without a unique-key conflict the record is appended and reported created |
| IfsSync.UpsertFallsBackToUpdate | src/modules/ifs-sync/services/ifs-sync.service.ts:106-119 | on a conflict, the rows are updated; "not found for update" comes back, still as a success, exactly when nothing matched; an update that would duplicate a unique value throws P2002 and writes nothing |
| IfsSync.StampedOrganisation | src/modules/ifs-sync/services/ifs-sync.service.ts:51-55 | after stamping and normalising, `organization_id` is the caller's organisation, unless the payload has a differently cased variant |
| IfsSync.StampedLast | src/modules/ifs-sync/services/ifs-sync.service.ts:51-55 | the stamped entry is the last one whose key lower-cases to `organization_id` |
| IfsSync.StampedOnlyOrganisation | src/modules/ifs-sync/services/ifs-sync.service.ts:51-55 | every stamped entry whose key lower-cases to `organization_id` holds the organisation |
| IfsSync.StampedLookup | src/modules/ifs-sync/services/ifs-sync.service.ts:51-55 | the spread sets `organization_id` to the organisation |
| IfsSync.PayloadOverridesOrganisation | src/modules/ifs-sync/services/ifs-sync.service.ts:51-55 | a payload key `ORGANIZATION_ID` placed after `organization_id` replaces the caller's organisation |
| IfsSync.Service.PerformUpsert | src/modules/ifs-sync/services/ifs-sync.service.ts:95-120 | the method's reply and new table state are those of `PerformUpsertSpec` |
| IfsSync.Service.PerformDelete | src/modules/ifs-sync/services/ifs-sync.service.ts:122-141 | the method's reply and new table state are those of `PerformDeleteSpec` |
| IfsSync.Service.ReadExistingData | src/modules/ifs-sync/services/ifs-sync.service.ts:201-227 | the method returns `ReadExisting` of the current tables |
| IfsSync.Service.BuildRecord | src/modules/ifs-sync/services/ifs-sync.service.ts:51-67 | the record is stamped, normalised, renamed for payment rows and filtered |
| IfsSync.Service.ProcessData | src/modules/ifs-sync/services/ifs-sync.service.ts:11-47 | reply and new tables are those of `ProcessSpec` |
| DbTable.Stored | src/services/table-handlers/ifs-supplier-information-synchronization-handler.ts:45-52 | a stored row keeps exactly the columns whose value is defined |
| DbTable.UpdateRowsPointwise | src/services/table-handlers/ifs-payment-address-synchronization-handler.ts:81-87 | `updateMany` overwrites the given columns of exactly the matching rows |
| DbTable.DeleteRowsExactly | src/services/table-handlers/ifs-payment-address-synchronization-handler.ts:136-141 | `deleteMany` removes exactly the matching rows and counts them |
| DbTable.CountMatchingPositive | src/services/table-handlers/ifs-payment-address-synchronization-handler.ts:89 | the count is positive exactly when some row matches, and `findFirst` then returns the first matching row |
| DbTable.UndefinedColumnIsNoCondition | src/services/table-handlers/ifs-payment-address-synchronization-handler.ts:82-85 | an undefined value in `where` imposes no condition |
| DbTable.Table.Create | src/services/table-handlers/ifs-payment-address-synchronization-handler.ts:65-67 | `create` appends the row, or throws a unique-key violation |
| DbTable.Table.CreateMany | src/services/table-handlers/ifs-payment-address-synchronization-handler.ts:111-114 | `createMany` with `skipDuplicates` inserts the row unless it conflicts and returns the count |
| DbTable.Table.UpdateMany | src/services/table-handlers/ifs-payment-address-synchronization-handler.ts:81-87 | reply and new state are those of `UpdateManyOp`: the matching rows are updated and counted, or P2002 is thrown on a unique clash |
| DbTable.CreateKeepsUnique | src/services/table-handlers/ifs-payment-address-synchronization-handler.ts:65-67 | a successful `create` leaves no two rows with the same non-null value in a unique column |
| DbTable.UpdateManyKeepsUnique | src/services/table-handlers/ifs-payment-address-synchronization-handler.ts:81-87 | a successful `updateMany` leaves no two rows with the same non-null value in a unique column |
| DbTable.Table.DeleteMany | src/services/table-handlers/ifs-payment-address-synchronization-handler.ts:136-141 | reply and new state are those of `DeleteManyOp` |
| DbTable.Table.FindFirst | src/modules/ifs-sync/services/ifs-sync.service.ts:215-220 | the reply is `FindFirstOp`, and the state is unchanged |
| PrismaErrors.MapPrismaError | src/utilities/prisma-error-mapper.ts:5-63 | P2025 gives 404; P2002 and P2003 give 409; other known codes give 400; validation gives 422; initialisation, panic and unknown errors give 500; every mapped result is a failure |
| SyncTypes.CountOutcome | src/services/table-handlers/ifs-payment-address-synchronization-handler.ts:89-102 | a zero count is the record-not-found reply, anything else the success reply |
| SupplierInformationHandler.SupplierRecord | src/services/table-handlers/ifs-supplier-information-synchronization-handler.ts:45-51 | the row carries the supplier id, the name, the organisation and the rowkey as external id |
| SupplierInformationHandler.HandleReplies | src/services/table-handlers/ifs-supplier-information-synchronization-handler.ts:15-26 | every reply has status 200, a failure is the not-found reply, and an unknown action throws |
| SupplierInformationHandler.UpdateReplies | src/services/table-handlers/ifs-supplier-information-synchronization-handler.ts:60-89 | update replies are of that form |
| SupplierInformationHandler.UpsertReplies | src/services/table-handlers/ifs-supplier-information-synchronization-handler.ts:91-110 | upsert replies are of that form |
| SupplierInformationHandler.FaultyTableThrows | src/services/table-handlers/ifs-supplier-information-synchronization-handler.ts:15-26 | on a faulty table every action throws the fault and writes nothing |
| SupplierInformationHandler.UpsertReportsUpdateWhenNothingMatched | src/services/table-handlers/ifs-supplier-information-synchronization-handler.ts:91-110 | a conflicting upsert that updates no row still reports "updated via upsert" |
| SupplierInformationHandler.OtherOrganisationsUntouched | src/services/table-handlers/ifs-supplier-information-synchronization-handler.ts:60-137 | update and delete keep every row of another organisation |
| SupplierInformationHandler.Insert | src/services/table-handlers/ifs-supplier-information-synchronization-handler.ts:41-58 | reply and new table are those of `InsertSpec` |
| SupplierInformationHandler.Update | src/services/table-handlers/ifs-supplier-information-synchronization-handler.ts:60-89 | reply and new table are those of `UpdateSpec` |
| SupplierInformationHandler.Upsert | src/services/table-handlers/ifs-supplier-information-synchronization-handler.ts:91-110 | reply and new table are those of `UpsertSpec` |
| SupplierInformationHandler.Delete | src/services/table-handlers/ifs-supplier-information-synchronization-handler.ts:112-137 | reply and new table are those of `DeleteSpec` |
| SupplierInformationHandler.Handle | src/services/table-handlers/ifs-supplier-information-synchronization-handler.ts:10-27 | dispatches by action as `HandleSpec` says |
| PaymentAddressHandler.PaymentAddressRecord | src/services/table-handlers/ifs-payment-address-synchronization-handler.ts:41-57 | `is_default` and `blocked_for_use` are true exactly for the text `TRUE`; the organisation and rowkey are carried over |
| PaymentAddressHandler.HandleReplies | src/services/table-handlers/ifs-payment-address-synchronization-handler.ts:15-26 | every reply has status 200, a failure is the not-found reply, and an unknown action throws |
| PaymentAddressHandler.UpdateReplies | src/services/table-handlers/ifs-payment-address-synchronization-handler.ts:75-103 | update replies are of that form |
| PaymentAddressHandler.UpsertReplies | src/services/table-handlers/ifs-payment-address-synchronization-handler.ts:105-130 | upsert replies are of that form |
| PaymentAddressHandler.FaultyTableThrows | src/services/table-handlers/ifs-payment-address-synchronization-handler.ts:15-26 | on a faulty table every action throws the fault and writes nothing |
| PaymentAddressHandler.UpdateTouchesOnlyItsRow | src/services/table-handlers/ifs-payment-address-synchronization-handler.ts:75-103 | update reports not-found exactly when no row has that external id and organisation |
| PaymentAddressHandler.UpsertFallsBackToUpdate | src/services/table-handlers/ifs-payment-address-synchronization-handler.ts:105-130 | a new record is inserted and reported created via upsert; a conflicting one goes through update |
| PaymentAddressHandler.Insert | src/services/table-handlers/ifs-payment-address-synchronization-handler.ts:59-73 | reply and new table are those of `InsertSpec` |
| PaymentAddressHandler.Update | src/services/table-handlers/ifs-payment-address-synchronization-handler.ts:75-103 | reply and new table are those of `UpdateSpec` |
| PaymentAddressHandler.Upsert | src/services/table-handlers/ifs-payment-address-synchronization-handler.ts:105-130 | reply and new table are those of `UpsertSpec` |
| PaymentAddressHandler.Delete | src/services/table-handlers/ifs-payment-address-synchronization-handler.ts:132-157 | reply and new table are those of `DeleteSpec` |
| PaymentAddressHandler.Handle | src/services/table-handlers/ifs-payment-address-synchronization-handler.ts:10-27 | dispatches by action as `HandleSpec` says |
| SupplierDocumentTaxHandler.HandleCases | src/services/table-handlers/ifs-supplier-document-tax-synchronization-handler.ts:15-24 | insert, update and upsert all update; delete is skipped; an unknown action throws |
| SupplierDocumentTaxHandler.HandleReplies | src/services/table-handlers/ifs-supplier-document-tax-synchronization-handler.ts:15-80 | every reply has status 200, and a failure is the not-found reply |
| SupplierDocumentTaxHandler.FaultyTableThrows | src/services/table-handlers/ifs-supplier-document-tax-synchronization-handler.ts:39-68 | on a faulty table the writing actions throw the fault |
| SupplierDocumentTaxHandler.DeleteHandledButNotDeclared | src/services/table-handlers/ifs-supplier-document-tax-synchronization-handler.ts:35-37 | `delete` is missing from the declared actions, yet it always succeeds |
| SupplierDocumentTaxHandler.UpdateWritesTaxColumns | src/services/table-handlers/ifs-supplier-document-tax-synchronization-handler.ts:39-68 | update reports not-found exactly when no supplier row matches, and overwrites only the tax columns of the matching rows; a unique clash throws P2002 and writes nothing |
| SupplierDocumentTaxHandler.Update | src/services/table-handlers/ifs-supplier-document-tax-synchronization-handler.ts:39-68 | reply and new table are those of `UpdateSpec` |
| SupplierDocumentTaxHandler.Handle | src/services/table-handlers/ifs-supplier-document-tax-synchronization-handler.ts:10-25 | dispatches by action as `HandleSpec` says |
| HandlerFactory.DistinctCardinality | src/services/ifs-table-synchronization-handler-factory.ts:76-78 | the count of distinct registered names equals the length of the name list |
| HandlerFactory.Factory.Register | src/services/ifs-table-synchronization-handler-factory.ts:51-70 | registration sets the handler and adds a new name once, at the end |
| HandlerFactory.Factory.Create | src/services/ifs-table-synchronization-handler-factory.ts:20-49 | a handler is created exactly when the name is registered and its class constructs |
| HandlerFactory.Factory.IsSupported | src/services/ifs-table-synchronization-handler-factory.ts:80-82 | a table is supported exactly when it is registered |
| HandlerFactory.Factory.Names | src/services/ifs-table-synchronization-handler-factory.ts:72-74 | the names are the registered tables, each once, in order of first registration |
| HandlerFactory.FreshFactoryNames | src/services/ifs-table-synchronization-handler-factory.ts:11-18 | a new factory lists the three default tables in registration order; registering a further table appends it, and re-registering a known one keeps the order |
| HandlerFactory.Factory.Count | src/services/ifs-table-synchronization-handler-factory.ts:76-78 | the count is the number of registered tables |
| AuditSql.TargetTableAgreesWithHandlers | src/utilities/ifs-table-sql-audit-logger.ts:122-129 | the audit table map agrees with each handler's target table, and unknown tables map to themselves |
| AuditSql.KeysAndValuesAlign | src/utilities/ifs-table-sql-audit-logger.ts:106-107 | `Object.keys` and `Object.values` succeed on the same values and have equal lengths |
| AuditSql.BuildSqlStatement | src/utilities/ifs-table-sql-audit-logger.ts:95-120 | the builder throws exactly for a known action on `null` or `undefined` data; an unknown action gives the comment line |
| AuditSql.InsertIsUpsert | src/utilities/ifs-table-sql-audit-logger.ts:104-108 | insert and upsert build the same statement |
| AuditSql.InsertListsAlign | src/utilities/ifs-table-sql-audit-logger.ts:106-107 | the column and value lists have equal length and end with the organisation |
| AuditSql.AssignmentsFollowEntries | src/utilities/ifs-table-sql-audit-logger.ts:111 | each `SET` assignment is the quoted column name and the unescaped value of one entry, in order |
| AuditSql.Wrapped | src/utilities/ifs-table-sql-audit-logger.ts:106-107 | each item comes out between two quote characters (`"` for column names, `'` for values) with its text unchanged, so nothing is escaped |
| AuditSql.ToInt32 | src/utilities/ifs-table-sql-audit-logger.ts:76 | `hash & hash` gives a signed 32-bit integer |
| AuditSql.HashFoldIsPoly31 | src/utilities/ifs-table-sql-audit-logger.ts:70-79 | the wrapped fold equals the 32-bit wrap of the polynomial Σ c·31^k |
| AuditSql.CodeUnits | src/utilities/ifs-table-sql-audit-logger.ts:73-74 | `charCodeAt` walks UTF-16 code units, so there are at least as many units as characters |
| AuditSql.HashTextShape | src/utilities/ifs-table-sql-audit-logger.ts:70-79 | the hash has 1 to 8 lower-case hex digits, is "0" for the empty statement, and reads back as the absolute value of the hash |
| AuditSql.GenerateHash | src/utilities/ifs-table-sql-audit-logger.ts:70-79 | the loop computes `HashText` |
| TableSyncService.ValidationComesFirst | src/services/ifs-table-synchronization-service.ts:37-63 | the table name is checked before the action, and a rejected request writes nothing |
| TableSyncService.BuiltInReplies | src/services/ifs-table-synchronization-service.ts:24-118 | with built-in handlers, every reply is a 200 success, the not-found reply, a 400 validation reply or a mapped error |
| TableSyncService.ExecuteReplies | src/services/ifs-table-synchronization-service.ts:144-161 | running a built-in handler gives one of those replies |
| TableSyncService.FaultIsMapped | src/services/ifs-table-synchronization-service.ts:102-117 | a faulty table comes back as the mapped error of its fault, and nothing is written |
| TableSyncService.HandlersWriteOnlyTheirTable | src/services/ifs-table-synchronization-service.ts:144-161 | the payment handler leaves the supplier table unchanged, and the other handlers leave the bank-address table unchanged |
| TableSyncService.Service.Synchronize | src/services/ifs-table-synchronization-service.ts:24-118 | reply and new tables are those of `SynchronizeSpec` |
| TableSyncService.Service.Execute | src/services/ifs-table-synchronization-service.ts:144-161 | reply and new tables are those of `ExecuteSpec` |
| TableSyncService.Service.Dispatch | src/services/ifs-table-synchronization-service.ts:156-160 | runs the created handler on its own table |
| TableSyncService.Service.RegisterHandler | src/services/ifs-table-synchronization-service.ts:120-134 | the factory's registry gains the handler, a new name is appended once to the name order and a known one keeps its place, and the registry stays valid |

## Observations

The following come from the source as it is written. They are stated as lemmas,
not as findings, because they agree with how the code is described.

* **The scanner alters some valid JSON.** It escapes a closing quote that is
  followed by `]`. It also fails to see `\\` before a closing quote. So valid
  JSON such as `["a"]` or `{"a\\":1}` comes out as a different text
  (`QuoteScanner.ClosingQuoteBeforeBracketEscaped`,
  `QuoteScanner.EscapedBackslashBeforeClosingQuote`). The scanner variant's
  `repairAndParseJSON` runs the scanner on the raw text first, with no strict
  parse before it, so this reaches valid input; see the finding below.
* **The regex variant's quote fix escapes both quotes of `["a"]`**
  (`JsonRepairUtil.ArrayStringEscaped`).
* **Strategy 5 of the regex variant is the identity.** So raw input that parses
  is never reported as unrepairable (`JsonRepairUtil.IdentityStrategyRetriesInput`).
* **A supplier-information upsert can report success when nothing changed.** If
  the upsert conflicts and then matches no row, it still reports "updated via
  upsert" (`SupplierInformationHandler.UpsertReportsUpdateWhenNothingMatched`).
* **An undefined rowkey matches the whole organisation.** Prisma ignores
  `undefined` in a `where` clause (`DbTable.UndefinedColumnIsNoCondition`). So a
  handler update or delete without a rowkey affects every row of the
  organisation.
* **The tax handler handles `delete` but does not declare it.** It leaves
  `delete` out of its supported actions, yet handles it
  (`SupplierDocumentTaxHandler.DeleteHandledButNotDeclared`).
* **`performUpsert` reports a failed update as a success.** "Record not found
  for update" is returned with `success: true`.
* **The payload can override the caller's organisation.** The key is
  lower-cased after `organization_id` has been stamped. So a payload key
  `ORGANIZATION_ID` replaces the caller's organisation
  (`IfsSync.PayloadOverridesOrganisation`).
* **Audit SQL values are not escaped.** They are pasted between single quotes
  as they are (`AuditSql.Wrapped`).

## Findings

| source | as written | input that shows it | evidently intended | confidence | as-written member | corrected member |
|---|---|---|---|---|---|---|
| src/utilities/json-repair.ts:12-46 | the first candidate is the quote scanner applied to the raw text; the text itself is never parsed first | `{"k":["a"],"m":["b",1]}` becomes `{"k":["a\"],\"m\":[\"b",1]}`, valid JSON in which `k` holds the string `a"],"m":["b` and the number 1 | text that already parses is returned as its own value, as the middleware's variant does before repairing (`JsonRepairMiddleware.EndSetsBody`) | high; not executed | `JsonRepair.ValidObjectMisrepaired` | `JsonRepair.RepairAndParseJsonStrictFirst` |

## Left out

- `braceDepth` in the scanner: it is updated but never read, so it has no effect on the output.
- Backtracking regexes: the patterns at json-repair.ts line 177 and json-repair.util.ts lines 84 and 101 are a `Matcher` parameter that supplies their match spans. Their callbacks are modelled exactly, but the regex matching itself is not.
- `JSON.parse`: modelled as the `Parser` parameter. JSON grammar is not modelled.
- `Date.now()` and `new Date()`: modelled as the `now` text, or left out where they only feed timings.
- Logging: console output, the organisation-context logger, and the audit logger's JSON-lines file write are I/O. Only the statement and its hash are modelled.
- JsonRepairMiddleware.Exchange.Handle: a throw from `next()` inside the `try`, which would fall into the repair path, is not modelled.
- Integer-like keys: JavaScript lists them before other keys in `Object.entries`. Entries here keep plain insertion order.
- Prisma schema validation: required columns and column types are not modelled. Only the unique-key conflict and the injected fault make a call throw.
- Custom handler classes: their result is the parameter `custom`, and their database effects are not modelled.
- Concurrency and the asynchronous interleaving of requests are not modelled. Each call runs to completion.
- JsText.ToLower: only ASCII letters are lower-cased, unlike JavaScript's full Unicode `toLowerCase`.
- JsonRepairMiddleware.ReplayCollectsChunks: chunks arrive as text and are appended as they are (also in `JsonRepairMiddleware.Exchange.Handle`). The source decodes each `Buffer` chunk as UTF-8 on its own, so a multi-byte character split across two chunks becomes U+FFFD; that is not modelled.
- DbTable.Conflicts: unique constraints are single columns, here and in `DbTable.UpdateConflicts`. A compound key such as (organization_id, external_id) is not expressible, so a row of another organisation with the same value conflicts in the model but not in the database.
- AuditSql.ObjectKeys: `Object.keys` of a string value gives one index per character here, while JavaScript gives one per UTF-16 code unit (the hash does count code units, through `AuditSql.CodeUnits`).
- Prototype keys such as `__proto__` are ordinary keys here.
- `getValidFieldsFromPrisma`: the valid field lists come from Prisma's runtime model and are the `Fields` parameter.
