# Deck import, rules resolution and card-art naming, in Dafny

A model of the game core of a trading-card-game client:

- **The deck importer** (`src/game/deckImporter.ts`). `importPiltoverArchiveDeck` trims a deck code. It then tries three strategies in order:
  1. JSON (an array of ids, a `cards: {main, rune}` record, or `mainDeck`/`main`/`deck`/`cards` and `runeDeck`/`rune`/`runes` keys);
  2. base64url-encoded JSON;
  3. a plain-text list of `N[x] id` lines with `Main Deck`/`Rune Deck` headers.

  Every strategy fills an insertion-ordered card-count map through `addEntry`. `addEntry` trims ids, skips empty ones, replaces non-finite or non-positive counts by 1, and sums duplicates. `expandDeckSection` turns a section into one id per copy.
- **The rules resolvers** (`src/game/rules.ts`):
  - the core-rule table;
  - `resolvePermissions`, where a card forbid beats a card allow, which beats a rule forbid, which beats nothing;
  - `resolveInstructions`, which keeps the possible instructions, or cites rule 266 when there are none.
- **The engine entry points** (`src/game/engine.ts`): `createInitialState` and the two wrappers around the resolvers.
- **The string logic of the card-art script** (`scripts/pull-card-art.mjs`):
  - `isCardLike`;
  - dropping a URL's query;
  - `sanitizeFilename`, which hands out collision-free file names during one download run.

Modules, in dependency order:

- `Wrappers` (`wrappers.dfy`): Option and Result.
- `Text` (`text.dfy`): JavaScript `trim`, decimal numerals and `includes`.
- `Json` (`json.dfy`): parsed JSON values, truthiness, property reads, `??` and `Number`.
- `DeckEntries` (`deck_entries.dfy`): sections, `addEntry`, and the card-count map as a class.
- `DeckSections` (`deck_sections.dfy`): `normalizeSection`.
- `Base64` (`base64.dfy`): the text prepared for `atob`, and which texts the forgiving-base64 decode of the WHATWG Infra Standard (section 4.2) rejects.
- `DeckJson` (`deck_json.dfy`): `normalizeDeckObject`, `parseFromJson`, `decodeBase64` and `parseFromBase64Json`.
- `LineSyntax` (`line_syntax.dfy`): `split(/\r?\n/)`, the trim and filter of the lines, and the three regular expressions.
- `DeckLines` (`deck_lines.dfy`): `parseFromLines`, a printer for the line format, and its round trip.
- `DeckImporter` (`deck_importer.dfy`): the import cascade and `expandDeckSection`.
- `Rules` (`rules.dfy`), `Engine` (`engine.dfy`) and `CardArt` (`card_art.dfy`).

Two parts are specified imperatively, as the source changes state:

- **The card-count map.** `Map` plus `addEntry` is the class `DeckEntries.CardTally`. Its methods that fill it are proved equal to the pure fold `Tally` over the `addEntry` calls made.
- **The `seen` set of `sanitizeFilename`.** It is the field of the class `CardArt.FileNameRegistry`.

`JSON.parse` and the `TextDecoder` step after `atob` are foreign code. They are the parameters `DeckJson.Codecs`.

## Model

| member | source | states |
|---|---|---|
| Text.TrimEmpty | src/game/deckImporter.ts:179-182 | a code trims to the empty string exactly when every character is JavaScript white space |
| Text.TrimInfix | src/game/deckImporter.ts:49 | `trim` returns a contiguous piece of its input with only white space cut on either side, and the piece starts and ends with a non-space |
| Text.ParseNatToString | src/game/deckImporter.ts:154 | `parseInt(·, 10)` of the decimal numeral of n is n |
| Json.Coalesce | src/game/deckImporter.ts:93 | `a ?? b` is `a` when `a` is neither null nor undefined, and `b` when it is |
| Json.Lookup | src/game/deckImporter.ts:83 | a property read finds a value exactly when the object has a member with that key, and the value is that member's |
| Json.StringToNumber | src/game/deckImporter.ts:74 | `Number` of a blank string is 0, of a decimal numeral with optional surrounding white space its value, and of any other text NaN |
| Json.NumeralNumber | src/game/deckImporter.ts:74 | `Number` reads the decimal numeral of n back as n |
| DeckEntries.SafeCount | src/game/deckImporter.ts:53 | a finite positive count is kept; a non-finite or non-positive count becomes 1 |
| DeckEntries.AddedIds | src/game/deckImporter.ts:48-55 | `addEntry` keeps every id in place, ignores an id that trims to empty, and appends a new trimmed id last |
| DeckEntries.AddedCount | src/game/deckImporter.ts:48-55 | `addEntry` raises the trimmed id's count by the safe count and leaves every other id's count alone |
| DeckEntries.AddedSum | src/game/deckImporter.ts:48-55 | the total number of copies grows by the safe count, or not at all for an empty id |
| DeckEntries.AddedWellFormed | src/game/deckImporter.ts:48-55 | `addEntry` preserves the section invariant: ids unique and non-empty, counts positive |
| DeckEntries.Tally | src/game/deckImporter.ts:61-78 | every map filled by `addEntry` calls is well formed |
| DeckEntries.TallyCounts | src/game/deckImporter.ts:54 | duplicates merge by summation: each id's count is the sum of the safe counts of the calls that name it |
| DeckEntries.TallySum | src/game/deckImporter.ts:54 | no copy is lost or invented: the total is the sum over all calls with a non-empty id |
| DeckEntries.TallyIds | src/game/deckImporter.ts:78 | the ids of the result are exactly the trimmed non-empty ids passed to `addEntry` |
| DeckEntries.TallyFirstOccurrence | src/game/deckImporter.ts:78 | entries come out in the order of each id's first `addEntry` call (Map insertion order) |
| DeckEntries.TallyOrdered | src/game/deckImporter.ts:78 | the first-occurrence order holds after every call |
| DeckEntries.TallyBump | src/game/deckImporter.ts:54 | `target.set` on an id already present gives the same entries as `addEntry` on the section |
| DeckEntries.TallyInsert | src/game/deckImporter.ts:54 | `target.set` on a new id appends it, keeps the ids distinct, and matches `addEntry` on the section |
| DeckEntries.CardTally.constructor | src/game/deckImporter.ts:61 | a new map holds no entries |
| DeckEntries.CardTally.AddEntry | src/game/deckImporter.ts:48-55 | the map's entries after the call are `addEntry` applied to the entries before it |
| DeckSections.IdField | src/game/deckImporter.ts:69 | the id is `cardId` unless null or missing, then `id` unless null or missing, then the empty string |
| DeckSections.CountField | src/game/deckImporter.ts:69 | a missing or null `count` is 1; a numeric `count` is that number; any other `count` is not a finite number |
| DeckSections.ItemPair | src/game/deckImporter.ts:63-71 | a string item adds itself once; an object with a string id adds that id with its `count`; an object whose id is not a string throws; an array item adds the empty id, which is skipped; other items add nothing |
| DeckSections.ArrayPairs | src/game/deckImporter.ts:63-71 | the only error an array section raises is the non-string id |
| DeckSections.MemberPairs | src/game/deckImporter.ts:73-75 | a record adds one call per own property, in order, with the value coerced by `Number` |
| DeckSections.CharPairs | src/game/deckImporter.ts:73-75 | a string adds one call per character, keyed by its index, with the character's numeric value |
| DeckSections.Normalized | src/game/deckImporter.ts:57-79 | `normalizeSection` throws only for a non-string card id |
| DeckSections.TallyArray | src/game/deckImporter.ts:62-71 | the `forEach` over an array filling a fresh map returns `normalizeSection`'s result, including its throw |
| DeckSections.AddItem | src/game/deckImporter.ts:63-71 | one array item's call, if any, is applied to the map |
| DeckSections.TallyEntries | src/game/deckImporter.ts:73-75 | the `forEach` over `Object.entries` filling a fresh map returns the fold of its calls |
| DeckSections.NormalizeSection | src/game/deckImporter.ts:57-79 | the imperative `normalizeSection` returns exactly the specified section or error |
| DeckSections.NormalizedFalsy | src/game/deckImporter.ts:58-60 | a falsy or missing section is empty |
| DeckSections.NormalizedShape | src/game/deckImporter.ts:78 | a normalized section is well formed, holds exactly the ids passed, and keeps first-occurrence order |
| DeckSections.NormalizedCounts | src/game/deckImporter.ts:54 | each id's count in a normalized section, and the total, are what its calls ask for |
| DeckSections.ArrayFails | src/game/deckImporter.ts:69 | an array section throws exactly when one of its items is an object with a non-string id |
| DeckSections.StringItemsPairs | src/game/deckImporter.ts:64-66 | in an array of strings, each id gets one copy per string that trims to it |
| DeckSections.StringItemsCountOnce | src/game/deckImporter.ts:64-66 | an array of strings never throws, and each id's count is the number of strings naming it |
| DeckSections.TallyDistinct | src/game/deckImporter.ts:73-78 | calls with distinct, already trimmed ids give one entry each, in call order |
| DeckSections.StringSection | src/game/deckImporter.ts:73-75 | a string section has one entry per character, keyed `0`, `1`, …, with count the character's safe numeric value |
| DeckSections.ObjectSection | src/game/deckImporter.ts:73-75 | a record with distinct trimmed keys keeps every key once, in order, with its coerced count |
| DeckSections.TallyCanonical | src/game/deckImporter.ts:48-55 | re-adding the entries of a section the importer produced rebuilds that section |
| DeckSections.DuplicateStringsMerge | src/game/deckImporter.ts:63-71 | `["A", " A ", "B"]` imports as `A` twice and `B` once |
| Base64.UrlToStandard | src/game/deckImporter.ts:28 | `-` becomes `+`, `_` becomes `/`, and every other character and the length are kept |
| Base64.UrlToStandardClean | src/game/deckImporter.ts:28 | no `-` or `_` survives, and a text without them is unchanged |
| Base64.Pad | src/game/deckImporter.ts:29 | `padEnd` keeps the text, appends only `=`, and reaches a multiple of 4 within 3 characters |
| Base64.PadSmallest | src/game/deckImporter.ts:29 | the padded length is the smallest multiple of 4 at or above the length |
| Base64.PadAligned | src/game/deckImporter.ts:29 | text already a multiple of 4 long is not padded |
| Base64.StripAsciiSpace | src/game/deckImporter.ts:32 | `atob` removes ASCII white space first, and what remains holds none |
| Base64.StripAsciiSpaceKeeps | src/game/deckImporter.ts:32 | exactly the characters that are not white space remain |
| Base64.StripAsciiSpaceChar | src/game/deckImporter.ts:32 | a single character is dropped when it is white space and kept otherwise |
| Base64.StripAsciiSpaceAppend | src/game/deckImporter.ts:32 | the removal works piece by piece, so the kept characters stay in order |
| Base64.PadUnpadded | src/game/deckImporter.ts:29-32 | the padding added is exactly what `atob` strips, except the third `=` a text of length 4k+1 gets |
| Base64.UrlTextAccepted | src/game/deckImporter.ts:27-32 | a base64url text is accepted by `atob` after preparation exactly when its length is not 4k+1 |
| Base64.SampleLineRejected | src/game/deckImporter.ts:32 | `atob` rejects the prepared form of the deck line `1 A` |
| DeckJson.NameOf | src/game/deckImporter.ts:82 | the deck name is the `name` property exactly when that is a string |
| DeckJson.Sections | src/game/deckImporter.ts:96-101 | a deck is built when both sections normalize, from those two sections |
| DeckJson.NormalizeDeckObject | src/game/deckImporter.ts:81-105 | a deck keeps the object's string name; the object is no deck exactly when it has no `cards` record with a truthy section and no truthy candidate keys |
| DeckJson.ParseFromJson | src/game/deckImporter.ts:107-122 | the JSON strategy throws only for a non-string card id |
| DeckJson.DecodeBase64 | src/game/deckImporter.ts:27-43 | decoding succeeds exactly when `atob` accepts the prepared text |
| DeckJson.ParseFromBase64Json | src/game/deckImporter.ts:173-176 | the base64 strategy throws `atob`'s error exactly when decoding fails |
| DeckJson.TopLevelArray | src/game/deckImporter.ts:112-117 | a top-level array is the main deck, with an empty rune deck and no name |
| DeckJson.CardsRecordFirst | src/game/deckImporter.ts:84-90 | a `cards` record with a truthy `main` or `rune` is used before any other key |
| DeckJson.CandidateKeys | src/game/deckImporter.ts:92-102 | otherwise the sections come from the first non-nullish candidate keys |
| DeckJson.MainCandidateOrder | src/game/deckImporter.ts:92-93 | the main section is the first of `mainDeck`, `main`, `deck` that is neither null nor missing, else `cards` |
| DeckJson.RuneCandidateOrder | src/game/deckImporter.ts:94 | the rune section is the first of `runeDeck`, `rune` that is neither null nor missing, else `runes` |
| DeckJson.SectionRoundTrip | src/game/deckImporter.ts:57-79 | a section written as `[{cardId, count}]` normalizes back to itself |
| DeckJson.DeckObjectRoundTrip | src/game/deckImporter.ts:81-105 | a deck written as `{name, mainDeck, runeDeck}` normalizes back to itself |
| DeckJson.DeckRoundTrip | src/game/deckImporter.ts:107-122 | a deck's JSON text parses back to the deck |
| LineSyntax.NewlineAt | src/game/deckImporter.ts:126 | finds the first line feed, or reports that there is none |
| LineSyntax.SplitLines | src/game/deckImporter.ts:126 | `split` always yields at least one piece |
| LineSyntax.SplitJoin | src/game/deckImporter.ts:126 | splitting lines joined by `\n` gives back the lines when none holds a line feed or ends in `\r` |
| LineSyntax.TrimmedNonEmpty | src/game/deckImporter.ts:127-128 | every kept line is non-empty and already trimmed |
| LineSyntax.TrimmedNonEmptyOne | src/game/deckImporter.ts:127-128 | one line is kept, trimmed, unless it is blank |
| LineSyntax.TrimmedNonEmptyAppend | src/game/deckImporter.ts:127-128 | the map and filter work line by line, so the kept lines stay in order |
| LineSyntax.TrimmedNonEmptySnoc | src/game/deckImporter.ts:127-128 | one more line adds its trimmed form at the end, unless it is blank |
| LineSyntax.TrimIdempotent | src/game/deckImporter.ts:127 | trimming twice is trimming once |
| LineSyntax.TrimmedKept | src/game/deckImporter.ts:127-128 | lines already trimmed and non-empty all survive the map and filter |
| LineSyntax.SpaceThenRestSound | src/game/deckImporter.ts:149 | the `\s+(.+)$` part matches only white space followed by a non-empty id without line terminators |
| LineSyntax.SpaceThenRestComplete | src/game/deckImporter.ts:149 | every such split is matched |
| LineSyntax.CardLineDigits | src/game/deckImporter.ts:149 | the count group is a non-empty run of digits |
| LineSyntax.CardLineSound | src/game/deckImporter.ts:149 | a matched line is digits, an optional `x`, white space and the id group |
| LineSyntax.CardLineShape | src/game/deckImporter.ts:149 | the digits and the optional `x` are fixed by the line; only the rest decides the match |
| LineSyntax.CardLineComplete | src/game/deckImporter.ts:149 | every line of that shape matches, with its digits as the count group |
| LineSyntax.CardLineExact | src/game/deckImporter.ts:149 | when the id starts with a non-space, the id group is exactly that id |
| LineSyntax.CardLineIdTrimmed | src/game/deckImporter.ts:149 | on a trimmed line the id group is non-empty and already trimmed |
| DeckLines.Kinds | src/game/deckImporter.ts:137-152 | each line is classified as comment, header, card line or unmatched, in the order the callback tests them |
| DeckLines.RunStep | src/game/deckImporter.ts:137-161 | one more line is one more callback step |
| DeckLines.ScanLine | src/game/deckImporter.ts:137-161 | one callback updates `section`, `parsedAny` and the current map exactly as the step function says |
| DeckLines.ParseFromLines | src/game/deckImporter.ts:124-171 | the imperative loop with two maps returns the specified result |
| DeckLines.RunParsedAny | src/game/deckImporter.ts:153 | `parsedAny` ends true exactly when some line is a card line |
| DeckLines.LinesDeckNone | src/game/deckImporter.ts:163-165 | the line strategy finds no deck exactly when no line is a card line, and a deck it finds has no name |
| DeckLines.IgnoredLines | src/game/deckImporter.ts:138-152 | comment lines and unmatched lines change nothing |
| DeckLines.NoRuneHeader | src/game/deckImporter.ts:134 | without a `rune deck` header every card goes to the main deck |
| DeckLines.RunCopies | src/game/deckImporter.ts:153-160 | the copies across both maps are the copies the card lines ask for |
| DeckLines.LinesTrimmedIds | src/game/deckImporter.ts:127 | every card line of the trimmed lines has a non-empty trimmed id |
| DeckLines.LinesCopies | src/game/deckImporter.ts:153-160 | the deck found holds, across both sections, exactly the copies its card lines ask for |
| DeckLines.PrintSection | src/game/deckImporter.ts:149 | a section prints one `N id` line per entry, in order |
| DeckLines.PrintedEntryShape | src/game/deckImporter.ts:127-128 | a printed entry line survives the trim and filter unchanged |
| DeckLines.PrintedEntryKind | src/game/deckImporter.ts:149 | a printed entry line is read back as a card line with that count and id |
| DeckLines.RuneHeaderLine | src/game/deckImporter.ts:141 | `Rune Deck` is read as the rune header |
| DeckLines.RunCards | src/game/deckImporter.ts:156-160 | card lines go to the current section's map, in order, and leave the section unchanged |
| DeckLines.PrintedPlain | src/game/deckImporter.ts:127-128 | every printed line is non-empty, trimmed and free of line breaks |
| DeckLines.PrintedKinds | src/game/deckImporter.ts:137-152 | the printed lines classify as the deck's card lines with the rune header between the sections |
| DeckLines.PrintedLines | src/game/deckImporter.ts:125-128 | the printed text splits back into exactly the printed lines |
| DeckLines.RunDeck | src/game/deckImporter.ts:137-161 | scanning the printed kinds adds each section's entries to its own map |
| DeckLines.LinesRoundTrip | src/game/deckImporter.ts:124-171 | a printed deck list parses back to the deck |
| DeckImporter.LinesOrUnrecognized | src/game/deckImporter.ts:194-199 | the last strategy returns its deck, or throws the unrecognized-format error exactly when it finds none |
| DeckImporter.ImportDeck | src/game/deckImporter.ts:178-200 | the empty-code error exactly for a blank code; otherwise the JSON strategy's deck or error, else the base64 strategy's deck or error (including `atob`'s), else the line strategy's deck; unrecognized exactly when all three find nothing |
| DeckImporter.ParseFromBase64JsonTolerant | src/game/deckImporter.ts:173-176 | a text `atob` rejects is no match instead of an error |
| DeckImporter.ImportDeckTolerant | src/game/deckImporter.ts:178-200 | the same cascade with the tolerant second strategy: each strategy's deck or error is returned in turn, unrecognized exactly when none finds a deck, and never the base64 error |
| DeckImporter.JsonFirst | src/game/deckImporter.ts:184-187 | a JSON deck wins over every later strategy |
| DeckImporter.TolerantAgrees | src/game/deckImporter.ts:189-192 | the intended cascade differs from the written one only where the written one throws `atob`'s error, and there it tries the lines |
| DeckImporter.JsonImportRoundTrip | src/game/deckImporter.ts:184-187 | a deck exported as JSON imports unchanged |
| DeckImporter.EncodedImportRoundTrip | src/game/deckImporter.ts:189-192 | a deck exported as base64url JSON imports unchanged |
| DeckImporter.PrintedTrimmed | src/game/deckImporter.ts:179 | a printed deck list is its own trimmed code |
| DeckImporter.LinesImportRoundTrip | src/game/deckImporter.ts:194-197 | a printed deck list imports unchanged through the intended cascade, and through the written one only when `atob` accepts it |
| DeckImporter.SampleLineText | src/game/deckImporter.ts:124-171 | `1 A` is a one-card deck list |
| DeckImporter.LineDeckRejected | src/game/deckImporter.ts:173-176 | as written, `1 A` fails with `atob`'s error; the intended cascade reads it |
| DeckImporter.CopiesOf | src/game/deckImporter.ts:203 | `Array.from({length: n}, () => id)` is n copies of id |
| DeckImporter.ExpandDeckSection | src/game/deckImporter.ts:202-203 | the expansion has as many ids as the section has copies |
| DeckImporter.ExpandCounts | src/game/deckImporter.ts:202-203 | each id appears in the expansion exactly as often as the section counts it |
| DeckImporter.ExpandAppend | src/game/deckImporter.ts:203 | expanding two sections in turn is expanding their concatenation |
| Rules.CoreRuleIds | src/game/rules.ts:9-40 | the rule ids are distinct; 002, 054.1 and 266 are in the table and 000 is not |
| Rules.Matching | src/game/rules.ts:49-51 | the filter keeps exactly the permissions with that source and type |
| Rules.MatchingFirst | src/game/rules.ts:77 | the filter is non-empty exactly when such a permission exists, and its head is the first one |
| Rules.ResolvePermissions | src/game/rules.ts:48-87 | a card forbid gives 054.1 and denies; else a card allow gives 002 and allows; else a rule forbid denies and cites the first rule forbid's id or 000; else 000 allows |
| Rules.FirstExists | src/game/rules.ts:77 | when a permission of a kind exists, there is a first one |
| Rules.PermissionOutcome | src/game/rules.ts:48-87 | allowed exactly when no card forbids and a card allows or no rule forbids; the cited id is a table id, 000, or an id a rule forbid carries |
| Rules.RuleAllowIrrelevant | src/game/rules.ts:48-87 | inserting a rule allow anywhere changes nothing |
| Rules.MatchingAppend | src/game/rules.ts:49-51 | the filter distributes over concatenation |
| Rules.ReorderKeepsDecision | src/game/rules.ts:48-87 | reordering the permissions keeps the decision and the reason, and the whole result unless a rule forbid decides |
| Rules.FirstRuleForbidCited | src/game/rules.ts:77 | of two rule forbids, the first one's id is cited |
| Rules.PossibleOnly | src/game/rules.ts:96 | the filter keeps exactly the possible instructions |
| Rules.PossibleOnlyAppend | src/game/rules.ts:96 | the filter distributes over concatenation |
| Rules.PossibleOnlyCounts | src/game/rules.ts:96 | each possible instruction is kept as often as it occurs, and no impossible one is kept |
| Rules.ResolveInstructions | src/game/rules.ts:95-106 | the possible instructions are returned; rule 266 and its note are cited exactly when none is possible |
| Engine.PlayersById | src/game/engine.ts:12 | the player record has a key exactly for each player's id, and each key maps to a player with that id |
| Engine.PlayersLastWins | src/game/engine.ts:12 | an id maps to the last player that has it |
| Engine.CreateInitialState | src/game/engine.ts:11-18 | turn 1; the first player is active, or `""` with no players; the record's keys are the players' ids |
| Engine.InitialPlayers | src/game/engine.ts:11-18 | with distinct ids every player is stored as given, and the record has one key per player |
| Engine.DistinctIdCount | src/game/engine.ts:12 | with distinct ids the record has as many keys as there are players |
| Engine.EvaluateActionPermissions | src/game/engine.ts:20-22 | the wrapper gives the resolver's result, allowed exactly as the precedence says |
| Engine.ResolveCardInstructions | src/game/engine.ts:24-26 | the wrapper gives the resolver's result, which keeps exactly the possible instructions |
| CardArt.CardGalleryRedundant | scripts/pull-card-art.mjs:17-18 | a URL is card-like exactly when it contains `card` or `art` |
| CardArt.StripQuery | scripts/pull-card-art.mjs:61 | the stored URL is the prefix up to the first `?` |
| CardArt.StripQueryIdempotent | scripts/pull-card-art.mjs:85 | stripping the query again changes nothing |
| CardArt.CandidateInjective | scripts/pull-card-art.mjs:105 | different counters give different candidate names |
| CardArt.CandidatesCount | scripts/pull-card-art.mjs:105 | the first k counters give k different names |
| CardArt.CandidatesBound | scripts/pull-card-art.mjs:107-110 | at most as many candidates as names seen can be taken, so the search ends |
| CardArt.FirstFree | scripts/pull-card-art.mjs:104-110 | the search stops at the smallest counter whose candidate is free |
| CardArt.FirstFreeIs | scripts/pull-card-art.mjs:107-110 | any free counter with every smaller counter taken is the one found |
| CardArt.FileName | scripts/pull-card-art.mjs:95-114 | the name returned was not seen; it is the base name when free, else the candidate with the smallest free counter |
| CardArt.FileNameRegistry.constructor | scripts/pull-card-art.mjs:118 | a run starts with no names seen |
| CardArt.FileNameRegistry.SanitizeFilename | scripts/pull-card-art.mjs:95-114 | returns the specified name and adds exactly it to the names seen |
| CardArt.FileNameRegistry.NameDownloads | scripts/pull-card-art.mjs:116-121 | one run names every URL with a distinct name not seen before, and records exactly those names |

## Left out

- Network and file I/O in `scripts/pull-card-art.mjs` are not modelled: fetching the gallery and images, `mkdir`, writing files and the manifest, and the script's entry point.
- The page scraping (`extractNextData`, `collectImageUrls`, `collectFromHtml`) is not modelled. Only its `isCardLike` test and its query stripping are.
- CardArt.FileNameRegistry.SanitizeFilename: takes the name and the extension already split. `new URL(url).pathname`, `path.basename` and `path.extname` are not part of this model.
- `JSON.parse` and `TextDecoder` are the parameters `DeckJson.Codecs`, because they are foreign code. DeckJson.DecodeBase64 therefore states when `atob` throws, not which text it decodes to.
- The `Buffer` fallback and the "Base64 decoding is not available" throw are not modelled: `atob` is taken to exist.
- Json.StringToNumber: accepts only an optionally blank-padded decimal numeral. Signs, exponents, hex, decimal points and `Infinity` read as NaN here, where `Number` accepts them.
- Only integers and the infinities are modelled as numbers. Fractional JSON numbers and counts are not, and `parseInt` of a very long numeral is exact here, not a rounded double.
- Json.Lookup: returns the first member with the key. `JSON.parse` keeps the last value of a repeated key, so parsed objects are taken to have distinct keys.
- Base64.StripAsciiSpace: its own contract says only that no white space remains. StripAsciiSpaceKeeps, StripAsciiSpaceChar and StripAsciiSpaceAppend state which characters are kept and in what order.
- LineSyntax.TrimmedNonEmpty: its own contract says only that the kept lines are trimmed and non-empty. TrimmedNonEmptyOne, TrimmedNonEmptyAppend and TrimmedNonEmptySnoc state which lines are kept and in what order.
- `Object.entries` is taken to list an object's members in the order given. JavaScript puts integer-like keys first; that reordering is not modelled.
- Strings are sequences of code points. A string section's `Object.entries` enumerates UTF-16 code units in the source.
- Case-insensitive matching folds ASCII letters only. That is what `/i` without the `u` flag does for these ASCII words.
- Error messages and the `reason`, `note`, `title` and `text` strings are modelled as enumerations or left out. Only which error or reason occurs is modelled, not its wording.
- `EffectPermission` and `GameInstruction` are imported by `src/game/rules.ts` but do not appear in `src/game/types.ts`. They are modelled from their use: source, type, description and optional rule id; and id, description and `possible`.
- `Object.fromEntries` with a key such as `__proto__` is not modelled. Every id is an ordinary key.
- The renderer, network client, logger and `CardDefinition` are not part of this model.

## Findings

| source | as written | input that shows it | evidently intended | confidence | as-written member | corrected member |
|---|---|---|---|---|---|---|
| src/game/deckImporter.ts:173-176 | `parseFromBase64Json` lets the exception from `atob` escape, so `importPiltoverArchiveDeck` throws before trying the line format on any code `atob` rejects | the deck list `1 A` (one copy of card `A`), which `JSON.parse` rejects; `atob` rejects it too, because after removing the space `1A=` is left and `=` is not a base64 character | a code that is not base64 is no match for the second strategy, and the line format is tried next, as the strategy order at lines 184-199 suggests | not executed | DeckImporter.LineDeckRejected | DeckImporter.ImportDeckTolerant |
