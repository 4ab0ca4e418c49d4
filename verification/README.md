# Karakalpak text service: a Dafny model

The service checks the spelling of Karakalpak and Uzbek text and converts
it between the Cyrillic and Latin alphabets. It is an Express server backed
by MongoDB. This project models its deterministic core in Dafny and proves
properties of that model:

- **Transliteration** (`transliterate.dfy`, `transliterate_route.dfy`). The
  two table-driven conversions scan left to right and try digraphs before
  single letters. The model also covers script detection, the automatic and
  forced directions, and the `/api/convert` single and batch routes.
  Proved: the conversion loops compute the conversion functions, the length
  bounds, which letters survive a round trip, and round trips for whole texts
  built from those letters.
- **Dictionary spell-check primitives** (`spell_check.dfy`). The full-matrix
  Levenshtein distance, the tokenizer, the word normaliser, distance-ranked
  suggestions, spell-checking a text against a word list, fuzzy search and
  the counts of the text statistics.
- **The `/api/check` routes** (`spell_check_route.dfy`):
  - the dictionary cache, a class with an injected clock and an injected
    store outcome;
  - the map built from the store, which behaves like a JavaScript `Map`;
  - the regular-expression analyser and the prefix suggestions;
  - the check route;
  - the left-to-right auto-corrector with its running `offset`. It is proved
    to produce the text rewritten by exactly the planned edits, with
    untouched text between them.
- **The server's own routes** (`server.js`, modelled in `server.dfy`). Its
  script detector, the text guard, the choice of alphabet, the word-by-word
  alignment of `/api/spell-check` and the batch guard. The language model's
  corrected text enters as a parameter.
- **Models**:
  - the user's daily quota state machine (`user_model.dfy`, a class);
  - the word document and its lookup (`word_model.dfy`);
  - the history document's helpers (`text_history_model.dfy`);
  - the error class (`app_error.dfy`).
- **Validation**: the validators (`validators.dfy`), and the request
  validation chains with their error handler (`validation.dfy`).
- **Listings and exports**: the history controller's paging, search guard,
  labels and CSV export (`history_controller.dfy`), and the dictionary
  routes' parameters, validation and exports (`words_route.dfy`). Both use
  the shared `parseInt` and page arithmetic in `pagination.dfy`.

Shared modules model the JavaScript built-ins the core relies on:

- `wrappers.dfy`: `Option`, `Result`, and the values a JSON body can hold.
- `text.dfy`: `toLowerCase`, `trim`, `indexOf`, `join`, `split`, and the
  decimal rendering of numbers.
- `runs.dfy`: global matching of `/[class]+/g`.
- `scripts.dfy`: the script names and letter counting.
- `ordered_map.dfy`: `Map`.
- `sorting.dfy`: the stable `Array.prototype.sort` and `slice`.

Time, the store's answers and the language model's replies are parameters
of the model.

Where the code's comments and the repository's own description of the
service disagree with what the code does, the model follows the code:

- Of several dictionary words with the same key, the map keeps the one
  loaded LAST. The store returns words by descending trust, so that is the
  one with the lowest trust (`SpellCheckRoute.LowestTrustWins`).
- Suggestions in `/api/check` are a three-character substring search with a
  fixed confidence of 85, not an edit-distance search.
- There is no greedy multi-word window and no bounded edit distance.
- The alignment positions of `/api/spell-check` are offsets into the text
  rejoined with single spaces, not into the text as sent
  (`Server.PositionsIgnoreRepeatedSpaces`).

## Model

| member | source | states |
|---|---|---|
| Transliteration.CyrillicStep | utils/transliterate.js:161-193 | one turn of the Cyrillic scan advances the index by one or two, and the piece it appends followed by the conversion of the rest is the conversion from the old index |
| Transliteration.LatinStep | utils/transliterate.js:204-257 | one turn of the Latin scan advances the index by one or two, and the piece it appends followed by the conversion of the rest is the conversion from the old index |
| Transliteration.CyrillicToLatin | utils/transliterate.js:157-197 | the scan's result is the digraph-first, table-then-copy conversion of the whole text (`CyrToLat`); the empty text gives "" |
| Transliteration.LatinToCyrillic | utils/transliterate.js:200-261 | the scan's result is the digraph-first, table-then-copy conversion of the whole text (`LatToCyr`) |
| Transliteration.CyrToLatAt | utils/transliterate.js:161-193 | the conversion of a suffix is a digraph if one starts there, otherwise one character through the table, followed by the conversion of the rest |
| Transliteration.LatToCyrAt | utils/transliterate.js:204-257 | the same for the Latin scan |
| Transliteration.CyrillicPairStep | utils/transliterate.js:166-185 | a Cyrillic digraph at the front is replaced as a whole and the scan goes on after both letters |
| Transliteration.CyrillicSingleStep | utils/transliterate.js:187-193 | a character that starts no digraph goes through the table (or is copied) and the scan goes on after it |
| Transliteration.LatinPairStep | utils/transliterate.js:210-249 | a Latin digraph at the front is replaced as a whole and the scan goes on after both letters |
| Transliteration.LatinSingleStep | utils/transliterate.js:251-257 | a character that starts no digraph goes through the table (or is copied) and the scan goes on after it |
| Transliteration.CyrillicDigraphsConsumeBoth | utils/transliterate.js:166-185 | `сх`/`Сх` become "sh"/"Sh" and `тс`/`Тс` become "ts"/"Ts", consuming both letters, where letter by letter `сх` would give "sx" |
| Transliteration.LatinDigraphsFirst | utils/transliterate.js:210-229 | ts/Ts/sh/Sh become ц/Ц/ч/Ч before any single-letter lookup, where letter by letter `ts` would give `тс` |
| Transliteration.LatinVowelDigraphsFirst | utils/transliterate.js:230-249 | yu/Yu/ya/Ya become ю/Ю/я/Я before any single-letter lookup, where letter by letter `ya` would give `йа` |
| Transliteration.CyrillicUnmappedCopied | utils/transliterate.js:187-193 | a character without a Cyrillic table entry is copied unchanged and the index moves on by one |
| Transliteration.LatinUnmappedCopied | utils/transliterate.js:251-257 | a character without a Latin table entry is copied unchanged and the index moves on by one |
| Transliteration.LatinTableGaps | utils/transliterate.js:98-144 | digits, the space and the Latin letters c, h and u have no Latin table entry |
| Transliteration.CyrillicUnmappedText | utils/transliterate.js:187-193 | a text none of whose characters has a Cyrillic table entry comes out unchanged |
| Transliteration.LatinUnmappedText | utils/transliterate.js:251-257 | a text none of whose characters has a Latin table entry comes out unchanged |
| Transliteration.SignsDeleted | utils/transliterate.js:69-74 | ъ, Ъ, ь and Ь map to "" and vanish from the output |
| Transliteration.Lossy | utils/transliterate.js:166-229 | ц and тс both give "ts", which comes back as ц; ч and сх both give "sh", which comes back as ч; "аъ" gives "a" |
| Transliteration.LatinLetterLength | utils/transliterate.js:98-144 | a Latin character becomes exactly one character |
| Transliteration.CyrillicLetterLength | utils/transliterate.js:4-81 | a Cyrillic character becomes at most three characters |
| Transliteration.LatToCyrLength | utils/transliterate.js:200-261 | Latin to Cyrillic never lengthens a text |
| Transliteration.CyrToLatLength | utils/transliterate.js:157-197 | Cyrillic to Latin at most triples a text's length |
| Transliteration.NotRoundTripping | utils/transliterate.js:210-229 | т, с and й do not survive the trip to Latin and back: their Latin forms start Latin digraphs |
| Transliteration.SharedLatinForms | utils/transliterate.js:4-81 | ы and э share their Latin forms with и and е, so they do not round-trip |
| Transliteration.NotRoundTrippingOthers | utils/transliterate.js:67-68 | щ, written with three Latin letters, does not round-trip |
| Transliteration.SignsNotRoundTripping | utils/transliterate.js:69-74 | the dropped signs do not round-trip |
| Transliteration.LatinNotRoundTripping | utils/transliterate.js:98-144 | Latin `i` (which comes back as ı) and `x` do not round-trip |
| Transliteration.RoundTrippingLetters | utils/transliterate.js:4-144 | ә, қ and ц do round-trip |
| Transliteration.RoundTrippingLatinLetters | utils/transliterate.js:98-144 | Latin q and s do round-trip |
| Transliteration.UntabledLetterRoundTrips | utils/transliterate.js:98-144 | a letter in neither table, such as h, round-trips |
| Transliteration.LatinLetterBack | utils/transliterate.js:4-144 | a round-tripping Latin character becomes one Cyrillic letter that maps straight back, `с` only for `s` and never `х` |
| Transliteration.LatinDigraphBack | utils/transliterate.js:210-249 | a Latin digraph becomes one Cyrillic letter that starts no Cyrillic digraph and maps back to the same two letters |
| Transliteration.TsLetters | utils/transliterate.js:61-62 | the table writes ц/Ц as "ts"/"Ts" |
| Transliteration.ShLetters | utils/transliterate.js:63-64 | the table writes ч/Ч as "sh"/"Sh" |
| Transliteration.YuLetters | utils/transliterate.js:77-78 | the table writes ю/Ю as "yu"/"Yu" |
| Transliteration.YaLetters | utils/transliterate.js:79-80 | the table writes я/Я as "ya"/"Ya" |
| Transliteration.CyrillicLetterBack | utils/transliterate.js:157-261 | a round-tripping Cyrillic character, followed by anything, comes back from Latin as itself |
| Transliteration.CyrillicRoundTrip | utils/transliterate.js:157-261 | Cyrillic text made only of round-tripping characters survives Cyrillic → Latin → Cyrillic unchanged |
| Transliteration.LatToCyrHead | utils/transliterate.js:200-261 | the Cyrillic form of a round-tripping Latin text starts with `с` only for a leading `s` not followed by `h`, and never with `х` |
| Transliteration.DigraphHead | utils/transliterate.js:210-249 | a text starting with a Latin digraph becomes Cyrillic text starting with neither `с` nor `х` |
| Transliteration.LatinRoundTripPair | utils/transliterate.js:157-261 | a leading Latin digraph comes back as itself once the rest of the text does |
| Transliteration.LatinRoundTripSingle | utils/transliterate.js:157-261 | a leading round-tripping Latin letter that starts no digraph comes back as itself once the rest does |
| Transliteration.LetterBeforeS | utils/transliterate.js:166-185 | a round-tripping Latin letter that forms no digraph with s does not become a Cyrillic letter forming one with с |
| Transliteration.LatinRoundTrip | utils/transliterate.js:157-261 | Latin text made only of round-tripping characters survives Latin → Cyrillic → Latin unchanged |
| Transliteration.DetectScript | utils/transliterate.js:147-154 | "cyrillic" exactly when the Cyrillic-class count is strictly larger, "latin" exactly when the Latin-class count is, "mixed" exactly on a tie |
| Transliteration.DetectScriptEdges | utils/transliterate.js:147-154 | a text without letters is "mixed", and ә counts for both alphabets |
| Transliteration.DetectScriptJoin | utils/transliterate.js:147-154 | joining two texts detected as the same alphabet (not "mixed") keeps that alphabet |
| Transliteration.AutoTransliterate | utils/transliterate.js:264-287 | Cyrillic text goes to Latin, Latin text to Cyrillic, and mixed text comes back unchanged, from and to "mixed", with the message; a result that changed has different from and to |
| Transliteration.AutoTransliterateReversible | utils/transliterate.js:264-278 | Cyrillic text of round-tripping letters, converted automatically and then converted back, is recovered |
| Transliteration.ManualTransliterate | utils/transliterate.js:290-297 | "toLatin" and "toCyrillic" choose the two conversions; any other direction returns the text unchanged |
| TransliterateRoute.Dispatch | routes/transliterate.js:30-48 | a conversion is chosen exactly for the modes "auto", "toLatin" and "toCyrillic" |
| TransliterateRoute.Convert | routes/transliterate.js:12-59 | the request is refused exactly when the text is missing, empty or not a string, longer than 100000 characters, or the mode is unknown, each with its own message in that order; a conversion echoes the text and the mode ("auto" when absent) |
| TransliterateRoute.ConvertModes | routes/transliterate.js:30-48 | an absent mode or "auto" gives `autoTransliterate`'s answer; "toLatin" and "toCyrillic" give the forced conversions; any other mode, `null` included, is refused |
| TransliterateRoute.ForcedIgnoresDetection | routes/transliterate.js:32-37 | a forced direction ignores the text's alphabet: Latin "ab" sent "toLatin" comes back unchanged, marked as from Cyrillic |
| TransliterateRoute.BatchItemFor | routes/transliterate.js:137-192 | each entry carries its own index |
| TransliterateRoute.SuccessCount | routes/transliterate.js:195 | the number of successes never exceeds the number of entries |
| TransliterateRoute.SuccessCountBounds | routes/transliterate.js:195-204 | every entry succeeded exactly when the count equals the number of entries, and none exactly when it is zero |
| TransliterateRoute.Batch | routes/transliterate.js:119-206 | a non-array or empty list and more than 100 texts are refused; otherwise one entry per text in order (non-strings and texts over 10000 characters recorded without conversion), `successful + failed == total`, and the mode echoed |
| TransliterateRoute.AllSucceed | routes/transliterate.js:137-195 | with a known mode every text succeeds exactly when every item is a string of at most 10000 characters |
| TransliterateRoute.UnknownModeFailsAll | routes/transliterate.js:158-192 | an unknown mode does not refuse the batch, but every string entry of at most 10000 characters is a failure carrying its first 100 characters, and nothing succeeds |
| TransliterateRoute.BatchAgreesWithSingle | routes/transliterate.js:137-184 | a text the single route converts gets the same conversion in a batch; the batch also converts the empty text, which the single route refuses |
| SpellCheckUtils.Min3 | utils/spellCheck.js:20-24 | the smallest of the three costs: no larger than any and equal to one of them |
| SpellCheckUtils.LevenshteinDistance | utils/spellCheck.js:2-30 | the matrix fill returns the unit-cost edit distance of the two strings |
| SpellCheckUtils.DistSymmetric | utils/spellCheck.js:2-30 | the distance does not depend on the argument order |
| SpellCheckUtils.DistEmpty | utils/spellCheck.js:6-12 | the distance to the empty string is the other string's length |
| SpellCheckUtils.DistZero | utils/spellCheck.js:2-30 | the distance is zero exactly when the strings are equal |
| SpellCheckUtils.DistBounds | utils/spellCheck.js:2-30 | the distance lies between the difference of the lengths and the longer length |
| SpellCheckUtils.TokenizeText | utils/spellCheck.js:33-51 | one token per maximal run of word characters, in order, non-overlapping; each token's span holds its original word and `word` is its lower-case form |
| SpellCheckUtils.LocateToken | utils/spellCheck.js:39-48 | searching for the next matched word from the end of the previous one finds that word's own run |
| SpellCheckUtils.NormalizeWord | utils/spellCheck.js:54-59 | the normalised word is lower case, holds no white space and only characters of the word class |
| SpellCheckUtils.NormalizeWordIdempotent | utils/spellCheck.js:54-59 | normalising twice gives the same word as normalising once |
| SpellCheckUtils.Confidence | utils/spellCheck.js:84 | the confidence `max(0, 100 - 25 d)` is at most 100 |
| SpellCheckUtils.ConfidenceMonotone | utils/spellCheck.js:84 | a larger distance never gives a higher confidence |
| SpellCheckUtils.FindSimilarWords | utils/spellCheck.js:62-93 | the loop's result is the list's candidates, stably sorted by distance and cut to `maxResults` |
| SpellCheckUtils.SimilarCandidatesSound | utils/spellCheck.js:71-87 | every candidate is a list word that differs from the target once normalised, at distance between 1 and `maxDistance`, with that distance's confidence |
| SpellCheckUtils.SimilarCandidatesComplete | utils/spellCheck.js:71-87 | every list word that differs from the target and is within `maxDistance` is a candidate |
| SpellCheckUtils.SimilarWordsSound | utils/spellCheck.js:62-93 | at most `maxResults` suggestions, each a candidate of the list, with confidence at most 75 |
| SpellCheckUtils.SimilarWordsSorted | utils/spellCheck.js:90-92 | the suggestions come by ascending distance |
| SpellCheckUtils.SimilarWordsProperties | utils/spellCheck.js:62-93 | at most `maxResults` suggestions from the list, never the target itself, within `maxDistance`, ascending by distance and descending by confidence |
| SpellCheckUtils.SimilarWordsComplete | utils/spellCheck.js:62-93 | when fewer than `maxResults` come back, every list word within `maxDistance` other than the target is among them |
| SpellCheckUtils.InDictionary | utils/spellCheck.js:101-104 | true exactly when some dictionary word normalises to the word's normal form |
| SpellCheckUtils.InDictionaryAnyCase | utils/spellCheck.js:101-104 | a word is found in the dictionary in any letter case |
| SpellCheckUtils.CheckOneToken | utils/spellCheck.js:100-127 | one token's result: correct with no suggestions when found, otherwise incorrect with the default-limit suggestions |
| SpellCheckUtils.CheckTextSpelling | utils/spellCheck.js:96-130 | one result per token of the text, in order |
| SpellCheckUtils.CheckTokenProperties | utils/spellCheck.js:96-130 | each result has its token's span and text, `isCorrect` exactly when a dictionary word normalises alike, no suggestions when correct and at most five when not |
| SpellCheckUtils.GetTextStatistics | utils/spellCheck.js:165-178 | correct and incorrect words add up to the total, which is the number of results; the text length is the text's |
| SpellCheckUtils.CountCorrectSplit | utils/spellCheck.js:167-168 | all results are correct exactly when the count is the total, and none is exactly when it is zero |
| SpellCheckUtils.SimilarScore | utils/spellCheck.js:155 | the score `max(0, 100 - 20 d)` is at most 100 |
| SpellCheckUtils.FuzzySearch | utils/spellCheck.js:133-162 | the loop's result is the dictionary's matches, stably sorted by descending score and cut to `limit` |
| SpellCheckUtils.FuzzyCandidatesSound | utils/spellCheck.js:137-159 | every match is a dictionary word, "exact" with score 100 exactly when its normal form contains the query, otherwise "similar" at distance 1 to 3 with score at least 40 |
| SpellCheckUtils.FuzzySearchProperties | utils/spellCheck.js:133-162 | at most `limit` results from the dictionary, exact exactly for substring matches, similar ones within distance 3 scored `100 - 20 d`, by descending score |
| SpellCheckUtils.FuzzyEmptyQuery | utils/spellCheck.js:142-147 | an empty query matches every word exactly |
| SpellCheckRoute.NormalizeWordShape | routes/spellCheck.js:14-17 | a key has no upper-case letter and no white space at either end, and is empty exactly for an empty or all-white-space word |
| SpellCheckRoute.NormalizeWordIdempotent | routes/spellCheck.js:14-17 | normalising a key again changes nothing |
| SpellCheckRoute.NormalizeWordVariant | routes/spellCheck.js:14-17 | any case variant of a word, padded with white space, has the word's key |
| SpellCheckRoute.DetectScriptCounts | routes/spellCheck.js:20-27 | "cyrillic" exactly when the Cyrillic-class count is larger, "latin" exactly when the Latin-class count is, "mixed" exactly on a tie; never "unknown" |
| SpellCheckRoute.DetectorsDisagree | routes/spellCheck.js:21-22 | this detector counts `ҳ` as Cyrillic and `ı` as Latin, where the transliteration utilities' detector counts neither |
| SpellCheckRoute.InfoOf | routes/spellCheck.js:66-74 | the map value keeps the stored word and its detected script; an empty type becomes the script's name and a zero or missing trust becomes 100, other values are kept |
| SpellCheckRoute.BuildMap | routes/spellCheck.js:57-81 | the map built by clearing and setting one entry per stored word is well formed |
| SpellCheckRoute.BuildMapKeys | routes/spellCheck.js:62-81 | the map's keys are exactly the non-empty keys of the stored words |
| SpellCheckRoute.BuildMapLastWins | routes/spellCheck.js:62-81 | the value under a key is that of the last stored word with that key |
| SpellCheckRoute.LowestTrustWins | routes/spellCheck.js:48-81 | with the words loaded by descending trust, the value under a key comes from a word with that key whose trust is no higher than any earlier one's |
| SpellCheckRoute.HigherTrustLoses | routes/spellCheck.js:48-81 | of two words with the same key, the later one with the lower trust is kept |
| SpellCheckRoute.DictionaryCache.constructor | routes/spellCheck.js:8-10 | the cache starts empty: no words, an empty map, no timestamp |
| SpellCheckRoute.DictionaryCache.RebuildMap | routes/spellCheck.js:57-81 | the rebuild loop leaves the map built from the loaded words and touches neither the words nor the timestamp |
| SpellCheckRoute.DictionaryCache.GetDictionary | routes/spellCheck.js:30-108 | a fresh cache (not forced, loaded, under 30 minutes old) is returned unchanged; a successful load replaces words, map and timestamp; a failed load returns the old data if the map is non-empty and an error otherwise, changing nothing; the map always matches the cached words |
| SpellCheckRoute.UppercaseCyrillicSplits | routes/spellCheck.js:121 | without the `i` flag, upper-case Cyrillic letters such as `Қ`, `А` and `Ә` are not word characters while their lower-case forms are |
| SpellCheckRoute.AnalyzeText | routes/spellCheck.js:111-163 | the `exec` loop returns nothing for an empty text or an empty map, and otherwise one entry per match, in order |
| SpellCheckRoute.AnalyzeStep | routes/spellCheck.js:125-155 | one turn of the loop pushes the entry of the next match and moves on past it |
| SpellCheckRoute.AnalyzeMatch | routes/spellCheck.js:126-154 | the entry of one match: the matched word, its key, its span, whether the key is in the map, the word's script and the map's value |
| SpellCheckRoute.AnalyzeSpan | routes/spellCheck.js:125-155 | each entry's span is a non-empty piece of the text holding exactly its word, all word characters, after the previous entry's span |
| SpellCheckRoute.AnalyzeVerdict | routes/spellCheck.js:127-153 | a word is correct exactly when its lower-cased, trimmed form is a key of the map, and then it carries that key's value |
| SpellCheckRoute.AnalyzeCovers | routes/spellCheck.js:121-155 | every word character of the text lies in some entry when the map is non-empty |
| SpellCheckRoute.CandidatesSound | routes/spellCheck.js:176-194 | every collected suggestion is that of a map entry with the target's script or "mixed", whose key holds the target's first three characters and is not the target |
| SpellCheckRoute.CandidatesComplete | routes/spellCheck.js:176-194 | every such entry among the keys scanned gives a suggestion |
| SpellCheckRoute.SuggestionsConfidence | routes/spellCheck.js:186-191 | every suggestion has confidence 85, above the auto-corrector's threshold of 75, and type "substring" |
| SpellCheckRoute.SuggestionsSound | routes/spellCheck.js:166-198 | at most `limit` suggestions, each from an entry offered for the target |
| SpellCheckRoute.SuggestionsComplete | routes/spellCheck.js:166-198 | when fewer than `limit` come back, every offered entry is among them |
| SpellCheckRoute.FindSuggestions | routes/spellCheck.js:166-198 | the result is the first `limit` offered entries in the map's order |
| SpellCheckRoute.CollectSuggestions | routes/spellCheck.js:176-194 | the loop with its early `break` collects exactly the first `limit` offered entries in the map's order |
| SpellCheckRoute.ErrorCount | routes/spellCheck.js:234-236 | the error count is at most the number of words |
| SpellCheckRoute.ErrorCountBounds | routes/spellCheck.js:234-236 | the count is zero exactly when every word is correct, and the number of words exactly when none is |
| SpellCheckRoute.CheckText | routes/spellCheck.js:201-252 | a missing or empty text is a 400 and an empty map a 503; otherwise one entry per analysed word with suggestions (limit 3) for incorrect words, correct and incorrect counts adding up to the total, and the map's size |
| SpellCheckRoute.CheckWord | routes/spellCheck.js:227-232 | a correct word gets no suggestions, an incorrect one the first three offered |
| SpellCheckRoute.CheckedWordSuggestions | routes/spellCheck.js:227-232 | a checked word has no suggestions when correct and at most three otherwise, each offered for it with confidence 85 |
| SpellCheckRoute.RewriteLength | routes/spellCheck.js:297-302 | the rewritten text's length is the original's plus the edits' total length change |
| SpellCheckRoute.EditsFitOrdered | routes/spellCheck.js:285-302 | every planned edit lies in the text and ends before the next begins |
| SpellCheckRoute.ReplacedWindow | routes/spellCheck.js:292-299 | just before an edit, the window shifted by `offset` still holds the original word, and splicing the suggestion there gives the rewrite with that edit |
| SpellCheckRoute.RewritePrefix | routes/spellCheck.js:285-302 | rewriting the text up to a gap with the edits before it gives a prefix of the whole rewrite |
| SpellCheckRoute.RewriteKeepsGaps | routes/spellCheck.js:285-302 | text between replaced words is carried over, moved by the length change of the edits before it |
| SpellCheckRoute.IncorrectWordReplaced | routes/spellCheck.js:287-299 | every word outside the dictionary that has a suggestion is replaced by its first suggestion in its own span |
| SpellCheckRoute.PlannedEditsCorrectOnly | routes/spellCheck.js:287-299 | every edit made replaces a word outside the dictionary by its first suggestion |
| SpellCheckRoute.CorrectionsOf | routes/spellCheck.js:305-309 | the report has one entry per edit |
| SpellCheckRoute.CorrectionsSnoc | routes/spellCheck.js:305-309 | an edit appends the replaced word, its replacement and its shifted start to the report |
| SpellCheckRoute.EditsOfFit | routes/spellCheck.js:285-302 | the edits planned for the words in order fit in the text, in order |
| SpellCheckRoute.PlannedEditsFit | routes/spellCheck.js:282-316 | the planned edits of a whole text fit in it, in order |
| SpellCheckRoute.ApplySuggestion | routes/spellCheck.js:289-314 | with a suggestion above 75, the running text, offset, count and report advance by the word's edit; otherwise nothing changes |
| SpellCheckRoute.ReplaceWord | routes/spellCheck.js:292-309 | the splice at the shifted window gives the rewrite with one more edit, `offset` grows by the length change, and the report gains the entry |
| SpellCheckRoute.CorrectWord | routes/spellCheck.js:288-315 | only a word outside the dictionary asks for one suggestion, and the running state advances by that word's planned edit |
| SpellCheckRoute.CorrectAt | routes/spellCheck.js:287-316 | the k-th turn of the loop keeps the running text equal to the rewrite by the edits planned for the first k+1 words |
| SpellCheckRoute.WordAt | routes/spellCheck.js:287-316 | the k-th word lies after the words before it, holds its own text, and extends the planned edits by its own |
| SpellCheckRoute.AutoCorrectRoute | routes/spellCheck.js:263-325 | a missing, empty or non-string text is refused with "Matn kiritilishi shart" and nothing else is; any other text is answered with itself, its rewrite by every planned edit, and one correction per edit |
| SpellCheckRoute.AutoCorrect | routes/spellCheck.js:277-316 | the corrected text is the original rewritten by every planned edit, its length changes by their total, and the report has one correction per edit |
| Server.DetectScriptCounts | server.js:48-57 | "unknown" exactly when the text has no letter of either class; otherwise the strictly larger count wins and a tie is "mixed" |
| Server.DetectScriptAgreesWithRoute | server.js:48-57 | the server's detector agrees with the spell-check route's on every text with a letter, and says "unknown" where the route says "mixed" |
| Server.NoLettersUnknown | server.js:53 | digits and punctuation alone are "unknown" |
| Server.DotlessILatin | server.js:50 | the dotless `ı` counts as a Latin letter |
| Server.GuardText | server.js:214-219 | the text goes on exactly when it is a string with a non-space character; a falsy or all-space text is a 400; a truthy non-string fails with a server error |
| Server.PlanTransliteration | server.js:586-600 | a text already in the requested alphabet comes back unchanged with its detected alphabet; any other goes to the language model, towards Latin exactly when "latin" was asked for |
| Server.UnchangedForOddTargets | server.js:586-598 | a text without letters asked for "unknown", and a tied text asked for "mixed", also come back unchanged |
| Server.AutoTarget | server.js:660-661 | the automatic target is Latin or Cyrillic |
| Server.AutoTargetDiffers | server.js:660-664 | the target is Latin exactly when Cyrillic letters are strictly more, it is never the detected alphabet, and so the text always goes to the model |
| Server.SplitWordsShape | server.js:314-315 | a text with a non-space character splits into at least one word, each non-empty and free of white space |
| Server.Clean | server.js:324-325 | a cleaned word holds none of the stripped punctuation characters |
| Server.CompareWord | server.js:321-356 | one turn of the alignment: word i's result and, when it is wrong, its single error entry with similarity 95 |
| Server.AlignWords | server.js:314-362 | one result per word of the trimmed text, each comparing word i with the model's word i; the errors are those of the incorrect results, and the counts are their numbers |
| Server.ErrorOfIncorrect | server.js:344-354 | a wrong word's error entry holds its one replacement at similarity 95 |
| Server.ErrorsOfSnoc | server.js:344-356 | a result adds an error entry exactly when it is incorrect |
| Server.ErrorsPartition | server.js:359-361 | errors plus correct results make up all results, and there are no errors exactly when every word is correct |
| Server.WordPositions | server.js:327-329 | word i starts after the lengths of the words before it plus one space each, and its span holds it in the words rejoined by single spaces |
| Server.MissingCorrectionIsCorrect | server.js:322 | a word the model's text lacks is compared with itself, so it is correct with no suggestion |
| Server.SplitTwoSpaces | server.js:314 | "a  b" splits into "a" and "b" |
| Server.PositionsIgnoreRepeatedSpaces | server.js:327-329 | positions are taken in the single-spaced text: in "a  b" the second word is reported at 2, a space of the text as sent |
| Server.VerdictMeaning | server.js:324-340 | the verdict ignores case and the stripped punctuation; an incorrect word has exactly one suggestion, differing in more than case; the span is as long as the word as sent |
| Server.BatchGuard | server.js:1147-1160 | the batch goes on exactly with 1 to 10 texts; a missing, non-array or empty `texts` is refused as required, more than 10 as too many |
| UserModel.FreshUsage | models/User.js:114-120 | the reset value has every counter at zero and `lastReset` at the current time |
| UserModel.Refreshed | models/User.js:110-121 | on the day of the last reset the counters are left as they are; on any other day every counter is zero and `lastReset` becomes now; either way the last reset falls on today |
| UserModel.Incremented | models/User.js:149 | the action's counter (missing counts as 0) goes up by exactly one; every other counter and `lastReset` are unchanged |
| UserModel.RefreshedIdempotent | models/User.js:113-121 | a second refresh at the same time changes nothing: calls on the same day never reset |
| UserModel.CountsToday | models/User.js:134-150 | after n uses recorded on a new day, the action's counter is n and the reset happened that day |
| UserModel.ThreeUsesPerDay | models/User.js:108-131 | a user without an active "pro" plan who used an action n times today may use it again exactly when n < 3 |
| UserModel.CheckResetsOnNewDay | models/User.js:108-121 | the limit check is a query that writes: on a new day it replaces the stored counters |
| UserModel.SignupSatisfiesSchema | models/User.js:7-37 | a sign-up that passes request validation gives names of 1..50 characters, a phone matching `^\+998\d{9}$`, a password of at least 6 characters and the plan "start" |
| UserModel.User.constructor | models/User.js:5-64 | a new user has trimmed names, plan "start", no expiry, zero counters reset now, and is active |
| UserModel.User.CheckDailyLimit | models/User.js:108-131 | the stored counters become the refreshed ones, and the answer is true for a "pro" plan expiring after now, otherwise exactly when the action's counter is below 3 |
| UserModel.User.IncrementUsage | models/User.js:134-150 | the stored counters become the refreshed ones with the action's counter raised by one |
| AppErrors.MakeAppError | utils/appError.js:3-8 | the message and code are kept, the error is operational, and `status` is "fail" exactly when the code's decimal rendering starts with "4", otherwise "error" |
| AppErrors.StatusByLeadingDigit | utils/appError.js:7 | a non-negative code fails exactly when its most significant digit is 4; a negative code is always "error" |
| AppErrors.ClientErrorsFail | utils/appError.js:7 | every code in 400..499 gives "fail" |
| AppErrors.ServerErrorsAreErrors | utils/appError.js:7 | every code in 500..599 (500 and 503 among them) gives "error" |
| AppErrors.FailBeyondClientRange | utils/appError.js:7 | codes outside 400..499 can fail too: 4 and 4000 give "fail" |
| WordModel.WordDoc.constructor | models/Word.js:5-43 | a new document holds the trimmed word and the schema defaults: checked, owner "System", trust 100, frequency 0, category "other"; it is valid (schema constraints met, word trimmed) exactly when the trimmed word is not empty and the type is one of the three |
| WordModel.WordDoc.PreSave | models/Word.js:56-59 | on a document that passed validation, the hook replaces the word by its lower-cased, trimmed form, changes nothing else, and the document stays valid |
| WordModel.SavedKey | models/Word.js:56-59 | the setter's trim followed by the hook's lower-case-and-trim is one lower-case-and-trim |
| WordModel.SavedKeyEmpty | models/Word.js:56-59 | the saved key is empty exactly when the word is white space only |
| WordModel.NewWordValid | models/Word.js:5-43 | a new document with a visible character and a known type meets the schema's constraints before and after the hook |
| WordModel.FindByWordQuery | models/Word.js:62-65 | the type joins the query exactly when a non-empty type is given |
| WordModel.FindOne | models/Word.js:65 | the lookup finds nothing exactly when no document matches, otherwise the first matching document |
| WordModel.VariantFindsSavedWord | models/Word.js:56-65 | any letter-case variant of a saved word, with white space around it, finds a document saved under that word's key |
| WordModel.TypeFilter | models/Word.js:63-64 | a typed lookup only finds documents of that type, and only when the untyped lookup finds one; an empty type is ignored |
| TextHistoryModel.Preview | models/TextHistory.js:148-152 | a text of at most 100 characters is its own preview; a longer one gives 103 characters ending in "..." |
| TextHistoryModel.PreviewProperties | models/TextHistory.js:148-152 | a long text's preview starts with the text's first 100 characters, and taking the preview twice changes nothing |
| TextHistoryModel.PreSave | models/TextHistory.js:237-243 | the hook fails only with "Matn juda uzun" |
| TextHistoryModel.PreSaveAgreesWithSchema | models/TextHistory.js:237-243 | the hook lets a text through exactly when it has at most 10000 characters, the schema's maxlength |
| TextHistoryModel.ValidRecordSaves | models/TextHistory.js:13-73 | a record whose action and input meet the schema (required text of at most 10000 characters, known action, language, script, style, level 1..5 and song style) always passes the pre-save hook |
| TextHistoryModel.SanitizedTextSaves | models/TextHistory.js:237-243 | the output of `sanitizeText` always passes the hook |
| TextHistoryModel.GetUserHistory | models/TextHistory.js:155-174 | the query is for the given user and filters by action exactly when a non-empty action is given |
| TextHistoryModel.DefaultHistoryQuery | models/TextHistory.js:156-172 | with no options the query sorts by createdAt descending, skips 0 and takes 50 |
| TextHistoryModel.ConsecutivePages | models/TextHistory.js:167 | page p+1 starts exactly `limit` records after page p |
| TextHistoryModel.GetDuration | models/TextHistory.js:228-233 | a result is given exactly for a missing time or one under 1000 ms |
| TextHistoryModel.DurationReadsBack | models/TextHistory.js:229-232 | a non-zero time under a second renders as its decimal value followed by "ms", which `parseInt` reads back as the same number |
| Validators.ValidatePhoneNumber | utils/validators.js:2-5 | true exactly for "+998" followed by nine ASCII digits, thirteen characters in all |
| Validators.ValidatePassword | utils/validators.js:7-9 | true exactly for a given password of at least six characters |
| Validators.ValidateName | utils/validators.js:11-13 | true exactly for a given name whose trimmed length is 2..50 (so never for a missing or empty one) |
| Validators.SanitizeTextShape | utils/validators.js:15-18 | the result is a prefix of the trimmed text of at most 10000 characters, is the whole trimmed text exactly when that fits, and does not start with white space |
| Validators.SanitizeTextKeepsClean | utils/validators.js:15-18 | a text already trimmed and at most 10000 characters long comes back unchanged |
| Validators.IsValidObjectId | utils/validators.js:20-22 | true exactly for 24 hexadecimal digits of either case |
| Validation.IsLength | middleware/validation.js:111 | the `isLength` count never exceeds the length |
| Validation.IsLengthPlain | middleware/validation.js:111 | on text without the variation selectors U+FE0E and U+FE0F, the `isLength` count is the length |
| Validation.SelectorAfterPlain | middleware/validation.js:111 | a variation selector after such text adds nothing to the `isLength` count |
| Validation.SelectorNotCounted | middleware/validation.js:108-112 | nine letters followed by U+FE0F are ten characters but are refused as a document text, which needs 10 |
| Validation.NameLength | middleware/validation.js:32-47 | an accepted name holds no variation selector, so its `isLength` count is its length |
| Validation.Check | middleware/validation.js:17-46 | a validator contributes no message exactly when it passes |
| Validation.HasCharAt | middleware/validation.js:27 | the recursive character search agrees with "some position holds a character of the class" |
| Validation.FirstLine | middleware/validation.js:27 | the part `.*` can reach from the start is the longest prefix free of line terminators |
| Validation.FirstLineEndsAt | middleware/validation.js:27 | the first line ends at the first line terminator, or at the end of the text |
| Validation.AllNameCharsAt | middleware/validation.js:41 | `^[class]+$` holds exactly for a non-empty text made only of the class's characters |
| Validation.NameMessagesEmpty | middleware/validation.js:32-47 | the name chain passes exactly when the trimmed name has 2..50 characters as `isLength` counts them, all letters of the class or white space |
| Validation.FirstLineHas | middleware/validation.js:27 | a look-ahead `(?=.*[class])` from position 0 succeeds exactly when a character of the class comes before any line break |
| Validation.PasswordAccepts | middleware/validation.js:23-29 | the password chain passes exactly when the password has at least six characters as `isLength` counts them and an ASCII letter and a digit before any line break |
| Validation.SignupAccepts | middleware/validation.js:50-62 | sign-up passes exactly when both names are accepted, the phone has the "+998" form, the password chain passes and the confirmation equals the password |
| Validation.SignupStricterThanValidators | middleware/validation.js:50-62 | a sign-up the middleware accepts also passes `validateName`, `validatePhoneNumber` and `validatePassword` |
| Validation.PasswordNeedsDigit | middleware/validation.js:27 | "abcdef" passes `validatePassword` but fails the middleware, which also wants a digit |
| Validation.PasswordDigitAfterLineBreak | middleware/validation.js:27 | a digit after a line break is not seen: "abcdef\n123" fails the pattern |
| Validation.CapitalQaRejected | middleware/validation.js:41 | the class has no `i` flag, so a name starting with upper-case Қ is refused |
| Validation.LoginAccepts | middleware/validation.js:65-69 | login passes exactly when the phone has the "+998" form and a non-empty password is sent |
| Validation.UpdateUserAccepts | middleware/validation.js:72-88 | an update passes exactly when each name that is sent is accepted; missing names are not checked |
| Validation.TextAccepts | middleware/validation.js:91-105 | the text chain passes exactly when the trimmed text has 1..10000 characters (as `isLength` counts them), a sent language is uz, kaa or ru, and a sent script is latin or cyrillic |
| Validation.DocumentAccepts | middleware/validation.js:108-129 | the document chain passes exactly when the trimmed text has 10..10000 characters (as `isLength` counts them), a sent style is one of the six and a sent level is in 1..5 |
| Validation.SongAccepts | middleware/validation.js:132-146 | the song chain passes exactly when the trimmed topic has 3..200 characters (as `isLength` counts them), a sent style is one of the five and sent conditions have at most 500 such characters |
| Validation.TransliterationAccepts | middleware/validation.js:149-159 | the transliteration chain passes exactly when the trimmed text has 1..10000 characters (as `isLength` counts them) and a sent target script is latin or cyrillic |
| Validation.HandleValidationErrors | middleware/validation.js:6-13 | the request passes exactly when there is no failure; otherwise the error has code 400 and status "fail" |
| Validation.HandledErrorNamesEveryFailure | middleware/validation.js:9-10 | every failure message occurs in the joined error message |
| HistoryController.MinLimit | controllers/historyController.js:25 | `Math.min(n, 100)` keeps NaN as NaN, never exceeds 100, and is either the limit asked for or 100 |
| HistoryController.HistoryOptionsOf | controllers/historyController.js:14-28 | the options always carry a page, a limit of at most 100 (when it is a number) and an order, which is descending exactly when the order is absent or "desc" |
| HistoryController.HistoryDefaults | controllers/historyController.js:14-31 | without parameters the store is asked for the first 20 records, newest first |
| HistoryController.HistoryHasNext | controllers/historyController.js:38-48 | for any page from 1 on and any positive limit, `hasNext` holds exactly when records remain after the page shown (page × capped limit < total), and the reported limit is the one asked for, capped at 100 |
| HistoryController.SearchGuard | controllers/historyController.js:211-218 | a search goes ahead exactly when a query is given whose trimmed length is at least 2; otherwise a 400 "fail" error |
| HistoryController.SearchHasNextAgrees | controllers/historyController.js:240-261 | the search's `hasNext`, computed from the records returned, agrees with `page < totalPages` |
| HistoryController.DoubleQuotes | controllers/historyController.js:290-297 | doubling the quotes never shortens the text |
| HistoryController.ReadDoubledQuote | controllers/historyController.js:290-297 | a doubled quote inside a quoted field reads back as one quote |
| HistoryController.ReadPlainChar | controllers/historyController.js:290-297 | any other character inside a quoted field reads back as itself |
| HistoryController.ReadEscaped | controllers/historyController.js:290-297 | the escaped text followed by the closing quote reads back as the text, leaving the rest of the row |
| HistoryController.QuoteRoundTrip | controllers/historyController.js:290-297 | a quoted field (section 2, rule 7 of RFC 4180) reads back as the original text, whatever it holds, and leaves the rest of the row |
| HistoryController.OutputText | controllers/historyController.js:291-297 | the output column is "" exactly when every candidate is missing or empty, otherwise the first non-empty one of corrected, improved, converted, song |
| HistoryController.CsvRows | controllers/historyController.js:286-301 | one row per record, in record order |
| HistoryController.CsvTextHasEveryRow | controllers/historyController.js:285-302 | the CSV text starts with the header and holds each row right after the rows before it and their line breaks |
| HistoryController.CsvExportHasEveryRow | controllers/historyController.js:283-302 | the export holds each record's row at its place in record order |
| HistoryController.CsvRowReadsBack | controllers/historyController.js:288-300 | after the date and action, a reader gets the input text back, then the output text, then the "Ha"/"Yo'q" label |
| HistoryController.ActionLabelsDistinct | controllers/historyController.js:126-138 | each of the five known actions has its own ending, never "barcha" and never the raw action name |
| HistoryController.UnknownActionLabel | controllers/historyController.js:126-138 | an action outside the schema is reported as given |
| Pagination.ParseIntOfString | controllers/historyController.js:24-25 | `parseInt` reads every integer's decimal rendering back as that integer |
| Pagination.ParseIntOfRendering | routes/words.js:8-9 | `parseInt` reads an integer's rendering back whatever follows it, unless the text goes on with a digit or with the "x" of a hexadecimal prefix |
| Pagination.ParseSignedDigits | routes/words.js:8-9 | a sign, digits without a leading zero and a text that does not continue them parse as the digits' value, negated after "-" |
| Pagination.ParseDecimal | routes/words.js:8-9 | a run of decimal digits at the start, after an optional minus, parses as its value |
| Pagination.ParseIntStopsAtNonDigit | routes/words.js:8-9 | trailing text is ignored: "12abc" parses as 12 |
| Pagination.ParseIntNoDigits | routes/words.js:8-9 | a text without digits is NaN |
| Pagination.ParseIntSigned | routes/words.js:8-9 | leading white space and a sign are read: " -7" parses as -7 |
| Pagination.ParseIntHex | routes/words.js:8-9 | a "0x" prefix switches to base 16: "0x" followed by hexadecimal digits and any text not starting with one parses as the digits' base-16 value |
| Pagination.CeilDivLeast | routes/words.js:45 | with a positive limit, `Math.ceil(total / limit)` is the least number of pages of `limit` items that holds `total` items |
| Pagination.HasNextMeansMoreItems | routes/words.js:45-55 | for a page from 1 on, `page < totalPages` holds exactly when items remain after this page |
| Pagination.EachItemOnOnePage | routes/words.js:34 | with `skip = (page - 1) * limit`, the item at position k is on exactly one page, page k / limit + 1 |
| Pagination.ZeroLimit | controllers/historyController.js:38-48 | a zero limit makes the page count Infinity, so `hasNext` holds on every page, or NaN when there are no items |
| WordsRoute.IntOr | routes/words.js:8-9 | `parseInt(param) \|\| fallback` is the parsed number when it is a non-zero number, and the fallback for an absent parameter, NaN or 0 |
| WordsRoute.ReadListParams | routes/words.js:8-19 | the listing is refused with "Limit juda katta" exactly when the limit is over 1000; otherwise the page is `parseInt(page) \|\| 1` and the limit `parseInt(limit) \|\| 50`, both non-zero, `skip = (page - 1) * limit`, and the order is descending exactly for "desc" |
| WordsRoute.ListDefaults | routes/words.js:8-62 | without parameters the first 50 words are listed in ascending order, echoed as "asc" |
| WordsRoute.ZeroAndNaNFallBack | routes/words.js:8-9 | a page of "0" and a limit of "abc" fall back to 1 and 50 |
| WordsRoute.SortOrderEcho | routes/words.js:13-62 | the echoed order is "desc" exactly when "desc" was asked for |
| WordsRoute.ListFlags | routes/words.js:45-56 | `hasNext` holds exactly when words remain after this page, and `hasPrev` exactly when the page is not the first |
| WordsRoute.ReadSearchParams | routes/words.js:143-151 | a search is refused exactly when the query has fewer than two characters; otherwise the limit is `parseInt(limit) \|\| 20` |
| WordsRoute.SearchDoesNotTrim | routes/words.js:147 | the dictionary search does not trim: two spaces pass here, while the history search refuses them |
| WordsRoute.ReadRandomCount | routes/words.js:184-191 | a random draw is refused exactly when `parseInt(count) \|\| 10` is over 100, with "Juda ko'p so'z so'ralgan (maksimal 100)"; otherwise that number of words is drawn |
| WordsRoute.ValidationFor | routes/words.js:237-258 | an entry is valid exactly when the value is a string whose lower-cased, trimmed form is a saved word, and then it carries the type, trust score and category of the first document `findByWord` finds; a non-string value is invalid with "So'z string bo'lishi kerak", and a string has no error |
| WordsRoute.ValidCount | routes/words.js:261 | the number of valid entries never exceeds the number of entries |
| WordsRoute.ValidateWords | routes/words.js:218-272 | a non-array or empty list and more than 100 words are refused; otherwise one entry per value in order, and `valid + invalid == total` with `valid` the number of valid entries |
| WordsRoute.ValidCountBounds | routes/words.js:261-269 | all values are valid exactly when `valid == total`, and none exactly when `valid == 0` |
| WordsRoute.VariantIsValid | routes/words.js:246-250 | a saved word sent in another letter case or with white space around it is valid |
| WordsRoute.TxtExportReadsBack | routes/words.js:296-297 | splitting the txt export at line breaks gives the words back, when no word holds a line break |
| WordsRoute.CsvExportReadsBack | routes/words.js:306-313 | the csv export splits into the header and one line per word, each line into the word's four fields with "" for a missing category, and `parseInt` recovers the trust score |
| WordsRoute.CsvExportLines | routes/words.js:307-313 | the csv export splits at line breaks into the header and the words' lines |
| WordsRoute.CsvLineFields | routes/words.js:310 | a word's csv line splits at commas into its four fields |
| Text.ToLower | routes/spellCheck.js:16 | `toLowerCase` keeps the length and lower-cases each character on its own |
| Text.ToLowerIsLowerCase | routes/spellCheck.js:16 | a lower-cased string is lower case, so lower-casing it again changes nothing |
| Text.Trim | routes/spellCheck.js:16 | `trim` returns the slice of the string without leading and trailing white space, keeping every other character |
| Text.TrimEmpty | server.js:214 | the trim is empty exactly when every character is white space |
| Text.TrimIdempotent | routes/spellCheck.js:16 | trimming twice is trimming once |
| Text.TrimPadded | routes/spellCheck.js:16 | padding with white space on either side does not change the trim |
| Text.ToLowerTrimCommute | models/Word.js:56-59 | lower-casing and trimming commute |
| Text.LowerTrimShape | routes/spellCheck.js:16 | a `toLowerCase().trim()` key is lower case with no white space at either end |
| Text.LowerTrimIdempotent | routes/spellCheck.js:16 | taking the key of a key changes nothing |
| Text.LowerTrimVariant | models/Word.js:62-66 | a case variant of a word padded with white space has the word's key |
| Text.IndexOf | utils/spellCheck.js:40 | `indexOf` from a position returns the first occurrence at or after it, or -1 when there is none |
| Text.ContainsOccurs | routes/spellCheck.js:183 | `includes` holds exactly when the piece occurs somewhere |
| Text.Prefix | routes/spellCheck.js:183 | `slice(0, n)` is the first `n` characters, or the whole string when shorter |
| Text.KeepOnly | utils/spellCheck.js:58 | removing the characters outside a class leaves only characters of the class, all taken from the string |
| Text.KeepOnlyAll | utils/spellCheck.js:58 | a string wholly in the class is left as it is |
| Text.JoinLength | server.js:327 | a join is as long as its parts plus one separator between each two |
| Text.JoinContainsPart | server.js:327-329 | each part occurs in the join right after the join of the parts before it and one separator |
| Text.SplitJoin | routes/words.js:297 | splitting a join at its one-character separator gives the parts back when no part holds the separator |
| Text.NatToString | routes/words.js:307-313 | the decimal rendering of a non-negative integer is one or more digits |
| Runs.RunFacts | routes/spellCheck.js:121-125 | each match of `/[class]+/g` is a non-empty, maximal run of class characters inside the text, after the previous match, with no class character before it since the previous match |
| Runs.RunContaining | routes/spellCheck.js:121-125 | every class character lies inside some match |
| Runs.IndexOfFindsRun | utils/spellCheck.js:39-48 | searching for a match's characters from the end of the previous match finds that match itself |
| Runs.NextRunAdvance | routes/spellCheck.js:125 | one `exec` call returns the next of the remaining matches and leaves the rest to come after it |
| Runs.RunWordsShape | server.js:314 | every match's characters are non-empty and in the class, and a text starting with a class character has a match |
| Scripts.Count | routes/spellCheck.js:21-22 | the count of class characters is at most the length, and zero exactly when no character is in the class |
| Scripts.CountAppend | routes/spellCheck.js:21-22 | the count over two joined texts is the sum of their counts |
| OrderedMaps.OrderedMap.Set | routes/spellCheck.js:69-74 | `Map.set` gives the key the new value; a present key keeps its place in the order and a new key goes last |
| OrderedMaps.Empty | routes/spellCheck.js:9-57 | a new or cleared map is well formed and has size 0 |
| StableSort.Take | utils/spellCheck.js:92 | `slice(0, n)` keeps the first `n` elements, or all of them when there are fewer |
| StableSort.SortByPermutes | utils/spellCheck.js:90-91 | the sort returns a permutation of its input |
| StableSort.SortBySorted | utils/spellCheck.js:90-91 | the sorted result is in ascending order of the key |
| StableSort.SortByStable | utils/spellCheck.js:161 | the sort is stable: elements with equal keys keep their input order |
| StableSort.SortByMembers | utils/spellCheck.js:90-91 | the sort keeps exactly the elements of its input |

## Left out

- The language model calls of `server.js`: building the prompts, sending them, and cleaning and parsing the replies (server.js:59-205 and the bodies of the LLM routes). They call a third-party API. Only the corrected text enters the model, as a parameter of `Server.AlignWords`.
- The endpoints that only relay the language model: correct-text, improve-text, generate-song, word-suggestions, and the per-text work of the batch spell-check. They have no logic of their own beyond the guards that are modelled.
- MongoDB access (`find`, `countDocuments`, aggregations, `$regex` searches, `$sample`, the TTL index). These are foreign I/O.
  - The dictionary load is an injected `Option<seq<StoredWord>>`.
  - `findOne` is a search of a sequence.
  - The random-word sampling and the regular-expression search filters of the dictionary and history routes are not modelled. Only their parameter checks are.
- Express wiring, response shaping, logging, and the 500 replies to exceptions thrown by the store. The failed dictionary load is modelled; a thrown `getDictionary` in a route is not.
- The dictionary statistics route (`GET /api/check/stats`), the cache refresh route (which is `GetDictionary` with the refresh forced), and the fixed demonstration route `GET /api/convert/test`.
- The `/api/convert/detect` reply: its letter counts use the transliteration detector's classes, which are modelled, and its percentages are floating-point values.
- Floating-point values: accuracies and percentages formatted with `toFixed`, and the success rate.
- TextHistoryModel.GetDuration: returns `None` for times of a second or more, because those are rendered with a floating-point `toFixed(2)`.
- Locale and time-zone rendering of dates (`toLocaleDateString`, `toISOString`, and file names built from dates). Days are whole multiples of 86400000 ms in UTC.
- Query parameters sent as arrays, and `parseInt` yielding -0. Query parameters are single strings, and a parsed value is an integer or NaN.
- The `level` field of the document validator is checked as a number. Its string form, as express-validator would see it in a query string, is not modelled.
- The `trim()` sanitizer of the validation chains rewrites `req.body` in place. The chains are modelled on the trimmed values they check, not on that mutation.
- Mongoose's own enforcement of the schemas and the order in which hooks run. The schema constraints are predicates, and the hooks are modelled one by one.
- The export file name's `type || "all"` part, and the JSON export format.
- Password hashing and comparison (bcrypt), JWT and cookies, in controllers/authController.js. authController.js, middleware/rateLimiting.js, utils/security.js, utils/database.js, utils/response.js and utils/performance.js are not part of this model.
- The `Email` class of utils/appError.js (nodemailer) and the stack trace capture of the error class.
- Lengths and positions count Unicode scalar values, where JavaScript's `length`, `indexOf`, `slice`, `substring` and `match.index` count UTF-16 code units. The two agree on text in the Basic Multilingual Plane. Lone surrogates are not representable. On text with characters beyond the Basic Multilingual Plane, such as emoji, these differ from the service's:
  - the word `start`/`end`/`position` values of the spell-check routes and of the server's alignment;
  - the 100000- and 10000-character limits of the conversion routes;
  - the history record's `maxlength` of 10000 and its pre-save guard;
  - `sanitizeText`'s cut at 10000;
  - the 100-character `preview`;
  - `textLength`;
  - the length checks of the stand-alone validators.

  The request validation chains count with validator.js's `isLength`, which counts a surrogate pair once. There the model's count agrees with the service's, and the variation selectors U+FE0E and U+FE0F are left uncounted as `isLength` leaves them.
- Validation.UpdateUserAccepts: a field sent as JSON `null` is modelled as missing and skipped. express-validator's `optional()` skips only `undefined`, so the service checks a `null` name as "" and refuses it. The same holds for the other `optional()` fields of the text, document, song and transliteration chains.
- Dictionary entries are given to the spell-check utilities as their words; the utilities' acceptance of either a string or an object with a `word` field (utils/spellCheck.js:72, 102, 138) is not modelled.
- `toLowerCase` is modelled for ASCII, Latin-1, Latin Extended-A and Cyrillic. It does not model U+0130, which lower-cases to two characters. Case-insensitive classes do not model U+1C80..U+1C88.
- Concurrency: the dictionary cache is module state in a single-threaded event loop, modelled as one sequential object.
