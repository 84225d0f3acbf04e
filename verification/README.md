# Audio-Birdle: a verified model of the game logic and the data scripts

Audio-Birdle is a daily bird-song guessing game. The player hears a recording,
picks one of four birds and has four guesses; a practice mode serves an
endless sequence of rounds. Everything a player sees is decided by
deterministic code:

- a 31-multiplier string hash and two seeded shuffles;
- the daily answer, published as a salted hash in `daily.json`;
- the answer-option generators;
- two small game-state machines;
- the share-text serialiser.

Offline scripts prepare the data:

- the daily answer writer;
- the catalog builder;
- the taxonomy filter;
- a demo entry generator.

This project models that logic in Dafny and proves what the code promises.

Module layout (one module per source file, plus shared helpers):

| module | file | models |
|---|---|---|
| `Wrappers`, `Text`, `Seqs` | wrappers.dfy, text.dfy, seqs.dfy | Option, UTF-16 code units, ASCII case mapping, hex digits, generic sequence helpers |
| `HashUtils` | hash_utils.dfy | src/utils/HashUtils.jsx |
| `Birds` | birds.dfy | the bird record and the region catalog |
| `GameLogic` | game_logic.dfy | src/utils/GameLogic.jsx, src/utils/Constants.jsx |
| `PracticeGameLogic` | practice_game_logic.dfy | src/utils/PracticeGameLogic.jsx |
| `DailyBirdUtils` | daily_bird_utils.dfy | src/utils/DailyBirdUtils.jsx |
| `ShareUtils` | share_utils.dfy | src/utils/ShareUtils.jsx |
| `GenerateDaily` | generate_daily.dfy | scripts/GenerateDaily.js |
| `DailyBirdGenerator` | generate_daily_birds.dfy | scripts/generate-daily-birds.py |
| `CatalogGenerator` | game_data_generator.dfy | scripts/game-data-generator.py |
| `TaxonomyFilter` | ebird_filter_region.dfy | scripts/ebird-filter-region.py |

Representation choices:

- **JavaScript strings** are sequences of UTF-16 code units (`Text.JsString`, values below 0x10000), because the hash reads `charCodeAt`.
  - `Text.Utf16` encodes a Dafny string into code units; for text made of BMP characters it is one unit per character.
  - Python strings are Dafny strings (code points), because the Python hash reads `ord`.
- **JavaScript integers and wrap-around.** JavaScript numbers are integers here. The signed 32-bit wrap of `hash & hash` is ECMAScript's ToInt32 (section 7.1.6 of ECMA-262), written out with `% 0x1_0000_0000`. The `>>> 0` of the LCG is a reduction modulo 2^32.
- **Imperative code stays imperative.** Loops become methods whose `ensures` ties the result to a specification function. The properties are then proved about that function: `HashString`, `ShuffleArray`, `DeterministicShuffle`, `GeneratePracticeAnswerOptions`, `GenerateDailyEntries`, `RunHashLoop`, `GetRecentAnswers`, `GroupUrlsByCode`, `ProcessTaxonomyData`. The mutable state of the daily script's `main` (the history dictionary and the new daily list) is the class `DailyBirdGenerator.DailyRun`.
- **The daily script's hash rendering is a parameter** of `DailyRun.ProcessRegion` and `DailyRun.Run` (`DailyBirdGenerator.HashFormat`). `AsWritten` is `hash_bird_id` as it stands (scripts/generate-daily-birds.py:37-38); `Fixed` is the rendering the browser expects (see "## Findings"). Every property of the run holds for both.
- **Clock readings and timestamps** are parameters. Dates in the Python history are day numbers, i.e. the parsed `date` field.
- **`random.choice`** is a nondeterministic pick (`:|`) constrained to the candidate list.

## Model

| member | source | states |
|---|---|---|
| HashUtils.ToInt32 | src/utils/HashUtils.jsx:8 | `hash & hash` yields a signed 32-bit value congruent to its input modulo 2^32 |
| HashUtils.StepIsPolynomial | src/utils/HashUtils.jsx:7-8 | one step `((h << 5) - h) + c` then `& hash` equals signed32(31*h + c) for every int32 h |
| HashUtils.HashFold | src/utils/HashUtils.jsx:5-9 | the running value stays within [-2^31, 2^31) after every character |
| HashUtils.RunningHash | src/utils/HashUtils.jsx:4-9 | the loop's final value is a signed 32-bit integer |
| HashUtils.HashFoldAppend | src/utils/HashUtils.jsx:5-9 | the hash is a left fold: hashing s + t continues from the value reached after s |
| HashUtils.RunningHashSnoc | src/utils/HashUtils.jsx:5-9 | the value for s + [c] depends only on the value for s and on c, and is signed32(31*h + c) |
| HashUtils.Hash | src/utils/HashUtils.jsx:3-11 | the result is abs of the running value, lies in [0, 2^31], equals 2^31 exactly when the running value is -2^31, and is 0 for the empty string |
| HashUtils.HashString | src/utils/HashUtils.jsx:3-11 | the for loop computes Hash(str) |
| HashUtils.SeedHalvingFrom | src/utils/HashUtils.jsx:18-23 | the remaining swap rounds keep length and multiset |
| HashUtils.SeedHalvingStep | src/utils/HashUtils.jsx:19-22 | one round swaps position k-1 with seed % k and halves the seed |
| HashUtils.SeedHalvingShuffle | src/utils/HashUtils.jsx:13-26 | the daily shuffle is a permutation of its input |
| HashUtils.ShuffleArray | src/utils/HashUtils.jsx:13-26 | the while loop over a copied array returns SeedHalvingShuffle(input, seed), a permutation; the input is a value and is not changed |
| Seqs.Swap | src/utils/HashUtils.jsx:21 | the destructuring swap exchanges the two positions and leaves every other one alone |
| Seqs.SwapPermutes | src/utils/HashUtils.jsx:21 | a swap keeps the multiset |
| Seqs.SliceTo | src/utils/GameLogic.jsx:17 | `slice(0, end)` keeps a prefix of length end clamped to [0, n], with a negative end counting from the back |
| Birds.SwapKeepsDistinctIds | src/utils/HashUtils.jsx:21 | a swap keeps the ids distinct |
| GameLogic.GetDailyBird | src/utils/GameLogic.jsx:4-7 | the bird at hashString(region-date) mod n; no bird exactly when the catalog is empty |
| GameLogic.PutFirst | src/utils/GameLogic.jsx:21 | `options[0] = correctBird` replaces position 0, or extends an empty array to length 1 |
| GameLogic.GenerateAnswerOptions | src/utils/GameLogic.jsx:9-25 | the method that overwrites the slice in place returns AnswerOptions |
| GameLogic.AnswerOptionsProperties | src/utils/GameLogic.jsx:10-22 | [] without a catalog or a correct bird; otherwise the length is max(1, clamped optionsCount), the correct id is present, every option is a catalog bird or the correct bird, and distinct catalog ids give distinct option ids |
| GameLogic.SeedHalvingKeepsDistinctIds | src/utils/HashUtils.jsx:18-23 | the daily shuffle keeps ids distinct |
| GameLogic.OptionsFromCatalog | src/utils/GameLogic.jsx:12-17 | every sliced option comes from the region's catalog |
| GameLogic.OptionsDistinct | src/utils/GameLogic.jsx:12-17 | the slice of a distinct-id catalog has distinct ids |
| GameLogic.PutFirstMembers | src/utils/GameLogic.jsx:20-22 | after the overwrite the correct id is present, and nothing but the old options and the correct bird appears |
| GameLogic.PutFirstDistinct | src/utils/GameLogic.jsx:20-22 | overwriting a slice that lacks the correct id keeps ids distinct |
| GameLogic.CreateInitialGameState | src/utils/GameLogic.jsx:27-33 | a fresh game: no guesses, not completed, not won, four guesses allowed |
| GameLogic.ProcessGuess | src/utils/GameLogic.jsx:35-49 | a no-op on a finished or full game; otherwise appends one guess, sets won to its correctness and completed to won or full, and keeps date and limit |
| GameLogic.ProcessGuessKeepsValid | src/utils/GameLogic.jsx:35-49 | a guess preserves the game invariant ValidGame |
| GameLogic.PlayKeepsValid | src/utils/GameLogic.jsx:35-49 | any sequence of guesses preserves ValidGame and the limit |
| GameLogic.ReachableGamesValid | src/utils/GameLogic.jsx:27-49 | every state reachable from a fresh game has at most four guesses, and won implies completed with a correct last guess |
| GameLogic.WrongMovesCount | src/utils/GameLogic.jsx:35-49 | n wrong guesses on an unwon game add min(n, room) guesses, and complete it exactly when the room runs out |
| GameLogic.WrongGuessesLose | src/utils/GameLogic.jsx:35-49 | four wrong guesses end a fresh game as a loss with four guesses |
| GameLogic.FinishedGameUnchanged | src/utils/GameLogic.jsx:36-38 | no guess changes a completed game |
| PracticeGameLogic.LcgNext | src/utils/PracticeGameLogic.jsx:28 | the LCG step (state*1664525 + 1013904223) >>> 0 lies below 2^32 |
| PracticeGameLogic.SeededRandom.Next | src/utils/PracticeGameLogic.jsx:27-30 | each call advances the closure's state by one LCG step and returns the numerator state mod 2147483647, which is below 2147483647, so the value lies in [0, 1) |
| PracticeGameLogic.ScaleIsProduct | src/utils/PracticeGameLogic.jsx:41 | the scaling used for j is the product numerator*(i+1) |
| PracticeGameLogic.RandomIndex | src/utils/PracticeGameLogic.jsx:41 | `Math.floor(random() * (i + 1))` lies in [0, i] |
| PracticeGameLogic.FisherYatesFrom | src/utils/PracticeGameLogic.jsx:40-43 | the remaining Fisher-Yates rounds keep length and multiset |
| PracticeGameLogic.FisherYates | src/utils/PracticeGameLogic.jsx:36-46 | the practice shuffle is a permutation of its input and a function of (array, seed) |
| PracticeGameLogic.FisherYatesStep | src/utils/PracticeGameLogic.jsx:40-43 | one round draws j from the generator and swaps positions i and j |
| PracticeGameLogic.DeterministicShuffle | src/utils/PracticeGameLogic.jsx:36-46 | the loop over the copied array returns FisherYates(input, seed), a permutation |
| PracticeGameLogic.FisherYatesKeepsDistinctIds | src/utils/PracticeGameLogic.jsx:40-43 | the shuffle rounds keep ids distinct |
| PracticeGameLogic.ShuffleKeepsDistinctIds | src/utils/PracticeGameLogic.jsx:36-46 | the practice shuffle keeps ids distinct |
| PracticeGameLogic.ShuffleMembers | src/utils/PracticeGameLogic.jsx:36-46 | the practice shuffle has exactly the members of its input |
| PracticeGameLogic.GetPracticeBird | src/utils/PracticeGameLogic.jsx:51-61 | null exactly when the region is absent or empty; otherwise the element at practiceIndex mod n of the shuffle seeded by practice-region-index, a catalog bird |
| PracticeGameLogic.WithoutId | src/utils/PracticeGameLogic.jsx:74 | the filter (`Seqs.Filter` with the id test) keeps an order-preserving sublist |
| PracticeGameLogic.SameFamily | src/utils/PracticeGameLogic.jsx:77 | the filter (`Seqs.Filter` with the family test) keeps an order-preserving sublist |
| PracticeGameLogic.OtherFamily | src/utils/PracticeGameLogic.jsx:92 | the filter (`Seqs.Filter` with the negated family test) keeps an order-preserving sublist |
| PracticeGameLogic.WithoutIdMembers | src/utils/PracticeGameLogic.jsx:74 | a bird survives exactly when its id differs from the correct one |
| PracticeGameLogic.SameFamilyMembers | src/utils/PracticeGameLogic.jsx:77 | a bird survives exactly when its family equals the correct bird's |
| PracticeGameLogic.OtherFamilyMembers | src/utils/PracticeGameLogic.jsx:92 | a bird survives exactly when its family differs |
| PracticeGameLogic.FamilySplitLength | src/utils/PracticeGameLogic.jsx:77-92 | the two family filters split the candidates: their lengths add up |
| PracticeGameLogic.PushFirst | src/utils/PracticeGameLogic.jsx:97-99 | the push loop appends the first min(stillNeeded, n) shuffled remaining birds |
| PracticeGameLogic.GeneratePracticeAnswerOptions | src/utils/PracticeGameLogic.jsx:66-106 | the method returns PracticeOptions |
| PracticeGameLogic.WrongBirdsCount | src/utils/PracticeGameLogic.jsx:81-100 | min(optionCount - 1, candidates) distractors are chosen |
| PracticeGameLogic.WrongBirdsMembers | src/utils/PracticeGameLogic.jsx:81-100 | every distractor is a candidate |
| PracticeGameLogic.WrongBirdsFamily | src/utils/PracticeGameLogic.jsx:81-100 | with enough same-family candidates all distractors share the family, otherwise every same-family candidate is chosen |
| PracticeGameLogic.WrongBirdsDistinct | src/utils/PracticeGameLogic.jsx:81-100 | distinct candidate ids give distinct distractor ids |
| PracticeGameLogic.OptionsAreShuffled | src/utils/PracticeGameLogic.jsx:103-105 | the result is the final-seed shuffle of [correctBird, ...selectedWrongBirds] |
| PracticeGameLogic.PracticeOptionsEmpty | src/utils/PracticeGameLogic.jsx:67 | [] without a catalog or a correct bird |
| PracticeGameLogic.PracticeOptionsContents | src/utils/PracticeGameLogic.jsx:67-105 | the correct bird occurs exactly once, every other option is a catalog bird with another id, and the length is 1 + min(optionCount - 1, other birds) |
| PracticeGameLogic.PracticeOptionsFamily | src/utils/PracticeGameLogic.jsx:81-105 | the family preference holds in the final options |
| PracticeGameLogic.PracticeOptionsDistinct | src/utils/PracticeGameLogic.jsx:67-105 | distinct catalog ids give distinct option ids |
| PracticeGameLogic.CreateInitialPracticeState | src/utils/PracticeGameLogic.jsx:7-20 | a fresh practice session with no bird, no options, index 0 and the given start time |
| PracticeGameLogic.ProcessPracticeGuess | src/utils/PracticeGameLogic.jsx:111-137 | a no-op without a bird or when completed; otherwise appends one timestamped guess, and finishes with won = correct and an end time when correct or full; other fields are untouched |
| PracticeGameLogic.StartNewPracticeRound | src/utils/PracticeGameLogic.jsx:142-167 | unchanged when no next bird exists; otherwise index + 1, the next practice bird and its options, empty guesses, not completed, not won, same region |
| PracticeGameLogic.InitialPracticeValid | src/utils/PracticeGameLogic.jsx:7-20 | a fresh session satisfies the practice invariant ValidPractice |
| PracticeGameLogic.ProcessPracticeGuessKeepsValid | src/utils/PracticeGameLogic.jsx:111-137 | a guess preserves ValidPractice |
| PracticeGameLogic.StartNewPracticeRoundKeepsValid | src/utils/PracticeGameLogic.jsx:142-167 | a new round preserves ValidPractice, including that the bird asked about is among the options |
| DailyBirdUtils.HexString | src/utils/DailyBirdUtils.jsx:15 | `toString(16)` as code units: as many units as hex digits |
| DailyBirdUtils.BirdHash | src/utils/DailyBirdUtils.jsx:13-17 | the unpadded lowercase hex of hashString(id-salt), 1 to 8 characters, so `substring(0, 8)` never cuts |
| DailyBirdUtils.HashBirdId | src/utils/DailyBirdUtils.jsx:13-17 | the method computes BirdHash |
| DailyBirdUtils.BirdHashDecodes | src/utils/DailyBirdUtils.jsx:13-17 | the hash is lowercase hex whose value is hashString(id-salt) |
| DailyBirdUtils.LowerOfBirdHash | src/utils/DailyBirdUtils.jsx:30 | lower-casing a bird hash changes nothing |
| DailyBirdUtils.FirstWithHash | src/utils/DailyBirdUtils.jsx:28-34 | a found bird is in the list and has the hash; none found exactly when no bird has it |
| DailyBirdUtils.FindBirdByHash | src/utils/DailyBirdUtils.jsx:25-35 | null for a missing list or an empty or missing hash, otherwise the first bird whose hash equals the lower-cased target |
| DailyBirdUtils.FirstWithHashFinds | src/utils/DailyBirdUtils.jsx:28-34 | the search returns the first position with the hash |
| DailyBirdUtils.FindByHashIgnoresCase | src/utils/DailyBirdUtils.jsx:30 | an upper-cased hash finds the same bird |
| DailyBirdUtils.GenerateDailyEntry | src/utils/DailyBirdUtils.jsx:112-118 | copies date and region and stores hashBirdId(birdId) |
| DailyBirdUtils.GeneratedEntryFindsBird | src/utils/DailyBirdUtils.jsx:13-34 | a generated entry's hash finds its bird when no earlier bird shares that hash |
| DailyBirdUtils.FindEntry | src/utils/DailyBirdUtils.jsx:80-82 | the entry found has the date and region and is the first such entry of the list; none exactly when no entry matches |
| DailyBirdUtils.GetTodaysBirdFromDaily | src/utils/DailyBirdUtils.jsx:69-103 | the lookup yields TodaysBird: null without data, without a matching entry, or without a bird matching its hash |
| DailyBirdUtils.TodaysBirdFromGeneratedEntry | src/utils/DailyBirdUtils.jsx:80-98 | today's bird is the bird whose entry was generated, when no earlier bird shares its hash |
| ShareUtils.EmojiGrid | src/utils/ShareUtils.jsx:4-6 | one two-unit square per guess |
| ShareUtils.Padding | src/utils/ShareUtils.jsx:8 | n black squares of one unit each |
| ShareUtils.GenerateShareText | src/utils/ShareUtils.jsx:3-12 | fails (RangeError) exactly when there are more guesses than maxGuesses, otherwise the exact template |
| ShareUtils.PaddingParses | src/utils/ShareUtils.jsx:8 | the padding can be counted back |
| ShareUtils.BoardRoundTrip | src/utils/ShareUtils.jsx:4-8 | the grid plus padding decodes back to the guess outcomes in order and the padding count |
| ShareUtils.ShareTextShowsGame | src/utils/ShareUtils.jsx:3-12 | when the guesses fit, the text exists, starts with the header and ends with the URL verbatim, and the part between them (less the blank line) decodes back to the outcome of every guess and the number of unused guesses |
| ShareUtils.ResultLineOfGame | src/utils/ShareUtils.jsx:9 | guesses/maxGuesses when won, the literal X/4 otherwise |
| ShareUtils.EmojiEncodings | src/utils/ShareUtils.jsx:5-11 | the emoji constants are the UTF-16 encodings of the symbols used |
| GenerateDaily.ActiveRegions | scripts/GenerateDaily.js:31-32 | only regions with a non-empty list produce entries |
| GenerateDaily.ActiveRegionsSelects | scripts/GenerateDaily.js:30-32 | the regions with entries are exactly the regions with a non-empty list, in the order of the region list; the list equals the front-to-back filter of the region list, so a region listed twice gets two entries per day |
| GenerateDaily.GenerateDailyEntries | scripts/GenerateDaily.js:22-46 | the nested push loops return DailyEntries, the day blocks joined in order |
| GenerateDaily.EntriesCount | scripts/GenerateDaily.js:25-42 | days times the number of regions with birds |
| GenerateDaily.EntriesLayout | scripts/GenerateDaily.js:25-39 | day-major, region-minor: entry i*R + j is day i, region j, with bird i mod n |
| GenerateDaily.EntryAt | scripts/GenerateDaily.js:25-39 | one position of that layout |
| GenerateDaily.VerifyBirdHash | scripts/GenerateDaily.js:61-66 | true exactly when hashBirdId(birdId) equals the lower-cased expected hash |
| GenerateDaily.VerifyGeneratedHash | scripts/GenerateDaily.js:61-66 | a generated hash verifies for its bird in either case, and for another bird exactly when their hashes collide |
| GenerateDaily.GeneratedEntriesFindTheirBirds | scripts/GenerateDaily.js:34-37 | each generated entry leads the browser lookup back to its bird, barring an earlier hash collision |
| DailyBirdGenerator.PyHashFold | scripts/generate-daily-birds.py:28-34 | the masked and re-signed value stays within [-2^31, 2^31) |
| DailyBirdGenerator.PyStepIsJsStep | scripts/generate-daily-birds.py:30-34 | one Python step equals one JavaScript step for BMP characters |
| DailyBirdGenerator.PyFoldIsJsFold | scripts/generate-daily-birds.py:28-34 | the Python loop computes the JavaScript running value |
| DailyBirdGenerator.RunHashLoop | scripts/generate-daily-birds.py:26-34 | the for loop computes the fold |
| DailyBirdGenerator.FormatAsWritten | scripts/generate-daily-birds.py:37-38 | always 8 lowercase hex digits: the unsigned reinterpretation, zero-padded |
| DailyBirdGenerator.HashBirdIdAsWritten | scripts/generate-daily-birds.py:21-38 | the function as written computes HashAsWritten |
| DailyBirdGenerator.FormatFixed | scripts/generate-daily-birds.py:37-38 | the corrected rendering: unpadded hex of abs(v), 1 to 8 digits |
| DailyBirdGenerator.HashBirdIdFixed | scripts/generate-daily-birds.py:21-38 | the corrected function computes HashFixed |
| DailyBirdGenerator.SaltedKeysAgree | scripts/generate-daily-birds.py:25 | the combined key is the one the browser hashes |
| DailyBirdGenerator.RunningHashesAgree | scripts/generate-daily-birds.py:21-34 | the Python running value equals the browser's running value |
| DailyBirdGenerator.FixedHashMatchesBrowser | scripts/generate-daily-birds.py:21-38 | the corrected Python hash equals hashBirdId for every BMP id |
| DailyBirdGenerator.FormatsAgreeIff | scripts/generate-daily-birds.py:37 | the two renderings agree exactly when v >= 0x10000000 or v == -2^31 |
| DailyBirdGenerator.AsWrittenMatchesBrowserIff | scripts/generate-daily-birds.py:18-38 | the Python hash as written equals hashBirdId exactly when the running value lies in [0x10000000, 0x7FFFFFFF] or is -2^31 |
| DailyBirdGenerator.MinusOneMismatch | scripts/generate-daily-birds.py:37-38 | for running value -1 the script writes ffffffff where the browser expects 1 |
| DailyBirdGenerator.RecentIdsMembers | scripts/generate-daily-birds.py:63-66 | an id is recent exactly when some history entry dated after the cutoff has it |
| DailyBirdGenerator.GetRecentAnswers | scripts/generate-daily-birds.py:57-68 | the loop collects RecentIds of the region's history with cutoff current - days |
| DailyBirdGenerator.UnknownRegionHasNoRecentAnswers | scripts/generate-daily-birds.py:62 | a region without history has no recent answers |
| DailyBirdGenerator.FilterBySubregion | scripts/generate-daily-birds.py:100-106 | an empty id set returns the list unchanged |
| DailyBirdGenerator.FilterBySubregionKeeps | scripts/generate-daily-birds.py:105 | otherwise an order-preserving sublist of exactly the birds whose ids are in the set |
| DailyBirdGenerator.SelectBirdForRegion | scripts/generate-daily-birds.py:108-128 | None exactly when the candidates are empty, including an empty subregion filter; otherwise a candidate, and a recent one only if every candidate is recent |
| DailyBirdGenerator.RecordPickKeeps | scripts/generate-daily-birds.py:267-287 | only the region's history changes, it stays a sublist of old + [pick] holding the entries after target - 2*days, and the pick is kept exactly when days > 0 |
| DailyBirdGenerator.PruneKeepsRecentAnswers | scripts/generate-daily-birds.py:283-287 | pruning never forgets an answer the next run must avoid |
| DailyBirdGenerator.DailyRun.ProcessRegion | scripts/generate-daily-birds.py:203-287 | skips a region without candidates; otherwise picks a bird of the region among the candidates (a recent one only if all are recent), appends its daily record with the hash of the given format (`AsWritten` for the script as it stands) and records the pick in the pruned history |
| DailyBirdGenerator.DailyRun.Run | scripts/generate-daily-birds.py:202-287 | every published record is dated today, names a known region and carries the hash of one of its birds; old records stay in front; the new records' regions are exactly the regions of the list whose candidate list is not empty, in the list's order, one per occurrence; the returned picks are one per new record, each among its region's candidates (its birds, narrowed to the active subregion) and hashed into its record; for a list without repeated regions each pick is a recent answer of its region only if every candidate is; each new record is exactly the record of its pick: today's date, its region, the pick's hash, and the active subregion's name when that name is non-empty; the final history is the starting history with each pick appended and pruned at target - 2·days in turn (`RecordAll`); with a positive window each new record is backed by an entry of today with the same hash in its region's history; regions outside the list keep their history |
| DailyBirdGenerator.RecordAllRegion | scripts/generate-daily-birds.py:267-287 | when no region has two records, each region with a record ends with its old history plus its pick, pruned at target - 2·days |
| DailyBirdGenerator.RecordAllKeeps | scripts/generate-daily-birds.py:267-287 | a region that no record names keeps its history through the whole run |
| DailyBirdGenerator.ActiveName | scripts/generate-daily-birds.py:261-262 | a record carries a subregion name exactly when a subregion was chosen and its name is non-empty, and then it is that name |
| DailyBirdGenerator.RecordedAfterPick | scripts/generate-daily-birds.py:267-287 | recording one more pick keeps every record of the day backed by a history entry of the day, the new one included, when days > 0 |
| DailyBirdGenerator.PublishedHashFindsBird | scripts/generate-daily-birds.py:249-264 | for the corrected script (`Fixed` format) the browser lookup finds the chosen bird, barring an earlier collision |
| CatalogGenerator.CreateBirdId | scripts/game-data-generator.py:43-45 | the prefix of length min(4, len(code)) |
| CatalogGenerator.ShortCodesKeepIdentity | scripts/game-data-generator.py:43-45 | codes of at most four characters keep distinct ids |
| CatalogGenerator.CreateBirdIdCollides | scripts/game-data-generator.py:45 | amerob and amered both become amer |
| CatalogGenerator.GroupUrlsByCode | scripts/game-data-generator.py:48-59 | the loop builds GroupsOf |
| CatalogGenerator.GroupsOfMeaning | scripts/game-data-generator.py:52-59 | a code is a key exactly when it has a usable URL, its value lists them in input order, and the empty code is never a key |
| CatalogGenerator.UrlsForMembers | scripts/game-data-generator.py:52-57 | a URL is listed exactly when a record with that code and a non-empty URL carries it |
| CatalogGenerator.CatalogFrom | scripts/game-data-generator.py:62-89 | no more entries than taxonomy records |
| CatalogGenerator.ProcessTaxon | scripts/game-data-generator.py:68-87 | one record yields an entry exactly when code, names and URLs are present |
| CatalogGenerator.ProcessTaxonomyData | scripts/game-data-generator.py:62-89 | the loop returns CatalogFrom, in taxonomy order |
| CatalogGenerator.CatalogMembers | scripts/game-data-generator.py:67-87 | an entry appears exactly when it is the entry of a taxonomy record that passes the checks |
| CatalogGenerator.CatalogEntriesHaveAudio | scripts/game-data-generator.py:77-85 | every entry has a non-empty URL list and an id of 1 to 4 characters |
| CatalogGenerator.CatalogIdsCollide | scripts/game-data-generator.py:45-82 | two kept species with codes amerob and amered produce two entries with the same id |
| CatalogGenerator.UpdateRegion | scripts/game-data-generator.py:131-133 | the keys become the old keys plus the lower-cased region |
| CatalogGenerator.UpdateRegionOnlyTouchesRegion | scripts/game-data-generator.py:131-133 | the region's list is replaced and every other region's list is unchanged |
| CatalogGenerator.GenerateCatalog | scripts/game-data-generator.py:125-133 | the script writes the catalog built from the grouped URLs under the lower-cased region |
| TaxonomyFilter.FilterTaxonomy | scripts/ebird-filter-region.py:28-32 | an order-preserving sublist containing exactly the entries that pass the test, each kept entry as many times as it occurs in the taxonomy |
| TaxonomyFilter.FilterTaxonomyCases | scripts/ebird-filter-region.py:30-31 | kept codes are in the set; no hybrid survives when excluded; without exclusion every entry whose code is in the set is kept; an empty set keeps nothing |
| TaxonomyFilter.LastDot | scripts/ebird-filter-region.py:8 | the position of the last dot, or -1 |
| TaxonomyFilter.Stem | scripts/ebird-filter-region.py:8 | the file name up to its last dot (none for dotfiles and trailing dots) |
| TaxonomyFilter.OutputPath | scripts/ebird-filter-region.py:8-9 | the output sits in the input's directory and is named stem-taxonomy.json |
| TaxonomyFilter.OutputBesideInput | scripts/ebird-filter-region.py:8-9 | the output is next to the input and never overwrites it |
| TaxonomyFilter.UsExample | scripts/ebird-filter-region.py:7-9 | us.json maps to us-taxonomy.json |

## Left out

- Browser and file I/O are not modelled: `fetch`, `localStorage`, `navigator.share` and the clipboard, and JSON loading and saving in the scripts. Their data enters as parameters (`Option` where the code checks for a missing value), and console output is dropped.
- The clock is a parameter. Timestamps are opaque values; JS `Date` stepping and `toISOString` in scripts/GenerateDaily.js become a given sequence of date strings; Python dates are day numbers.
- `loadDailyBirdData` is modelled only through `dailyData`, which is `None` when the fetch fails or the data is not an array.
- The `mockBirds` constant of scripts/GenerateDaily.js is not fixed in the model: the catalog is a parameter, so the layout theorems hold for any mock data.
- `get_subregion_for_date` is not modelled, because it is seeded by Python's per-process salted `hash()` and the global `random` state. Its result is a parameter of `DailyRun.ProcessRegion` and `DailyRun.Run`.
- `update_history` is not modelled, because it returns the history unchanged.
- `random.choice` is a nondeterministic pick among the candidates. Which candidate is drawn is not modelled.
- Floating point is not modelled: `random()` in the practice generator divides by 2147483647, and the shuffle multiplies the quotient by i + 1 and floors it. The model computes `j` in integers as (numerator * (i + 1)) div 2147483647. Since 2147483647 is prime and larger than i + 1, the exact product is either 0 or at least 1/2147483647 away from every integer. The two roundings of the float computation move it by at most about (i + 1) * 2^-52, which stays below that gap for arrays shorter than 2^20, so the float result agrees with the model there. Longer arrays are not covered.
- `toLowerCase`, `toUpperCase` and Python's `lower()` are modelled on ASCII letters only. Hashes are ASCII hex, so the hash comparisons are exact; region keys with non-ASCII letters are not.
- JSON values of the wrong type (a non-string code, a non-list history) are not modelled. In the Python scripts missing fields are `Option`s and present fields are strings.
- A daily.json entry without `answerHash` is modelled (`DailyBirdUtils.DailyEntry.answerHash` is `None`, and the lookup then yields null as on src/utils/DailyBirdUtils.jsx:26). An entry without `date` or `region` is not: its field is `undefined`, which never equals the requested strings, so `find` passes over it just as over an entry for another day or region.
- DailyBirdGenerator.DailyRun.Run: the clause that a pick avoids recent answers is stated only for region lists without repeats. When a region occurs twice, its second pick is checked against the history that already holds the first pick, not against the history at the start of the run.
- `DailyBirdGenerator.PublishedHashFindsBird` is stated for the corrected rendering only. For the script as written, `DailyBirdGenerator.AsWrittenMatchesBrowserIff` says exactly which running values the browser can match.
- `pathlib` is modelled as a list of name components. Anchors, absolute paths and `..` are not distinguished.
- The React UI is not modelled (src/App.jsx, src/utils/PracticeGame.jsx). Neither are the multi-region ledger, statistics and streak helpers that src/App.jsx imports, because no shown file defines them.
- The eBird download and subregion scripts are not modelled (network access).

## Findings

| source | as written | input that shows it | evidently intended | confidence | as-written member | corrected member |
|---|---|---|---|---|---|---|
| scripts/generate-daily-birds.py:37-38 | `format(hash_value & 0xFFFFFFFF, '08x')` writes the unsigned reinterpretation, zero-padded to 8 digits, while the browser's `hashBirdId` (src/utils/DailyBirdUtils.jsx:13-17) compares against the unpadded hex of the absolute value | any bird id whose salted running value is -1 gives "ffffffff" here and "1" in the browser; the two differ exactly when the value is below 0x10000000 and not -2^31, i.e. for every negative value but one and for small positive ones | the comment on line 18 says the hash must match the JavaScript implementation, so `format(abs(hash_value), 'x')` | not executed | DailyBirdGenerator.AsWrittenMatchesBrowserIff | DailyBirdGenerator.FixedHashMatchesBrowser |

Other places where the code differs from what its messages or names suggest, modelled as the code behaves:

- `generateShareText` writes the literal `X/4` for a lost game whatever `maxGuesses` is (src/utils/ShareUtils.jsx:9).
- `select_bird_for_region` prints "Using all region birds" when the subregion filter leaves nothing, but returns `None` (scripts/generate-daily-birds.py:113-116).
- `generatePracticeAnswerOptions` creates a seeded generator that is never drawn from (src/utils/PracticeGameLogic.jsx:71); the model creates it too and leaves it unused.
- `create_bird_id` can give two species the same id (`CatalogGenerator.CatalogIdsCollide`), so the catalog's ids are not guaranteed distinct. The option lemmas therefore take distinct ids as a hypothesis.
- A subregion whose name is the empty string is falsy in Python and disables the subregion filter (`DailyBirdGenerator.ActiveSubregion`).
- With `--days 0` or less, the history pruning removes today's pick at once (`DailyBirdGenerator.RecordPickKeeps`).
- `get_subregion_for_date` seeds `random` with `hash(date_seed)` "for consistent daily selection" (scripts/generate-daily-birds.py:85-87). Python salts `hash()` of a string per process unless `PYTHONHASHSEED` is set, so two runs for the same date and region can choose different subregions. The model takes the chosen subregion as a parameter, so both outcomes are covered.
