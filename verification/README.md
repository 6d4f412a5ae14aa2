# Steam-Gauge: game selection and round state, in Dafny

Steam-Gauge is a pair of browser trivia games built on Steam game data:

- **Gauge**: the player picks the higher-rated of two games.
- **Guess**: the player names a game from a pixelated cover. The picture sharpens and hints appear after each wrong guess.

This project models the part of the system that holds state and makes decisions:

- **Engines.** `GameEngine` draws pairs and `GuessEngine` draws single games. Each draws from a pool while keeping a rotation of used game ids, and each decides whether a guess is right.
- **Session stores.** There is one per game, holding a state per mode key (`top100in2weeks`, `top100forever` or `genre-<genre>`). The stores handle:
  - choosing a mode;
  - loading a pool;
  - guessing, hints and skipping;
  - resetting;
  - the persisted score snapshot.
- **Data services.**
  - Converting SteamSpy records into games and applying the validity filter.
  - The hint ladders.
  - The fetch helpers with retries.
  - The games cache with its attempt counter and bundled top-100 fallback.
  - The store-details cache.
- **Legacy store.** The older Gauge score store.
- **Interface helpers.**
  - Guess input: the name suggestions, the keyboard machine and the submit guard.
  - About page: the heading-id slug.
  - Header: the breadcrumbs.
  - Hint panel: ordering, the revealed count, the card class and the title.
  - Gauge game card: the review status.

**How state is modelled.** The engines and stores change state in place, so they are Dafny classes:

- Engine fields: `gamePool` and `usedGameIds`.
- Store fields: `currentMode`, `currentGenre`, `isLoading` and `gameModeStates: map<string, ModeState>`.

Each store method:

- requires the store invariant `Valid()` and keeps it;
- states its whole new state in terms of small step functions (`GuessStep`, `RevealStep`, `NextRoundStep`, `LoadedState`, `ResetState`);
- has lemmas beside it about what those steps keep.

`Math.random` becomes a choice (`:|`) among the positions the source could pick, so every property holds for every random outcome. Network answers, parsed JSON and the clock are parameters.

**Modules.** There is one module per source file, plus three shared ones:

- `Wrappers`: `Option` and `Result`.
- `Text`: JavaScript string operations on ASCII, that is `toLowerCase`, `trim`, `split`, `join`, `includes` and `String(n)`.
- `Rotation`: the unused-game filter the two engines share.

## Model

| member | source | states |
|---|---|---|
| Rotation.Unused | src/gauge/engine/gameEngine.ts:21 | a game is offered exactly when it is in the pool and its id is not used; never more games than the pool |
| Rotation.UnusedCount | src/gauge/engine/gameEngine.ts:66-68 | with distinct ids and used ids all from the pool, the number of unused games is the pool size minus the number of used ids |
| Rotation.UnusedNonEmpty | src/guess/engine/guessEngine.ts:22-31 | while fewer ids are used than the pool has games, an unused game exists |
| Rotation.UnusedDistinct | src/guess/engine/guessEngine.ts:23 | the unused games of a pool with distinct ids have distinct ids |
| Rotation.UnusedIgnoresForeignIds | src/gauge/engine/gameEngine.ts:21 | used ids that no pool game carries do not change what is offered |
| Rotation.DistinctIdsCount | src/gauge/engine/gameEngine.ts:62-64 | with distinct ids the pool has exactly as many games as ids |
| Rotation.UnusedOfAllIds | src/gauge/engine/gameEngine.ts:21 | when every pool id is used, nothing is offered |
| GaugeEngine.RandomPair | src/gauge/engine/gameEngine.ts:32-35 | the two games come from two distinct positions of the list; a side is `undefined` (None) when the list is too short |
| GaugeEngine.GameEngine.constructor | src/gauge/engine/gameEngine.ts:7-10 | the engine holds the given pool and no used ids |
| GaugeEngine.GameEngine.SetUsedGameIds | src/gauge/engine/gameEngine.ts:16-18 | the used ids become the given set; the pool is unchanged |
| GaugeEngine.GameEngine.RandomUnusedGames | src/gauge/engine/gameEngine.ts:20-30 | two games from distinct positions of the unused games, or of the whole pool after clearing the used ids when fewer than two are unused |
| GaugeEngine.GameEngine.SelectNewGames | src/gauge/engine/gameEngine.ts:37-50 | a round exactly when the pool has two games: the drawn pair, unrevealed, with both ids added to the used ids (or making up the whole set after a clear); a smaller pool throws (None) and leaves the used ids as the throw does |
| GaugeEngine.GameEngine.Reset | src/gauge/engine/gameEngine.ts:70-72 | the used ids are emptied and the pool is kept |
| GaugeEngine.GameEngine.GamePoolSize | src/gauge/engine/gameEngine.ts:62-64 | with distinct ids, the number of different games the pool offers |
| GaugeEngine.GameEngine.AvailableGamesCount | src/gauge/engine/gameEngine.ts:66-68 | never more than the pool size and equal to it exactly when no id is used; with distinct ids and used ids from the pool, the number of games a draw can choose from |
| GaugeEngine.CheckGuess | src/gauge/engine/gameEngine.ts:52-60 | false unless both games are present; then right exactly when the picked game's score is strictly higher |
| GaugeEngine.AtMostOneSideWins | src/gauge/engine/gameEngine.ts:52-60 | never are both sides right; with both games present one side is right exactly when the scores differ |
| GaugeEngine.PairFromUnused | src/gauge/engine/gameEngine.ts:20-30 | with at least two unused games, both drawn games are unused pool games with different ids |
| GaugeEngine.SelectedFreshPair | src/gauge/engine/gameEngine.ts:37-50 | a draw with two unused games adds two new ids from the pool to the used ids |
| GaugeEngine.PairCycle | src/gauge/engine/gameEngine.ts:37-50 | from a fresh engine over K games with distinct ids, the first K / 2 rounds show 2 * (K / 2) distinct pool games |
| GuessEngine.GuessEngine.constructor | src/guess/engine/guessEngine.ts:9-12 | the engine holds the given pool and no used ids |
| GuessEngine.GuessEngine.SetUsedGameIds | src/guess/engine/guessEngine.ts:18-20 | the used ids become the given set; the pool is unchanged |
| GuessEngine.GuessEngine.RandomUnusedGame | src/guess/engine/guessEngine.ts:22-32 | an unused pool game; when none is unused the used ids are cleared and any pool game is drawn; an empty pool gives `undefined` (None) |
| GuessEngine.GuessEngine.SelectNewGame | src/guess/engine/guessEngine.ts:34-38 | the drawn game is from the pool and its id joins the used ids |
| GuessEngine.GuessEngine.Reset | src/guess/engine/guessEngine.ts:103-105 | the used ids are emptied and the pool is kept |
| GuessEngine.GuessEngine.GamePoolSize | src/guess/engine/guessEngine.ts:95-97 | with distinct ids, the number of different games the pool offers |
| GuessEngine.GuessEngine.AvailableGamesCount | src/guess/engine/guessEngine.ts:99-101 | never more than the pool size and equal to it exactly when no id is used; with distinct ids and used ids from the pool, the number of games a draw can choose from |
| GuessEngine.DrawnFromPool | src/guess/engine/guessEngine.ts:34-38 | every drawn game is a pool game |
| GuessEngine.DrawnFresh | src/guess/engine/guessEngine.ts:22-38 | with an unused game left, the draw is unused and adds exactly its id |
| GuessEngine.DrawCycle | src/guess/engine/guessEngine.ts:34-38 | from a fresh engine over K games with distinct ids, K draws give K distinct pool games |
| GuessEngine.KeepAlnumSpace | src/guess/engine/guessEngine.ts:47 | only lower-case letters, digits and whitespace remain, and the string never grows |
| GuessEngine.KeepAlnumSpaceKeepsClean | src/guess/engine/guessEngine.ts:47 | a string of lower-case letters, digits and whitespace is kept as it is |
| GuessEngine.KeepAlnumSpaceDropsRest | src/guess/engine/guessEngine.ts:47 | a string with no lower-case letter, digit or whitespace is removed entirely |
| GuessEngine.CollapseSpaces | src/guess/engine/guessEngine.ts:48 | empty exactly when the input is; starts with a blank exactly when the input starts with whitespace; no two blanks are adjacent |
| GuessEngine.CollapseSpacesAppend | src/guess/engine/guessEngine.ts:48 | a run of whitespace never spans a cut after a non-whitespace character, so the two sides collapse separately |
| GuessEngine.CollapseSpacesJoin | src/guess/engine/guessEngine.ts:48 | a whole run of whitespace between two texts becomes exactly one blank |
| GuessEngine.CollapseSingleBlanks | src/guess/engine/guessEngine.ts:48 | a string whose only whitespace is single, non-adjacent blanks is kept as it is |
| GuessEngine.NormaliseIsNormal | src/guess/engine/guessEngine.ts:44-50 | a normalised name has only lower-case letters, digits and single inner blanks, with no blank at either end |
| GuessEngine.NormaliseOfNormal | src/guess/engine/guessEngine.ts:44-50 | a string in that normal form is its own normalisation, so normalising twice changes nothing more |
| GuessEngine.NormalHasNoColon | src/guess/engine/guessEngine.ts:76-82 | a normalised name holds no colon |
| GuessEngine.NormaliseIgnoresCase | src/guess/engine/guessEngine.ts:44-50 | names that differ only in letter case normalise alike |
| GuessEngine.NormaliseIgnoresPunctuation | src/guess/engine/guessEngine.ts:44-50 | inserting a character that is neither a letter, a digit nor whitespace changes nothing after normalisation |
| GuessEngine.Initials | src/guess/engine/guessEngine.ts:63-65 | at most one character per word; when no word is empty, exactly the first character of each word in order; nothing when every word is empty |
| GuessEngine.StripDigits | src/guess/engine/guessEngine.ts:85-86 | no digit remains and the string never grows |
| GuessEngine.StripDigitsKeepsDigitless | src/guess/engine/guessEngine.ts:85-86 | a string without digits is kept as it is |
| GuessEngine.StripDigitsDropsNumber | src/guess/engine/guessEngine.ts:85-86 | a string of digits is removed entirely |
| GuessEngine.StripDigitsAppend | src/guess/engine/guessEngine.ts:85-86 | removing digits works piece by piece: the result for a concatenation is the concatenation of the results |
| GuessEngine.ColonPartOfNormal | src/guess/engine/guessEngine.ts:76-82 | the text before the first colon of a normalised name is the whole name |
| GuessEngine.ColonMatchIsExact | src/guess/engine/guessEngine.ts:76-82 | on normalised strings the colon check accepts exactly what the exact check accepts |
| GuessEngine.OneWordAcronym | src/guess/engine/guessEngine.ts:61-67 | a string without blanks has an acronym of at most one letter |
| GuessEngine.AcronymMatchNeedsTwoWords | src/guess/engine/guessEngine.ts:69-74 | the acronym check only accepts a guess of two or more words |
| GuessEngine.CheckGuess | src/guess/engine/guessEngine.ts:40-93 | false without a game; otherwise true exactly when the normalised guess and name are equal, have the same acronym of two letters or more, or are equal once digits are removed |
| GuessEngine.CheckGuessSymmetric | src/guess/engine/guessEngine.ts:40-93 | swapping the guess and the game's name gives the same verdict |
| GuessEngine.CheckGuessAcceptsOwnName | src/guess/engine/guessEngine.ts:40-58 | the game's name is accepted as it is, lower-cased, and with a punctuation character inserted |
| GuessEngine.TrailingNumberMayBeOmitted | src/guess/engine/guessEngine.ts:84-90 | a digit-free guess is accepted for a name that normalises to the guess, a blank and a number |
| GuessEngine.PortalAcceptedForPortal2 | src/guess/engine/guessEngine.ts:84-90 | "portal" is accepted for "Portal 2" |
| GuessEngine.HaloRejectedForPortal2 | src/guess/engine/guessEngine.ts:40-93 | "halo" is rejected for "Portal 2" by every check |
| GuessEngine.OneWordGuessNeedsOtherCheck | src/guess/engine/guessEngine.ts:60-93 | a guess that normalises to one word is accepted exactly when the exact or the digit-stripped check accepts it |
| GaugeStore.Partialize | src/gauge/store.ts:185-195 | the snapshot has the same mode keys, each with that mode's high score and current score |
| GaugeStore.RevealScoresThePick | src/gauge/store.ts:69-73 | the score becomes positive exactly when the pick is right, and then goes up by one |
| GaugeStore.RevealKeepsScores | src/gauge/store.ts:72-85 | after the reveal 0 <= score <= high score; the high score never drops and rises only to the new score |
| GaugeStore.RevealKeepsRound | src/gauge/store.ts:76-85 | the reveal keeps both games, the pool and the used ids, and marks the round revealed and transitioning |
| GaugeStore.NextRoundKeepsScores | src/gauge/store.ts:100-112 | the next round keeps the scores and the pool and is unrevealed and settled |
| GaugeStore.LoadKeepsScores | src/gauge/store.ts:136-154 | loading installs the pool and keeps an existing entry's scores, or starts at 0 |
| GaugeStore.ResetKeepsHighScore | src/gauge/store.ts:168-180 | resetting zeroes the score and empties pool, used ids and round, but keeps the high score |
| GaugeStore.PartializeKeepsConsistency | src/gauge/store.ts:185-195 | the persisted snapshot of consistent states is consistent |
| GaugeStore.GaugeStore.constructor | src/gauge/store.ts:25-28 | no mode, no genre, not loading, no mode states |
| GaugeStore.GaugeStore.SetGameMode | src/gauge/store.ts:30-55 | choosing the current selection again changes nothing; otherwise the mode and stored genre are set, a missing entry for the argument's key is created empty, and loading is set exactly when that entry has no games |
| GaugeStore.GaugeStore.MakeGuess | src/gauge/store.ts:57-113 | nothing happens without an entry or during a transition; otherwise the reveal step is written, then, when the pool has two games, the round the engine draws; a smaller pool stops after the first write; the invariant holds after each write |
| GaugeStore.GaugeStore.LoadInitialGames | src/gauge/store.ts:115-160 | nothing without a mode or when the entry already has games; a failed fetch or one with fewer than two games only stops loading; otherwise the entry is the loaded state over the fetched pool with a drawn pair and kept scores |
| GaugeStore.GaugeStore.ResetCurrentMode | src/gauge/store.ts:162-181 | only the current key's entry changes, to the reset state |
| GuessStore.GenerateHint | src/guess/store.ts:35-84 | no hint without store details; otherwise the first available hint in the order year, developer, genre, tag, Metacritic, or none |
| GuessStore.Partialize | src/guess/store.ts:423-433 | the snapshot has the same mode keys, each with that mode's high score and current score |
| GuessStore.CorrectGuessScores | src/guess/store.ts:131-157 | a right guess adds one point, lifts the high score to at least the new score without lowering it, and reveals; pool, used ids, level and hints stay |
| GuessStore.WrongGuessSharpens | src/guess/store.ts:189-199 | a wrong guess raises the level by exactly one and appends at most one hint, the one `generateHint` gives |
| GuessStore.WrongGuessScores | src/guess/store.ts:201-266 | the wrong guess reaching level 6 zeroes the score and reveals; an earlier one changes only the level and hints; the high score is always kept |
| GuessStore.GuessStepKeepsValid | src/guess/store.ts:131-266 | a guess keeps pool, game and consistent scores; one that does not end the round leaves a valid entry |
| GuessStore.RepeatedWrongGuesses | src/guess/store.ts:188-266 | after n wrong guesses that do not end the round, the hints are the old ones plus n copies of the same first available hint, and the level rose by n |
| GuessStore.NextRoundKeepsValid | src/guess/store.ts:163-185 | a fresh round with a drawn game from the pool leaves a valid entry |
| GuessStore.LoadKeepsScores | src/guess/store.ts:317-348 | loading installs the pool and keeps an existing entry's scores, or starts at 0, with a valid entry |
| GuessStore.ResetKeepsHighScore | src/guess/store.ts:401-419 | resetting zeroes the score, keeps the high score and leaves a valid entry |
| GuessStore.DrawNextRound | src/guess/store.ts:163-185 | the next game is drawn as the engine draws it and the new entry is the fresh round over it, valid |
| GuessStore.GuessStore.constructor | src/guess/store.ts:89-92 | no mode, no genre, not loading, no mode states |
| GuessStore.GuessStore.SetGameMode | src/guess/store.ts:94-115 | choosing the current selection again changes nothing; otherwise the mode and stored genre are set, a missing entry for the argument's key is created empty, and loading is set exactly when that entry has no games |
| GuessStore.GuessStore.MakeGuess | src/guess/store.ts:117-271 | false and no change without a current game; otherwise the result is the engine's verdict and the entry follows the guess step, then the next round when the round ended |
| GuessStore.GuessStore.RevealHint | src/guess/store.ts:273-297 | with a current game and a hint from `generateHint`, exactly that hint is appended; otherwise nothing changes |
| GuessStore.GuessStore.LoadInitialGames | src/guess/store.ts:299-355 | nothing without a mode or when the entry already has games; a failed or empty fetch only stops loading; otherwise the entry is the loaded state over the fetched pool with a drawn first game and kept scores |
| GuessStore.GuessStore.SkipGame | src/guess/store.ts:357-399 | with games in the pool, the score is zeroed, the high score kept and a fresh round over the next drawn game starts; without an entry or pool games nothing changes |
| GuessStore.GuessStore.ResetCurrentMode | src/guess/store.ts:401-419 | only the current key's entry changes, to the reset state |
| ModeKeys.KeyForInjective | src/guess/store.ts:96 | different modes, or different genres in genre mode, never share a key |
| ModeKeys.StoredGenre | src/guess/store.ts:108 | the stored genre is the argument when it is a non-empty string, and null otherwise |
| ModeKeys.StoredKeyMatchesArgKey | src/guess/store.ts:94-121 | the key the later actions compute from the stored selection equals the key `setGameMode` wrote to exactly when the mode is not genre mode or the genre is a non-empty string |
| ModeKeys.RepeatedSelectionIsSame | src/guess/store.ts:98-100 | repeating a `setGameMode` call returns early exactly when a non-empty genre was given |
| Scoring.Max | src/gauge/store.ts:73 | the larger of the two values |
| SteamSpy.RoundedPercent | src/services/GaugeAPI.ts:27-30 | the positive share as a percentage rounded half-up: within half a point of 100·positive/total, and between 0 and 100 |
| SteamSpy.RoundedPercentPositive | src/services/GaugeAPI.ts:66 | the rounded score is positive exactly when positive reviews are at least half a percent of the total |
| GaugeApi.ConvertSteamSpyGame | src/services/GaugeAPI.ts:26-42 | id, name, owners and two-week players are copied from the record, the cover URL is built from the id and the total is positive plus negative reviews; the score is the rounded percentage of positive reviews, or 0 without reviews |
| GaugeApi.ValidGames | src/services/GaugeAPI.ts:63-70 | every kept game is a converted record with a positive score, more than 500 reviews, a name and an id, every such record is kept, and nothing is added |
| GaugeApi.ValidGamesOfOne | src/services/GaugeAPI.ts:63-70 | one record gives its converted game when that game has a positive score, more than 500 reviews, a name and an id, and nothing otherwise |
| GaugeApi.ValidGamesAppend | src/services/GaugeAPI.ts:63-70 | the filter works record by record and keeps the order of the parsed records |
| GaugeApi.KeepIsGuessValidityWithPositiveScore | src/services/GaugeAPI.ts:63-70 | the Gauge filter is the Guess filter plus a positive score |
| GaugeApi.KeptScoresArePercentages | src/services/GaugeAPI.ts:63-70 | every kept game scores from 1 to 100 and has more than 500 reviews |
| GaugeApi.GetSteamSpyGames | src/services/GaugeAPI.ts:44-78 | the answer to the given request decides: request errors are rethrown, a non-OK status becomes an HTTP error naming it, and a parsed answer gives exactly its valid games |
| GaugeApi.GetRandomGames | src/services/GaugeAPI.ts:80-88 | the outcome depends only on the answer to the "top100in2weeks" request: its valid games, or its error rethrown; every game returned passes the filter |
| GaugeApi.RandomGamesArePercentages | src/services/GaugeAPI.ts:80-88 | responders that agree on "top100in2weeks" give the same games, and those games score 1 to 100 with more than 500 reviews |
| GuessApi.ConvertSteamSpyGame | src/services/GuessAPI.ts:365-387 | id, name, developer, publisher, owners, two-week players and genre are copied from the record, the cover URL is built from the id, there are no store details and the total is positive plus negative reviews; the score is the rounded percentage of positive reviews, or 0 without reviews |
| GuessApi.ValidGames | src/services/GuessAPI.ts:262-270 | every kept game is a converted record with more than 500 reviews, a name and an id, every such record is kept, and nothing is added |
| GuessApi.ValidGamesOfOne | src/services/GuessAPI.ts:262-270 | one record gives its converted game when it has more than 500 reviews, a name and an id, and nothing otherwise |
| GuessApi.ValidGamesAppend | src/services/GuessAPI.ts:262-270 | the filter works record by record and keeps the order of the parsed records |
| GuessApi.ValidGamesAreWellReviewed | src/services/GuessAPI.ts:264-268 | every kept game has a name, a non-zero id and more than 500 reviews |
| GuessApi.BasicHintsLadder | src/services/GuessAPI.ts:59-112 | the revealed review score at order 0, then hidden hints in rising order: player count and first letter always, developer exactly when known, second letter exactly when the name has two characters |
| GuessApi.EnhancedHintsLadder | src/services/GuessAPI.ts:114-170 | the revealed review score at order 0 and the first letter last at order 4, with release date, developer and genre each exactly when available |
| GuessApi.PrepareGameHints | src/services/GuessAPI.ts:428-448 | the enhanced ladder exactly when store details came back, the basic ladder otherwise |
| GuessApi.FetchWithRetry | src/services/GuessAPI.ts:177-191 | stops at the first OK answer; otherwise fails with the last error after exactly retries + 1 calls |
| GuessApi.FetchWithRetryAndTimeout | src/services/GuessAPI.ts:193-216 | as the plain helper, except that an abort by the timeout ends it at once as timed out; any other failure comes after all retries + 1 calls and is the last call's failure |
| GuessApi.TimeoutHelperAgreesWithoutAborts | src/services/GuessAPI.ts:177-216 | when no call times out, the two helpers give the same outcome |
| GuessApi.Top100Fallback | src/services/GuessAPI.ts:218-241 | the valid bundled games, or an error when none is valid |
| GuessApi.GamesFromLocalDb | src/services/GuessAPI.ts:303-329 | the valid games of the genre file, or an error when it cannot be read or holds none |
| GuessApi.GamesCache.constructor | src/services/GuessAPI.ts:54 | the cache starts empty |
| GuessApi.CacheStep | src/services/GuessAPI.ts:243-301 | only the request's key is added or changed. An entry younger than 24 hours answers with its games and the cache is unchanged. Otherwise, new valid games are stored stamped now with zero attempts and returned. Otherwise the entry (or an empty one stamped now) gets exactly one more attempt: below three attempts the fetch's error, or "No valid games found in the response", is rethrown; from three on, the top-100 fallback is returned |
| GuessApi.GamesCache.GetSteamSpyGames | src/services/GuessAPI.ts:243-301 | the result and the new cache are those of `CacheStep` on the old cache |
| GuessApi.GamesCache.GetGamesByMode | src/services/GuessAPI.ts:390-417 | a top-100 mode is the cache step for its own request name; genre mode needs a non-empty genre and reads the genre file without touching the cache |
| GuessApi.FirstFailureCachesEmptyList | src/services/GuessAPI.ts:284-292 | after a first failed request, a second call within 24 hours returns an empty list and neither fetches nor falls back |
| GuessApi.FallbackOnThirdStaleFailure | src/services/GuessAPI.ts:284-300 | three failures in a row, the later ones 24 hours after the first, end in the fallback games |
| GuessApi.StoreDetailsCache.constructor | src/services/GuessAPI.ts:55 | the cache starts empty |
| GuessApi.StoreDetailsCache.FetchStoreDetails | src/services/GuessAPI.ts:332-362 | a fresh entry answers without fetching; new details are cached; every failure gives null and leaves the cache alone |
| LegacyGaugeStore.ScoreStore.constructor | src/components/gauge/store.ts:21-25 | no games, scores 0, not loading |
| LegacyGaugeStore.ScoreStore.SetGames | src/components/gauge/store.ts:26 | only the pair of games changes |
| LegacyGaugeStore.ScoreStore.IncrementScore | src/components/gauge/store.ts:27-31 | the score rises by one and the high score becomes the larger of it and the old high score; consistency is kept |
| LegacyGaugeStore.ScoreStore.ResetGame | src/components/gauge/store.ts:32 | the score is zeroed and the games cleared; the high score stays |
| LegacyGaugeStore.ScoreStore.SetLoading | src/components/gauge/store.ts:33 | only the loading flag changes |
| LegacyGaugeStore.StreakThenReset | src/components/gauge/store.ts:27-32 | usage scenario: n increments and a reset leave score 0 and high score n |
| AboutPage.ReplaceRuns | src/about/AboutPage.tsx:29 | only slug characters, no two adjacent dashes, and the same letters and digits |
| AboutPage.StripDashesOfCollapsed | src/about/AboutPage.tsx:30 | stripping a collapsed string leaves no dash at either end and keeps every letter and digit |
| AboutPage.CreateId | src/about/AboutPage.tsx:25-31 | empty for a non-string; otherwise lower-case letters, digits and single inner dashes, with the letters and digits of the lower-cased text |
| AboutPage.ReplaceRunsFixesSlugs | src/about/AboutPage.tsx:29 | a string of slug characters without double dashes is left as it is |
| AboutPage.ReplaceRunsAppend | src/about/AboutPage.tsx:29 | a run of other characters never spans a cut after a letter or digit, so the two sides are replaced separately |
| AboutPage.ReplaceRunsJoin | src/about/AboutPage.tsx:29 | a whole run of non-slug characters between two texts becomes exactly one dash |
| AboutPage.CreateIdJoinsWords | src/about/AboutPage.tsx:25-31 | two lower-case words around any run of characters that are not letters or digits once lower-cased give the two words joined by one dash |
| AboutPage.CreateIdIdempotent | src/about/AboutPage.tsx:25-31 | an id is its own id |
| Header.PathSegments | src/components/layout/Header.tsx:15 | the non-empty pieces of the path, none containing a slash, every non-empty piece present; order and repeats are pinned by the lemmas below |
| Header.NonEmptyOfOne | src/components/layout/Header.tsx:15 | one piece is kept exactly when it is not empty |
| Header.NonEmptyAppend | src/components/layout/Header.tsx:15 | the filter works piece by piece, so it keeps the order and repeats of the pieces |
| Header.PathSegmentsOfJoin | src/components/layout/Header.tsx:15 | segments without slashes, joined by slashes, come back as the same segments in the same order, repeats included |
| Header.Capitalise | src/components/layout/Header.tsx:19-21 | the first character upper-cased and the rest kept |
| Header.DisplayName | src/components/layout/Header.tsx:17-18 | "steam-gauge" is shown as "Gauge Game" |
| Header.DisplayNameWords | src/components/layout/Header.tsx:19-21 | for any other blank-free segment, the words of the display name are exactly its capitalised dash-separated parts |
| Header.Crumbs | src/components/layout/Header.tsx:39-61 | one crumb per segment with its display name; every crumb links to its prefix path except the last, which is the current page |
| Header.CrumbHrefExtends | src/components/layout/Header.tsx:52 | each crumb's target extends the previous one by a slash and one segment |
| Header.CrumbHrefRoundTrip | src/components/layout/Header.tsx:52 | the path of crumb i splits back into the first i + 1 segments |
| GuessHints.SortByOrder | src/guess/GuessHints.tsx:85 | a permutation of the hints |
| GuessHints.SortByOrderSorts | src/guess/GuessHints.tsx:85 | the result is ordered by `order` |
| GuessHints.SortKeepsSorted | src/guess/GuessHints.tsx:85 | hints already in order come back unchanged |
| GuessHints.RevealedCount | src/guess/GuessHints.tsx:92 | at most the number of hints; 0 exactly when none is revealed, all exactly when all are |
| GuessHints.SortKeepsRevealedCount | src/guess/GuessHints.tsx:85-92 | sorting keeps the number of revealed hints |
| GuessHints.FreshLadderDisplay | src/guess/GuessHints.tsx:85-92 | a freshly prepared ladder is shown in its own order with exactly one hint revealed |
| GuessHints.HintClass | src/guess/GuessHints.tsx:35-49 | hidden hints are placeholders; revealed ones are enhanced exactly when they come from the store |
| GuessHints.HintTitle | src/guess/GuessHints.tsx:118-120 | both letter hints are titled "Letter Reveal"; the others show their type capitalised |
| GuessHints.HintTitleDistinguishes | src/guess/GuessHints.tsx:118-120 | two hint types share a title only when both are letter hints or they are the same type |
| GameCard.GetReviewStatus | src/gauge/GameCard.tsx:28-32 | positive from 70, mixed from 50 below 70, negative below 50 |
| GameCard.CardStatus | src/gauge/GameCard.tsx:34 | no status for a zero score, otherwise the review status |
| GameCard.StatusMonotone | src/gauge/GameCard.tsx:28-32 | a higher score never gets a worse status |
| GuessInput.WordPrefixImpliesContains | src/guess/GuessInput.tsx:44-47 | the word-prefix clause adds nothing: a name matches exactly when its lower-cased form contains the input |
| GuessInput.FilterMatchesExactly | src/guess/GuessInput.tsx:42-47 | the filter keeps exactly the pool names containing the input |
| GuessInput.FilterAppend | src/guess/GuessInput.tsx:42-47 | the filter keeps pool order |
| GuessInput.SuggestFor | src/guess/GuessInput.tsx:41-48 | the first min(5, matches) matching names, in pool order |
| GuessInput.Suggestions | src/guess/GuessInput.tsx:35-48 | nothing for a blank guess, at most five names otherwise |
| GuessInput.SuggestionsContainInput | src/guess/GuessInput.tsx:41-48 | every suggestion is a pool name containing the input |
| GuessInput.FewMatchesAllSuggested | src/guess/GuessInput.tsx:41-48 | with at most five matches, every matching name is suggested |
| GuessInput.SuggestionBox.constructor | src/guess/GuessInput.tsx:27-30 | empty guess, no suggestions, hidden list, no selection |
| GuessInput.SuggestionBox.Change | src/guess/GuessInput.tsx:117-120 | the guess becomes the typed text and the list is to be shown |
| GuessInput.SuggestionBox.Refresh | src/guess/GuessInput.tsx:35-53 | a blank guess empties the list but keeps the selection; any other guess recomputes, shows a non-empty list and clears the selection |
| GuessInput.SuggestionBox.RefreshCorrected | src/guess/GuessInput.tsx:35-53 | the effect with the selection cleared in both branches, so the selection is always in range |
| GuessInput.SuggestionBox.HandleSubmit | src/guess/GuessInput.tsx:55-63 | a blank guess, or a submission in flight, submits nothing; otherwise the guess is submitted, the box emptied and the list hidden |
| GuessInput.SuggestionBox.KeyDown | src/guess/GuessInput.tsx:65-94 | keys are ignored while the list is hidden; arrows move within -1 .. length - 1; Enter copies the selection or submits; Escape hides and clears; an in-range selection stays in range |
| GuessInput.StaleSelectionAfterClearing | src/guess/GuessInput.tsx:35-94 | as written, select "Apex" for "a", clear the box, press Enter: the guess becomes `undefined` |
| GuessInput.ClearingResetsSelection | src/guess/GuessInput.tsx:35-94 | with the corrected effect the same keys keep the empty guess and submit nothing |

## Left out

- Randomness: `Math.random` and the shuffle are a nondeterministic choice among the positions the code could pick. Uniformity is not modelled.
- Engine getters and setters: the `usedGameIds` getter hands out the live set and the setter copies. Sets are values here, so aliasing through the getter is not modelled.
- Timers and async: the reveal delays, `await` and other actions interleaving between a store method's two writes are not modelled. Each store method runs to completion, and its first write is kept as a ghost out-parameter.
- Persistence: `persist`, localStorage and rehydration are not modelled; only `partialize` is. The store methods require the invariant the constructor sets up and every action keeps, so states rehydrated from outside are not covered.
- Side effects: toasts and console output are not modelled.
- The network and parsing: `fetch`, JSON parsing, the CORS proxy, `AbortController` and the clock (`Date.now()`) are parameters. An outcome function gives each fetch attempt's result. The two `Date.now()` calls in one cache write are taken to be the same instant.
- Hint texts: the ladders and `generateHint` carry the value shown in each hint (score, count, name, letter, year), not the full sentence around it. Date parsing, `getFullYear` and `toLocaleString` formatting are not modelled.
- Floating point: `Math.round(p / t * 100)` is exact half-up rounding on integers. A float that rounds differently at an exact .5 boundary is not modelled.
- Characters: case mapping and whitespace are ASCII only. No Unicode case mapping is modelled.
- GaugeStore.GaugeStore.LoadInitialGames: the Gauge store calls `gaugeApi.getGamesByMode`, which src/services/GaugeAPI.ts does not define. The fetched pool, or the error, is therefore an input.
- GuessInput.SuggestionBox.HandleSubmit: an `undefined` guess (after the stale selection) is treated as nothing to submit, where the code would throw on `.trim()`.
- src/components/gauge/api.ts is not part of this model.
- Request URLs: `getSteamSpyGames` builds the SteamSpy URL from the request name, encodes it and sends it through the CORS proxy. The model keys the response by the request name and leaves URL building and encoding out.
- Interface rendering: the suggestion click handler, the outside-click handler, focus, icons and animation are not modelled.
- GuessHints.SortKeepsSorted: `Array.prototype.sort` stability is shown only for input already in order.
- Empty pools: `!modeState.gamePool` is false for an empty array.
  - The Guess store's `skipGame` then throws at `.id` before writing anything, so the model leaves the state unchanged.
  - The Gauge store's `makeGuess` throws after its first write, so the model keeps that write and stops.
- Mode keys: `setGameMode` writes to `genre-undefined` when no genre is given, while the later actions read `genre-null` from the stored genre. Both stores are modelled with this behaviour as written (see `ModeKeys.StoredKeyMatchesArgKey`, which holds only where the two agree).
- Two behaviours that the code comments and names suggest are modelled as the code does them:
  - A wrong guess appends the first available store hint every time, so it repeats the same hint (`GuessStore.RepeatedWrongGuesses`), rather than revealing the next hint in rank order.
  - The top-100 fallback is reached on the third failed call of `getSteamSpyGames`, counted across calls. After a first failure, the empty cache entry answers every call for 24 hours (`GuessApi.FirstFailureCachesEmptyList`).

## Findings

| source | as written | input that shows it | evidently intended | confidence | as-written member | corrected member |
|---|---|---|---|---|---|---|
| src/guess/GuessInput.tsx:35-39 | a blank guess empties the suggestion list but leaves `selectedIndex` where it was, so Enter then copies `suggestions[selectedIndex]`, which is `undefined`, into the guess | pool ["Apex"]: type "a", press ArrowDown, clear the box, press Enter | clearing the box also clears the selection, so Enter on an empty box submits nothing | not executed | GuessInput.StaleSelectionAfterClearing | GuessInput.ClearingResetsSelection |
