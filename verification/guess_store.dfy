/**
 * The Guess (Artfuscation) game's session store: the selected mode, a
 * loading flag and one round state per mode key. A round shows one game,
 * sharpens its picture after each wrong guess and collects store-details
 * hints. The actions that end a round write twice, the reveal and then,
 * after the reveal animation, the next round; here the two writes are
 * consecutive.
 */
module GuessStore {
  import opened Wrappers
  import opened Text
  import opened Scoring
  import opened ModeKeys
  import opened Rotation
  import opened GuessTypes
  import opened GuessEngine

  // ---- generateHint ----

  /** The priority of a hint kind: release year first, Metacritic score last. */
  function Rank(k: StoreHintKind): nat {
    match k
    case ReleaseYear => 0
    case DeveloperName => 1
    case GenreName => 2
    case PopularTag => 3
    case MetacriticScore => 4
  }

  /** The store details hold what a hint of kind `k` quotes (a truthy field). */
  predicate HasKind(d: StoreDetails, k: StoreHintKind) {
    match k
    case ReleaseYear => d.releaseDate != ""
    case DeveloperName => |d.developers| > 0 && d.developers[0] != ""
    case GenreName => |d.genres| > 0
    case PopularTag => |d.tags| > 0
    case MetacriticScore => d.metacritic.Some? && d.metacritic.value != 0
  }

  /** The hint of kind `k` for these details. */
  function HintOfKind(d: StoreDetails, k: StoreHintKind): StoreHint
    requires HasKind(d, k)
  {
    match k
    case ReleaseYear => StoreHint(ReleaseYear, d.releaseDate)
    case DeveloperName => StoreHint(DeveloperName, d.developers[0])
    case GenreName => StoreHint(GenreName, d.genres[0].description)
    case PopularTag => StoreHint(PopularTag, d.tags[0].name)
    case MetacriticScore => StoreHint(MetacriticScore, IntToString(d.metacritic.value))
  }

  /** The list `generateHint` builds: one hint per truthy field, in priority order. */
  function AvailableHints(d: StoreDetails): seq<StoreHint> {
    (if HasKind(d, ReleaseYear) then [HintOfKind(d, ReleaseYear)] else [])
    + (if HasKind(d, DeveloperName) then [HintOfKind(d, DeveloperName)] else [])
    + (if HasKind(d, GenreName) then [HintOfKind(d, GenreName)] else [])
    + (if HasKind(d, PopularTag) then [HintOfKind(d, PopularTag)] else [])
    + (if HasKind(d, MetacriticScore) then [HintOfKind(d, MetacriticScore)] else [])
  }

  /**
   * `generateHint`: nothing without store details; otherwise the hint of
   * the highest-priority kind the details support, or nothing when they
   * support none.
   */
  function GenerateHint(game: Game): (r: Option<StoreHint>)
    ensures game.storeDetails.None? ==> r.None?
    ensures game.storeDetails.Some? ==>
      var d := game.storeDetails.value;
      (r.None? <==> forall k :: !HasKind(d, k))
      && (r.Some? ==>
            HasKind(d, r.value.kind) && r.value == HintOfKind(d, r.value.kind)
            && forall k :: Rank(k) < Rank(r.value.kind) ==> !HasKind(d, k))
  {
    if game.storeDetails.None? then None
    else
      var availableHints := AvailableHints(game.storeDetails.value);
      if |availableHints| > 0 then Some(availableHints[0]) else None
  }

  // ---- Round state ----

  /** The state kept for one mode key. */
  datatype ModeState = ModeState(
    gamePool: seq<Game>,
    usedGameIds: set<int>,
    currentScore: int,
    highScore: int,
    currentState: GameState)

  /** `createInitialModeState()`. */
  const InitialModeState := ModeState([], {}, 0, 0, InitialGameState)

  /** The persisted part of one mode state. */
  datatype ScoreSnapshot = ScoreSnapshot(highScore: int, currentScore: int)

  /** The last pixelation level: the picture is clear and the round is over. */
  const LastLevel := 6

  /**
   * An entry at rest: consistent scores, a pixelation level before the
   * last, and a shown game that belongs to the pool.
   */
  predicate EntryValid(ms: ModeState) {
    0 <= ms.currentScore <= ms.highScore
    && 1 <= ms.currentState.pixelationLevel < LastLevel
    && (ms.currentState.currentGame.Some? ==> ms.currentState.currentGame.value in ms.gamePool)
  }

  ghost predicate AllEntriesValid(states: map<string, ModeState>) {
    forall k :: k in states ==> EntryValid(states[k])
  }

  /** A wrong guess sharpens the picture by one level, up to the last. */
  function NextPixelation(level: int): int {
    if level < LastLevel then level + 1 else level
  }

  /** `newHint ? [...hints, newHint] : hints`. */
  function WithHint(hints: seq<StoreHint>, hint: Option<StoreHint>): seq<StoreHint> {
    if hint.Some? then hints + [hint.value] else hints
  }

  /** The hint a wrong guess appends for the round's game. */
  function WrongGuessHint(cs: GameState): Option<StoreHint> {
    if cs.currentGame.Some? then GenerateHint(cs.currentGame.value) else None
  }

  /** Whether a guess ends the round: it is correct, or it is the wrong guess that reaches the last level. */
  predicate EndsRound(ms: ModeState, correct: bool) {
    correct || NextPixelation(ms.currentState.pixelationLevel) == LastLevel
  }

  /**
   * The first (or only) write of `makeGuess`. Correct: one more point, the
   * high score follows, the game is revealed. Wrong: one level sharper and
   * the hint appended; at the last level the score drops to 0 and the game
   * is revealed.
   */
  function GuessStep(ms: ModeState, correct: bool): ModeState {
    var cs := ms.currentState;
    if correct then
      ms.(currentScore := ms.currentScore + 1,
          highScore := Max(ms.highScore, ms.currentScore + 1),
          currentState := cs.(revealed := true))
    else
      var level := NextPixelation(cs.pixelationLevel);
      var hints := WithHint(cs.hints, WrongGuessHint(cs));
      if level == LastLevel then
        ms.(currentScore := 0, currentState := cs.(pixelationLevel := level, hints := hints, revealed := true))
      else
        ms.(currentState := cs.(pixelationLevel := level, hints := hints))
  }

  /** The write that installs the next game: the engine's used ids and a fresh round, other fields kept. */
  function NextRoundStep(ms: ModeState, usedIds: set<int>, next: Option<Game>): ModeState {
    ms.(usedGameIds := usedIds, currentState := FreshRound(next))
  }

  /** The entry `loadInitialGames` installs: a fresh state over the fetched pool, keeping any scores. */
  function LoadedState(existing: Option<ModeState>, games: seq<Game>, usedIds: set<int>, first: Option<Game>): ModeState {
    var firstHint := if first.Some? then GenerateHint(first.value) else None;
    var currentScore := if existing.Some? then existing.value.currentScore else 0;
    var highScore := if existing.Some? then existing.value.highScore else 0;
    InitialModeState.(gamePool := games, usedGameIds := usedIds,
                      currentScore := currentScore, highScore := highScore,
                      currentState := FreshRound(first).(hints := WithHint([], firstHint)))
  }

  /** The entry `resetCurrentMode` installs: a fresh state keeping only the high score. */
  function ResetState(existing: Option<ModeState>): ModeState {
    InitialModeState.(highScore := if existing.Some? then existing.value.highScore else 0)
  }

  /** The entry stored under `key`, if any. */
  function Lookup(states: map<string, ModeState>, key: string): (r: Option<ModeState>)
    ensures r.Some? <==> key in states
    ensures r.Some? ==> r.value == states[key]
  {
    if key in states then Some(states[key]) else None
  }

  /** The `partialize` snapshot: the two score fields of every entry. */
  function Partialize(states: map<string, ModeState>): (r: map<string, ScoreSnapshot>)
    ensures r.Keys == states.Keys
    ensures forall k :: k in r ==>
      r[k].highScore == states[k].highScore && r[k].currentScore == states[k].currentScore
  {
    map k | k in states :: ScoreSnapshot(states[k].highScore, states[k].currentScore)
  }

  // ---- Properties of the steps ----

  /**
   * A correct guess adds one point, lifts the high score to at least the
   * new score without lowering it, and reveals the game; the pool, used
   * ids, level and hints stay.
   */
  lemma CorrectGuessScores(ms: ModeState)
    requires EntryValid(ms)
    ensures var r := GuessStep(ms, true);
      r.currentScore == ms.currentScore + 1
      && r.highScore >= ms.highScore && r.highScore >= r.currentScore
      && (r.highScore > ms.highScore ==> r.highScore == r.currentScore)
      && r.currentState.revealed
      && r.gamePool == ms.gamePool && r.usedGameIds == ms.usedGameIds
      && r.currentState.pixelationLevel == ms.currentState.pixelationLevel
      && r.currentState.hints == ms.currentState.hints
  {
  }

  /**
   * A wrong guess sharpens the picture by exactly one level and appends at
   * most one hint, always the one `generateHint` gives for the game.
   */
  lemma WrongGuessSharpens(ms: ModeState)
    requires EntryValid(ms)
    ensures var r := GuessStep(ms, false);
      r.currentState.pixelationLevel == ms.currentState.pixelationLevel + 1 <= LastLevel
      && r.currentState.hints == WithHint(ms.currentState.hints, WrongGuessHint(ms.currentState))
      && |ms.currentState.hints| <= |r.currentState.hints| <= |ms.currentState.hints| + 1
      && r.currentState.currentGame == ms.currentState.currentGame
  {
  }

  /**
   * The wrong guess that reaches the last level resets the score, keeps the
   * high score and reveals the game; any earlier wrong guess changes only
   * the level and the hints.
   */
  lemma WrongGuessScores(ms: ModeState)
    requires EntryValid(ms)
    ensures var r := GuessStep(ms, false);
      r.highScore == ms.highScore && r.gamePool == ms.gamePool && r.usedGameIds == ms.usedGameIds
      && (EndsRound(ms, false) ==> r.currentScore == 0 && r.currentState.revealed)
      && (!EndsRound(ms, false) ==>
            r.currentScore == ms.currentScore
            && r.currentState == ms.currentState.(pixelationLevel := r.currentState.pixelationLevel,
                                                  hints := r.currentState.hints))
  {
  }

  /**
   * A guess keeps the pool, the game and consistent scores; one that does
   * not end the round leaves a valid entry.
   */
  lemma GuessStepKeepsValid(ms: ModeState, correct: bool)
    requires EntryValid(ms)
    ensures var r := GuessStep(ms, correct);
      r.gamePool == ms.gamePool && r.currentState.currentGame == ms.currentState.currentGame
      && 0 <= r.currentScore <= r.highScore
      && (!EndsRound(ms, correct) ==> EntryValid(r))
  {
  }

  /** `n` wrong guesses in a row, none of them the last. */
  function WrongGuesses(ms: ModeState, n: nat): ModeState
    requires ms.currentState.pixelationLevel + n < LastLevel
  {
    if n == 0 then ms else GuessStep(WrongGuesses(ms, n - 1), false)
  }

  /** `n` copies of the hint, or nothing when there is none. */
  function Copies(hint: Option<StoreHint>, n: nat): (r: seq<StoreHint>)
    ensures hint.None? ==> r == []
    ensures hint.Some? ==> |r| == n && forall i :: 0 <= i < n ==> r[i] == hint.value
  {
    if n == 0 || hint.None? then [] else Copies(hint, n - 1) + [hint.value]
  }

  /**
   * Every wrong guess appends the same hint: after `n` wrong guesses that
   * do not end the round, the hints are the old hints followed by `n`
   * copies of the game's first available hint, the level has risen by `n`
   * and the scores, pool and used ids are unchanged.
   */
  lemma {:induction false} RepeatedWrongGuesses(ms: ModeState, n: nat)
    requires ms.currentState.pixelationLevel + n < LastLevel
    ensures var r := WrongGuesses(ms, n);
      r.currentState.hints == ms.currentState.hints + Copies(WrongGuessHint(ms.currentState), n)
      && r.currentState.pixelationLevel == ms.currentState.pixelationLevel + n
      && r.currentState.currentGame == ms.currentState.currentGame
      && r.currentScore == ms.currentScore && r.highScore == ms.highScore
      && r.gamePool == ms.gamePool && r.usedGameIds == ms.usedGameIds
  {
    if n > 0 {
      RepeatedWrongGuesses(ms, n - 1);
      var h := WrongGuessHint(ms.currentState);
      var prev := WrongGuesses(ms, n - 1);
      assert WrongGuessHint(prev.currentState) == h;
      if h.Some? {
        assert ms.currentState.hints + Copies(h, n)
            == (ms.currentState.hints + Copies(h, n - 1)) + [h.value];
      }
    }
  }

  /** A fresh round after a draw keeps the entry valid when the drawn game is from the pool. */
  lemma NextRoundKeepsValid(ms: ModeState, usedIds: set<int>, next: Option<Game>)
    requires 0 <= ms.currentScore <= ms.highScore
    requires next.Some? ==> next.value in ms.gamePool
    ensures var r := NextRoundStep(ms, usedIds, next);
      EntryValid(r) && r.currentScore == ms.currentScore && r.highScore == ms.highScore
      && r.currentState.pixelationLevel == 1 && r.currentState.hints == [] && !r.currentState.revealed
  {
  }

  /** Loading carries over the scores of an existing entry, starts at 0 otherwise, and opens with at most the first hint. */
  lemma LoadKeepsScores(existing: Option<ModeState>, games: seq<Game>, usedIds: set<int>, first: Option<Game>)
    requires existing.Some? ==> EntryValid(existing.value)
    requires first.Some? ==> first.value in games
    ensures var r := LoadedState(existing, games, usedIds, first);
      EntryValid(r) && r.gamePool == games
      && (existing.Some? ==> r.currentScore == existing.value.currentScore && r.highScore == existing.value.highScore)
      && (existing.None? ==> r.currentScore == 0 && r.highScore == 0)
      && |r.currentState.hints| <= 1
  {
  }

  /** Resetting zeroes the score, keeps the high score and empties pool, used ids and round. */
  lemma ResetKeepsHighScore(existing: Option<ModeState>)
    requires existing.Some? ==> EntryValid(existing.value)
    ensures var r := ResetState(existing);
      EntryValid(r) && r.currentScore == 0 && r.gamePool == [] && r.usedGameIds == {}
      && r.currentState == InitialGameState
      && r.highScore == (if existing.Some? then existing.value.highScore else 0)
  {
  }

  /** Storing a valid entry keeps every entry valid. */
  lemma UpdateKeepsValid(states: map<string, ModeState>, key: string, entry: ModeState)
    requires AllEntriesValid(states) && EntryValid(entry)
    ensures AllEntriesValid(states[key := entry])
  {
  }

  /**
   * The second write of the actions that end a round: an engine over the
   * entry's pool, primed with its used ids, draws the next game, and `base`
   * receives the engine's used ids and a fresh round showing that game.
   */
  method DrawNextRound(ms: ModeState, base: ModeState) returns (next: ModeState)
    requires base.gamePool == ms.gamePool && 0 <= base.currentScore <= base.highScore
    ensures Drawn(ms.gamePool, ms.usedGameIds, next.currentState.currentGame, next.usedGameIds)
    ensures next == NextRoundStep(base, next.usedGameIds, next.currentState.currentGame)
    ensures EntryValid(next)
  {
    var engine := new GuessEngine(ms.gamePool);
    engine.SetUsedGameIds(ms.usedGameIds);
    var nextGame := engine.SelectNewGame();
    DrawnFromPool(ms.gamePool, ms.usedGameIds, nextGame, engine.usedGameIds);
    NextRoundKeepsValid(base, engine.usedGameIds, nextGame);
    next := NextRoundStep(base, engine.usedGameIds, nextGame);
  }

  // ---- The store ----

  class GuessStore {
    var currentMode: Option<Mode>
    var currentGenre: Option<string>
    var isLoading: bool
    var gameModeStates: map<string, ModeState>

    ghost predicate Valid()
      reads this
    {
      AllEntriesValid(gameModeStates)
    }

    constructor ()
      ensures Valid()
      ensures currentMode == None && currentGenre == None && !isLoading && gameModeStates == map[]
    {
      currentMode := None;
      currentGenre := None;
      isLoading := false;
      gameModeStates := map[];
    }

    /** The key every action but `setGameMode` reads: built from the stored mode and genre. */
    function CurrentKey(): string
      reads this
    {
      StoredKey(currentMode, currentGenre)
    }

    /**
     * `setGameMode`: returns at once when the stored mode and genre equal
     * the arguments; otherwise selects the mode, stores `genre || null`,
     * creates the entry under the argument's key only if it is missing, and
     * sets `isLoading` when that entry has no games.
     */
    method SetGameMode(mode: Mode, genre: Option<string>)
      requires Valid()
      modifies this
      ensures Valid()
      ensures SameSelection(old(currentMode), old(currentGenre), mode, genre) ==>
        currentMode == old(currentMode) && currentGenre == old(currentGenre)
        && isLoading == old(isLoading) && gameModeStates == old(gameModeStates)
      ensures !SameSelection(old(currentMode), old(currentGenre), mode, genre) ==>
        var key := ArgKey(mode, genre);
        currentMode == Some(mode) && currentGenre == StoredGenre(genre)
        && (key in old(gameModeStates) ==> gameModeStates == old(gameModeStates))
        && (key !in old(gameModeStates) ==> gameModeStates == old(gameModeStates)[key := InitialModeState])
        && (isLoading <==> key !in old(gameModeStates) || old(gameModeStates)[key].gamePool == [])
    {
      if SameSelection(currentMode, currentGenre, mode, genre) {
        return;
      }
      var modeKey := ArgKey(mode, genre);
      var existing := Lookup(gameModeStates, modeKey);
      var newModeState := if existing.Some? then existing.value else InitialModeState;
      var needsGames := existing.None? || |newModeState.gamePool| == 0;
      currentMode := Some(mode);
      currentGenre := StoredGenre(genre);
      isLoading := needsGames;
      gameModeStates := gameModeStates[modeKey := newModeState];
    }

    /**
     * `makeGuess`: false and no change without a game on screen. Otherwise
     * the guess is checked and the first write made (`afterReveal` is the
     * map after it); a correct guess, or the wrong guess that reaches the
     * last level, then draws the next game with an engine over the entry's
     * pool and used ids and installs a fresh round. The result is whether
     * the guess was correct.
     */
    method MakeGuess(guess: string) returns (r: bool, ghost afterReveal: map<string, ModeState>)
      requires Valid()
      modifies this
      ensures Valid()
      ensures currentMode == old(currentMode) && currentGenre == old(currentGenre) && isLoading == old(isLoading)
      ensures var key := CurrentKey();
        if key !in old(gameModeStates) || old(gameModeStates)[key].currentState.currentGame.None? then
          !r && afterReveal == old(gameModeStates) && gameModeStates == old(gameModeStates)
        else
          var ms := old(gameModeStates)[key];
          r == CheckGuess(guess, ms.currentState.currentGame)
          && afterReveal == old(gameModeStates)[key := GuessStep(ms, r)]
          && (!EndsRound(ms, r) ==> gameModeStates == afterReveal)
          && (EndsRound(ms, r) ==>
                key in gameModeStates
                && gameModeStates == old(gameModeStates)[key := gameModeStates[key]]
                && var next := gameModeStates[key];
                   Drawn(ms.gamePool, ms.usedGameIds, next.currentState.currentGame, next.usedGameIds)
                   && next == NextRoundStep(GuessStep(ms, r), next.usedGameIds, next.currentState.currentGame))
    {
      var modeKey := CurrentKey();
      var found := Lookup(gameModeStates, modeKey);
      if found.None? || found.value.currentState.currentGame.None? {
        r := false;
        afterReveal := gameModeStates;
        return;
      }
      var modeState := found.value;
      var isCorrect := CheckGuess(guess, modeState.currentState.currentGame);
      r := isCorrect;
      var before := gameModeStates;
      var first := GuessStep(modeState, isCorrect);
      GuessStepKeepsValid(modeState, isCorrect);
      afterReveal := before[modeKey := first];
      if !EndsRound(modeState, isCorrect) {
        UpdateKeepsValid(before, modeKey, first);
        gameModeStates := before[modeKey := first];
        return;
      }
      var next := DrawNextRound(modeState, first);
      UpdateKeepsValid(before, modeKey, next);
      gameModeStates := before[modeKey := next];
    }

    /** `revealHint`: appends the game's first available hint, if there is a game and a hint. */
    method RevealHint()
      requires Valid()
      modifies this
      ensures Valid()
      ensures currentMode == old(currentMode) && currentGenre == old(currentGenre) && isLoading == old(isLoading)
      ensures var key := CurrentKey();
        if key !in old(gameModeStates) || old(gameModeStates)[key].currentState.currentGame.None?
           || GenerateHint(old(gameModeStates)[key].currentState.currentGame.value).None? then
          gameModeStates == old(gameModeStates)
        else
          var ms := old(gameModeStates)[key];
          var hint := GenerateHint(ms.currentState.currentGame.value).value;
          gameModeStates == old(gameModeStates)[key := ms.(currentState := ms.currentState.(hints := ms.currentState.hints + [hint]))]
    {
      var modeKey := CurrentKey();
      var found := Lookup(gameModeStates, modeKey);
      if found.None? || found.value.currentState.currentGame.None? {
        return;
      }
      var modeState := found.value;
      var newHint := GenerateHint(modeState.currentState.currentGame.value);
      if newHint.None? {
        return;
      }
      var cs := modeState.currentState;
      gameModeStates := gameModeStates[modeKey := modeState.(currentState := cs.(hints := cs.hints + [newHint.value]))];
    }

    /**
     * `loadInitialGames`: nothing without a current mode, nor when the
     * current entry already has games. Otherwise `isLoading` is raised, the
     * pool is fetched (`fetched` is the outcome of that request) and a
     * first game is drawn; on success the entry is replaced by a fresh
     * state over the pool that keeps any earlier scores and opens with the
     * game's first hint. A failed fetch, or an empty pool that makes the
     * draw throw, only lowers `isLoading` again.
     */
    method LoadInitialGames(fetched: Result<seq<Game>>)
      requires Valid()
      modifies this
      ensures Valid()
      ensures currentMode == old(currentMode) && currentGenre == old(currentGenre)
      ensures var key := CurrentKey();
        if old(currentMode).None? || (key in old(gameModeStates) && old(gameModeStates)[key].gamePool != []) then
          isLoading == old(isLoading) && gameModeStates == old(gameModeStates)
        else if fetched.Failure? || fetched.value == [] then
          !isLoading && gameModeStates == old(gameModeStates)
        else
          !isLoading && key in gameModeStates
          && gameModeStates == old(gameModeStates)[key := gameModeStates[key]]
          && var loaded := gameModeStates[key];
             Drawn(fetched.value, {}, loaded.currentState.currentGame, loaded.usedGameIds)
             && loaded == LoadedState(Lookup(old(gameModeStates), key), fetched.value,
                                      loaded.usedGameIds, loaded.currentState.currentGame)
    {
      if currentMode.None? {
        return;
      }
      var modeKey := CurrentKey();
      var existing := Lookup(gameModeStates, modeKey);
      if existing.Some? && |existing.value.gamePool| > 0 {
        return;
      }
      isLoading := true;
      if fetched.Failure? {
        isLoading := false;
        return;
      }
      var games := fetched.value;
      var engine := new GuessEngine(games);
      var initialGame := engine.SelectNewGame();
      if initialGame.None? {
        isLoading := false;
        return;
      }
      var loaded := LoadedState(existing, games, engine.usedGameIds, initialGame);
      LoadKeepsScores(existing, games, engine.usedGameIds, initialGame);
      isLoading := false;
      gameModeStates := gameModeStates[modeKey := loaded];
    }

    /**
     * `skipGame`: with an entry for the current key, draws the next game
     * and installs a fresh round with the score reset and the high score
     * kept. An empty pool makes the draw throw before anything is written.
     */
    method SkipGame()
      requires Valid()
      modifies this
      ensures Valid()
      ensures currentMode == old(currentMode) && currentGenre == old(currentGenre) && isLoading == old(isLoading)
      ensures var key := CurrentKey();
        if key !in old(gameModeStates) || old(gameModeStates)[key].gamePool == [] then
          gameModeStates == old(gameModeStates)
        else
          var ms := old(gameModeStates)[key];
          key in gameModeStates
          && gameModeStates == old(gameModeStates)[key := gameModeStates[key]]
          && var next := gameModeStates[key];
             Drawn(ms.gamePool, ms.usedGameIds, next.currentState.currentGame, next.usedGameIds)
             && next == NextRoundStep(ms.(currentScore := 0), next.usedGameIds, next.currentState.currentGame)
    {
      var modeKey := CurrentKey();
      var found := Lookup(gameModeStates, modeKey);
      if found.None? {
        return;
      }
      var modeState := found.value;
      if modeState.gamePool == [] {
        // the draw throws on an empty pool, before the write
        return;
      }
      var next := DrawNextRound(modeState, modeState.(currentScore := 0));
      gameModeStates := gameModeStates[modeKey := next];
    }

    /** `resetCurrentMode`: the current entry becomes a fresh state that keeps only the high score. */
    method ResetCurrentMode()
      requires Valid()
      modifies this
      ensures Valid()
      ensures currentMode == old(currentMode) && currentGenre == old(currentGenre) && isLoading == old(isLoading)
      ensures gameModeStates == old(gameModeStates)[CurrentKey() := ResetState(Lookup(old(gameModeStates), CurrentKey()))]
    {
      var modeKey := CurrentKey();
      var existing := Lookup(gameModeStates, modeKey);
      ResetKeepsHighScore(existing);
      gameModeStates := gameModeStates[modeKey := ResetState(existing)];
    }
  }
}
