/**
 * The Gauge game's session store: the selected mode, a loading flag and one
 * round state per mode key (pool, used ids, score, high score, current
 * round). `makeGuess` writes twice, first the reveal and then, after the
 * reveal animation, the next round; here the two writes are consecutive.
 */
module GaugeStore {
  import opened Wrappers
  import opened Scoring
  import opened ModeKeys
  import opened Rotation
  import opened GaugeTypes
  import opened GaugeEngine

  /** The state kept for one mode key. */
  datatype ModeState = ModeState(
    gamePool: seq<Game>,
    usedGameIds: set<int>,
    currentScore: int,
    highScore: int,
    currentState: GameState)

  /** `createInitialModeState()`. */
  const InitialModeState := ModeState([], {}, 0, 0, InitialGameState)

  /** The persisted part of one mode state. */
  datatype ScoreSnapshot = ScoreSnapshot(highScore: int, currentScore: int)

  /** Scores are never negative and the high score is at least the current score. */
  predicate ScoresConsistent(ms: ModeState) {
    0 <= ms.currentScore <= ms.highScore
  }

  ghost predicate AllScoresConsistent(states: map<string, ModeState>) {
    forall k :: k in states ==> ScoresConsistent(states[k])
  }

  /**
   * The first write of `makeGuess`: the new score is one more after a
   * correct pick and 0 after a wrong one, the high score is the larger of
   * the old high score and the new score, and the round is revealed and
   * marked as transitioning.
   */
  function RevealStep(ms: ModeState, position: Position): ModeState {
    var newScore := if CheckGuess(position, ms.currentState) then ms.currentScore + 1 else 0;
    ms.(currentScore := newScore,
        highScore := Max(ms.highScore, newScore),
        currentState := ms.currentState.(revealed := true, isTransitioning := true))
  }

  /** The second write of `makeGuess`: the next round and the engine's used ids, same scores. */
  function NextRoundStep(revealed: ModeState, usedIds: set<int>, round: GameState): ModeState {
    revealed.(usedGameIds := usedIds, currentState := round.(isTransitioning := false))
  }

  /** The entry `loadInitialGames` installs: a fresh state over the fetched pool, keeping any scores. */
  function LoadedState(existing: Option<ModeState>, games: seq<Game>, usedIds: set<int>, round: GameState): ModeState {
    var currentScore := if existing.Some? then existing.value.currentScore else 0;
    var highScore := if existing.Some? then existing.value.highScore else 0;
    InitialModeState.(gamePool := games, usedGameIds := usedIds,
                      currentScore := currentScore, highScore := highScore, currentState := round)
  }

  /** The entry `resetCurrentMode` installs: a fresh state keeping only the high score. */
  function ResetState(existing: Option<ModeState>): ModeState {
    InitialModeState.(highScore := if existing.Some? then existing.value.highScore else 0)
  }

  /** The entry stored under `key`, if any. */
  function Lookup(states: map<string, ModeState>, key: string): (r: Option<ModeState>)
    ensures r.Some? <==> key in states
    ensures r.Some? ==> r.value == states[key]
  {
    if key in states then Some(states[key]) else None
  }

  /** The `partialize` snapshot: the two score fields of every entry. */
  function Partialize(states: map<string, ModeState>): (r: map<string, ScoreSnapshot>)
    ensures r.Keys == states.Keys
    ensures forall k :: k in r ==>
      r[k].highScore == states[k].highScore && r[k].currentScore == states[k].currentScore
  {
    map k | k in states :: ScoreSnapshot(states[k].highScore, states[k].currentScore)
  }

  /**
   * A pick scores exactly when it is right: the new score is positive iff
   * the pick was correct, and then it is one more than before.
   */
  lemma RevealScoresThePick(ms: ModeState, position: Position)
    requires ScoresConsistent(ms)
    ensures RevealStep(ms, position).currentScore > 0 <==> CheckGuess(position, ms.currentState)
    ensures CheckGuess(position, ms.currentState) ==>
      RevealStep(ms, position).currentScore == ms.currentScore + 1
  {
  }

  /**
   * The reveal keeps scores consistent, never lowers the high score, and
   * raises it only to a new current score.
   */
  lemma RevealKeepsScores(ms: ModeState, position: Position)
    requires ScoresConsistent(ms)
    ensures ScoresConsistent(RevealStep(ms, position))
    ensures RevealStep(ms, position).highScore >= ms.highScore
    ensures RevealStep(ms, position).highScore > ms.highScore ==>
      RevealStep(ms, position).highScore == RevealStep(ms, position).currentScore
  {
  }

  /** The reveal keeps both games and the pool, and leaves the round revealed and transitioning. */
  lemma RevealKeepsRound(ms: ModeState, position: Position)
    ensures var r := RevealStep(ms, position);
      r.currentState.leftGame == ms.currentState.leftGame
      && r.currentState.rightGame == ms.currentState.rightGame
      && r.currentState.revealed && r.currentState.isTransitioning
      && r.gamePool == ms.gamePool && r.usedGameIds == ms.usedGameIds
  {
  }

  /** The next round keeps the scores and the pool and is shown unrevealed and settled. */
  lemma NextRoundKeepsScores(revealed: ModeState, usedIds: set<int>, round: GameState)
    requires !round.revealed
    ensures var r := NextRoundStep(revealed, usedIds, round);
      r.currentScore == revealed.currentScore && r.highScore == revealed.highScore
      && r.gamePool == revealed.gamePool
      && !r.currentState.revealed && !r.currentState.isTransitioning
      && ScoresConsistent(r) == ScoresConsistent(revealed)
  {
  }

  /** Loading carries over the scores of an existing entry and starts at 0 otherwise. */
  lemma LoadKeepsScores(existing: Option<ModeState>, games: seq<Game>, usedIds: set<int>, round: GameState)
    ensures var r := LoadedState(existing, games, usedIds, round);
      r.gamePool == games
      && (existing.Some? ==> r.currentScore == existing.value.currentScore && r.highScore == existing.value.highScore)
      && (existing.None? ==> r.currentScore == 0 && r.highScore == 0)
      && (existing.Some? && ScoresConsistent(existing.value) ==> ScoresConsistent(r))
      && (existing.None? ==> ScoresConsistent(r))
  {
  }

  /** Resetting zeroes the score, keeps the high score and empties pool, used ids and round. */
  lemma ResetKeepsHighScore(existing: Option<ModeState>)
    requires existing.Some? ==> ScoresConsistent(existing.value)
    ensures var r := ResetState(existing);
      r.currentScore == 0 && r.gamePool == [] && r.usedGameIds == {} && r.currentState == InitialGameState
      && r.highScore == (if existing.Some? then existing.value.highScore else 0)
      && ScoresConsistent(r)
  {
  }

  /** The persisted snapshot of consistent states is consistent. */
  lemma PartializeKeepsConsistency(states: map<string, ModeState>)
    requires AllScoresConsistent(states)
    ensures forall k :: k in Partialize(states) ==>
      0 <= Partialize(states)[k].currentScore <= Partialize(states)[k].highScore
  {
  }

  class GaugeStore {
    var currentMode: Option<Mode>
    var currentGenre: Option<string>
    var isLoading: bool
    var gameModeStates: map<string, ModeState>

    ghost predicate Valid()
      reads this
    {
      AllScoresConsistent(gameModeStates)
    }

    constructor ()
      ensures Valid()
      ensures currentMode == None && currentGenre == None && !isLoading && gameModeStates == map[]
    {
      currentMode := None;
      currentGenre := None;
      isLoading := false;
      gameModeStates := map[];
    }

    /** The key every action but `setGameMode` reads: built from the stored mode and genre. */
    function CurrentKey(): string
      reads this
    {
      StoredKey(currentMode, currentGenre)
    }

    /**
     * `setGameMode`: returns at once when the stored mode and genre equal
     * the arguments; otherwise selects the mode, stores `genre || null`,
     * creates the entry under the argument's key only if it is missing, and
     * sets `isLoading` when that entry has no games.
     */
    method SetGameMode(mode: Mode, genre: Option<string>)
      requires Valid()
      modifies this
      ensures Valid()
      ensures SameSelection(old(currentMode), old(currentGenre), mode, genre) ==>
        currentMode == old(currentMode) && currentGenre == old(currentGenre)
        && isLoading == old(isLoading) && gameModeStates == old(gameModeStates)
      ensures !SameSelection(old(currentMode), old(currentGenre), mode, genre) ==>
        var key := ArgKey(mode, genre);
        currentMode == Some(mode) && currentGenre == StoredGenre(genre)
        && (key in old(gameModeStates) ==> gameModeStates == old(gameModeStates))
        && (key !in old(gameModeStates) ==> gameModeStates == old(gameModeStates)[key := InitialModeState])
        && (isLoading <==> key !in old(gameModeStates) || old(gameModeStates)[key].gamePool == [])
    {
      if SameSelection(currentMode, currentGenre, mode, genre) {
        return;
      }
      var modeKey := ArgKey(mode, genre);
      var existing := Lookup(gameModeStates, modeKey);
      var newModeState := if existing.Some? then existing.value else InitialModeState;
      var needsGames := existing.None? || |newModeState.gamePool| == 0;
      currentMode := Some(mode);
      currentGenre := StoredGenre(genre);
      isLoading := needsGames;
      gameModeStates := gameModeStates[modeKey := newModeState];
    }

    /**
     * `makeGuess`: nothing happens without an entry for the current key or
     * while its round is transitioning. Otherwise the reveal is written
     * (`afterReveal` is the map after that first write), then a new pair is
     * drawn with an engine over the entry's pool and used ids and the next
     * round is written. A pool of fewer than two games makes the draw throw,
     * which leaves the first write in place.
     */
    method MakeGuess(position: Position) returns (ghost afterReveal: map<string, ModeState>)
      requires Valid()
      modifies this
      ensures Valid()
      ensures currentMode == old(currentMode) && currentGenre == old(currentGenre) && isLoading == old(isLoading)
      ensures var key := CurrentKey();
        if key !in old(gameModeStates) || old(gameModeStates)[key].currentState.isTransitioning then
          afterReveal == old(gameModeStates) && gameModeStates == old(gameModeStates)
        else
          var ms := old(gameModeStates)[key];
          var revealed := RevealStep(ms, position);
          afterReveal == old(gameModeStates)[key := revealed]
          && (|ms.gamePool| < 2 ==> gameModeStates == afterReveal)
          && (|ms.gamePool| >= 2 ==>
                key in gameModeStates
                && gameModeStates == afterReveal[key := gameModeStates[key]]
                && var next := gameModeStates[key];
                   Selected(ms.gamePool, ms.usedGameIds, Some(next.currentState.(isTransitioning := false)), next.usedGameIds)
                   && next == NextRoundStep(revealed, next.usedGameIds, next.currentState))
    {
      var modeKey := CurrentKey();
      var found := Lookup(gameModeStates, modeKey);
      if found.None? || found.value.currentState.isTransitioning {
        afterReveal := gameModeStates;
        return;
      }
      var modeState := found.value;
      var engine := new GameEngine(modeState.gamePool);
      engine.SetUsedGameIds(modeState.usedGameIds);
      var updatedState := RevealStep(modeState, position);
      RevealKeepsScores(modeState, position);
      gameModeStates := gameModeStates[modeKey := updatedState];
      afterReveal := gameModeStates;

      var newState := engine.SelectNewGames();
      if newState.None? {
        return;
      }
      var next := NextRoundStep(updatedState, engine.usedGameIds, newState.value);
      assert next.currentState.(isTransitioning := false) == newState.value;
      gameModeStates := gameModeStates[modeKey := next];
    }

    /**
     * `loadInitialGames`: nothing without a current mode, nor when the
     * current entry already has games. Otherwise `isLoading` is raised, the
     * pool is fetched (`fetched` is the outcome of that request) and a first
     * pair is drawn; on success the entry is replaced by a fresh state over
     * the pool that keeps any earlier scores. A failed fetch, or a pool too
     * small to draw a pair from, only lowers `isLoading` again.
     */
    method LoadInitialGames(fetched: Result<seq<Game>>)
      requires Valid()
      modifies this
      ensures Valid()
      ensures currentMode == old(currentMode) && currentGenre == old(currentGenre)
      ensures var key := CurrentKey();
        if old(currentMode).None? || (key in old(gameModeStates) && old(gameModeStates)[key].gamePool != []) then
          isLoading == old(isLoading) && gameModeStates == old(gameModeStates)
        else if fetched.Failure? || |fetched.value| < 2 then
          !isLoading && gameModeStates == old(gameModeStates)
        else
          !isLoading && key in gameModeStates
          && gameModeStates == old(gameModeStates)[key := gameModeStates[key]]
          && var loaded := gameModeStates[key];
             Selected(fetched.value, {}, Some(loaded.currentState), loaded.usedGameIds)
             && loaded == LoadedState(Lookup(old(gameModeStates), key), fetched.value, loaded.usedGameIds, loaded.currentState)
    {
      if currentMode.None? {
        return;
      }
      var modeKey := CurrentKey();
      var existing := Lookup(gameModeStates, modeKey);
      if existing.Some? && |existing.value.gamePool| > 0 {
        return;
      }
      isLoading := true;
      if fetched.Failure? {
        isLoading := false;
        return;
      }
      var games := fetched.value;
      var engine := new GameEngine(games);
      var initialState := engine.SelectNewGames();
      if initialState.None? {
        isLoading := false;
        return;
      }
      var loaded := LoadedState(existing, games, engine.usedGameIds, initialState.value);
      LoadKeepsScores(existing, games, engine.usedGameIds, initialState.value);
      isLoading := false;
      gameModeStates := gameModeStates[modeKey := loaded];
    }

    /** `resetCurrentMode`: the current entry becomes a fresh state that keeps only the high score. */
    method ResetCurrentMode()
      requires Valid()
      modifies this
      ensures Valid()
      ensures currentMode == old(currentMode) && currentGenre == old(currentGenre) && isLoading == old(isLoading)
      ensures gameModeStates == old(gameModeStates)[CurrentKey() := ResetState(Lookup(old(gameModeStates), CurrentKey()))]
    {
      var modeKey := CurrentKey();
      var existing := Lookup(gameModeStates, modeKey);
      ResetKeepsHighScore(existing);
      gameModeStates := gameModeStates[modeKey := ResetState(existing)];
    }
  }
}
