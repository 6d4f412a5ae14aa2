/**
 * The Gauge game's selection engine: draws two games per round from a pool
 * without repeating an id until fewer than two unused games remain, and
 * decides whether the side the player picked has the higher Steam score.
 */
module GaugeEngine {
  import opened Wrappers
  import opened Rotation
  import opened GaugeTypes

  /** The side the player picks: `'left' | 'right'`. */
  datatype Position = Left | Right

  /**
   * `games` yields the pair (`first`, `second`) as `[shuffled[0], shuffled[1]]`
   * does for some shuffle of a copy of `games`: two games from distinct
   * positions, with `undefined` (None) past the end of a short list.
   */
  ghost predicate PairOf(games: seq<Game>, first: Option<Game>, second: Option<Game>) {
    (first.Some? <==> |games| >= 1)
    && (second.Some? <==> |games| >= 2)
    && (|games| == 1 ==> first.value == games[0])
    && (|games| >= 2 ==>
          exists i, j :: 0 <= i < |games| && 0 <= j < |games| && i != j
                         && games[i] == first.value && games[j] == second.value)
  }

  /** `getRandomPair`: the first two games of a random shuffle of a copy. */
  method RandomPair(games: seq<Game>) returns (first: Option<Game>, second: Option<Game>)
    ensures PairOf(games, first, second)
  {
    if |games| == 0 {
      return None, None;
    } else if |games| == 1 {
      return Some(games[0]), None;
    }
    var i, j :| 0 <= i < |games| && 0 <= j < |games| && i != j;
    first, second := Some(games[i]), Some(games[j]);
  }

  /**
   * What `selectNewGames` promises, from the pool and the used set before
   * the call to the round `r` it returns and the used set after it.
   */
  ghost predicate Selected(pool: seq<Game>, used: set<int>, r: Option<GameState>, newUsed: set<int>) {
    (r.Some? <==> |pool| >= 2)
    && (r.Some? ==>
          r.value.leftGame.Some? && r.value.rightGame.Some?
          && !r.value.revealed && !r.value.isTransitioning
          && r.value.leftGame.value.id in newUsed
          && r.value.rightGame.value.id in newUsed)
    && var avail := Unused(pool, IdOf, used);
       if |avail| >= 2 then
         PairOf(avail, r.value.leftGame, r.value.rightGame)
         && newUsed == used + {r.value.leftGame.value.id, r.value.rightGame.value.id}
       else if |pool| >= 2 then
         PairOf(pool, r.value.leftGame, r.value.rightGame)
         && newUsed == {r.value.leftGame.value.id, r.value.rightGame.value.id}
       else if |pool| == 1 then newUsed == {pool[0].id}
       else newUsed == {}
  }

  class GameEngine {
    const gamePool: seq<Game>
    var usedGameIds: set<int>

    constructor (initialGames: seq<Game>)
      ensures gamePool == initialGames && usedGameIds == {}
    {
      gamePool := initialGames;
      usedGameIds := {};
    }

    /** The `usedGameIds` setter: the engine keeps its own copy of `ids`. */
    method SetUsedGameIds(ids: set<int>)
      modifies this
      ensures usedGameIds == ids
    {
      usedGameIds := ids;
    }

    /**
     * `getRandomUnusedGames`: a pair from the unused games while at least
     * two are left; otherwise the used set is cleared and the pair comes
     * from the whole pool.
     */
    method RandomUnusedGames() returns (first: Option<Game>, second: Option<Game>)
      modifies this
      ensures var avail := Unused(gamePool, IdOf, old(usedGameIds));
        if |avail| >= 2 then usedGameIds == old(usedGameIds) && PairOf(avail, first, second)
        else usedGameIds == {} && PairOf(gamePool, first, second)
    {
      var available := Unused(gamePool, IdOf, usedGameIds);
      if |available| < 2 {
        usedGameIds := {};
        first, second := RandomPair(gamePool);
        return;
      }
      first, second := RandomPair(available);
    }

    /**
     * `selectNewGames`: draws a pair, marks both ids used and returns a
     * fresh unrevealed round. With fewer than two pool games the source
     * reads `.id` of `undefined` and throws; that is `None` here, with the
     * used set as the throw leaves it.
     */
    method SelectNewGames() returns (r: Option<GameState>)
      modifies this
      ensures Selected(gamePool, old(usedGameIds), r, usedGameIds)
    {
      var leftGame, rightGame := RandomUnusedGames();
      if leftGame.None? {
        return None;
      }
      usedGameIds := usedGameIds + {leftGame.value.id};
      if rightGame.None? {
        return None;
      }
      usedGameIds := usedGameIds + {rightGame.value.id};
      return Some(GameState(leftGame, rightGame, false, false));
    }

    /** `getGamePoolSize`: with distinct ids, the number of different games the pool offers. */
    function GamePoolSize(): (r: nat)
      ensures DistinctIds(gamePool, IdOf) ==> r == |Ids(gamePool, IdOf)|
    {
      assert DistinctIds(gamePool, IdOf) ==> |Ids(gamePool, IdOf)| == |gamePool| by {
        if DistinctIds(gamePool, IdOf) {
          DistinctIdsCount(gamePool, IdOf);
        }
      }
      |gamePool|
    }

    /**
     * `getAvailableGamesCount`: when the pool's ids are distinct and every
     * used id is a pool id, the number of games a draw can choose from; it
     * is the whole pool exactly when no id has been used.
     */
    function AvailableGamesCount(): (r: int)
      reads this
      ensures r <= GamePoolSize()
      ensures r == GamePoolSize() <==> usedGameIds == {}
      ensures DistinctIds(gamePool, IdOf) && usedGameIds <= Ids(gamePool, IdOf) ==>
                r == |Unused(gamePool, IdOf, usedGameIds)|
    {
      assert DistinctIds(gamePool, IdOf) && usedGameIds <= Ids(gamePool, IdOf) ==>
               |Unused(gamePool, IdOf, usedGameIds)| == |gamePool| - |usedGameIds| by {
        if DistinctIds(gamePool, IdOf) && usedGameIds <= Ids(gamePool, IdOf) {
          UnusedCount(gamePool, IdOf, usedGameIds);
        }
      }
      |gamePool| - |usedGameIds|
    }

    method Reset()
      modifies this
      ensures usedGameIds == {}
    {
      usedGameIds := {};
    }
  }

  /** The game on the picked side and the game on the other side. */
  function Picked(position: Position, left: Game, right: Game): Game {
    if position == Left then left else right
  }

  function Other(position: Position, left: Game, right: Game): Game {
    if position == Left then right else left
  }

  /**
   * `checkGuess`: false unless both games are present; otherwise true
   * exactly when the picked game's score is strictly higher.
   */
  function CheckGuess(position: Position, state: GameState): (r: bool)
    ensures state.leftGame.None? || state.rightGame.None? ==> !r
    ensures state.leftGame.Some? && state.rightGame.Some? ==>
      var picked := Picked(position, state.leftGame.value, state.rightGame.value);
      var other := Other(position, state.leftGame.value, state.rightGame.value);
      (r <==> picked.steamScore > other.steamScore)
  {
    if state.leftGame.None? || state.rightGame.None? then false
    else
      var leftScore := state.leftGame.value.steamScore;
      var rightScore := state.rightGame.value.steamScore;
      (position == Left && leftScore > rightScore) || (position == Right && rightScore > leftScore)
  }

  /**
   * At most one side is ever right; with both games present exactly one is
   * right when the scores differ, and neither on a tie.
   */
  lemma AtMostOneSideWins(state: GameState)
    ensures !(CheckGuess(Left, state) && CheckGuess(Right, state))
    ensures state.leftGame.Some? && state.rightGame.Some? ==>
      (CheckGuess(Left, state) || CheckGuess(Right, state)
       <==> state.leftGame.value.steamScore != state.rightGame.value.steamScore)
  {
  }

  /** A pair drawn from the unused games of a pool with distinct ids is two different unused pool games. */
  lemma PairFromUnused(pool: seq<Game>, used: set<int>, a: Game, b: Game)
    requires DistinctIds(pool, IdOf)
    requires PairOf(Unused(pool, IdOf, used), Some(a), Some(b))
    ensures a in pool && b in pool && a.id != b.id && a.id !in used && b.id !in used
  {
    var avail := Unused(pool, IdOf, used);
    UnusedDistinct(pool, IdOf, used);
    var i, j :| 0 <= i < |avail| && 0 <= j < |avail| && i != j && avail[i] == a && avail[j] == b;
    assert a in avail && b in avail;
    if i < j {
      assert IdOf(avail[i]) != IdOf(avail[j]);
    } else {
      assert IdOf(avail[j]) != IdOf(avail[i]);
    }
  }

  /**
   * While at least two pool games are unused, a round draws two different
   * unused pool games and the used set grows by exactly their two ids.
   */
  lemma SelectedFreshPair(pool: seq<Game>, used: set<int>, r: Option<GameState>, newUsed: set<int>)
    requires DistinctIds(pool, IdOf) && used <= Ids(pool, IdOf) && |used| + 2 <= |pool|
    requires Selected(pool, used, r, newUsed)
    ensures r.Some? && r.value.leftGame.Some? && r.value.rightGame.Some?
    ensures var a, b := r.value.leftGame.value, r.value.rightGame.value;
      a in pool && b in pool && a.id != b.id && a.id !in used && b.id !in used
      && newUsed == used + {a.id, b.id} && |newUsed| == |used| + 2 && newUsed <= Ids(pool, IdOf)
  {
    UnusedCount(pool, IdOf, used);
    var a, b := r.value.leftGame.value, r.value.rightGame.value;
    PairFromUnused(pool, used, a, b);
    assert |used + {a.id}| == |used| + 1;
    assert newUsed == (used + {a.id}) + {b.id};
  }

  /**
   * Appending two games with different ids outside `used`, a superset of
   * the drawn ids, keeps the drawn ids distinct and inside `used + {a.id, b.id}`.
   */
  lemma AppendFreshPair(pool: seq<Game>, drawn: seq<Game>, used: set<int>, a: Game, b: Game)
    requires forall i, j :: 0 <= i < j < |drawn| ==> drawn[i].id != drawn[j].id
    requires forall i :: 0 <= i < |drawn| ==> drawn[i] in pool && drawn[i].id in used
    requires a in pool && b in pool && a.id != b.id && a.id !in used && b.id !in used
    ensures forall i, j :: 0 <= i < j < |drawn + [a, b]| ==> (drawn + [a, b])[i].id != (drawn + [a, b])[j].id
    ensures forall i :: 0 <= i < |drawn + [a, b]| ==>
      (drawn + [a, b])[i] in pool && (drawn + [a, b])[i].id in used + {a.id, b.id}
  {
    var d := drawn + [a, b];
    forall i, j | 0 <= i < j < |d| ensures d[i].id != d[j].id {
      if j < |drawn| {
        assert d[i] == drawn[i] && d[j] == drawn[j];
      } else {
        assert d[j] == a || d[j] == b;
        if i < |drawn| {
          assert d[i] == drawn[i];
        }
      }
    }
    forall i | 0 <= i < |d| ensures d[i] in pool && d[i].id in used + {a.id, b.id} {
      if i < |drawn| {
        assert d[i] == drawn[i];
      }
    }
  }

  /**
   * Drawing rounds from a fresh engine over a pool of K games with distinct
   * ids: the first K / 2 rounds show 2 * (K / 2) distinct games of the pool.
   */
  method PairCycle(pool: seq<Game>) returns (drawn: seq<Game>)
    requires DistinctIds(pool, IdOf)
    ensures |drawn| == 2 * (|pool| / 2)
    ensures forall i, j :: 0 <= i < j < |drawn| ==> drawn[i].id != drawn[j].id
    ensures forall i :: 0 <= i < |drawn| ==> drawn[i] in pool
  {
    var engine := new GameEngine(pool);
    drawn := [];
    ghost var rounds := 0;
    while |drawn| + 2 <= |pool|
      invariant engine.gamePool == pool
      invariant engine.usedGameIds <= Ids(pool, IdOf)
      invariant |engine.usedGameIds| == |drawn| == 2 * rounds <= |pool|
      invariant forall i :: 0 <= i < |drawn| ==> drawn[i] in pool && drawn[i].id in engine.usedGameIds
      invariant forall i, j :: 0 <= i < j < |drawn| ==> drawn[i].id != drawn[j].id
    {
      ghost var used := engine.usedGameIds;
      var r := engine.SelectNewGames();
      SelectedFreshPair(engine.gamePool, used, r, engine.usedGameIds);
      var a, b := r.value.leftGame.value, r.value.rightGame.value;
      AppendFreshPair(pool, drawn, used, a, b);
      drawn := drawn + [a, b];
      rounds := rounds + 1;
    }
  }
}
