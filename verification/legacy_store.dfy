/**
 * The older Gauge score store: the two games on show, the current streak,
 * the best streak and a loading flag.
 */
module LegacyGaugeStore {
  import opened Wrappers
  import opened Scoring

  datatype Game = Game(id: int, name: string, coverUrl: string, steamScore: Option<int>)

  class ScoreStore {
    var currentGames: (Option<Game>, Option<Game>)
    var score: int
    var highScore: int
    var loading: bool

    /** The best streak is never below the current one, and neither is negative. */
    predicate Valid()
      reads this
    {
      0 <= score <= highScore
    }

    constructor ()
      ensures Valid()
      ensures currentGames == (None, None) && score == 0 && highScore == 0 && !loading
    {
      currentGames := (None, None);
      score := 0;
      highScore := 0;
      loading := false;
    }

    /** `setGames(games)`: shows the pair; scores and loading are untouched. */
    method SetGames(first: Game, second: Game)
      modifies this
      ensures currentGames == (Some(first), Some(second))
      ensures score == old(score) && highScore == old(highScore) && loading == old(loading)
    {
      currentGames := (Some(first), Some(second));
    }

    /** `incrementScore()`: one more right answer; the best streak follows it up. */
    method IncrementScore()
      modifies this
      ensures old(Valid()) ==> Valid()
      ensures score == old(score) + 1 && highScore == Max(old(score) + 1, old(highScore))
      ensures highScore >= old(highScore)
      ensures currentGames == old(currentGames) && loading == old(loading)
    {
      var s := score;
      score := s + 1;
      highScore := Max(s + 1, highScore);
    }

    /** `resetGame()`: the streak starts over and the games are cleared; the best streak stays. */
    method ResetGame()
      modifies this
      ensures old(Valid()) ==> Valid()
      ensures score == 0 && currentGames == (None, None)
      ensures highScore == old(highScore) && loading == old(loading)
    {
      score := 0;
      currentGames := (None, None);
    }

    /** `setLoading(loading)`. */
    method SetLoading(value: bool)
      modifies this
      ensures loading == value
      ensures currentGames == old(currentGames) && score == old(score) && highScore == old(highScore)
    {
      loading := value;
    }
  }

  /**
   * A usage scenario, not an operation of the store: a caller makes `n`
   * `incrementScore` calls on a fresh store and then `resetGame`. The loop
   * stands for those calls. The streak is back to 0 and the best streak is `n`.
   */
  method StreakThenReset(n: nat) returns (score: int, highScore: int)
    ensures score == 0 && highScore == n
  {
    var store := new ScoreStore();
    var i := 0;
    while i < n
      invariant 0 <= i <= n
      invariant store.Valid() && store.score == i && store.highScore == i
    {
      store.IncrementScore();
      i := i + 1;
    }
    store.ResetGame();
    score, highScore := store.score, store.highScore;
  }
}
