/** The Gauge game's entities (a game and the two-game round). */
module GaugeTypes {
  import opened Wrappers

  datatype Game = Game(
    id: int,
    name: string,
    coverUrl: string,
    steamScore: int,
    steamId: int,
    owners: string,
    averagePlayers2Weeks: int,
    totalReviews: Option<int>,
    genre: Option<seq<string>>)

  function IdOf(g: Game): int { g.id }

  /** One round: the two games shown and the reveal flags. */
  datatype GameState = GameState(
    leftGame: Option<Game>,
    rightGame: Option<Game>,
    revealed: bool,
    isTransitioning: bool)

  const InitialGameState := GameState(None, None, false, false)
}
