/**
 * The Guess (Artfuscation) game's entities: a game with optional store
 * details, the store-details hint the session store adds, and the
 * ordered, revealable hints of the hint ladders.
 */
module GuessTypes {
  import opened Wrappers

  datatype StoreGenre = StoreGenre(id: string, description: string)

  datatype StoreTag = StoreTag(name: string, count: int)

  /**
   * Steam store details. An absent array is the empty sequence and an
   * absent release date the empty string: the source only tests them for
   * truthiness through optional chaining, which gives the same answers.
   */
  datatype StoreDetails = StoreDetails(
    name: string,
    releaseDate: string,
    developers: seq<string>,
    publishers: seq<string>,
    genres: seq<StoreGenre>,
    tags: seq<StoreTag>,
    metacritic: Option<int>)

  datatype Game = Game(
    id: int,
    steamId: int,
    name: string,
    coverUrl: string,
    steamScore: int,
    owners: string,
    averagePlayers2Weeks: int,
    totalReviews: Option<int>,
    genre: Option<seq<string>>,
    developer: string,
    publisher: string,
    storeDetails: Option<StoreDetails>)

  function IdOf(g: Game): int { g.id }

  /** The hint kinds `generateHint` can produce. */
  datatype StoreHintKind = ReleaseYear | DeveloperName | GenreName | PopularTag | MetacriticScore

  /**
   * A hint of the session store: its kind and the store-details value its
   * sentence quotes (the release date, developer, genre description, tag
   * name or Metacritic score); the fixed wording around it is left out.
   */
  datatype StoreHint = StoreHint(kind: StoreHintKind, detail: string)

  /** One round of the Guess game. `pixelationLevel` runs from 1 (coarsest) to 6 (clear). */
  datatype GameState = GameState(
    currentGame: Option<Game>,
    pixelationLevel: int,
    hints: seq<StoreHint>,
    revealed: bool,
    isLoading: bool,
    hasError: bool)

  /** A fresh round showing `game`: most pixelated, no hints, unrevealed. */
  function FreshRound(game: Option<Game>): GameState {
    GameState(game, 1, [], false, false, false)
  }

  /** `INITIAL_GAME_STATE`. */
  const InitialGameState := FreshRound(None)

  /** The hint kinds of the basic and enhanced ladders. */
  datatype HintType =
    | ReviewScore | PlayerCount | Developer | FirstLetter | SecondLetter | ReleaseDate | GenreHint

  /** The name the source gives each hint type. */
  function TypeName(t: HintType): string {
    match t
    case ReviewScore => "reviewScore"
    case PlayerCount => "playerCount"
    case Developer => "developer"
    case FirstLetter => "firstLetter"
    case SecondLetter => "secondLetter"
    case ReleaseDate => "releaseDate"
    case GenreHint => "genre"
  }

  datatype HintSource = SteamSpy | SteamStore

  /** A ladder hint: shown in `order`, revealed or still hidden. */
  datatype LadderHint = LadderHint(
    kind: HintType,
    text: string,
    source: HintSource,
    revealed: bool,
    order: int)
}
