/**
 * The Guess game's data service without its I/O: converting SteamSpy
 * records to games, the validity filter, the basic and enhanced hint
 * ladders, the retry counting of the two fetch helpers, and the
 * bookkeeping of the games cache (with its failed-attempt counter) and of
 * the store-details cache. Responses, parsed bodies and clock readings are
 * inputs.
 */
module GuessApi {
  import opened Wrappers
  import opened Text
  import opened ModeKeys
  import opened GuessTypes
  import opened SteamSpy

  const MaxRetries := 3
  /** 24 hours in milliseconds. */
  const CacheDuration := 24 * 60 * 60 * 1000
  /** A record needs more reviews than this to be kept. */
  const MinReviews := 500

  // ---- Conversion ----

  /** `https://cdn.cloudflare.steamstatic.com/steam/apps/${appid}/library_600x900.jpg`. */
  function CoverUrl(appid: int): string {
    "https://cdn.cloudflare.steamstatic.com/steam/apps/" + IntToString(appid) + "/library_600x900.jpg"
  }

  /**
   * `convertSteamSpyGame`: both ids are the app id, the review total is
   * positive plus negative, and the score is the rounded percentage of
   * positive reviews, or 0 without reviews.
   */
  function ConvertSteamSpyGame(rec: SteamSpyRecord): (g: Game)
    ensures g.id == rec.appid && g.steamId == rec.appid && g.name == rec.name
    ensures g.totalReviews == Some(rec.positive + rec.negative)
    ensures rec.positive + rec.negative <= 0 ==> g.steamScore == 0
    ensures rec.positive + rec.negative > 0 ==>
      var t := rec.positive + rec.negative;
      (2 * t) * g.steamScore - t <= 200 * rec.positive < (2 * t) * g.steamScore + t
    ensures 0 <= rec.positive && 0 <= rec.negative ==> 0 <= g.steamScore <= 100
    ensures g.developer == rec.developer && g.publisher == rec.publisher && g.storeDetails.None?
    ensures g.coverUrl == CoverUrl(rec.appid) && g.owners == rec.owners
    ensures g.averagePlayers2Weeks == rec.average2Weeks && g.genre == rec.genre
  {
    var totalReviews := rec.positive + rec.negative;
    var steamScore := if totalReviews > 0 then RoundedPercent(rec.positive, totalReviews) else 0;
    Game(rec.appid, rec.appid, rec.name, CoverUrl(rec.appid), steamScore, rec.owners,
         rec.average2Weeks, Some(totalReviews), rec.genre, rec.developer, rec.publisher, None)
  }

  /** The filter: more than 500 reviews, a name and a non-zero app id. */
  predicate IsValidRecord(rec: SteamSpyRecord) {
    rec.positive + rec.negative > MinReviews && rec.name != "" && rec.appid != 0
  }

  /** `records.filter(valid).map(convertSteamSpyGame)`. */
  function ValidGames(records: seq<SteamSpyRecord>): (r: seq<Game>)
    ensures |r| <= |records|
    ensures forall rec :: rec in records && IsValidRecord(rec) ==> ConvertSteamSpyGame(rec) in r
    ensures forall g :: g in r ==> exists rec :: rec in records && IsValidRecord(rec) && g == ConvertSteamSpyGame(rec)
  {
    if records == [] then []
    else
      var rest := ValidGames(records[1..]);
      assert forall rec :: rec in records[1..] ==> rec in records;
      if IsValidRecord(records[0]) then [ConvertSteamSpyGame(records[0])] + rest else rest
  }

  /** The kept games of a single record: its conversion, when the record is valid. */
  lemma ValidGamesOfOne(rec: SteamSpyRecord)
    ensures ValidGames([rec]) == if IsValidRecord(rec) then [ConvertSteamSpyGame(rec)] else []
  {
    assert [rec][1..] == [];
  }

  /**
   * The filter works record by record: the games of two lists are the
   * games of each, in order. With `ValidGamesOfOne` this pins down every
   * element and the order of the result.
   */
  lemma {:induction false} ValidGamesAppend(a: seq<SteamSpyRecord>, b: seq<SteamSpyRecord>)
    ensures ValidGames(a + b) == ValidGames(a) + ValidGames(b)
    decreases |a|
  {
    if a == [] {
      assert a + b == b;
    } else {
      TailOfAppend(a, b);
      ValidGamesAppend(a[1..], b);
      if IsValidRecord(a[0]) {
        AppendAssoc([ConvertSteamSpyGame(a[0])], ValidGames(a[1..]), ValidGames(b));
      }
    }
  }

  /** Every kept game has a name, a non-zero id and more than 500 reviews. */
  lemma ValidGamesAreWellReviewed(records: seq<SteamSpyRecord>)
    ensures forall g :: g in ValidGames(records) ==>
      g.name != "" && g.id != 0 && g.totalReviews.Some? && g.totalReviews.value > MinReviews
  {
    forall g | g in ValidGames(records)
      ensures g.name != "" && g.id != 0 && g.totalReviews.Some? && g.totalReviews.value > MinReviews
    {
      var rec :| rec in records && IsValidRecord(rec) && g == ConvertSteamSpyGame(rec);
    }
  }

  // ---- Hint ladders ----

  /** `game.name[i]` in a template: the character, or "undefined" past the end. */
  function LetterAt(name: string, i: nat): string {
    if i < |name| then [name[i]] else "undefined"
  }

  /**
   * A hint ladder from one source: the review-score hint first, revealed,
   * at order 0; every later hint hidden, with strictly increasing orders
   * from 1 to 4.
   */
  ghost predicate IsLadder(hints: seq<LadderHint>, source: HintSource) {
    |hints| >= 1
    && hints[0] == LadderHint(ReviewScore, hints[0].text, source, true, 0)
    && (forall i :: 1 <= i < |hints| ==> !hints[i].revealed && 1 <= hints[i].order <= 4)
    && (forall i :: 0 <= i < |hints| ==> hints[i].source == source)
    && (forall i, j :: 0 <= i < j < |hints| ==> hints[i].order < hints[j].order)
  }

  /** Some hint of the ladder has this type. */
  predicate HasType(hints: seq<LadderHint>, kind: HintType) {
    exists i :: 0 <= i < |hints| && hints[i].kind == kind
  }

  function ScoreHint(game: Game, source: HintSource): LadderHint {
    LadderHint(ReviewScore, IntToString(game.steamScore), source, true, 0)
  }

  /** A hidden hint of the ladder. */
  function Hidden(kind: HintType, text: string, source: HintSource, order: int): LadderHint {
    LadderHint(kind, text, source, false, order)
  }

  /** `hints.push(h)` when `cond` holds. */
  function PushIf(hints: seq<LadderHint>, cond: bool, h: LadderHint): seq<LadderHint> {
    if cond then hints + [h] else hints
  }

  /**
   * `generateBasicHints`: review score, player count, developer (when the
   * game has one), first letter, second letter (when the name is longer
   * than one character).
   */
  function BasicHints(game: Game): seq<LadderHint> {
    var src := SteamSpy;
    var hints := [ScoreHint(game, src), Hidden(PlayerCount, IntToString(game.averagePlayers2Weeks), src, 1)];
    var hints := PushIf(hints, game.developer != "", Hidden(Developer, game.developer, src, 2));
    var hints := hints + [Hidden(FirstLetter, LetterAt(game.name, 0), src, 3)];
    PushIf(hints, |game.name| > 1, Hidden(SecondLetter, LetterAt(game.name, 1), src, 4))
  }

  /** What the basic ladder promises about `r`. */
  ghost predicate BasicLadder(r: seq<LadderHint>, game: Game) {
    IsLadder(r, SteamSpy)
    && 3 <= |r| <= 5
    && HasType(r, PlayerCount) && HasType(r, FirstLetter)
    && (HasType(r, Developer) <==> game.developer != "")
    && (HasType(r, SecondLetter) <==> |game.name| > 1)
    && !HasType(r, ReleaseDate) && !HasType(r, GenreHint)
  }

  /**
   * The basic ladder starts with the revealed review score; then come the
   * player count and the first letter always, the developer exactly when
   * the game names one, and the second letter exactly when the name has
   * two characters or more.
   */
  lemma BasicHintsLadder(game: Game)
    ensures BasicLadder(BasicHints(game), game)
  {
    if game.developer != "" {
      DevelopedBasicLadder(game);
    } else {
      UndevelopedBasicLadder(game);
    }
  }

  lemma DevelopedBasicLadder(game: Game)
    requires game.developer != ""
    ensures BasicLadder(BasicHints(game), game)
  {
    if |game.name| > 1 {
      FullBasicLadder(game);
    } else {
      var src := SteamSpy;
      var r := BasicHints(game);
      var a, b := ScoreHint(game, src), Hidden(PlayerCount, IntToString(game.averagePlayers2Weeks), src, 1);
      var c, d := Hidden(Developer, game.developer, src, 2), Hidden(FirstLetter, LetterAt(game.name, 0), src, 3);
      assert r == [a, b, c, d];
      assert r[1].kind == PlayerCount && r[2].kind == Developer && r[3].kind == FirstLetter;
    }
  }

  lemma FullBasicLadder(game: Game)
    requires game.developer != "" && |game.name| > 1
    ensures BasicLadder(BasicHints(game), game)
  {
    var src := SteamSpy;
    var r := BasicHints(game);
    var a, b := ScoreHint(game, src), Hidden(PlayerCount, IntToString(game.averagePlayers2Weeks), src, 1);
    var c, d := Hidden(Developer, game.developer, src, 2), Hidden(FirstLetter, LetterAt(game.name, 0), src, 3);
    var e := Hidden(SecondLetter, LetterAt(game.name, 1), src, 4);
    assert r == [a, b, c, d, e];
    assert r[1].kind == PlayerCount && r[2].kind == Developer && r[3].kind == FirstLetter && r[4].kind == SecondLetter;
  }

  lemma UndevelopedBasicLadder(game: Game)
    requires game.developer == ""
    ensures BasicLadder(BasicHints(game), game)
  {
    var src := SteamSpy;
    var r := BasicHints(game);
    var a, b := ScoreHint(game, src), Hidden(PlayerCount, IntToString(game.averagePlayers2Weeks), src, 1);
    var d := Hidden(FirstLetter, LetterAt(game.name, 0), src, 3);
    var e := Hidden(SecondLetter, LetterAt(game.name, 1), src, 4);
    if |game.name| > 1 {
      assert r == [a, b, d, e];
      assert r[1].kind == PlayerCount && r[2].kind == FirstLetter && r[3].kind == SecondLetter;
    } else {
      assert r == [a, b, d];
      assert r[1].kind == PlayerCount && r[2].kind == FirstLetter;
    }
  }

  /**
   * `generateEnhancedHints`: review score, release date (when the details
   * have one), developer (when the game has one), genre (when the details
   * list one), and the first letter, always last.
   */
  function EnhancedHints(game: Game, details: StoreDetails): seq<LadderHint> {
    var src := SteamStore;
    var hints := [ScoreHint(game, src)];
    var hints := PushIf(hints, details.releaseDate != "", Hidden(ReleaseDate, details.releaseDate, src, 1));
    var hints := PushIf(hints, game.developer != "", Hidden(Developer, game.developer, src, 2));
    var genre := if |details.genres| > 0 then details.genres[0].description else "";
    var hints := PushIf(hints, |details.genres| > 0, Hidden(GenreHint, genre, src, 3));
    hints + [Hidden(FirstLetter, LetterAt(game.name, 0), src, 4)]
  }

  /** What the enhanced ladder promises about `r`. */
  ghost predicate EnhancedLadder(r: seq<LadderHint>, game: Game, details: StoreDetails) {
    IsLadder(r, SteamStore)
    && 2 <= |r| <= 5
    && r[|r| - 1].kind == FirstLetter && r[|r| - 1].order == 4
    && (HasType(r, ReleaseDate) <==> details.releaseDate != "")
    && (HasType(r, Developer) <==> game.developer != "")
    && (HasType(r, GenreHint) <==> |details.genres| > 0)
    && !HasType(r, PlayerCount) && !HasType(r, SecondLetter)
  }

  /**
   * The enhanced ladder starts with the revealed review score and ends with
   * the first letter at order 4; between them come the release date, the
   * developer and the genre, each exactly when the details or the game
   * provide it.
   */
  lemma EnhancedHintsLadder(game: Game, details: StoreDetails)
    ensures EnhancedLadder(EnhancedHints(game, details), game, details)
  {
    if details.releaseDate != "" {
      DatedLadder(game, details);
    } else {
      UndatedLadder(game, details);
    }
  }

  lemma DatedLadder(game: Game, details: StoreDetails)
    requires details.releaseDate != ""
    ensures EnhancedLadder(EnhancedHints(game, details), game, details)
  {
    var src := SteamStore;
    var r := EnhancedHints(game, details);
    var genre := if |details.genres| > 0 then details.genres[0].description else "";
    var a, b := ScoreHint(game, src), Hidden(ReleaseDate, details.releaseDate, src, 1);
    var d := Hidden(GenreHint, genre, src, 3);
    var e := Hidden(FirstLetter, LetterAt(game.name, 0), src, 4);
    if game.developer != "" {
      DatedDevelopedLadder(game, details);
    } else if |details.genres| > 0 {
      assert r == [a, b, d, e];
      assert r[1].kind == ReleaseDate && r[2].kind == GenreHint;
    } else {
      assert r == [a, b, e];
      assert r[1].kind == ReleaseDate;
    }
  }

  lemma DatedDevelopedLadder(game: Game, details: StoreDetails)
    requires details.releaseDate != "" && game.developer != ""
    ensures EnhancedLadder(EnhancedHints(game, details), game, details)
  {
    var src := SteamStore;
    var r := EnhancedHints(game, details);
    var a, b := ScoreHint(game, src), Hidden(ReleaseDate, details.releaseDate, src, 1);
    var c := Hidden(Developer, game.developer, src, 2);
    var e := Hidden(FirstLetter, LetterAt(game.name, 0), src, 4);
    if |details.genres| > 0 {
      FullEnhancedLadder(game, details);
    } else {
      assert r == [a, b, c, e];
      assert r[1].kind == ReleaseDate && r[2].kind == Developer;
    }
  }

  lemma FullEnhancedLadder(game: Game, details: StoreDetails)
    requires details.releaseDate != "" && game.developer != "" && |details.genres| > 0
    ensures EnhancedLadder(EnhancedHints(game, details), game, details)
  {
    var src := SteamStore;
    var r := EnhancedHints(game, details);
    var a, b := ScoreHint(game, src), Hidden(ReleaseDate, details.releaseDate, src, 1);
    var c, d := Hidden(Developer, game.developer, src, 2), Hidden(GenreHint, details.genres[0].description, src, 3);
    var e := Hidden(FirstLetter, LetterAt(game.name, 0), src, 4);
    assert r == [a, b, c, d, e];
    assert r[1].kind == ReleaseDate && r[2].kind == Developer && r[3].kind == GenreHint;
  }

  lemma UndatedLadder(game: Game, details: StoreDetails)
    requires details.releaseDate == ""
    ensures EnhancedLadder(EnhancedHints(game, details), game, details)
  {
    if game.developer != "" {
      UndatedDevelopedLadder(game, details);
    } else {
      var src := SteamStore;
      var r := EnhancedHints(game, details);
      var a := ScoreHint(game, src);
      var e := Hidden(FirstLetter, LetterAt(game.name, 0), src, 4);
      if |details.genres| > 0 {
        var d := Hidden(GenreHint, details.genres[0].description, src, 3);
        assert r == [a, d, e];
        assert r[1].kind == GenreHint;
      } else {
        assert r == [a, e];
      }
    }
  }

  lemma UndatedDevelopedLadder(game: Game, details: StoreDetails)
    requires details.releaseDate == "" && game.developer != ""
    ensures EnhancedLadder(EnhancedHints(game, details), game, details)
  {
    var src := SteamStore;
    var r := EnhancedHints(game, details);
    var a, c := ScoreHint(game, src), Hidden(Developer, game.developer, src, 2);
    var e := Hidden(FirstLetter, LetterAt(game.name, 0), src, 4);
    if |details.genres| > 0 {
      var d := Hidden(GenreHint, details.genres[0].description, src, 3);
      assert r == [a, c, d, e];
      assert r[1].kind == Developer && r[2].kind == GenreHint;
    } else {
      assert r == [a, c, e];
      assert r[1].kind == Developer;
    }
  }

  /**
   * `prepareGameHints`, given the outcome of `fetchStoreDetails`: the
   * enhanced ladder when store details came back, the basic one otherwise.
   */
  function PrepareGameHints(game: Game, storeDetails: Option<StoreDetails>): (r: (seq<LadderHint>, bool))
    ensures r.1 <==> storeDetails.Some?
    ensures IsLadder(r.0, if r.1 then SteamStore else SteamSpy)
    ensures r.1 ==> r.0 == EnhancedHints(game, storeDetails.value)
    ensures !r.1 ==> r.0 == BasicHints(game)
  {
    if storeDetails.Some? then
      EnhancedHintsLadder(game, storeDetails.value);
      (EnhancedHints(game, storeDetails.value), true)
    else
      BasicHintsLadder(game);
      (BasicHints(game), false)
  }

  // ---- Retry counting ----

  /** What one `fetch` call gives: an OK response, an HTTP error status, a network error, or an abort by the timeout. */
  datatype FetchOutcome = Ok | HttpError(status: int) | NetworkError | Aborted

  /** The failures a fetch helper can end with. */
  datatype FetchFailure = Status(status: int) | Network | TimedOut

  /** How a fetch helper ends: delivered, or failed with the last error, after `attempts` calls to `fetch`. */
  datatype Fetched = Delivered(attempts: nat) | Failed(attempts: nat, failure: FetchFailure)

  function FailureOf(o: FetchOutcome): FetchFailure
    requires o != Ok
  {
    match o
    case HttpError(s) => Status(s)
    case NetworkError => Network
    case Aborted => Network
  }

  /**
   * `fetchWithRetry(url, retries)`: attempt `k` of the calls from here on
   * sees `outcome(k)`; a non-OK outcome is retried while retries are left.
   */
  function FetchWithRetry(outcome: nat -> FetchOutcome, k: nat, retries: nat): (r: Fetched)
    ensures k + 1 <= r.attempts <= k + retries + 1
    ensures forall j :: k <= j < r.attempts - 1 ==> outcome(j) != Ok
    ensures r.Delivered? <==> outcome(r.attempts - 1) == Ok
    ensures r.Failed? ==> r.attempts == k + retries + 1 && r.failure == FailureOf(outcome(r.attempts - 1))
    decreases retries
  {
    if outcome(k) == Ok then Delivered(k + 1)
    else if retries > 0 then FetchWithRetry(outcome, k + 1, retries - 1)
    else Failed(k + 1, FailureOf(outcome(k)))
  }

  /**
   * `fetchWithRetryAndTimeout(url, retries)`: as `fetchWithRetry`, except
   * that an abort by the timeout ends it at once with "Request timed out".
   */
  function FetchWithRetryAndTimeout(outcome: nat -> FetchOutcome, k: nat, retries: nat): (r: Fetched)
    ensures k + 1 <= r.attempts <= k + retries + 1
    ensures forall j :: k <= j < r.attempts - 1 ==> outcome(j) != Ok && outcome(j) != Aborted
    ensures r.Delivered? <==> outcome(r.attempts - 1) == Ok
    ensures r.Failed? && r.failure == TimedOut <==> outcome(r.attempts - 1) == Aborted
    ensures r.Failed? && r.failure != TimedOut ==>
      r.attempts == k + retries + 1 && r.failure == FailureOf(outcome(r.attempts - 1))
    decreases retries
  {
    if outcome(k) == Ok then Delivered(k + 1)
    else if outcome(k) == Aborted then Failed(k + 1, TimedOut)
    else if retries > 0 then FetchWithRetryAndTimeout(outcome, k + 1, retries - 1)
    else Failed(k + 1, FailureOf(outcome(k)))
  }

  /** Without timeouts, the timeout-aware helper behaves as the plain one. */
  lemma {:induction false} TimeoutHelperAgreesWithoutAborts(outcome: nat -> FetchOutcome, k: nat, retries: nat)
    requires forall j :: outcome(j) != Aborted
    ensures FetchWithRetryAndTimeout(outcome, k, retries) == FetchWithRetry(outcome, k, retries)
    decreases retries
  {
    if outcome(k) != Ok && retries > 0 {
      TimeoutHelperAgreesWithoutAborts(outcome, k + 1, retries - 1);
    }
  }

  // ---- Caches ----

  /** A games cache entry. */
  datatype CacheEntry = CacheEntry(data: seq<Game>, timestamp: int, apiAttempts: int)

  /** `JSON.stringify({ request, params: {} })`. */
  function CacheKey(request: string): string {
    "{\"request\":\"" + request + "\",\"params\":{}}"
  }

  /** An entry written at `timestamp` is still fresh at `now`. */
  predicate Fresh(timestamp: int, now: int) {
    now - timestamp < CacheDuration
  }

  /** `getTop100Fallback` over the bundled records. */
  function Top100Fallback(records: seq<SteamSpyRecord>): (r: Result<seq<Game>>)
    ensures r.Success? <==> ValidGames(records) != []
    ensures r.Success? ==> r.value == ValidGames(records)
  {
    var valid := ValidGames(records);
    if |valid| == 0 then Failure("No valid games found in fallback data") else Success(valid)
  }

  /**
   * `getGamesFromLocalDB(genre)`, given the parsed genre file (or the
   * error its fetch ended with): the valid games, or an error when none.
   */
  function GamesFromLocalDb(genre: string, fetched: Result<seq<SteamSpyRecord>>): (r: Result<seq<Game>>)
    ensures r.Success? <==> fetched.Success? && ValidGames(fetched.value) != []
    ensures r.Success? ==> r.value == ValidGames(fetched.value)
  {
    if fetched.Failure? then Failure(fetched.error)
    else
      var valid := ValidGames(fetched.value);
      if |valid| == 0 then Failure("No valid games found for genre: " + genre) else Success(valid)
  }

  /** The entry a failure builds on: the cached one, or an empty one stamped `now`. */
  function EntryBefore(entries: map<string, CacheEntry>, key: string, now: int): CacheEntry {
    if key in entries then entries[key] else CacheEntry([], now, 0)
  }

  /**
   * What `getSteamSpyGames(request)` at time `now` returns and leaves in
   * the cache. `fetched` is what the request and JSON parsing give (or the
   * error they end with); `fallback` holds the bundled top-100 records.
   * - A fresh entry is returned as it is, without fetching.
   * - Otherwise, when the response has valid games, they are cached with
   *   `apiAttempts` 0 and returned.
   * - Otherwise the attempt count goes up by one. It is written over the
   *   old entry, or over an empty one stamped `now` when there was none.
   *   The error is rethrown while the count is below 3; from 3 on, the
   *   fallback games are returned.
   */
  function CacheStep(entries: map<string, CacheEntry>, request: string, now: int,
                     fetched: Result<seq<SteamSpyRecord>>, fallback: seq<SteamSpyRecord>)
    : (r: (Result<seq<Game>>, map<string, CacheEntry>))
    ensures r.1.Keys == entries.Keys + {CacheKey(request)}
    ensures forall k :: k in entries && k != CacheKey(request) ==> r.1[k] == entries[k]
    ensures var e := r.1[CacheKey(request)];
      r.0.Success? ==> r.0.value == e.data || r.0 == Top100Fallback(fallback)
    ensures var e := r.1[CacheKey(request)];
      r.0.Failure? ==> e.apiAttempts < MaxRetries || r.0 == Top100Fallback(fallback)
    ensures var before := EntryBefore(entries, CacheKey(request), now);
      var e := r.1[CacheKey(request)];
      !(fetched.Success? && ValidGames(fetched.value) != []) ==>
        e.data == before.data && e.timestamp == before.timestamp
    ensures fetched.Success? && ValidGames(fetched.value) != [] ==>
      r.0 == Success(ValidGames(fetched.value)) || r.1 == entries
    // A fresh entry answers and leaves the cache as it was.
    ensures CacheKey(request) in entries && Fresh(entries[CacheKey(request)].timestamp, now) ==>
      r == (Success(entries[CacheKey(request)].data), entries)
    // Otherwise new valid games are stored stamped `now` with no attempts, and returned.
    ensures !(CacheKey(request) in entries && Fresh(entries[CacheKey(request)].timestamp, now))
            && fetched.Success? && ValidGames(fetched.value) != [] ==>
      r.0 == Success(ValidGames(fetched.value))
      && r.1 == entries[CacheKey(request) := CacheEntry(ValidGames(fetched.value), now, 0)]
    // Otherwise the attempt count grows by exactly one, the error is rethrown
    // below MaxRetries attempts and the fallback answers from then on.
    ensures var before := EntryBefore(entries, CacheKey(request), now);
      !(CacheKey(request) in entries && Fresh(entries[CacheKey(request)].timestamp, now))
      && !(fetched.Success? && ValidGames(fetched.value) != []) ==>
        r.1[CacheKey(request)] == before.(apiAttempts := before.apiAttempts + 1)
        && (before.apiAttempts + 1 >= MaxRetries ==> r.0 == Top100Fallback(fallback))
        && (before.apiAttempts + 1 < MaxRetries && fetched.Failure? ==> r.0 == Failure(fetched.error))
        && (before.apiAttempts + 1 < MaxRetries && fetched.Success? ==>
              r.0 == Failure("No valid games found in the response"))
  {
    var key := CacheKey(request);
    if key in entries && Fresh(entries[key].timestamp, now) then
      (Success(entries[key].data), entries)
    else if fetched.Success? && ValidGames(fetched.value) != [] then
      (Success(ValidGames(fetched.value)), entries[key := CacheEntry(ValidGames(fetched.value), now, 0)])
    else
      var before := EntryBefore(entries, key, now);
      var attempts := before.apiAttempts + 1;
      var failure: Result<seq<Game>> := if fetched.Failure? then Failure(fetched.error)
        else Failure("No valid games found in the response");
      (if attempts < MaxRetries then failure else Top100Fallback(fallback),
       entries[key := before.(apiAttempts := attempts)])
  }

  /** The module-level `gamesCache`. */
  class GamesCache {
    var entries: map<string, CacheEntry>

    constructor ()
      ensures entries == map[]
    {
      entries := map[];
    }

    /** `getSteamSpyGames(request)` at time `now`, as `CacheStep` describes it. */
    method GetSteamSpyGames(request: string, now: int, fetched: Result<seq<SteamSpyRecord>>,
                            fallback: seq<SteamSpyRecord>) returns (r: Result<seq<Game>>)
      modifies this
      ensures (r, entries) == CacheStep(old(entries), request, now, fetched, fallback)
    {
      var cacheKey := CacheKey(request);
      var cached := if cacheKey in entries then Some(entries[cacheKey]) else None;
      if cached.Some? && Fresh(cached.value.timestamp, now) {
        return Success(cached.value.data);
      }
      var error: string;
      if fetched.Success? {
        var validGames := ValidGames(fetched.value);
        if |validGames| > 0 {
          entries := entries[cacheKey := CacheEntry(validGames, now, 0)];
          return Success(validGames);
        }
        error := "No valid games found in the response";
      } else {
        error := fetched.error;
      }
      var currentAttempts := (if cached.Some? then cached.value.apiAttempts else 0) + 1;
      var base := if cached.Some? then cached.value else CacheEntry([], now, 0);
      entries := entries[cacheKey := base.(apiAttempts := currentAttempts)];
      if currentAttempts < MaxRetries {
        return Failure(error);
      }
      r := Top100Fallback(fallback);
    }

    /**
     * `getGamesByMode(mode, genre)`: the two top-100 modes go through
     * `getSteamSpyGames` with the mode's own request; genre mode needs a
     * non-empty genre and reads the genre's local file (`genreFile` is its
     * parsed content or error) without touching the cache.
     */
    method GetGamesByMode(mode: Mode, genre: Option<string>, now: int,
                          fetched: Result<seq<SteamSpyRecord>>, fallback: seq<SteamSpyRecord>,
                          genreFile: Result<seq<SteamSpyRecord>>) returns (r: Result<seq<Game>>)
      modifies this
      ensures mode != Genre ==> (r, entries) == CacheStep(old(entries), ModeName(mode), now, fetched, fallback)
      ensures mode == Genre ==> entries == old(entries)
      ensures mode == Genre && (genre.None? || genre.value == "") ==> r == Failure("Genre is required for genre mode")
      ensures mode == Genre && genre.Some? && genre.value != "" ==> r == GamesFromLocalDb(genre.value, genreFile)
    {
      match mode {
        case Top100In2Weeks =>
          r := GetSteamSpyGames("top100in2weeks", now, fetched, fallback);
        case Top100Forever =>
          r := GetSteamSpyGames("top100forever", now, fetched, fallback);
        case Genre =>
          if genre.None? || genre.value == "" {
            return Failure("Genre is required for genre mode");
          }
          r := GamesFromLocalDb(genre.value, genreFile);
      }
    }
  }

  /**
   * From an empty cache, a first failed request writes an empty entry
   * stamped with the current time, so a second call within 24 hours
   * returns no games at all, without fetching and without the fallback.
   */
  method FirstFailureCachesEmptyList(request: string, now: int, later: int,
                                     fetched: Result<seq<SteamSpyRecord>>, refetched: Result<seq<SteamSpyRecord>>,
                                     fallback: seq<SteamSpyRecord>) returns (first: Result<seq<Game>>, second: Result<seq<Game>>)
    requires fetched.Failure? || ValidGames(fetched.value) == []
    requires later - now < CacheDuration
    ensures first.Failure?
    ensures second == Success([])
  {
    var cache := new GamesCache();
    first := cache.GetSteamSpyGames(request, now, fetched, fallback);
    second := cache.GetSteamSpyGames(request, later, refetched, fallback);
  }

  /**
   * The fallback is reached only on the third failure in a row, and the
   * failures must be 24 hours apart or the empty entry answers instead.
   */
  method FallbackOnThirdStaleFailure(request: string, t1: int, t2: int, t3: int,
                                     fallback: seq<SteamSpyRecord>) returns (r1: Result<seq<Game>>, r2: Result<seq<Game>>, r3: Result<seq<Game>>)
    requires t2 - t1 >= CacheDuration && t3 - t1 >= CacheDuration
    ensures r1.Failure? && r2.Failure?
    ensures r3 == Top100Fallback(fallback)
  {
    var cache := new GamesCache();
    var failed: Result<seq<SteamSpyRecord>> := Failure("HTTP error! status: 500");
    r1 := cache.GetSteamSpyGames(request, t1, failed, fallback);
    r2 := cache.GetSteamSpyGames(request, t2, failed, fallback);
    r3 := cache.GetSteamSpyGames(request, t3, failed, fallback);
  }

  /** A store-details cache entry. */
  datatype DetailsEntry = DetailsEntry(data: StoreDetails, timestamp: int)

  /** The module-level `storeDetailsCache`. */
  class StoreDetailsCache {
    var entries: map<int, DetailsEntry>

    constructor ()
      ensures entries == map[]
    {
      entries := map[];
    }

    /**
     * `fetchStoreDetails(steamId)` at time `now`. `fetched` is what the
     * request gives: an error, or the parsed answer with the details when
     * its `success` flag is set. A fresh entry is returned without
     * fetching; new details are cached; every failure gives null.
     */
    method FetchStoreDetails(steamId: int, now: int, fetched: Result<Option<StoreDetails>>) returns (r: Option<StoreDetails>)
      modifies this
      ensures steamId in old(entries) && Fresh(old(entries)[steamId].timestamp, now) ==>
        r == Some(old(entries)[steamId].data) && entries == old(entries)
      ensures !(steamId in old(entries) && Fresh(old(entries)[steamId].timestamp, now)) ==>
        if fetched.Success? && fetched.value.Some? then
          r == fetched.value && entries == old(entries)[steamId := DetailsEntry(fetched.value.value, now)]
        else
          r.None? && entries == old(entries)
    {
      if steamId in entries && Fresh(entries[steamId].timestamp, now) {
        return Some(entries[steamId].data);
      }
      if fetched.Failure? || fetched.value.None? {
        return None;
      }
      var storeDetails := fetched.value.value;
      entries := entries[steamId := DetailsEntry(storeDetails, now)];
      return Some(storeDetails);
    }
  }
}
