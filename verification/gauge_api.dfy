/**
 * The Gauge game's data service without its I/O: converting the SteamSpy
 * top-100 records to games and keeping those with a positive score, more
 * than 500 reviews, a name and an id. The HTTP response is an input.
 */
module GaugeApi {
  import opened Wrappers
  import opened Text
  import opened SteamSpy
  import GuessApi

  /** The games of the Gauge service (the fields the conversion sets). */
  datatype Game = Game(
    id: int,
    steamId: int,
    name: string,
    coverUrl: string,
    steamScore: int,
    owners: string,
    averagePlayers2Weeks: int,
    totalReviews: int)

  /** `https://cdn.cloudflare.steamstatic.com/steam/apps/${appid}/header.jpg`. */
  function CoverUrl(appid: int): string {
    "https://cdn.cloudflare.steamstatic.com/steam/apps/" + IntToString(appid) + "/header.jpg"
  }

  /**
   * `convertSteamSpyGame`: both ids are the app id, the review total is
   * positive plus negative, and the score is the rounded percentage of
   * positive reviews, or 0 without reviews.
   */
  function ConvertSteamSpyGame(rec: SteamSpyRecord): (g: Game)
    ensures g.id == rec.appid && g.steamId == rec.appid && g.name == rec.name
    ensures g.totalReviews == rec.positive + rec.negative
    ensures g.totalReviews <= 0 ==> g.steamScore == 0
    ensures g.totalReviews > 0 ==>
      var t := g.totalReviews;
      (2 * t) * g.steamScore - t <= 200 * rec.positive < (2 * t) * g.steamScore + t
    ensures 0 <= rec.positive && 0 <= rec.negative ==> 0 <= g.steamScore <= 100
    ensures g.coverUrl == CoverUrl(rec.appid) && g.owners == rec.owners
    ensures g.averagePlayers2Weeks == rec.average2Weeks
  {
    var totalReviews := rec.positive + rec.negative;
    var steamScore := if totalReviews > 0 then RoundedPercent(rec.positive, totalReviews) else 0;
    Game(rec.appid, rec.appid, rec.name, CoverUrl(rec.appid), steamScore, rec.owners,
         rec.average2Weeks, totalReviews)
  }

  /** The filter applied after conversion. */
  predicate Keep(g: Game) {
    g.steamScore > 0 && g.totalReviews > 500 && g.name != "" && g.steamId != 0
  }

  /** `records.map(convertSteamSpyGame).filter(keep)`. */
  function ValidGames(records: seq<SteamSpyRecord>): (r: seq<Game>)
    ensures |r| <= |records|
    ensures forall rec :: rec in records && Keep(ConvertSteamSpyGame(rec)) ==> ConvertSteamSpyGame(rec) in r
    ensures forall g :: g in r ==> Keep(g) && exists rec :: rec in records && g == ConvertSteamSpyGame(rec)
  {
    if records == [] then []
    else
      var g := ConvertSteamSpyGame(records[0]);
      var rest := ValidGames(records[1..]);
      assert forall rec :: rec in records[1..] ==> rec in records;
      if Keep(g) then [g] + rest else rest
  }

  /** The kept games of a single record: its conversion, when that passes the filter. */
  lemma ValidGamesOfOne(rec: SteamSpyRecord)
    ensures ValidGames([rec]) == if Keep(ConvertSteamSpyGame(rec)) then [ConvertSteamSpyGame(rec)] else []
  {
    assert [rec][1..] == [];
  }

  /**
   * The filter works record by record: the kept games of two lists are the
   * kept games of each, in order. With `ValidGamesOfOne` this pins down
   * every element and the order of the result.
   */
  lemma {:induction false} ValidGamesAppend(a: seq<SteamSpyRecord>, b: seq<SteamSpyRecord>)
    ensures ValidGames(a + b) == ValidGames(a) + ValidGames(b)
    decreases |a|
  {
    if a == [] {
      assert a + b == b;
    } else {
      TailOfAppend(a, b);
      ValidGamesAppend(a[1..], b);
      var g := ConvertSteamSpyGame(a[0]);
      if Keep(g) {
        AppendAssoc([g], ValidGames(a[1..]), ValidGames(b));
      }
    }
  }

  /**
   * A record is kept exactly when the Guess service would keep it and, in
   * addition, its positive reviews reach half a percent of the total (so
   * that its rounded score is not 0).
   */
  lemma KeepIsGuessValidityWithPositiveScore(rec: SteamSpyRecord)
    ensures Keep(ConvertSteamSpyGame(rec)) <==>
      GuessApi.IsValidRecord(rec) && 200 * rec.positive >= rec.positive + rec.negative
  {
    var t := rec.positive + rec.negative;
    if t > 0 {
      RoundedPercentPositive(rec.positive, t);
    }
  }

  /** Kept games from non-negative counts score between 1 and 100. */
  lemma KeptScoresArePercentages(records: seq<SteamSpyRecord>)
    requires forall rec :: rec in records ==> rec.positive >= 0 && rec.negative >= 0
    ensures forall g :: g in ValidGames(records) ==> 1 <= g.steamScore <= 100 && g.totalReviews > 500
  {
    forall g | g in ValidGames(records) ensures 1 <= g.steamScore <= 100 && g.totalReviews > 500 {
      var rec :| rec in records && g == ConvertSteamSpyGame(rec);
    }
  }

  /** What `fetch` gives: the status and, for a body that parses, the records of the response object. */
  datatype HttpResponse = HttpResponse(ok: bool, status: int, records: Option<seq<SteamSpyRecord>>)

  /**
   * `getSteamSpyGames(request)`. `respond` gives the outcome of the HTTP
   * request for each request name: a network error or a body that does
   * not parse is rethrown, a non-OK status throws "HTTP error! status: N",
   * and otherwise the kept games are returned, possibly none.
   */
  function GetSteamSpyGames(request: string, respond: string -> Result<HttpResponse>): (r: Result<seq<Game>>)
    ensures var fetched := respond(request);
      (fetched.Failure? ==> r == Failure(fetched.error))
      && (fetched.Success? && !fetched.value.ok ==> r == Failure("HTTP error! status: " + IntToString(fetched.value.status)))
      && (r.Success? <==> fetched.Success? && fetched.value.ok && fetched.value.records.Some?)
      && (r.Success? ==> r.value == ValidGames(fetched.value.records.value))
  {
    var fetched := respond(request);
    if fetched.Failure? then Failure(fetched.error)
    else if !fetched.value.ok then Failure("HTTP error! status: " + IntToString(fetched.value.status))
    else if fetched.value.records.None? then Failure("Unexpected token in JSON")
    else Success(ValidGames(fetched.value.records.value))
  }

  /**
   * `getRandomGames`: the whole kept list of the "top100in2weeks" request,
   * errors rethrown; no other request's outcome matters.
   */
  function GetRandomGames(respond: string -> Result<HttpResponse>): (r: Result<seq<Game>>)
    ensures var fetched := respond("top100in2weeks");
      (r.Success? <==> fetched.Success? && fetched.value.ok && fetched.value.records.Some?)
      && (r.Success? ==> r.value == ValidGames(fetched.value.records.value))
      && (fetched.Failure? ==> r == Failure(fetched.error))
    ensures r.Success? ==> forall g :: g in r.value ==> Keep(g)
  {
    GetSteamSpyGames("top100in2weeks", respond)
  }

  /**
   * The games `getRandomGames` deals out, from non-negative review counts,
   * score from 1 to 100 and have more than 500 reviews; two responders
   * that agree on "top100in2weeks" give the same games.
   */
  lemma RandomGamesArePercentages(respond: string -> Result<HttpResponse>, other: string -> Result<HttpResponse>)
    requires respond("top100in2weeks") == other("top100in2weeks")
    requires respond("top100in2weeks").Success? && respond("top100in2weeks").value.records.Some?
    requires forall rec :: rec in respond("top100in2weeks").value.records.value ==> rec.positive >= 0 && rec.negative >= 0
    ensures GetRandomGames(respond) == GetRandomGames(other)
    ensures GetRandomGames(respond).Success? ==>
      forall g :: g in GetRandomGames(respond).value ==> 1 <= g.steamScore <= 100 && g.totalReviews > 500
  {
    KeptScoresArePercentages(respond("top100in2weeks").value.records.value);
  }
}
