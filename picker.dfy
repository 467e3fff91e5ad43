/** The command-line priority picker (main.py): it reads the Steam library (through
    the cache), enriches every game with HowLongToBeat playtime and the review score,
    sorts shortest first and best first among equals, and formats a text report.
    Every remote service is an input: what the cache held, and what the service returned. */
module Picker {
  import opened Common
  import opened ReviewScore

  datatype OwnedGame = OwnedGame(appid: int, name: string)

  /** A HowLongToBeat match as the search returns it. */
  datatype HltbData = HltbData(name: string, mainStoryHours: real, url: string)

  /** What the cache holds under `hltb_<name>`: a match, or the `{"not_found": True}` marker. */
  datatype HltbEntry = Found(data: HltbData) | NotFound

  datatype Enriched = Enriched(
    name: string, appid: int, playtimeHours: real, score: real, scoreSource: string,
    totalReviews: int, reviewDesc: string, steamUrl: string, hltbUrl: string,
    hltbName: string, hltbAvailable: bool)

  /** An enriched game and the cache writes its enrichment made. */
  datatype Enrichment = Enrichment(game: Enriched, hltbWrite: Option<HltbEntry>, reviewWrite: Option<Review>)

  const STORE_APP_URL := "https://store.steampowered.com/app/"

  /** `SteamAPI.get_store_url(appid)`. */
  function StoreUrl(appid: int): string {
    STORE_APP_URL + IntToString(appid) + "/"
  }

  // ---------------------------------------------------------------- fetch_steam_library

  /** `fetch_steam_library()`: a cached library (any value but `None`) is returned as it
      is and the API is not asked; otherwise `owned` is what the API returned, and it is
      cached when the cache is on. The second component is the cache write. */
  function FetchSteamLibrary(useCache: bool, cached: Option<seq<OwnedGame>>, owned: seq<OwnedGame>)
    : (r: (seq<OwnedGame>, Option<seq<OwnedGame>>))
    ensures useCache && cached.Some? ==> r == (cached.value, None)
    ensures !(useCache && cached.Some?) ==> r.0 == owned
    ensures r.1.Some? <==> useCache && cached.None?
    ensures r.1.Some? ==> r.1.value == owned
  {
    if useCache && cached.Some? then (cached.value, None)
    else (owned, if useCache then Some(owned) else None)
  }

  // ---------------------------------------------------------------- enrich_game_data

  /** `enrich_game_data(game)`. `hltbCached` and `reviewCached` are what the cache held
      (`None` for a miss or an expired entry), `hltbSearched` and `reviewFetched` what the
      services return when asked. */
  function EnrichGameData(game: OwnedGame, useCache: bool,
                          hltbCached: Option<HltbEntry>, hltbSearched: Option<HltbData>,
                          reviewCached: Option<Review>, reviewFetched: Option<Review>): (e: Enrichment)
    ensures e.game.name == game.name && e.game.appid == game.appid && e.game.steamUrl == StoreUrl(game.appid)
    ensures e.game.hltbAvailable <==> e.game.playtimeHours > 0.0
    ensures e.hltbWrite.Some? <==> useCache && hltbCached.None?
    ensures e.hltbWrite.Some? ==> e.hltbWrite.value == if hltbSearched.Some? then Found(hltbSearched.value) else NotFound
    ensures e.reviewWrite.Some? <==> useCache && reviewCached.None? && reviewFetched.Some?
  {
    var hit := useCache && hltbCached.Some?;
    var hltb: Option<HltbData> :=
      if hit then (if hltbCached.value.Found? then Some(hltbCached.value.data) else None)
      else hltbSearched;
    var data := if hltb.Some? then hltb.value else HltbData(game.name, 0.0, "");
    var review := if useCache && reviewCached.Some? then reviewCached else reviewFetched;
    var enriched := Enriched(
      game.name, game.appid, data.mainStoryHours,
      if review.Some? then review.value.score else 0.0,
      if review.Some? then review.value.source else "N/A",
      if review.Some? then review.value.totalReviews else 0,
      if review.Some? then review.value.reviewDesc else "No reviews",
      StoreUrl(game.appid), data.url, data.name, data.mainStoryHours > 0.0);
    Enrichment(
      enriched,
      if useCache && !hit then Some(if hltbSearched.Some? then Found(hltbSearched.value) else NotFound) else None,
      if useCache && !(useCache && reviewCached.Some?) && reviewFetched.Some? then reviewFetched else None)
  }

  /** Without HowLongToBeat data, or with the not-found marker cached, the game gets
      playtime 0, no HowLongToBeat link and its own name. */
  lemma HltbDefaults(game: OwnedGame, useCache: bool, hltbCached: Option<HltbEntry>, hltbSearched: Option<HltbData>,
                     reviewCached: Option<Review>, reviewFetched: Option<Review>)
    requires if useCache && hltbCached.Some? then hltbCached.value == NotFound else hltbSearched.None?
    ensures var g := EnrichGameData(game, useCache, hltbCached, hltbSearched, reviewCached, reviewFetched).game;
      g.playtimeHours == 0.0 && g.hltbUrl == "" && g.hltbName == game.name && !g.hltbAvailable
  {
  }

  /** Without review data the game gets score 0 from "N/A", no reviews and "No reviews". */
  lemma ReviewDefaults(game: OwnedGame, useCache: bool, hltbCached: Option<HltbEntry>, hltbSearched: Option<HltbData>,
                       reviewCached: Option<Review>)
    requires !(useCache && reviewCached.Some?)
    ensures var g := EnrichGameData(game, useCache, hltbCached, hltbSearched, reviewCached, None).game;
      g.score == 0.0 && g.scoreSource == "N/A" && g.totalReviews == 0 && g.reviewDesc == "No reviews"
  {
  }

  /** A cache hit is used as it is: the services' answers do not matter. */
  lemma CacheHitsWin(game: OwnedGame, hltb: HltbEntry, review: Review,
                     searched1: Option<HltbData>, searched2: Option<HltbData>,
                     fetched1: Option<Review>, fetched2: Option<Review>)
    ensures EnrichGameData(game, true, Some(hltb), searched1, Some(review), fetched1)
         == EnrichGameData(game, true, Some(hltb), searched2, Some(review), fetched2)
  {
  }

  /** A missed HowLongToBeat lookup is written back as the marker, and the next run
      reads the marker and does not search again, ending with the same game. */
  lemma NotFoundIsRemembered(game: OwnedGame, review: Option<Review>, searched: Option<HltbData>)
    ensures var first := EnrichGameData(game, true, None, None, review, review);
      first.hltbWrite == Some(NotFound)
      && EnrichGameData(game, true, first.hltbWrite, searched, review, review).game == first.game
  {
  }

  // ---------------------------------------------------------------- process_library

  /** `games[:max_games]` when `max_games` is truthy (neither `None` nor 0). */
  function Truncate(games: seq<OwnedGame>, maxGames: Option<int>): (r: seq<OwnedGame>)
    ensures maxGames.Some? && maxGames.value > 0 ==> r == games[..Min(maxGames.value, |games|)]
    ensures maxGames.None? || maxGames.value == 0 ==> r == games
  {
    if maxGames.Some? && maxGames.value != 0 then PySlice(games, 0, maxGames) else games
  }

  function Min(a: int, b: int): int { if a <= b then a else b }

  /** The games whose enrichment did not raise, enriched, in library order;
      `enrich(g)` is `None` when enriching `g` raised. */
  function Kept(games: seq<OwnedGame>, enrich: OwnedGame -> Option<Enriched>): (r: seq<Enriched>)
    ensures |r| <= |games|
    ensures forall k :: 0 <= k < |r| ==> exists i :: 0 <= i < |games| && enrich(games[i]) == Some(r[k])
    ensures (forall g :: g in games ==> enrich(g).Some?) ==> |r| == |games|
  {
    if games == [] then []
    else
      var front := games[..|games| - 1];
      var rest := Kept(front, enrich);
      assert forall i :: 0 <= i < |front| ==> front[i] == games[i];
      var e := enrich(games[|games| - 1]);
      if e.Some? then rest + [e.value] else rest
  }

  /** `process_library(max_games)`. */
  method ProcessLibrary(library: seq<OwnedGame>, maxGames: Option<int>, enrich: OwnedGame -> Option<Enriched>)
    returns (enriched: seq<Enriched>)
    ensures enriched == Kept(Truncate(library, maxGames), enrich)
    ensures maxGames.Some? && maxGames.value > 0 ==> |enriched| <= maxGames.value
  {
    var games := Truncate(library, maxGames);
    enriched := [];
    var i := 0;
    while i < |games|
      invariant 0 <= i <= |games|
      invariant enriched == Kept(games[..i], enrich)
    {
      assert games[..i + 1][..i] == games[..i];
      var e := enrich(games[i]);
      if e.Some? {
        enriched := enriched + [e.value];
      }
      i := i + 1;
    }
    assert games[..i] == games;
  }

  // ---------------------------------------------------------------- sort_games

  /** The sort key `(playtime_hours, -score)`: `a` may come before `b`. */
  predicate PriorityOrder(a: Enriched, b: Enriched) {
    a.playtimeHours < b.playtimeHours || (a.playtimeHours == b.playtimeHours && a.score >= b.score)
  }

  lemma PriorityOrderIsPreorder()
    ensures TotalPreorder(PriorityOrder)
  {
  }

  /** `sort_games(games)`: a permutation, shortest first, and the higher score first
      among games of equal playtime. */
  function SortGames(games: seq<Enriched>): (r: seq<Enriched>)
    ensures multiset(r) == multiset(games)
    ensures forall i, j :: 0 <= i < j < |r| ==> r[i].playtimeHours <= r[j].playtimeHours
    ensures forall i, j :: 0 <= i < j < |r| && r[i].playtimeHours == r[j].playtimeHours ==> r[i].score >= r[j].score
  {
    PriorityOrderIsPreorder();
    SortBySorted(games, PriorityOrder);
    SortBy(games, PriorityOrder)
  }

  // ---------------------------------------------------------------- format_output

  /** `"=" * 80`. */
  function Rule(): (r: string)
    ensures |r| == 80 && forall i :: 0 <= i < 80 ==> r[i] == '='
  {
    seq(80, _ => '=')
  }

  const TITLE := "STEAM PRIORITY PICKER - RECOMMENDED GAMES"

  /** The seven lines of one game; `fixed1` renders a number with one decimal (`:.1f`),
      `grouped` an integer with thousands separators (`:,`). */
  function GameLines(position: nat, g: Enriched, fixed1: real -> string, grouped: int -> string): (lines: seq<string>)
    ensures |lines| == 7 && lines[0] == NatToString(position) + ". " + g.name && lines[6] == ""
  {
    [NatToString(position) + ". " + g.name,
     "   Playtime: " + fixed1(g.playtimeHours) + " hours (main story)",
     "   Score: " + fixed1(g.score) + "% (" + g.scoreSource + ") - " + g.reviewDesc,
     "   Reviews: " + grouped(g.totalReviews),
     "   Steam: " + g.steamUrl,
     "   HLTB: " + g.hltbUrl,
     ""]
  }

  /** The blocks of games `first+1`, ..., numbered from `first + 1`. */
  function Blocks(games: seq<Enriched>, first: nat, fixed1: real -> string, grouped: int -> string): (lines: seq<string>)
    ensures |lines| == 7 * |games|
    ensures forall i :: 0 <= i < |games| ==> lines[7 * i] == NatToString(first + i + 1) + ". " + games[i].name
    decreases |games|
  {
    if games == [] then []
    else
      var rest := Blocks(games[1..], first + 1, fixed1, grouped);
      var lines := GameLines(first + 1, games[0], fixed1, grouped) + rest;
      assert forall i :: 0 <= i < |games| ==> lines[7 * i] == NatToString(first + i + 1) + ". " + games[i].name by {
        forall i | 1 <= i < |games|
          ensures lines[7 * i] == NatToString(first + i + 1) + ". " + games[i].name
        {
          assert lines[7 * i] == rest[7 * (i - 1)];
          assert games[i] == games[1..][i - 1];
        }
      }
      lines
  }

  /** The report's lines: a framed title, one numbered block per game, and the total. */
  function OutputLines(games: seq<Enriched>, fixed1: real -> string, grouped: int -> string): (lines: seq<string>)
    ensures |lines| == 7 * |games| + 7
    ensures lines[|lines| - 2] == "Total: " + NatToString(|games|) + " games"
    ensures lines[|lines| - 1] == Rule() && lines[0] == Rule() && lines[1] == TITLE
    ensures forall i :: 0 <= i < |games| ==> lines[4 + 7 * i] == NatToString(i + 1) + ". " + games[i].name
  {
    [Rule(), TITLE, Rule(), ""] + Blocks(games, 0, fixed1, grouped)
      + [Rule(), "Total: " + NatToString(|games|) + " games", Rule()]
  }

  /** `format_output(games)`: the lines joined by newlines. */
  function FormatOutput(games: seq<Enriched>, fixed1: real -> string, grouped: int -> string): string
  {
    Join(OutputLines(games, fixed1, grouped), '\n')
  }

  /** When no field holds a newline, the report's lines come back from the text, the
      second to last being "Total: N games" for N games. */
  lemma ReportEndsWithTotal(games: seq<Enriched>, fixed1: real -> string, grouped: int -> string)
    requires forall i :: 0 <= i < |OutputLines(games, fixed1, grouped)| ==> '\n' !in OutputLines(games, fixed1, grouped)[i]
    ensures var lines := Split(FormatOutput(games, fixed1, grouped), '\n');
      |lines| == 7 * |games| + 7 && lines[|lines| - 2] == "Total: " + NatToString(|games|) + " games"
  {
    SplitJoin(OutputLines(games, fixed1, grouped), '\n');
  }

  // ---------------------------------------------------------------- run

  /** What `run()` produces: nothing when no game was enriched, otherwise the games
      written as JSON (when asked for) and the printed report (when asked for). */
  datatype RunOutput = NoGames | Outputs(json: Option<seq<Enriched>>, text: Option<string>)

  /** `run(max_games, output_json, output_text)` after `process_library`: both outputs
      hold the same games, all of them, in priority order. */
  function Run(enriched: seq<Enriched>, outputJson: bool, outputText: bool,
               fixed1: real -> string, grouped: int -> string): (r: RunOutput)
    ensures r.NoGames? <==> enriched == []
    ensures r.Outputs? ==> (r.json.Some? <==> outputJson) && (r.text.Some? <==> outputText)
    ensures r.Outputs? && r.json.Some? ==>
      multiset(r.json.value) == multiset(enriched)
      && forall i, j :: 0 <= i < j < |r.json.value| ==> PriorityOrder(r.json.value[i], r.json.value[j])
    ensures r.Outputs? && r.text.Some? ==> r.text.value == FormatOutput(SortGames(enriched), fixed1, grouped)
    ensures r.Outputs? && r.json.Some? && r.text.Some? ==> r.text.value == FormatOutput(r.json.value, fixed1, grouped)
  {
    if enriched == [] then NoGames
    else
      var sorted := SortGames(enriched);
      Outputs(if outputJson then Some(sorted) else None,
              if outputText then Some(FormatOutput(sorted, fixed1, grouped)) else None)
  }
}
