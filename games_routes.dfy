/** The catalog routes (backend/app/routes/games.py): a page of games, one game by id,
    the search, and the ranges the filter panel offers. Query parameters that break
    their declared bounds are answered with 422 before the handler runs. */
module GamesRoutes {
  import opened Common
  import opened GameService

  const DEFAULT_LIMIT := 24
  const MAX_LIMIT := 100

  datatype GameList = GameList(total: nat, games: seq<CatalogGame>)

  predicate ValidPage(limit: int, offset: int) {
    1 <= limit <= MAX_LIMIT && offset >= 0
  }

  /** `GET /api/games`. */
  function GetGames(c: Catalog, limit: int, offset: int): (r: Result<GameList, HttpError>)
    reads c
    ensures r.Err? <==> !ValidPage(limit, offset)
    ensures r.Err? ==> r.error.status == UNPROCESSABLE
    ensures r.Ok? ==> r.value.total == |c.games| && |r.value.games| <= limit
    ensures r.Ok? && offset <= |c.games| ==>
      r.value.games == c.games[offset..GameService.Min(offset + limit, |c.games|)]
    ensures r.Ok? && offset > |c.games| ==> r.value.games == []
  {
    if !ValidPage(limit, offset) then Err(HttpError(UNPROCESSABLE, ""))
    else
      var (games, total) := c.GetAllGames(Some(limit), offset);
      Ok(GameList(total, games))
  }

  /** `GET /api/games/{app_id}`: the first game with that id, else 404. */
  function GetGame(c: Catalog, appId: int): (r: Result<CatalogGame, HttpError>)
    reads c
    ensures r.Ok? <==> Some(appId) in Ids(c.games)
    ensures r.Ok? ==> r.value in c.games && r.value.appId == Some(appId)
    ensures r.Err? ==> r.error == HttpError(404, "Game with app_id " + IntToString(appId) + " not found")
  {
    LookupFindsExactly(c.games, appId);
    match FirstWithId(c.games, appId)
    case None => Err(HttpError(404, "Game with app_id " + IntToString(appId) + " not found"))
    case Some(g) => Ok(g)
  }

  /** The declared bounds of `GET /api/search`: a query of at least one character,
      non-negative playtime bounds, score bounds within [0, 100], and a valid page. */
  predicate ValidSearch(query: Option<string>, playtimeMin: real, playtimeMax: Bound, scoreMin: real, scoreMax: real,
                        limit: int, offset: int) {
    && (query.Some? ==> |query.value| >= 1)
    && playtimeMin >= 0.0 && (playtimeMax.Finite? ==> playtimeMax.n >= 0.0)
    && 0.0 <= scoreMin <= 100.0 && 0.0 <= scoreMax <= 100.0
    && ValidPage(limit, offset)
  }

  /** `GET /api/search`. */
  function Search(c: Catalog, query: Option<string>, playtimeMin: real, playtimeMax: Bound, scoreMin: real, scoreMax: real,
                  limit: int, offset: int): (r: Result<GameList, HttpError>)
    reads c
    ensures r.Err? <==> !ValidSearch(query, playtimeMin, playtimeMax, scoreMin, scoreMax, limit, offset)
    ensures r.Err? ==> r.error.status == UNPROCESSABLE
    ensures r.Ok? ==> r.value.total == |c.Matching(query, playtimeMin, playtimeMax, scoreMin, scoreMax)|
    ensures r.Ok? ==> |r.value.games| <= limit
    ensures r.Ok? ==> r.value.games == Paginate(c.Matching(query, playtimeMin, playtimeMax, scoreMin, scoreMax), Some(limit), offset)
    ensures r.Ok? ==> forall g :: g in r.value.games ==>
      g in c.games && MatchesQuery(g, query) && InBounds(g, playtimeMin, playtimeMax, scoreMin, scoreMax)
  {
    if !ValidSearch(query, playtimeMin, playtimeMax, scoreMin, scoreMax, limit, offset) then
      Err(HttpError(UNPROCESSABLE, ""))
    else
      var matching := c.Matching(query, playtimeMin, playtimeMax, scoreMin, scoreMax);
      var (games, total) := c.SearchGames(query, playtimeMin, playtimeMax, scoreMin, scoreMax, Some(limit), offset);
      assert games == Paginate(matching, Some(limit), offset);
      PageWithin(matching, limit, offset);
      Ok(GameList(total, games))
  }

  /** Every game of a page is one of the games paged. */
  lemma PageWithin<T>(items: seq<T>, limit: int, offset: int)
    requires ValidPage(limit, offset)
    ensures forall x :: x in Paginate(items, Some(limit), offset) ==> x in items
  {
    if offset <= |items| {
      var page := items[offset..GameService.Min(offset + limit, |items|)];
      assert forall x :: x in page ==> x in items;
    }
  }

  datatype Range = Range(min: real, max: real)
  datatype FilterOptions = FilterOptions(playtime: Range, score: Range, totalGames: nat)

  function MinOf(xs: seq<real>): (m: real)
    requires xs != []
    ensures m in xs && forall i :: 0 <= i < |xs| ==> m <= xs[i]
  {
    if |xs| == 1 then xs[0]
    else
      var rest := MinOf(xs[1..]);
      if xs[0] <= rest then xs[0] else rest
  }

  function MaxOf(xs: seq<real>): (m: real)
    requires xs != []
    ensures m in xs && forall i :: 0 <= i < |xs| ==> xs[i] <= m
  {
    if |xs| == 1 then xs[0]
    else
      var rest := MaxOf(xs[1..]);
      if xs[0] >= rest then xs[0] else rest
  }

  function Playtimes(games: seq<CatalogGame>): (xs: seq<real>)
    ensures |xs| == |games| && forall i :: 0 <= i < |games| ==> xs[i] == PlaytimeOf(games[i])
  {
    seq(|games|, i requires 0 <= i < |games| => PlaytimeOf(games[i]))
  }

  function Scores(games: seq<CatalogGame>): (xs: seq<real>)
    ensures |xs| == |games| && forall i :: 0 <= i < |games| ==> xs[i] == ScoreOf(games[i])
  {
    seq(|games|, i requires 0 <= i < |games| => ScoreOf(games[i]))
  }

  /** `GET /api/filters`: fixed ranges for an empty catalog, otherwise the smallest and
      largest playtime and score over all games (a missing value counting as 0). */
  function GetFilters(c: Catalog): (r: FilterOptions)
    reads c
    ensures r.totalGames == |c.games|
    ensures c.games == [] ==> r == FilterOptions(Range(0.0, 0.0), Range(0.0, 100.0), 0)
    ensures c.games != [] ==>
      && r.playtime.min <= r.playtime.max && r.score.min <= r.score.max
      && (forall g :: g in c.games ==> r.playtime.min <= PlaytimeOf(g) <= r.playtime.max)
      && (forall g :: g in c.games ==> r.score.min <= ScoreOf(g) <= r.score.max)
      && (exists g :: g in c.games && PlaytimeOf(g) == r.playtime.min)
      && (exists g :: g in c.games && PlaytimeOf(g) == r.playtime.max)
      && (exists g :: g in c.games && ScoreOf(g) == r.score.min)
      && (exists g :: g in c.games && ScoreOf(g) == r.score.max)
  {
    if c.games == [] then FilterOptions(Range(0.0, 0.0), Range(0.0, 100.0), 0)
    else
      var playtimes, scores := Playtimes(c.games), Scores(c.games);
      var r := FilterOptions(Range(MinOf(playtimes), MaxOf(playtimes)), Range(MinOf(scores), MaxOf(scores)), |c.games|);
      assert forall g :: g in c.games ==> r.playtime.min <= PlaytimeOf(g) <= r.playtime.max && r.score.min <= ScoreOf(g) <= r.score.max by {
        forall g | g in c.games
          ensures r.playtime.min <= PlaytimeOf(g) <= r.playtime.max && r.score.min <= ScoreOf(g) <= r.score.max
        {
          var i :| 0 <= i < |c.games| && c.games[i] == g;
          assert playtimes[i] == PlaytimeOf(g) && scores[i] == ScoreOf(g);
        }
      }
      ghost var i1 :| 0 <= i1 < |playtimes| && playtimes[i1] == r.playtime.min;
      ghost var i2 :| 0 <= i2 < |playtimes| && playtimes[i2] == r.playtime.max;
      ghost var i3 :| 0 <= i3 < |scores| && scores[i3] == r.score.min;
      ghost var i4 :| 0 <= i4 < |scores| && scores[i4] == r.score.max;
      assert c.games[i1] in c.games && c.games[i2] in c.games && c.games[i3] in c.games && c.games[i4] in c.games;
      r
  }
}
