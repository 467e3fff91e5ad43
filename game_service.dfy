/** The backend's game catalog (backend/app/services/game_service.py): a list of game
    records loaded from a JSON file, extended without duplicate app ids, paged,
    searched and looked up by id. Records are dictionaries; a field the record lacks
    is `None` here, and `g.get(field, default)` reads it with its default.
    The file itself is left out: whether a write succeeds is an input. */
module GameService {
  import opened Common

  datatype CatalogGame = CatalogGame(appId: Option<int>, name: Option<string>, playtimeHours: Option<real>, score: Option<real>)

  function NameOf(g: CatalogGame): string { g.name.GetOr("") }
  function PlaytimeOf(g: CatalogGame): real { g.playtimeHours.GetOr(0.0) }
  function ScoreOf(g: CatalogGame): real { g.score.GetOr(0.0) }

  /** The app ids present in a list of records (`None` for a record without one). */
  function Ids(games: seq<CatalogGame>): (ids: set<Option<int>>)
    ensures forall g :: g in games ==> g.appId in ids
    ensures forall id :: id in ids ==> exists g :: g in games && g.appId == id
  {
    set g | g in games :: g.appId
  }

  /** `items[offset:offset + limit] if limit else items[offset:]`: a zero or absent limit
      means "to the end". */
  function Paginate<T>(items: seq<T>, limit: Option<int>, offset: int): (page: seq<T>)
    ensures 0 <= offset <= |items| && limit.Some? && limit.value > 0 ==>
      page == items[offset..Min(offset + limit.value, |items|)]
    ensures 0 <= offset <= |items| && (limit.None? || limit.value == 0) ==> page == items[offset..]
    ensures offset >= |items| ==> page == []
    ensures 0 <= offset && limit.Some? && limit.value > 0 ==> |page| <= limit.value
  {
    if limit.Some? && limit.value != 0 then PySlice(items, offset, Some(offset + limit.value))
    else PySlice(items, offset, None)
  }

  function Min(a: int, b: int): int { if a <= b then a else b }

  /** `query_lower in g.get('name', '').lower()`; no query, or an empty one, keeps every game. */
  predicate MatchesQuery(g: CatalogGame, query: Option<string>) {
    query.None? || query.value == "" || Contains(ToLower(NameOf(g)), ToLower(query.value))
  }

  /** The two range conditions of `search_games`, inclusive at both ends. */
  predicate InBounds(g: CatalogGame, playtimeMin: real, playtimeMax: Bound, scoreMin: real, scoreMax: real) {
    Within(PlaytimeOf(g), playtimeMin, playtimeMax) && scoreMin <= ScoreOf(g) <= scoreMax
  }

  /** The query stage: every game when there is no query, else the games whose name
      contains it. */
  function QueryStage(games: seq<CatalogGame>, query: Option<string>): (r: seq<CatalogGame>)
    ensures forall g :: g in r ==> g in games && MatchesQuery(g, query)
    ensures forall g :: g in games && MatchesQuery(g, query) ==> g in r
  {
    if query.Some? && query.value != "" then
      var r := Filter(games, (g: CatalogGame) => Contains(ToLower(NameOf(g)), ToLower(query.value)));
      assert forall g :: g in games && MatchesQuery(g, query) ==> g in r by {
        forall g | g in games && MatchesQuery(g, query) ensures g in r {
          var i :| 0 <= i < |games| && games[i] == g;
        }
      }
      r
    else games
  }

  /** The playtime stage. */
  function PlaytimeStage(games: seq<CatalogGame>, playtimeMin: real, playtimeMax: Bound): (r: seq<CatalogGame>)
    ensures forall g :: g in r ==> g in games && Within(PlaytimeOf(g), playtimeMin, playtimeMax)
    ensures forall g :: g in games && Within(PlaytimeOf(g), playtimeMin, playtimeMax) ==> g in r
  {
    var r := Filter(games, (g: CatalogGame) => Within(PlaytimeOf(g), playtimeMin, playtimeMax));
    assert forall g :: g in games && Within(PlaytimeOf(g), playtimeMin, playtimeMax) ==> g in r by {
      forall g | g in games && Within(PlaytimeOf(g), playtimeMin, playtimeMax) ensures g in r {
        var i :| 0 <= i < |games| && games[i] == g;
      }
    }
    r
  }

  /** The score stage. */
  function ScoreStage(games: seq<CatalogGame>, scoreMin: real, scoreMax: real): (r: seq<CatalogGame>)
    ensures forall g :: g in r ==> g in games && scoreMin <= ScoreOf(g) <= scoreMax
    ensures forall g :: g in games && scoreMin <= ScoreOf(g) <= scoreMax ==> g in r
  {
    var r := Filter(games, (g: CatalogGame) => scoreMin <= ScoreOf(g) <= scoreMax);
    assert forall g :: g in games && scoreMin <= ScoreOf(g) <= scoreMax ==> g in r by {
      forall g | g in games && scoreMin <= ScoreOf(g) <= scoreMax ensures g in r {
        var i :| 0 <= i < |games| && games[i] == g;
      }
    }
    r
  }

  /** The first game with the given id, or `None`. */
  function FirstWithId(games: seq<CatalogGame>, appId: int): (r: Option<CatalogGame>)
    ensures r.None? <==> forall i :: 0 <= i < |games| ==> games[i].appId != Some(appId)
    ensures r.Some? ==> exists i :: 0 <= i < |games| && games[i] == r.value && r.value.appId == Some(appId)
                                    && forall j :: 0 <= j < i ==> games[j].appId != Some(appId)
  {
    if games == [] then None
    else if games[0].appId == Some(appId) then Some(games[0])
    else
      var r := FirstWithId(games[1..], appId);
      assert forall i :: 1 <= i < |games| ==> games[i] == games[1..][i - 1];
      r
  }

  class Catalog {
    var games: seq<CatalogGame>
    /** `games_file_path`: set once a file was loaded. */
    var filePath: Option<string>

    /** The catalog as loaded: the file's list, or empty when no file was found or it
        could not be read. */
    constructor (loaded: Option<(string, Option<seq<CatalogGame>>)>)
      ensures loaded.Some? && loaded.value.1.Some? ==> games == loaded.value.1.value && filePath == Some(loaded.value.0)
      ensures loaded.Some? && loaded.value.1.None? ==> games == [] && filePath == None
      ensures loaded.None? ==> games == [] && filePath == None
    {
      games, filePath := [], None;
      if loaded.Some? && loaded.value.1.Some? {
        games := loaded.value.1.value;
        filePath := Some(loaded.value.0);
      }
    }

    /** `add_games`: appends, in order, the incoming records whose app id the catalog does
        not have yet. The list is extended before the file is written, so a failed write
        reports `false` with the records already added. */
    method AddGames(newGames: seq<CatalogGame>, writeOk: bool) returns (added: bool)
      modifies this`games
      ensures newGames == [] || filePath.None? ==> !added && games == old(games)
      ensures newGames != [] && filePath.Some? ==>
        games == old(games) + Filter(newGames, (g: CatalogGame) => g.appId !in Ids(old(games)))
      ensures added <==> newGames != [] && filePath.Some? && games != old(games) && writeOk
    {
      if newGames == [] || filePath.None? {
        return false;
      }
      var existing := Ids(games);
      var toAdd := Filter(newGames, (g: CatalogGame) => g.appId !in existing);
      if toAdd == [] {
        return false;
      }
      games := games + toAdd;
      added := writeOk;
    }

    /** `get_all_games`: one page of the catalog and the catalog's size. */
    function GetAllGames(limit: Option<int>, offset: int): (r: (seq<CatalogGame>, nat))
      reads this
      ensures r.1 == |games|
      ensures r.0 == Paginate(games, limit, offset)
    {
      (Paginate(games, limit, offset), |games|)
    }

    /** The games `search_games` keeps before it pages them. */
    function Matching(query: Option<string>, playtimeMin: real, playtimeMax: Bound, scoreMin: real, scoreMax: real): (r: seq<CatalogGame>)
      reads this
      ensures forall g :: g in r <==>
        g in games && MatchesQuery(g, query) && InBounds(g, playtimeMin, playtimeMax, scoreMin, scoreMax)
    {
      ScoreStage(PlaytimeStage(QueryStage(games, query), playtimeMin, playtimeMax), scoreMin, scoreMax)
    }

    /** `search_games`: one page of the matching games, and how many match in all. */
    function SearchGames(query: Option<string>, playtimeMin: real, playtimeMax: Bound, scoreMin: real, scoreMax: real,
                         limit: Option<int>, offset: int): (r: (seq<CatalogGame>, nat))
      reads this
      ensures r.1 == |Matching(query, playtimeMin, playtimeMax, scoreMin, scoreMax)|
      ensures r.0 == Paginate(Matching(query, playtimeMin, playtimeMax, scoreMin, scoreMax), limit, offset)
    {
      var matching := Matching(query, playtimeMin, playtimeMax, scoreMin, scoreMax);
      (Paginate(matching, limit, offset), |matching|)
    }

    /** `get_game_by_id`: a scan for the first record with that id. */
    method GetGameById(appId: int) returns (r: Option<CatalogGame>)
      ensures r == FirstWithId(games, appId)
    {
      var i := 0;
      while i < |games|
        invariant 0 <= i <= |games|
        invariant FirstWithId(games, appId) == FirstWithId(games[i..], appId)
      {
        if games[i].appId == Some(appId) {
          return Some(games[i]);
        }
        assert games[i..][1..] == games[i + 1..];
        i := i + 1;
      }
      return None;
    }
  }

  /** The search keeps catalog order, and is one filter by all three conditions. */
  lemma SearchKeepsCatalogOrder(games: seq<CatalogGame>, query: Option<string>, playtimeMin: real, playtimeMax: Bound,
                                scoreMin: real, scoreMax: real, matches: CatalogGame -> bool)
    requires forall g :: matches(g) == (MatchesQuery(g, query) && InBounds(g, playtimeMin, playtimeMax, scoreMin, scoreMax))
    ensures ScoreStage(PlaytimeStage(QueryStage(games, query), playtimeMin, playtimeMax), scoreMin, scoreMax)
         == Filter(games, matches)
    ensures SubsequenceOf(ScoreStage(PlaytimeStage(QueryStage(games, query), playtimeMin, playtimeMax), scoreMin, scoreMax), games)
  {
    var p1 := (g: CatalogGame) => MatchesQuery(g, query);
    var p2 := (g: CatalogGame) => Within(PlaytimeOf(g), playtimeMin, playtimeMax);
    var p3 := (g: CatalogGame) => scoreMin <= ScoreOf(g) <= scoreMax;
    var p12 := (g: CatalogGame) => p1(g) && p2(g);
    var byQuery := QueryStage(games, query);
    QueryStageIsFilter(games, query, p1);
    var byPlaytime := PlaytimeStage(byQuery, playtimeMin, playtimeMax);
    RangeStagesAreFilters(byQuery, playtimeMin, playtimeMax, scoreMin, scoreMax, p2, p3);
    FilterTwice(games, p1, p2, p12);
    RangeStagesAreFilters(byPlaytime, playtimeMin, playtimeMax, scoreMin, scoreMax, p2, p3);
    FilterTwice(games, p12, p3, matches);
    FilterIsSubsequence(games, matches);
  }

  lemma RangeStagesAreFilters(games: seq<CatalogGame>, playtimeMin: real, playtimeMax: Bound, scoreMin: real, scoreMax: real,
                              p2: CatalogGame -> bool, p3: CatalogGame -> bool)
    requires forall g :: p2(g) == Within(PlaytimeOf(g), playtimeMin, playtimeMax)
    requires forall g :: p3(g) == (scoreMin <= ScoreOf(g) <= scoreMax)
    ensures PlaytimeStage(games, playtimeMin, playtimeMax) == Filter(games, p2)
    ensures ScoreStage(games, scoreMin, scoreMax) == Filter(games, p3)
  {
    FilterSameOn(games, (g: CatalogGame) => Within(PlaytimeOf(g), playtimeMin, playtimeMax), p2);
    FilterSameOn(games, (g: CatalogGame) => scoreMin <= ScoreOf(g) <= scoreMax, p3);
  }

  lemma QueryStageIsFilter(games: seq<CatalogGame>, query: Option<string>, p: CatalogGame -> bool)
    requires forall g :: p(g) == MatchesQuery(g, query)
    ensures QueryStage(games, query) == Filter(games, p)
  {
    if query.Some? && query.value != "" {
      FilterSameOn(games, (g: CatalogGame) => Contains(ToLower(NameOf(g)), ToLower(query.value)), p);
    } else {
      FilterKeepsAll(games, p);
    }
  }

  /** A lookup finds a game exactly when the catalog has one with that id, and the game
      found carries that id. */
  lemma LookupFindsExactly(games: seq<CatalogGame>, appId: int)
    ensures FirstWithId(games, appId).Some? <==> Some(appId) in Ids(games)
    ensures FirstWithId(games, appId).Some? ==> FirstWithId(games, appId).value in games
  {
    if Some(appId) in Ids(games) {
      var g :| g in games && g.appId == Some(appId);
      var i :| 0 <= i < |games| && games[i] == g;
    }
  }

  /** Adding the same records twice adds nothing the second time. */
  lemma AddIsIdempotent(games: seq<CatalogGame>, newGames: seq<CatalogGame>)
    ensures var once := games + Filter(newGames, (g: CatalogGame) => g.appId !in Ids(games));
            Filter(newGames, (g: CatalogGame) => g.appId !in Ids(once)) == []
  {
    var added := Filter(newGames, (g: CatalogGame) => g.appId !in Ids(games));
    var once := games + added;
    forall g | g in newGames ensures g.appId in Ids(once) {
      if g.appId in Ids(games) {
        var h :| h in games && h.appId == g.appId;
        assert h in once;
      } else {
        assert g in added;
      }
    }
    FilterKeepsNone(newGames, (g: CatalogGame) => g.appId !in Ids(once));
  }
}
