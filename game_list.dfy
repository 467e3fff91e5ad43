/** The list of games the browser shows: the `games` derivation of
    web/src/hooks/useGames.js, a chain of filters over a copy of the loaded
    library followed by a stable sort on one of four keys. */
module GameList {
  import opened Common
  import opened Filters

  /** A game of the loaded library, with the fields the list reads. */
  datatype Game = Game(appId: int, name: string, playtimeHours: real, score: real, totalReviews: int)

  // ------------------------------------------------------------------ stages

  /** Case-insensitive substring test of the search box. */
  predicate MatchesSearch(g: Game, query: string) {
    Contains(ToLower(g.name), ToLower(query))
  }

  predicate InPlaytimeRange(g: Game, c: FilterConfig) {
    Within(g.playtimeHours, c.playtimeMin, c.playtimeMax)
  }

  predicate InScoreRange(g: Game, c: FilterConfig) {
    Within(g.score, c.scoreMin, c.scoreMax)
  }

  predicate InReviewsRange(g: Game, c: FilterConfig) {
    Within(g.totalReviews as real, c.reviewsMin, c.reviewsMax)
  }

  /** The played-status selector: 'played' and 'unplayed' test membership, any other value keeps the game. */
  predicate PlayedStatusOk(g: Game, showPlayed: string, played: set<int>) {
    if showPlayed == SHOW_PLAYED then g.appId in played
    else if showPlayed == SHOW_UNPLAYED then g.appId !in played
    else true
  }

  /** The search stage runs only for a non-empty query. */
  function SearchStage(gs: seq<Game>, query: string): (r: seq<Game>)
    ensures query == "" ==> r == gs
    ensures forall i :: 0 <= i < |r| ==> MatchesSearch(r[i], query)
    ensures forall i :: 0 <= i < |gs| && MatchesSearch(gs[i], query) ==> gs[i] in r
    ensures multiset(r) <= multiset(gs)
  {
    if query != "" then Filter(gs, g => MatchesSearch(g, query)) else gs
  }

  function PlaytimeStage(gs: seq<Game>, c: FilterConfig): (r: seq<Game>)
    ensures forall i :: 0 <= i < |r| ==> InPlaytimeRange(r[i], c)
    ensures forall i :: 0 <= i < |gs| && InPlaytimeRange(gs[i], c) ==> gs[i] in r
    ensures multiset(r) <= multiset(gs)
  {
    Filter(gs, g => InPlaytimeRange(g, c))
  }

  function ScoreStage(gs: seq<Game>, c: FilterConfig): (r: seq<Game>)
    ensures forall i :: 0 <= i < |r| ==> InScoreRange(r[i], c)
    ensures forall i :: 0 <= i < |gs| && InScoreRange(gs[i], c) ==> gs[i] in r
    ensures multiset(r) <= multiset(gs)
  {
    Filter(gs, g => InScoreRange(g, c))
  }

  function ReviewsStage(gs: seq<Game>, c: FilterConfig): (r: seq<Game>)
    ensures forall i :: 0 <= i < |r| ==> InReviewsRange(r[i], c)
    ensures forall i :: 0 <= i < |gs| && InReviewsRange(gs[i], c) ==> gs[i] in r
    ensures multiset(r) <= multiset(gs)
  {
    Filter(gs, g => InReviewsRange(g, c))
  }

  function PlayedStage(gs: seq<Game>, showPlayed: string, played: set<int>): (r: seq<Game>)
    ensures showPlayed != SHOW_PLAYED && showPlayed != SHOW_UNPLAYED ==> r == gs
    ensures showPlayed == SHOW_PLAYED ==> forall i :: 0 <= i < |r| ==> r[i].appId in played
    ensures showPlayed == SHOW_UNPLAYED ==> forall i :: 0 <= i < |r| ==> r[i].appId !in played
    ensures forall i :: 0 <= i < |gs| && PlayedStatusOk(gs[i], showPlayed, played) ==> gs[i] in r
    ensures multiset(r) <= multiset(gs)
  {
    if showPlayed == SHOW_PLAYED then Filter(gs, (g: Game) => g.appId in played)
    else if showPlayed == SHOW_UNPLAYED then Filter(gs, (g: Game) => g.appId !in played)
    else gs
  }

  // ------------------------------------------------------------------ sorting

  /** The orders behind the four comparators: `a` may come before `b`. */
  predicate PlaytimeAscending(a: Game, b: Game) { a.playtimeHours <= b.playtimeHours }
  predicate PlaytimeDescending(a: Game, b: Game) { a.playtimeHours >= b.playtimeHours }
  predicate ScoreAscending(a: Game, b: Game) { a.score <= b.score }
  predicate ScoreDescending(a: Game, b: Game) { a.score >= b.score }

  lemma KeyOrdersArePreorders()
    ensures TotalPreorder(PlaytimeAscending) && TotalPreorder(PlaytimeDescending)
    ensures TotalPreorder(ScoreAscending) && TotalPreorder(ScoreDescending)
  {
  }

  /** The sort of the filtered copy; a sort key other than the four known ones leaves the order alone. */
  function SortStage(gs: seq<Game>, sortBy: string): (r: seq<Game>)
    ensures multiset(r) == multiset(gs)
    ensures sortBy == SORT_PLAYTIME_ASC ==>
      forall i, j :: 0 <= i < j < |r| ==> r[i].playtimeHours <= r[j].playtimeHours
    ensures sortBy == SORT_PLAYTIME_DESC ==>
      forall i, j :: 0 <= i < j < |r| ==> r[i].playtimeHours >= r[j].playtimeHours
    ensures sortBy == SORT_SCORE_ASC ==>
      forall i, j :: 0 <= i < j < |r| ==> r[i].score <= r[j].score
    ensures sortBy == SORT_SCORE_DESC ==>
      forall i, j :: 0 <= i < j < |r| ==> r[i].score >= r[j].score
    ensures sortBy !in {SORT_PLAYTIME_ASC, SORT_PLAYTIME_DESC, SORT_SCORE_ASC, SORT_SCORE_DESC} ==> r == gs
  {
    KeyOrdersArePreorders();
    if sortBy == SORT_PLAYTIME_ASC then
      SortBySorted(gs, PlaytimeAscending);
      SortBy(gs, PlaytimeAscending)
    else if sortBy == SORT_PLAYTIME_DESC then
      SortBySorted(gs, PlaytimeDescending);
      SortBy(gs, PlaytimeDescending)
    else if sortBy == SORT_SCORE_ASC then
      SortBySorted(gs, ScoreAscending);
      SortBy(gs, ScoreAscending)
    else if sortBy == SORT_SCORE_DESC then
      SortBySorted(gs, ScoreDescending);
      SortBy(gs, ScoreDescending)
    else gs
  }

  // ------------------------------------------------------------------ the derivation

  /** The whole memoised derivation, stage by stage in the hook's order. */
  function DeriveGames(allGames: seq<Game>, c: FilterConfig, played: set<int>): (r: seq<Game>)
  {
    var searched := SearchStage(allGames, c.searchQuery);
    var byPlaytime := PlaytimeStage(searched, c);
    var byScore := ScoreStage(byPlaytime, c);
    var byReviews := ReviewsStage(byScore, c);
    var byStatus := PlayedStage(byReviews, c.showPlayed, played);
    SortStage(byStatus, c.sortBy)
  }

  /** Every condition of the chain at once: the reference for what the list may hold. */
  predicate Passes(g: Game, c: FilterConfig, played: set<int>) {
    && MatchesSearch(g, c.searchQuery)
    && InPlaytimeRange(g, c)
    && InScoreRange(g, c)
    && InReviewsRange(g, c)
    && PlayedStatusOk(g, c.showPlayed, played)
  }

  /** A game is shown exactly when it is in the library and passes every condition;
      nothing is invented and the library keeps every game it had. */
  lemma DerivedMembership(allGames: seq<Game>, c: FilterConfig, played: set<int>, g: Game)
    ensures g in DeriveGames(allGames, c, played) <==> g in allGames && Passes(g, c, played)
    ensures multiset(DeriveGames(allGames, c, played)) <= multiset(allGames)
  {
    var searched := SearchStage(allGames, c.searchQuery);
    var byPlaytime := PlaytimeStage(searched, c);
    var byScore := ScoreStage(byPlaytime, c);
    var byReviews := ReviewsStage(byScore, c);
    var byStatus := PlayedStage(byReviews, c.showPlayed, played);
    var r := SortStage(byStatus, c.sortBy);
    StageMember(allGames, searched, (h: Game) => MatchesSearch(h, c.searchQuery), g);
    StageMember(searched, byPlaytime, (h: Game) => InPlaytimeRange(h, c), g);
    StageMember(byPlaytime, byScore, (h: Game) => InScoreRange(h, c), g);
    StageMember(byScore, byReviews, (h: Game) => InReviewsRange(h, c), g);
    StageMember(byReviews, byStatus, (h: Game) => PlayedStatusOk(h, c.showPlayed, played), g);
    assert g in r <==> g in byStatus by {
      assert g in r <==> g in multiset(byStatus);
    }
    assert multiset(r) <= multiset(allGames) by {
      assert multiset(byStatus) <= multiset(byReviews) <= multiset(byScore);
      assert multiset(byScore) <= multiset(byPlaytime) <= multiset(searched) <= multiset(allGames);
    }
  }

  /** A stage that keeps exactly the elements passing `keep`, and only elements it had. */
  lemma StageMember(gs: seq<Game>, r: seq<Game>, keep: Game -> bool, g: Game)
    requires forall i :: 0 <= i < |r| ==> keep(r[i])
    requires forall i :: 0 <= i < |gs| && keep(gs[i]) ==> gs[i] in r
    requires multiset(r) <= multiset(gs)
    ensures g in r <==> g in gs && keep(g)
  {
    if g in r {
      var i :| 0 <= i < |r| && r[i] == g;
      assert g in multiset(gs);
    }
    if g in gs && keep(g) {
      var i :| 0 <= i < |gs| && gs[i] == g;
    }
  }

  /** Every shown game lies inside all three inclusive ranges. */
  lemma DerivedWithinBounds(allGames: seq<Game>, c: FilterConfig, played: set<int>)
    ensures forall g :: g in DeriveGames(allGames, c, played) ==>
      && Within(g.playtimeHours, c.playtimeMin, c.playtimeMax)
      && Within(g.score, c.scoreMin, c.scoreMax)
      && Within(g.totalReviews as real, c.reviewsMin, c.reviewsMax)
  {
    forall g | g in DeriveGames(allGames, c, played)
      ensures InPlaytimeRange(g, c) && InScoreRange(g, c) && InReviewsRange(g, c)
    {
      DerivedMembership(allGames, c, played, g);
    }
  }

  /** Each stage is a filter by its own condition (or keeps everything). */
  lemma SearchStageIsFilter(gs: seq<Game>, query: string, p: Game -> bool)
    requires forall g :: p(g) == MatchesSearch(g, query)
    ensures SearchStage(gs, query) == Filter(gs, p)
  {
    if query == "" {
      forall g | g in gs ensures p(g) { assert IsPrefix(ToLower(query), ToLower(g.name)); }
      FilterKeepsAll(gs, p);
    } else {
      FilterSameOn(gs, g => MatchesSearch(g, query), p);
    }
  }

  lemma RangeStagesAreFilters(gs: seq<Game>, c: FilterConfig, p2: Game -> bool, p3: Game -> bool, p4: Game -> bool)
    requires forall g :: p2(g) == InPlaytimeRange(g, c)
    requires forall g :: p3(g) == InScoreRange(g, c)
    requires forall g :: p4(g) == InReviewsRange(g, c)
    ensures PlaytimeStage(gs, c) == Filter(gs, p2)
    ensures ScoreStage(gs, c) == Filter(gs, p3)
    ensures ReviewsStage(gs, c) == Filter(gs, p4)
  {
    FilterSameOn(gs, g => InPlaytimeRange(g, c), p2);
    FilterSameOn(gs, g => InScoreRange(g, c), p3);
    FilterSameOn(gs, g => InReviewsRange(g, c), p4);
  }

  lemma PlayedStageIsFilter(gs: seq<Game>, showPlayed: string, played: set<int>, p: Game -> bool)
    requires forall g :: p(g) == PlayedStatusOk(g, showPlayed, played)
    ensures PlayedStage(gs, showPlayed, played) == Filter(gs, p)
  {
    if showPlayed == SHOW_PLAYED {
      FilterSameOn(gs, (g: Game) => g.appId in played, p);
    } else if showPlayed == SHOW_UNPLAYED {
      FilterSameOn(gs, (g: Game) => g.appId !in played, p);
    } else {
      FilterKeepsAll(gs, p);
    }
  }

  /** The chain of filters is one filter by `Passes`: the list before sorting is
      the subsequence of the library made of the passing games, in library order. */
  lemma FilteredIsOneFilter(allGames: seq<Game>, c: FilterConfig, played: set<int>)
    ensures PlayedStage(ReviewsStage(ScoreStage(PlaytimeStage(SearchStage(allGames, c.searchQuery), c), c), c),
                        c.showPlayed, played)
         == Filter(allGames, g => Passes(g, c, played))
  {
    var p1 := g => MatchesSearch(g, c.searchQuery);
    var p2 := g => InPlaytimeRange(g, c);
    var p3 := g => InScoreRange(g, c);
    var p4 := g => InReviewsRange(g, c);
    var p5 := g => PlayedStatusOk(g, c.showPlayed, played);
    var p12 := g => p1(g) && p2(g);
    var p123 := g => p12(g) && p3(g);
    var p1234 := g => p123(g) && p4(g);

    var searched := SearchStage(allGames, c.searchQuery);
    SearchStageIsFilter(allGames, c.searchQuery, p1);
    var byPlaytime := PlaytimeStage(searched, c);
    RangeStagesAreFilters(searched, c, p2, p3, p4);
    FilterTwice(allGames, p1, p2, p12);
    var byScore := ScoreStage(byPlaytime, c);
    RangeStagesAreFilters(byPlaytime, c, p2, p3, p4);
    FilterTwice(allGames, p12, p3, p123);
    var byReviews := ReviewsStage(byScore, c);
    RangeStagesAreFilters(byScore, c, p2, p3, p4);
    FilterTwice(allGames, p123, p4, p1234);
    PlayedStageIsFilter(byReviews, c.showPlayed, played, p5);
    FilterTwice(allGames, p1234, p5, g => Passes(g, c, played));
  }

  /** The whole derivation is the one filter by `Passes` followed by the sort. */
  lemma DeriveIsFilterThenSort(allGames: seq<Game>, c: FilterConfig, played: set<int>)
    ensures DeriveGames(allGames, c, played) == SortStage(Filter(allGames, g => Passes(g, c, played)), c.sortBy)
  {
    FilteredIsOneFilter(allGames, c, played);
  }

  /** Under the initial filters, every game with non-negative playtime and review
      count and a score in [0, 100] is shown: the list is the library, re-sorted. */
  lemma DefaultsShowSaneGames(allGames: seq<Game>, played: set<int>)
    requires forall g :: g in allGames ==> g.playtimeHours >= 0.0 && 0.0 <= g.score <= 100.0 && g.totalReviews >= 0
    ensures multiset(DeriveGames(allGames, Defaults(), played)) == multiset(allGames)
    ensures DeriveGames(allGames, Defaults(), played) == SortStage(allGames, SORT_SCORE_DESC)
  {
    var c := Defaults();
    forall g | g in allGames ensures Passes(g, c, played) {
      assert IsPrefix(ToLower(c.searchQuery), ToLower(g.name));
    }
    DeriveIsFilterThenSort(allGames, c, played);
    FilterKeepsAll(allGames, g => Passes(g, c, played));
  }

  /** An unknown sort key keeps the games in library order. */
  lemma UnknownSortKeepsLibraryOrder(allGames: seq<Game>, c: FilterConfig, played: set<int>)
    requires c.sortBy !in {SORT_PLAYTIME_ASC, SORT_PLAYTIME_DESC, SORT_SCORE_ASC, SORT_SCORE_DESC}
    ensures DeriveGames(allGames, c, played) == Filter(allGames, g => Passes(g, c, played))
  {
    DeriveIsFilterThenSort(allGames, c, played);
  }
}
