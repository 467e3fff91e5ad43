/** The filter configuration of the browser client (web/src/hooks/useFilters.js) and
    the handlers of the filter panel that update it (web/src/components/FilterPanel.jsx). */
module Filters {
  import opened Common

  const SORT_PLAYTIME_ASC := "playtime_asc"
  const SORT_PLAYTIME_DESC := "playtime_desc"
  const SORT_SCORE_ASC := "score_asc"
  const SORT_SCORE_DESC := "score_desc"

  const SHOW_ALL := "all"
  const SHOW_PLAYED := "played"
  const SHOW_UNPLAYED := "unplayed"

  /** The ten filter fields as one value. Sort key and played-status selector are
      kept as the strings the component passes around, so a value outside the
      known ones can be represented. */
  datatype FilterConfig = FilterConfig(
    playtimeMin: real,
    playtimeMax: Bound,
    scoreMin: real,
    scoreMax: Bound,
    reviewsMin: real,
    reviewsMax: Bound,
    sortBy: string,
    searchQuery: string,
    showPlayed: string,
    showUnknown: bool)

  /** The initial value of every state cell. */
  function Defaults(): (c: FilterConfig)
    ensures c.playtimeMin == 0.0 && c.playtimeMax == Inf
    ensures c.scoreMin == 0.0 && c.scoreMax == Finite(100.0)
    ensures c.reviewsMin == 0.0 && c.reviewsMax == Inf
    ensures c.sortBy == SORT_SCORE_DESC && c.searchQuery == "" && c.showPlayed == SHOW_ALL
    ensures c.showUnknown
  {
    FilterConfig(0.0, Inf, 0.0, Finite(100.0), 0.0, Inf, SORT_SCORE_DESC, "", SHOW_ALL, true)
  }

  /** The hook's ten state cells; each changes only through its own setter. */
  class FilterStore {
    var playtimeMin: real
    var playtimeMax: Bound
    var scoreMin: real
    var scoreMax: Bound
    var reviewsMin: real
    var reviewsMax: Bound
    var sortBy: string
    var searchQuery: string
    var showPlayed: string
    var showUnknown: bool

    function Config(): FilterConfig
      reads this
    {
      FilterConfig(playtimeMin, playtimeMax, scoreMin, scoreMax, reviewsMin, reviewsMax,
                   sortBy, searchQuery, showPlayed, showUnknown)
    }

    constructor ()
      ensures Config() == Defaults()
    {
      playtimeMin, playtimeMax := 0.0, Inf;
      scoreMin, scoreMax := 0.0, Finite(100.0);
      reviewsMin, reviewsMax := 0.0, Inf;
      sortBy, searchQuery, showPlayed, showUnknown := SORT_SCORE_DESC, "", SHOW_ALL, true;
    }

    method SetPlaytimeMin(v: real)
      modifies this
      ensures Config() == old(Config()).(playtimeMin := v)
    { playtimeMin := v; }

    method SetPlaytimeMax(v: Bound)
      modifies this
      ensures Config() == old(Config()).(playtimeMax := v)
    { playtimeMax := v; }

    method SetScoreMin(v: real)
      modifies this
      ensures Config() == old(Config()).(scoreMin := v)
    { scoreMin := v; }

    method SetScoreMax(v: Bound)
      modifies this
      ensures Config() == old(Config()).(scoreMax := v)
    { scoreMax := v; }

    method SetReviewsMin(v: real)
      modifies this
      ensures Config() == old(Config()).(reviewsMin := v)
    { reviewsMin := v; }

    method SetReviewsMax(v: Bound)
      modifies this
      ensures Config() == old(Config()).(reviewsMax := v)
    { reviewsMax := v; }

    method SetSortBy(v: string)
      modifies this
      ensures Config() == old(Config()).(sortBy := v)
    { sortBy := v; }

    method SetSearchQuery(v: string)
      modifies this
      ensures Config() == old(Config()).(searchQuery := v)
    { searchQuery := v; }

    method SetShowPlayed(v: string)
      modifies this
      ensures Config() == old(Config()).(showPlayed := v)
    { showPlayed := v; }

    method SetShowUnknown(v: bool)
      modifies this
      ensures Config() == old(Config()).(showUnknown := v)
    { showUnknown := v; }
  }

  // ------------------------------------------------------------------ filter panel

  /** One checkbox of a preset group. */
  datatype Preset = Preset(text: string, min: real, max: Bound)

  const PLAYTIME_PRESETS: seq<Preset> := [
    Preset("0-5 hours", 0.0, Finite(5.0)),
    Preset("5-10 hours", 5.0, Finite(10.0)),
    Preset("10-20 hours", 10.0, Finite(20.0)),
    Preset("20+ hours", 20.0, Inf)
  ]

  const SCORE_PRESETS: seq<Preset> := [
    Preset("75-100%", 75.0, Finite(100.0)),
    Preset("50-75%", 50.0, Finite(75.0)),
    Preset("Below 50%", 0.0, Finite(50.0))
  ]

  predicate PlaytimeChecked(c: FilterConfig, p: Preset) {
    c.playtimeMin == p.min && c.playtimeMax == p.max
  }

  predicate ScoreChecked(c: FilterConfig, p: Preset) {
    c.scoreMin == p.min && c.scoreMax == p.max
  }

  predicate PlaytimeIsDefault(c: FilterConfig) { c.playtimeMin == 0.0 && c.playtimeMax == Inf }
  predicate ScoreIsDefault(c: FilterConfig) { c.scoreMin == 0.0 && c.scoreMax == Finite(100.0) }
  predicate ReviewsIsDefault(c: FilterConfig) { c.reviewsMin == 0.0 && c.reviewsMax == Inf }

  function Count(b: bool): nat { if b then 1 else 0 }

  /** The number shown next to the panel title: how many of the four groups
      (playtime, score, reviews, played status) differ from their defaults.
      Sort key, search text and the unknown-duration flag are not counted. */
  function ActiveFilterCount(c: FilterConfig): (n: nat)
    ensures n <= 4
    ensures n == 0 <==>
      PlaytimeIsDefault(c) && ScoreIsDefault(c) && ReviewsIsDefault(c) && c.showPlayed == SHOW_ALL
    ensures n == 4 <==>
      !PlaytimeIsDefault(c) && !ScoreIsDefault(c) && !ReviewsIsDefault(c) && c.showPlayed != SHOW_ALL
  {
    Count(!PlaytimeIsDefault(c)) + Count(!ScoreIsDefault(c))
      + Count(!ReviewsIsDefault(c)) + Count(c.showPlayed != SHOW_ALL)
  }

  lemma DefaultsHaveNoActiveFilter()
    ensures ActiveFilterCount(Defaults()) == 0
    ensures ActiveFilterCount(Defaults().(sortBy := SORT_PLAYTIME_ASC, searchQuery := "x", showUnknown := false)) == 0
  {
  }

  /** The configuration after clicking a playtime preset: a click on the checked
      preset clears the group back to [0, ∞], any other click selects it. */
  function PlaytimeToggled(c: FilterConfig, p: Preset): (r: FilterConfig)
    ensures PlaytimeChecked(c, p) ==> PlaytimeIsDefault(r)
    ensures !PlaytimeChecked(c, p) ==> PlaytimeChecked(r, p)
    ensures r.(playtimeMin := c.playtimeMin, playtimeMax := c.playtimeMax) == c
  {
    if PlaytimeChecked(c, p) then c.(playtimeMin := 0.0, playtimeMax := Inf)
    else c.(playtimeMin := p.min, playtimeMax := p.max)
  }

  /** The same for the score group, whose cleared state is [0, 100]. */
  function ScoreToggled(c: FilterConfig, p: Preset): (r: FilterConfig)
    ensures ScoreChecked(c, p) ==> ScoreIsDefault(r)
    ensures !ScoreChecked(c, p) ==> ScoreChecked(r, p)
    ensures r.(scoreMin := c.scoreMin, scoreMax := c.scoreMax) == c
  {
    if ScoreChecked(c, p) then c.(scoreMin := 0.0, scoreMax := Finite(100.0))
    else c.(scoreMin := p.min, scoreMax := p.max)
  }

  /** `handlePlaytimeToggle`: two setter calls. */
  method HandlePlaytimeToggle(f: FilterStore, p: Preset)
    modifies f
    ensures f.Config() == PlaytimeToggled(old(f.Config()), p)
  {
    if f.playtimeMin == p.min && f.playtimeMax == p.max {
      f.SetPlaytimeMin(0.0);
      f.SetPlaytimeMax(Inf);
    } else {
      f.SetPlaytimeMin(p.min);
      f.SetPlaytimeMax(p.max);
    }
  }

  /** `handleScoreToggle`: two setter calls. */
  method HandleScoreToggle(f: FilterStore, p: Preset)
    modifies f
    ensures f.Config() == ScoreToggled(old(f.Config()), p)
  {
    if f.scoreMin == p.min && f.scoreMax == p.max {
      f.SetScoreMin(0.0);
      f.SetScoreMax(Finite(100.0));
    } else {
      f.SetScoreMin(p.min);
      f.SetScoreMax(p.max);
    }
  }

  /** The "Reset Filters" button: nine setter calls; `showUnknown` is not reset. */
  method HandleReset(f: FilterStore)
    modifies f
    ensures f.Config() == Defaults().(showUnknown := old(f.showUnknown))
    ensures ActiveFilterCount(f.Config()) == 0
  {
    f.SetPlaytimeMin(0.0);
    f.SetPlaytimeMax(Inf);
    f.SetScoreMin(0.0);
    f.SetScoreMax(Finite(100.0));
    f.SetReviewsMin(0.0);
    f.SetReviewsMax(Inf);
    f.SetSortBy(SORT_SCORE_DESC);
    f.SetSearchQuery("");
    f.SetShowPlayed(SHOW_ALL);
  }

  /** Clicking the same preset twice, starting from the defaults, gives the defaults back. */
  lemma ToggleTwiceFromDefaults(i: nat, j: nat)
    requires i < |PLAYTIME_PRESETS| && j < |SCORE_PRESETS|
    ensures PlaytimeToggled(PlaytimeToggled(Defaults(), PLAYTIME_PRESETS[i]), PLAYTIME_PRESETS[i]) == Defaults()
    ensures ScoreToggled(ScoreToggled(Defaults(), SCORE_PRESETS[j]), SCORE_PRESETS[j]) == Defaults()
  {
  }

  /** The presets of each group are distinct (min, max) pairs, so at most one
      checkbox of a group is shown checked. */
  lemma AtMostOnePresetChecked(c: FilterConfig)
    ensures forall i, j :: 0 <= i < j < |PLAYTIME_PRESETS| ==>
      !(PlaytimeChecked(c, PLAYTIME_PRESETS[i]) && PlaytimeChecked(c, PLAYTIME_PRESETS[j]))
    ensures forall i, j :: 0 <= i < j < |SCORE_PRESETS| ==>
      !(ScoreChecked(c, SCORE_PRESETS[i]) && ScoreChecked(c, SCORE_PRESETS[j]))
  {
  }

  /** After a click on a preset that was not checked, that preset is the only one checked. */
  lemma ToggleSelectsExactlyOne(c: FilterConfig, i: nat)
    requires i < |PLAYTIME_PRESETS| && !PlaytimeChecked(c, PLAYTIME_PRESETS[i])
    ensures forall j :: 0 <= j < |PLAYTIME_PRESETS| ==>
      (PlaytimeChecked(PlaytimeToggled(c, PLAYTIME_PRESETS[i]), PLAYTIME_PRESETS[j]) <==> j == i)
  {
    AtMostOnePresetChecked(PlaytimeToggled(c, PLAYTIME_PRESETS[i]));
  }

  /** The value the reviews-maximum slider shows: ∞ is drawn at the slider's end, 500000. */
  function ReviewsMaxSliderValue(c: FilterConfig): (v: real)
    ensures c.reviewsMax.Inf? ==> v == 500000.0
    ensures c.reviewsMax.Finite? ==> v == c.reviewsMax.n
  {
    match c.reviewsMax
    case Inf => 500000.0
    case Finite(n) => n
  }
}
