/** The interface language (web/src/context/LanguageContext.jsx): two translation
    tables, a lookup with fallback, the initial choice and the toggle. */
module Language {
  import opened Common

  const LANGUAGE_KEY := "language"

  // The two tables, group by group as the source lays them out.

  const ES_HEADER: seq<(string, string)> := [
    ("header.title", "Steam Priority Picker"),
    ("header.library", "\U{1F4DA} Tu librer\U{ED}a"),
    ("header.catalog", "\U{1F3AE} Cat\U{E1}logo"),
    ("header.games", "juegos"),
    ("header.refresh", "Actualizar librer\U{ED}a"),
    ("header.toggleLanguage", "Cambiar idioma"),
    ("header.toggleDarkMode", "Cambiar modo oscuro"),
    ("header.toggleFilters", "Cambiar filtros")
  ]
  const ES_AUTH: seq<(string, string)> := [
    ("auth.login", "Iniciar sesi\U{F3}n"),
    ("auth.logout", "Cerrar sesi\U{F3}n"),
    ("auth.loginButton", "Conectar con Steam")
  ]
  const ES_FILTER_PLAYTIME: seq<(string, string)> := [
    ("filter.title", "Filtros"),
    ("filter.playtime", "Tiempo de juego"),
    ("filter.playtime0to5", "0-5 horas"),
    ("filter.playtime5to10", "5-10 horas"),
    ("filter.playtime10to20", "10-20 horas"),
    ("filter.playtime20plus", "20+ horas")
  ]
  const ES_FILTER_SCORE: seq<(string, string)> := [
    ("filter.score", "Puntuaci\U{F3}n Steam"),
    ("filter.score75to100", "75-100%"),
    ("filter.score50to75", "50-75%"),
    ("filter.scoreBelow50", "Menor a 50%")
  ]
  const ES_FILTER_REVIEWS: seq<(string, string)> := [
    ("filter.reviews", "Rese\U{F1}as"),
    ("filter.reviewsMinimum", "M\U{ED}nimo:"),
    ("filter.reviewsMaximum", "M\U{E1}ximo:")
  ]
  const ES_FILTER_SORT: seq<(string, string)> := [
    ("filter.sort", "Ordenar por"),
    ("filter.sortPlaytimeAsc", "Tiempo de juego (menor a mayor)"),
    ("filter.sortPlaytimeDesc", "Tiempo de juego (mayor a menor)"),
    ("filter.sortScoreDesc", "Puntuaci\U{F3}n (mayor a menor)"),
    ("filter.sortScoreAsc", "Puntuaci\U{F3}n (menor a mayor)")
  ]
  const ES_FILTER_PLAYED: seq<(string, string)> := [
    ("filter.played", "Estado de juego"),
    ("filter.playedAll", "Todos"),
    ("filter.playedPlayed", "Jugados"),
    ("filter.playedUnplayed", "No jugados")
  ]
  const ES_FILTER_MISC: seq<(string, string)> := [
    ("filter.search", "Buscar juegos..."),
    ("filter.reset", "Resetear filtros"),
    ("filter.activeFilters", "Filtros activos")
  ]
  const ES_GAMES: seq<(string, string)> := [
    ("games.noGames", "No se encontraron juegos que coincidan con tus filtros."),
    ("games.loading", "\U{23F3} Cargando tu librer\U{ED}a Steam..."),
    ("games.loadingHint", "Esto puede tomar minutos en la primera carga"),
    ("games.showing", "Mostrando"),
    ("games.of", "de"),
    ("games.beforeFilters", "antes de los filtros"),
    ("games.played", "\U{2713} Jugado"),
    ("games.unplayed", "\U{25CB} Jugado"),
    ("games.markAsPlayed", "Marcar como jugado"),
    ("games.markAsUnplayed", "Marcar como no jugado")
  ]
  const ES_LINKS: seq<(string, string)> := [
    ("links.hltb", "HLTB"),
    ("links.steam", "Steam"),
    ("links.playstats", "PlayStats"),
    ("links.hltbNotFound", "P\U{E1}gina HLTB no encontrada para este juego")
  ]
  const ES_KOFI: seq<(string, string)> := [
    ("kofi.supportUs", "Inv\U{ED}tame una")
  ]

  const EN_HEADER: seq<(string, string)> := [
    ("header.title", "Steam Priority Picker"),
    ("header.library", "\U{1F4DA} Your library"),
    ("header.catalog", "\U{1F3AE} Catalog"),
    ("header.games", "games"),
    ("header.refresh", "Refresh library"),
    ("header.toggleLanguage", "Toggle language"),
    ("header.toggleDarkMode", "Toggle dark mode"),
    ("header.toggleFilters", "Toggle filters")
  ]
  const EN_AUTH: seq<(string, string)> := [
    ("auth.login", "Log in"),
    ("auth.logout", "Log out"),
    ("auth.loginButton", "Sign in with Steam")
  ]
  const EN_FILTER_PLAYTIME: seq<(string, string)> := [
    ("filter.title", "Filters"),
    ("filter.playtime", "Playtime"),
    ("filter.playtime0to5", "0-5 hours"),
    ("filter.playtime5to10", "5-10 hours"),
    ("filter.playtime10to20", "10-20 hours"),
    ("filter.playtime20plus", "20+ hours")
  ]
  const EN_FILTER_SCORE: seq<(string, string)> := [
    ("filter.score", "Steam Score"),
    ("filter.score75to100", "75-100%"),
    ("filter.score50to75", "50-75%"),
    ("filter.scoreBelow50", "Below 50%")
  ]
  const EN_FILTER_REVIEWS: seq<(string, string)> := [
    ("filter.reviews", "Reviews"),
    ("filter.reviewsMinimum", "Minimum:"),
    ("filter.reviewsMaximum", "Maximum:")
  ]
  const EN_FILTER_SORT: seq<(string, string)> := [
    ("filter.sort", "Sort by"),
    ("filter.sortPlaytimeAsc", "Playtime (Low to High)"),
    ("filter.sortPlaytimeDesc", "Playtime (High to Low)"),
    ("filter.sortScoreDesc", "Score (High to Low)"),
    ("filter.sortScoreAsc", "Score (Low to High)")
  ]
  const EN_FILTER_PLAYED: seq<(string, string)> := [
    ("filter.played", "Play Status"),
    ("filter.playedAll", "All"),
    ("filter.playedPlayed", "Played"),
    ("filter.playedUnplayed", "Unplayed")
  ]
  const EN_FILTER_MISC: seq<(string, string)> := [
    ("filter.search", "Search games... (Cmd/Ctrl + K)"),
    ("filter.reset", "Reset filters"),
    ("filter.activeFilters", "Active filters")
  ]
  const EN_GAMES: seq<(string, string)> := [
    ("games.noGames", "No games found matching your filters."),
    ("games.loading", "\U{23F3} Fetching your Steam library..."),
    ("games.loadingHint", "This may take some minutes on first load"),
    ("games.showing", "Showing"),
    ("games.of", "of"),
    ("games.beforeFilters", "before filters"),
    ("games.played", "\U{2713} Played"),
    ("games.unplayed", "\U{25CB} Played"),
    ("games.markAsPlayed", "Mark as played"),
    ("games.markAsUnplayed", "Mark as unplayed")
  ]
  const EN_LINKS: seq<(string, string)> := [
    ("links.hltb", "HLTB"),
    ("links.steam", "Steam"),
    ("links.playstats", "PlayStats"),
    ("links.hltbNotFound", "HLTB page not found for this game")
  ]
  const EN_KOFI: seq<(string, string)> := [
    ("kofi.supportUs", "Buy me beer")
  ]

  const ES_TABLE: seq<(string, string)> := ES_HEADER + ES_AUTH + ES_FILTER_PLAYTIME + ES_FILTER_SCORE + ES_FILTER_REVIEWS + ES_FILTER_SORT + ES_FILTER_PLAYED + ES_FILTER_MISC + ES_GAMES + ES_LINKS + ES_KOFI
  const EN_TABLE: seq<(string, string)> := EN_HEADER + EN_AUTH + EN_FILTER_PLAYTIME + EN_FILTER_SCORE + EN_FILTER_REVIEWS + EN_FILTER_SORT + EN_FILTER_PLAYED + EN_FILTER_MISC + EN_GAMES + EN_LINKS + EN_KOFI

  function KeysOf(entries: seq<(string, string)>): (keys: seq<string>)
    ensures |keys| == |entries|
    ensures forall i :: 0 <= i < |entries| ==> keys[i] == entries[i].0
  {
    seq(|entries|, i requires 0 <= i < |entries| => entries[i].0)
  }

  predicate NonEmptyValues(entries: seq<(string, string)>) {
    forall i :: 0 <= i < |entries| ==> entries[i].1 != ""
  }

  /** A property access on an object literal: the value of the last entry with that key. */
  function Lookup(entries: seq<(string, string)>, key: string): (r: Option<string>)
    ensures r.Some? <==> key in KeysOf(entries)
    ensures r.Some? && NonEmptyValues(entries) ==> r.value != ""
  {
    if entries == [] then None
    else
      var init := entries[..|entries| - 1];
      assert KeysOf(entries) == KeysOf(init) + [entries[|entries| - 1].0];
      if entries[|entries| - 1].0 == key then Some(entries[|entries| - 1].1)
      else Lookup(init, key)
  }

  /** Two groups list the same keys in the same order, with no empty text. */
  predicate GroupsMatch(es: seq<(string, string)>, en: seq<(string, string)>) {
    KeysOf(es) == KeysOf(en) && NonEmptyValues(es) && NonEmptyValues(en)
  }

  lemma FirstGroupsMatch()
    ensures GroupsMatch(ES_HEADER, EN_HEADER)
    ensures GroupsMatch(ES_AUTH, EN_AUTH)
  {
    assert KeysOf(ES_HEADER) == KeysOf(EN_HEADER);
    assert KeysOf(ES_AUTH) == KeysOf(EN_AUTH);
  }

  lemma RangeGroupsMatch()
    ensures GroupsMatch(ES_FILTER_PLAYTIME, EN_FILTER_PLAYTIME)
    ensures GroupsMatch(ES_FILTER_SCORE, EN_FILTER_SCORE)
  {
    assert KeysOf(ES_FILTER_PLAYTIME) == KeysOf(EN_FILTER_PLAYTIME);
    assert KeysOf(ES_FILTER_SCORE) == KeysOf(EN_FILTER_SCORE);
  }

  lemma MiddleGroupsMatch()
    ensures GroupsMatch(ES_FILTER_REVIEWS, EN_FILTER_REVIEWS)
    ensures GroupsMatch(ES_FILTER_SORT, EN_FILTER_SORT)
    ensures GroupsMatch(ES_FILTER_PLAYED, EN_FILTER_PLAYED)
    ensures GroupsMatch(ES_FILTER_MISC, EN_FILTER_MISC)
  {
    assert KeysOf(ES_FILTER_REVIEWS) == KeysOf(EN_FILTER_REVIEWS);
    assert KeysOf(ES_FILTER_SORT) == KeysOf(EN_FILTER_SORT);
    assert KeysOf(ES_FILTER_PLAYED) == KeysOf(EN_FILTER_PLAYED);
    assert KeysOf(ES_FILTER_MISC) == KeysOf(EN_FILTER_MISC);
  }

  lemma LastGroupsMatch()
    ensures GroupsMatch(ES_GAMES, EN_GAMES)
    ensures GroupsMatch(ES_LINKS, EN_LINKS)
    ensures GroupsMatch(ES_KOFI, EN_KOFI)
  {
    assert KeysOf(ES_GAMES) == KeysOf(EN_GAMES);
    assert KeysOf(ES_LINKS) == KeysOf(EN_LINKS);
    assert KeysOf(ES_KOFI) == KeysOf(EN_KOFI);
  }

  /** Appending groups with equal keys gives tables with equal keys. */
  lemma Concatenated(es: seq<(string, string)>, en: seq<(string, string)>, es2: seq<(string, string)>, en2: seq<(string, string)>)
    requires GroupsMatch(es, en) && GroupsMatch(es2, en2)
    ensures GroupsMatch(es + es2, en + en2)
  {
    assert KeysOf(es + es2) == KeysOf(es) + KeysOf(es2);
    assert KeysOf(en + en2) == KeysOf(en) + KeysOf(en2);
  }

  /** `translations[language][key]`; there is no table for other language codes. */
  function Table(language: string, key: string): Option<string> {
    if language == "es" then Lookup(ES_TABLE, key)
    else if language == "en" then Lookup(EN_TABLE, key)
    else None
  }

  /** JavaScript truthiness of a looked-up entry: present and not empty. */
  predicate Truthy(entry: Option<string>) {
    entry.Some? && entry.value != ""
  }

  /** `t(key)`: the current language's entry, else the Spanish one, else the key itself. */
  function Translate(language: string, key: string): (r: string)
    ensures Truthy(Table(language, key)) ==> r == Table(language, key).value
    ensures !Truthy(Table(language, key)) && Truthy(Lookup(ES_TABLE, key)) ==> r == Lookup(ES_TABLE, key).value
    ensures !Truthy(Table(language, key)) && !Truthy(Lookup(ES_TABLE, key)) ==> r == key
  {
    if Truthy(Table(language, key)) then Table(language, key).value
    else if Truthy(Lookup(ES_TABLE, key)) then Lookup(ES_TABLE, key).value
    else key
  }

  /** Both tables list the same keys in the same order, and no entry is empty. */
  lemma TablesAgree()
    ensures KeysOf(ES_TABLE) == KeysOf(EN_TABLE)
    ensures NonEmptyValues(ES_TABLE) && NonEmptyValues(EN_TABLE)
  {
    FirstGroupsMatch();
    RangeGroupsMatch();
    MiddleGroupsMatch();
    LastGroupsMatch();
    var es, en := ES_HEADER, EN_HEADER;
    Concatenated(es, en, ES_AUTH, EN_AUTH);
    es, en := es + ES_AUTH, en + EN_AUTH;
    Concatenated(es, en, ES_FILTER_PLAYTIME, EN_FILTER_PLAYTIME);
    es, en := es + ES_FILTER_PLAYTIME, en + EN_FILTER_PLAYTIME;
    Concatenated(es, en, ES_FILTER_SCORE, EN_FILTER_SCORE);
    es, en := es + ES_FILTER_SCORE, en + EN_FILTER_SCORE;
    Concatenated(es, en, ES_FILTER_REVIEWS, EN_FILTER_REVIEWS);
    es, en := es + ES_FILTER_REVIEWS, en + EN_FILTER_REVIEWS;
    Concatenated(es, en, ES_FILTER_SORT, EN_FILTER_SORT);
    es, en := es + ES_FILTER_SORT, en + EN_FILTER_SORT;
    Concatenated(es, en, ES_FILTER_PLAYED, EN_FILTER_PLAYED);
    es, en := es + ES_FILTER_PLAYED, en + EN_FILTER_PLAYED;
    Concatenated(es, en, ES_FILTER_MISC, EN_FILTER_MISC);
    es, en := es + ES_FILTER_MISC, en + EN_FILTER_MISC;
    Concatenated(es, en, ES_GAMES, EN_GAMES);
    es, en := es + ES_GAMES, en + EN_GAMES;
    Concatenated(es, en, ES_LINKS, EN_LINKS);
    es, en := es + ES_LINKS, en + EN_LINKS;
    Concatenated(es, en, ES_KOFI, EN_KOFI);
    es, en := es + ES_KOFI, en + EN_KOFI;
    assert es == ES_TABLE && en == EN_TABLE;
  }

  /** A key of the tables is always translated into the chosen language, never a fallback. */
  lemma KnownKeysNeverFallBack(language: string, key: string)
    requires language == "es" || language == "en"
    requires key in KeysOf(ES_TABLE)
    ensures Table(language, key).Some?
    ensures Translate(language, key) == Table(language, key).value
  {
    TablesAgree();
  }

  /** An unknown key comes back as itself in any language. */
  lemma UnknownKeyIsEchoed(language: string, key: string)
    requires key !in KeysOf(ES_TABLE)
    ensures Translate(language, key) == key
  {
    TablesAgree();
  }

  /** `toggleLanguage`: Spanish becomes English, anything else Spanish. */
  function Toggled(language: string): (r: string)
    ensures r == "es" || r == "en"
    ensures (language == "es" || language == "en") ==> r != language
  {
    if language == "es" then "en" else "es"
  }

  /** Toggling twice is the identity on the two supported languages. */
  lemma ToggleTwice(language: string)
    requires language == "es" || language == "en"
    ensures Toggled(Toggled(language)) == language
  {
  }

  predicate StartsWith(s: string, prefix: string) {
    |prefix| <= |s| && s[..|prefix|] == prefix
  }

  /** The initial language: a non-empty stored value, else Spanish when the browser
      language starts with "es", else English. */
  function InitialLanguage(saved: string, browserLanguage: string): (r: string)
    ensures saved != "" ==> r == saved
    ensures saved == "" ==> (r == "es" <==> StartsWith(browserLanguage, "es"))
    ensures saved == "" ==> (r == "en" <==> !StartsWith(browserLanguage, "es"))
  {
    if saved != "" then saved
    else if StartsWith(browserLanguage, "es") then "es" else "en"
  }

  /** The provider's state cell and the storage the effect mirrors it into. */
  class LanguageState {
    var language: string
    var storage: map<string, string>

    ghost predicate Valid()
      reads this
    {
      LANGUAGE_KEY in storage && storage[LANGUAGE_KEY] == language
    }

    /** Mounting: the initial choice, then the effect writes it to storage. */
    constructor (stored: map<string, string>, browserLanguage: string)
      ensures language == InitialLanguage(if LANGUAGE_KEY in stored then stored[LANGUAGE_KEY] else "", browserLanguage)
      ensures storage == stored[LANGUAGE_KEY := language]
      ensures Valid()
    {
      var initial := InitialLanguage(if LANGUAGE_KEY in stored then stored[LANGUAGE_KEY] else "", browserLanguage);
      language := initial;
      storage := stored[LANGUAGE_KEY := initial];
    }

    /** `toggleLanguage` and the effect it triggers. */
    method Toggle()
      modifies this
      ensures language == Toggled(old(language))
      ensures storage == old(storage)[LANGUAGE_KEY := language]
      ensures Valid()
    {
      language := Toggled(language);
      storage := storage[LANGUAGE_KEY := language];
    }

    /** `t`, reading the current language. */
    function T(key: string): string
      reads this
    {
      Translate(language, key)
    }
  }
}
