/** The export of the command-line tool's cache to the web front end's game list
    (scripts/cache_to_json.py). A first pass groups the `review_<name>` and
    `hltb_<name>` cache files by game name; a second pass turns every group with a
    usable review into a game; the games are sorted by playtime. The cache directory
    is the sequence of its files, in the order the directory listing yields them. */
module CacheExport {
  import opened Common
  import opened Json

  /** The library file the export skips by name. */
  const LIBRARY_STEM := "steam_library_76561198137938956"
  const REVIEW_PREFIX := "review_"
  const HLTB_PREFIX := "hltb_"

  /** A cache file: its name without ".json", and its decoded content (`None` when the
      file cannot be read or decoded). */
  datatype CacheEntry = CacheEntry(stem: string, content: Option<Json>)

  // ---------------------------------------------------------------- names

  /** Python's `s.replace(pat, repl)`: every occurrence, scanning left to right. */
  function ReplaceAll(s: string, pat: string, repl: string): (r: string)
    requires pat != []
    ensures !Contains(s, pat) ==> r == s
    decreases |s|
  {
    if |s| < |pat| then s
    else if s[..|pat|] == pat then repl + ReplaceAll(s[|pat|..], pat, repl)
    else [s[0]] + ReplaceAll(s[1..], pat, repl)
  }

  /** Replacing one character by another works character by character. */
  lemma {:induction false} ReplaceChar(s: string, c: char, d: char)
    ensures |ReplaceAll(s, [c], [d])| == |s|
    ensures forall i :: 0 <= i < |s| ==> ReplaceAll(s, [c], [d])[i] == if s[i] == c then d else s[i]
    decreases |s|
  {
    if s != [] {
      ReplaceChar(s[1..], c, d);
      assert s[..1] == [s[0]];
    }
  }

  /** A game's display name: underscores become spaces. */
  function DisplayName(name: string): (r: string)
    ensures |r| == |name| && '_' !in r
    ensures forall i :: 0 <= i < |name| && name[i] != '_' ==> r[i] == name[i]
  {
    ReplaceChar(name, '_', ' ');
    ReplaceAll(name, "_", " ")
  }

  /** The file of a name without the prefix in it yields that name. */
  lemma StripPrefix(pat: string, name: string)
    requires pat != [] && !Contains(name, pat)
    ensures ReplaceAll(pat + name, pat, "") == name
  {
    assert (pat + name)[..|pat|] == pat;
    assert (pat + name)[|pat|..] == name;
  }

  /** Every occurrence of the prefix is removed, not just the leading one: the files
      `review_review_<name>` and `review_<name>` fall into the same group. */
  lemma RepeatedPrefixCollapses(pat: string, name: string)
    requires pat != []
    ensures ReplaceAll(pat + pat + name, pat, "") == ReplaceAll(pat + name, pat, "")
  {
    var s := pat + pat + name;
    assert s[..|pat|] == pat;
    assert s[|pat|..] == pat + name;
  }

  // ---------------------------------------------------------------- first pass

  /** The insertion-ordered `review_data` dict: the names in order of first appearance,
      and each name's 'review' and 'hltb' values where set. */
  datatype Groups = Groups(order: seq<string>, review: map<string, Json>, hltb: map<string, Json>)

  predicate WellFormed(g: Groups) {
    NoDup(g.order) && g.review.Keys <= Elements(g.order) && g.hltb.Keys <= Elements(g.order)
  }

  /** `if game_name not in review_data: review_data[game_name] = {}`. */
  function Touch(g: Groups, name: string): (r: Groups)
    ensures Elements(r.order) == Elements(g.order) + {name}
    ensures r.review == g.review && r.hltb == g.hltb
    ensures WellFormed(g) ==> WellFormed(r)
  {
    if name in g.order then g
    else
      assert Elements(g.order + [name]) == Elements(g.order) + {name};
      g.(order := g.order + [name])
  }

  /** The file's `value`, when its content is an object holding one; anything else
      (undecodable text, a missing key, a non-object that raises) is skipped. */
  function ValueOf(e: CacheEntry): (v: Option<Json>)
    ensures v.Some? <==> e.content.Some? && e.content.value.JObj? && "value" in e.content.value.fields
  {
    if e.content.Some? && e.content.value.JObj? && "value" in e.content.value.fields
    then Some(e.content.value.fields["value"]) else None
  }

  /** The `{"not_found": True}` marker the picker caches for a failed lookup. */
  predicate IsNotFoundMarker(v: Json) {
    v.JObj? && PyTruthy(Get(v, "not_found"))
  }

  /** One iteration of the first pass. */
  function AddEntry(g: Groups, e: CacheEntry): (r: Groups)
    ensures WellFormed(g) ==> WellFormed(r)
    ensures (forall n :: n in g.hltb ==> !IsNotFoundMarker(g.hltb[n])) ==> forall n :: n in r.hltb ==> !IsNotFoundMarker(r.hltb[n])
  {
    var v := ValueOf(e);
    if e.stem == LIBRARY_STEM || v.None? then g
    else if IsPrefix(REVIEW_PREFIX, e.stem) then
      var name := ReplaceAll(e.stem, REVIEW_PREFIX, "");
      var t := Touch(g, name);
      t.(review := t.review[name := v.value])
    else if IsPrefix(HLTB_PREFIX, e.stem) then
      var name := ReplaceAll(e.stem, HLTB_PREFIX, "");
      var t := Touch(g, name);
      if IsNotFoundMarker(v.value) then t else t.(hltb := t.hltb[name := v.value])
    else g
  }

  /** The first pass over the files in order. */
  function Collect(entries: seq<CacheEntry>): (g: Groups)
    ensures WellFormed(g)
    ensures forall n :: n in g.hltb ==> !IsNotFoundMarker(g.hltb[n])
  {
    if entries == [] then Groups([], map[], map[])
    else AddEntry(Collect(entries[..|entries| - 1]), entries[|entries| - 1])
  }

  /** Whether file `e` is a review file of group `name` with value `v`. */
  predicate ReviewFileOf(e: CacheEntry, name: string, v: Json) {
    e.stem != LIBRARY_STEM && IsPrefix(REVIEW_PREFIX, e.stem)
    && ReplaceAll(e.stem, REVIEW_PREFIX, "") == name && ValueOf(e) == Some(v)
  }

  /** A group's review is the value of one of its review files; the last one read wins. */
  lemma {:induction false} ReviewCameFromFile(entries: seq<CacheEntry>, name: string)
    requires name in Collect(entries).review
    ensures exists i :: 0 <= i < |entries| && ReviewFileOf(entries[i], name, Collect(entries).review[name])
  {
    var front := entries[..|entries| - 1];
    var e := entries[|entries| - 1];
    var g := Collect(entries);
    if ReviewFileOf(e, name, g.review[name]) {
      assert ReviewFileOf(entries[|entries| - 1], name, g.review[name]);
    } else {
      assert name in Collect(front).review && g.review[name] == Collect(front).review[name];
      ReviewCameFromFile(front, name);
      var i :| 0 <= i < |front| && ReviewFileOf(front[i], name, g.review[name]);
      assert entries[i] == front[i];
    }
  }

  /** The library file never changes the groups. */
  lemma LibraryFileIgnored(g: Groups, content: Option<Json>)
    ensures AddEntry(g, CacheEntry(LIBRARY_STEM, content)) == g
  {
  }

  // ---------------------------------------------------------------- second pass

  /** A game of the exported list; the fields copied from the cache keep their JSON values. */
  datatype ExportedGame = ExportedGame(
    appId: Json, name: string, playtimeHours: Json, score: Json, scoreSource: string,
    totalReviews: Json, reviewDesc: Json, steamUrl: Json, hltbUrl: Json, hltbName: Json)

  /** `d.get(key, default)` on a dict. */
  function GetDefault(v: Json, key: string, default: Json): (r: Json)
    requires v.JObj?
    ensures key in v.fields ==> r == v.fields[key]
    ensures key !in v.fields ==> r == default
  {
    if key in v.fields then v.fields[key] else default
  }

  /** One iteration of the second pass: the group's game, or `None` when the group is
      skipped (no truthy review, a review that is not a dict, or a falsy `app_id` or
      `steam_url`). */
  function MakeGame(name: string, review: Option<Json>, hltb: Option<Json>): (r: Option<ExportedGame>)
    ensures r.Some? <==> (review.Some? && review.value.JObj? && review.value.fields != map[]
                          && PyTruthy(Get(review.value, "app_id")) && PyTruthy(Get(review.value, "steam_url")))
    ensures r.Some? ==> (r.value.name == DisplayName(name) && r.value.scoreSource == "Steam"
                         && r.value.appId == Get(review.value, "app_id") && r.value.steamUrl == Get(review.value, "steam_url")
                         && r.value.playtimeHours == GetDefault(review.value, "playtime_hours", JNum(0.0)))
    ensures r.Some? && (hltb.None? || hltb.value == JObj(map[])) ==> r.value.hltbUrl == JStr("") && r.value.hltbName == JStr(DisplayName(name))
    ensures r.Some? && hltb.Some? && !hltb.value.JObj? ==> r.value.hltbUrl == JStr("") && r.value.hltbName == JStr("")
  {
    if review.None? || !PyTruthy(review.value) || !review.value.JObj? || !PyTruthy(Get(review.value, "app_id")) then None
    else
      var rv := review.value;
      var h := hltb.GetOr(JObj(map[]));
      var display := DisplayName(name);
      var game := ExportedGame(
        GetDefault(rv, "app_id", JNum(0.0)), display,
        GetDefault(rv, "playtime_hours", JNum(0.0)), GetDefault(rv, "score", JNum(0.0)), "Steam",
        GetDefault(rv, "total_reviews", JNum(0.0)), GetDefault(rv, "review_desc", JStr("Not rated")),
        GetDefault(rv, "steam_url", JStr("")),
        if h.JObj? then GetDefault(h, "hltb_url", JStr("")) else JStr(""),
        if h.JObj? then GetDefault(h, "game_name", JStr(display)) else JStr(""));
      if PyTruthy(game.appId) && PyTruthy(game.steamUrl) then Some(game) else None
  }

  function Lookup(m: map<string, Json>, name: string): Option<Json> {
    if name in m then Some(m[name]) else None
  }

  /** The group `name` as the second pass sees it. */
  function GameOf(g: Groups, name: string): Option<ExportedGame> {
    MakeGame(name, Lookup(g.review, name), Lookup(g.hltb, name))
  }

  /** The second pass over the first `|names|` group names. */
  function BuildGames(g: Groups, names: seq<string>): (r: seq<ExportedGame>)
    ensures |r| <= |names|
    ensures forall k :: 0 <= k < |r| ==> exists j :: 0 <= j < |names| && GameOf(g, names[j]) == Some(r[k])
  {
    if names == [] then []
    else
      var front := names[..|names| - 1];
      var rest := BuildGames(g, front);
      assert forall j :: 0 <= j < |front| ==> front[j] == names[j];
      var game := GameOf(g, names[|names| - 1]);
      if game.Some? then rest + [game.value] else rest
  }

  /** Every group that yields a game is in the list. */
  lemma {:induction false} BuildGamesKeeps(g: Groups, names: seq<string>, j: int)
    requires 0 <= j < |names| && GameOf(g, names[j]).Some?
    ensures GameOf(g, names[j]).value in BuildGames(g, names)
  {
    var front := names[..|names| - 1];
    if j < |names| - 1 {
      assert front[j] == names[j];
      BuildGamesKeeps(g, front, j);
    }
  }

  // ---------------------------------------------------------------- sort and export

  /** Python's `<=` on strings: code point by code point, a prefix first. */
  predicate StrLe(a: string, b: string)
    decreases |a|
  {
    a == [] || (b != [] && (a[0] < b[0] || (a[0] == b[0] && StrLe(a[1..], b[1..]))))
  }

  lemma {:induction false} StrLeTotal(a: string, b: string)
    ensures StrLe(a, b) || StrLe(b, a)
    decreases |a|
  {
    if a != [] && b != [] && a[0] == b[0] {
      StrLeTotal(a[1..], b[1..]);
    }
  }

  lemma {:induction false} StrLeTrans(a: string, b: string, c: string)
    requires StrLe(a, b) && StrLe(b, c)
    ensures StrLe(a, c)
    decreases |a|
  {
    if a != [] && a[0] == b[0] && b[0] == c[0] {
      StrLeTrans(a[1..], b[1..], c[1..]);
    }
  }

  /** Which of Python's comparison families a playtime falls in: numbers and booleans
      compare with each other (0), strings with strings (1); nothing else is ordered (2). */
  function KindOf(v: Json): (k: nat)
    ensures k <= 2
    ensures k == 0 <==> v.JNum? || v.JBool?
    ensures k == 1 <==> v.JStr?
  {
    if v.JNum? || v.JBool? then 0 else if v.JStr? then 1 else 2
  }

  /** The value of a number or boolean (`True == 1`, `False == 0`). */
  function NumberOf(v: Json): real {
    match v
    case JNum(n) => n
    case JBool(b) => if b then 1.0 else 0.0
    case _ => 0.0
  }

  /** The sort key `playtime_hours` compared as Python compares it, within one family;
      across families the order is only there to make the relation total. */
  predicate PlaytimeLe(a: Json, b: Json) {
    if KindOf(a) != KindOf(b) then KindOf(a) < KindOf(b)
    else if KindOf(a) == 0 then NumberOf(a) <= NumberOf(b)
    else if KindOf(a) == 1 then StrLe(a.s, b.s)
    else true
  }

  predicate ByPlaytime(a: ExportedGame, b: ExportedGame) {
    PlaytimeLe(a.playtimeHours, b.playtimeHours)
  }

  lemma ByPlaytimeIsPreorder()
    ensures TotalPreorder(ByPlaytime)
  {
    forall a: ExportedGame, b: ExportedGame ensures ByPlaytime(a, b) || ByPlaytime(b, a) {
      if a.playtimeHours.JStr? && b.playtimeHours.JStr? {
        StrLeTotal(a.playtimeHours.s, b.playtimeHours.s);
      }
    }
    forall a: ExportedGame, b: ExportedGame, c: ExportedGame | ByPlaytime(a, b) && ByPlaytime(b, c)
      ensures ByPlaytime(a, c)
    {
      if a.playtimeHours.JStr? && b.playtimeHours.JStr? && c.playtimeHours.JStr? {
        StrLeTrans(a.playtimeHours.s, b.playtimeHours.s, c.playtimeHours.s);
      }
    }
  }

  /** The list sorts without raising: at most one game, or playtimes of one comparable
      family (numbers and booleans, or strings). */
  predicate Comparable(games: seq<ExportedGame>) {
    || |games| <= 1
    || (forall i :: 0 <= i < |games| ==> KindOf(games[i].playtimeHours) == 0)
    || (forall i :: 0 <= i < |games| ==> KindOf(games[i].playtimeHours) == 1)
  }

  /** The exported list, or the `TypeError` the sort raises on playtimes it cannot compare. */
  function Export(entries: seq<CacheEntry>): (r: Result<seq<ExportedGame>, string>)
    ensures var g := Collect(entries); var games := BuildGames(g, g.order);
      (r.Ok? <==> Comparable(games))
      && (r.Ok? ==> multiset(r.value) == multiset(games)
                    && forall i, j :: 0 <= i < j < |r.value| ==> ByPlaytime(r.value[i], r.value[j]))
  {
    var g := Collect(entries);
    var games := BuildGames(g, g.order);
    if Comparable(games) then
      ByPlaytimeIsPreorder();
      SortBySorted(games, ByPlaytime);
      Ok(SortBy(games, ByPlaytime))
    else Err("TypeError")
  }

  /** Every exported game has a truthy app id and store link and comes from a group
      with a review. */
  lemma ExportedGamesAreComplete(entries: seq<CacheEntry>, game: ExportedGame)
    requires Export(entries).Ok? && game in Export(entries).value
    ensures PyTruthy(game.appId) && PyTruthy(game.steamUrl) && game.scoreSource == "Steam"
    ensures exists name :: name in Collect(entries).review && game.name == DisplayName(name)
  {
    var g := Collect(entries);
    var games := BuildGames(g, g.order);
    assert game in multiset(Export(entries).value);
    assert game in games;
    var k :| 0 <= k < |games| && games[k] == game;
    var j :| 0 <= j < |g.order| && GameOf(g, g.order[j]) == Some(game);
    GroupGame(g, g.order[j]);
  }

  /** The game of a group has a truthy app id and store link, and the group has a review. */
  lemma GroupGame(g: Groups, name: string)
    requires GameOf(g, name).Some?
    ensures var game := GameOf(g, name).value;
      PyTruthy(game.appId) && PyTruthy(game.steamUrl) && game.scoreSource == "Steam"
      && name in g.review && game.name == DisplayName(name)
  {
  }

  /** A group with a usable review and store link is exported. */
  lemma UsableGroupIsExported(entries: seq<CacheEntry>, name: string)
    requires Export(entries).Ok?
    requires name in Collect(entries).order && GameOf(Collect(entries), name).Some?
    ensures GameOf(Collect(entries), name).value in Export(entries).value
  {
    var g := Collect(entries);
    var j :| 0 <= j < |g.order| && g.order[j] == name;
    BuildGamesKeeps(g, g.order, j);
    assert GameOf(g, name).value in multiset(BuildGames(g, g.order));
  }

  /** The first pass of `cache_to_json()`: the loop over the cache files. */
  method CollectPass(entries: seq<CacheEntry>) returns (groups: Groups)
    ensures groups == Collect(entries)
  {
    groups := Groups([], map[], map[]);
    var i := 0;
    while i < |entries|
      invariant 0 <= i <= |entries|
      invariant groups == Collect(entries[..i])
    {
      assert entries[..i + 1][..i] == entries[..i];
      var e := entries[i];
      ghost var next := AddEntry(groups, e);
      assert next == Collect(entries[..i + 1]);
      var v := ValueOf(e);
      if e.stem != LIBRARY_STEM && v.Some? {
        if IsPrefix(REVIEW_PREFIX, e.stem) {
          var name := ReplaceAll(e.stem, REVIEW_PREFIX, "");
          groups := Touch(groups, name);
          groups := groups.(review := groups.review[name := v.value]);
        } else if IsPrefix(HLTB_PREFIX, e.stem) {
          var name := ReplaceAll(e.stem, HLTB_PREFIX, "");
          groups := Touch(groups, name);
          if !IsNotFoundMarker(v.value) {
            groups := groups.(hltb := groups.hltb[name := v.value]);
          }
        }
      }
      i := i + 1;
    }
    assert entries[..i] == entries;
  }

  /** The second pass of `cache_to_json()`: the loop over the group names. */
  method BuildPass(groups: Groups) returns (games: seq<ExportedGame>)
    ensures games == BuildGames(groups, groups.order)
  {
    games := [];
    var j := 0;
    while j < |groups.order|
      invariant 0 <= j <= |groups.order|
      invariant games == BuildGames(groups, groups.order[..j])
    {
      assert groups.order[..j + 1][..j] == groups.order[..j];
      var game := GameOf(groups, groups.order[j]);
      if game.Some? {
        games := games + [game.value];
      }
      j := j + 1;
    }
    assert groups.order[..j] == groups.order;
  }

  /** `cache_to_json()`: both passes, then the sort. */
  method CacheToJson(entries: seq<CacheEntry>) returns (r: Result<seq<ExportedGame>, string>)
    ensures r == Export(entries)
  {
    var groups := CollectPass(entries);
    var games := BuildPass(groups);
    if Comparable(games) {
      r := Ok(SortBy(games, ByPlaytime));
    } else {
      r := Err("TypeError");
    }
  }
}
