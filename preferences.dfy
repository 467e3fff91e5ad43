/** The per-user preferences routes (backend/app/routes/preferences.py): at most one
    row per user, read with defaults, partially updated, and deleted on reset. The
    table maps a user id to that user's row; a database error is an input
    (`dbError`), and when there is one the session is rolled back and the route
    answers 500 with the error's text. */
module Preferences {
  import opened Common

  datatype Prefs = Prefs(
    showPlayedGames: bool,
    showUnplayedGames: bool,
    playtimeMin: real,
    playtimeMax: real,
    scoreMin: int,
    scoreMax: int,
    sortBy: string,
    sortOrder: string,
    itemsPerPage: int,
    lastSearchQuery: string)

  /** The record answered for a user without a row. A row created by an update is taken
      to start from the same values: the `UserPreferences` column defaults are not part
      of this model. */
  const DEFAULTS := Prefs(true, true, 0.0, 1000.0, 0, 100, "name", "asc", 50, "")

  /** The fields a request set explicitly (`exclude_unset=True`); `None` is a field the
      request left out. */
  datatype Patch = Patch(
    showPlayedGames: Option<bool>,
    showUnplayedGames: Option<bool>,
    playtimeMin: Option<real>,
    playtimeMax: Option<real>,
    scoreMin: Option<int>,
    scoreMax: Option<int>,
    sortBy: Option<string>,
    sortOrder: Option<string>,
    itemsPerPage: Option<int>,
    lastSearchQuery: Option<string>)

  /** The `setattr` loop: every field the request set takes its value, every other field
      keeps the one it had. */
  function Apply(p: Prefs, patch: Patch): (r: Prefs)
    ensures patch.showPlayedGames.Some? ==> r.showPlayedGames == patch.showPlayedGames.value
    ensures patch.showPlayedGames.None? ==> r.showPlayedGames == p.showPlayedGames
    ensures patch.showUnplayedGames.Some? ==> r.showUnplayedGames == patch.showUnplayedGames.value
    ensures patch.showUnplayedGames.None? ==> r.showUnplayedGames == p.showUnplayedGames
    ensures patch.playtimeMin.Some? ==> r.playtimeMin == patch.playtimeMin.value
    ensures patch.playtimeMin.None? ==> r.playtimeMin == p.playtimeMin
    ensures patch.playtimeMax.Some? ==> r.playtimeMax == patch.playtimeMax.value
    ensures patch.playtimeMax.None? ==> r.playtimeMax == p.playtimeMax
    ensures patch.scoreMin.Some? ==> r.scoreMin == patch.scoreMin.value
    ensures patch.scoreMin.None? ==> r.scoreMin == p.scoreMin
    ensures patch.scoreMax.Some? ==> r.scoreMax == patch.scoreMax.value
    ensures patch.scoreMax.None? ==> r.scoreMax == p.scoreMax
    ensures patch.sortBy.Some? ==> r.sortBy == patch.sortBy.value
    ensures patch.sortBy.None? ==> r.sortBy == p.sortBy
    ensures patch.sortOrder.Some? ==> r.sortOrder == patch.sortOrder.value
    ensures patch.sortOrder.None? ==> r.sortOrder == p.sortOrder
    ensures patch.itemsPerPage.Some? ==> r.itemsPerPage == patch.itemsPerPage.value
    ensures patch.itemsPerPage.None? ==> r.itemsPerPage == p.itemsPerPage
    ensures patch.lastSearchQuery.Some? ==> r.lastSearchQuery == patch.lastSearchQuery.value
    ensures patch.lastSearchQuery.None? ==> r.lastSearchQuery == p.lastSearchQuery
  {
    Prefs(
      patch.showPlayedGames.GetOr(p.showPlayedGames),
      patch.showUnplayedGames.GetOr(p.showUnplayedGames),
      patch.playtimeMin.GetOr(p.playtimeMin),
      patch.playtimeMax.GetOr(p.playtimeMax),
      patch.scoreMin.GetOr(p.scoreMin),
      patch.scoreMax.GetOr(p.scoreMax),
      patch.sortBy.GetOr(p.sortBy),
      patch.sortOrder.GetOr(p.sortOrder),
      patch.itemsPerPage.GetOr(p.itemsPerPage),
      patch.lastSearchQuery.GetOr(p.lastSearchQuery))
  }

  const EMPTY_PATCH := Patch(None, None, None, None, None, None, None, None, None, None)

  /** Applying the same request twice is applying it once, and an empty request changes
      nothing. */
  lemma ApplyIsIdempotent(p: Prefs, patch: Patch)
    ensures Apply(Apply(p, patch), patch) == Apply(p, patch)
    ensures Apply(p, EMPTY_PATCH) == p
  {
  }

  class PreferencesTable {
    var rows: map<int, Prefs>

    constructor (initial: map<int, Prefs>)
      ensures rows == initial
    {
      rows := initial;
    }

    /** The record a user currently has: the row, or the defaults. */
    function Current(user: int): (p: Prefs)
      reads this
      ensures user in rows ==> p == rows[user]
      ensures user !in rows ==> p == DEFAULTS
    {
      if user in rows then rows[user] else DEFAULTS
    }

    /** `GET /api/preferences/`. */
    function GetPreferences(user: int, dbError: Option<string>): (r: Result<Prefs, HttpError>)
      reads this
      ensures dbError.Some? ==> r == Err(HttpError(500, dbError.value))
      ensures dbError.None? ==> r == Ok(Current(user))
    {
      if dbError.Some? then Err(HttpError(500, dbError.value)) else Ok(Current(user))
    }

    /** `POST /api/preferences/`: creates the row if it is missing, then applies the
        request; only the current user's row changes. */
    method UpdatePreferences(user: int, patch: Patch, dbError: Option<string>) returns (r: Result<Prefs, HttpError>)
      modifies this
      ensures dbError.Some? ==> r == Err(HttpError(500, dbError.value)) && rows == old(rows)
      ensures dbError.None? ==> rows == old(rows)[user := Apply(old(Current(user)), patch)]
      ensures dbError.None? ==> r == Ok(Apply(old(Current(user)), patch))
    {
      if dbError.Some? {
        return Err(HttpError(500, dbError.value));
      }
      var row := if user in rows then rows[user] else DEFAULTS;
      row := Apply(row, patch);
      rows := rows[user := row];
      r := Ok(row);
    }

    /** `DELETE /api/preferences/`: the row is deleted if there is one; either way the
        route succeeds. */
    method ResetPreferences(user: int, dbError: Option<string>) returns (r: Result<(string, string), HttpError>)
      modifies this
      ensures dbError.Some? ==> r == Err(HttpError(500, dbError.value)) && rows == old(rows)
      ensures dbError.None? ==> rows == old(rows) - {user}
      ensures dbError.None? ==> r == Ok(("success", "Preferences reset to defaults"))
    {
      if dbError.Some? {
        return Err(HttpError(500, dbError.value));
      }
      if user in rows {
        rows := rows - {user};
      }
      r := Ok(("success", "Preferences reset to defaults"));
    }
  }

  /** A read after a successful update answers the updated record; a read after a reset
      answers the defaults; neither touches another user's record. */
  method UpdateThenGet(t: PreferencesTable, user: int, other: int, patch: Patch) returns (after: Prefs, afterReset: Prefs)
    modifies t
    ensures after == Apply(old(t.Current(user)), patch)
    ensures afterReset == DEFAULTS
    ensures other != user ==> t.Current(other) == old(t.Current(other))
  {
    var _ := t.UpdatePreferences(user, patch, None);
    var got := t.GetPreferences(user, None);
    after := got.value;
    var _ := t.ResetPreferences(user, None);
    afterReset := t.GetPreferences(user, None).value;
  }
}
