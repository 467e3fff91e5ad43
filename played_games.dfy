/** The played-games routes (backend/app/routes/played_games.py) over the
    `(user, app id)` table. The table is a sequence of rows in storage order; a
    database error is an input (`dbError`), and when there is one the session is
    rolled back, so the table is unchanged and the route answers 500 with the
    error's text. */
module PlayedGames {
  import opened Common

  datatype Row = Row(userId: int, appId: int)

  /** The app ids of a user's rows, in table order. */
  function AppIdsOf(rows: seq<Row>, user: int): (ids: seq<int>)
    ensures |ids| <= |rows|
    ensures forall id :: id in ids <==> Row(user, id) in rows
  {
    if rows == [] then []
    else
      var rest := AppIdsOf(rows[1..], user);
      assert forall id :: Row(user, id) in rows <==> rows[0] == Row(user, id) || Row(user, id) in rows[1..];
      if rows[0].userId == user then [rows[0].appId] + rest else rest
  }

  /** The rows of everybody but `user`. */
  function WithoutUser(rows: seq<Row>, user: int): (r: seq<Row>)
    ensures forall row :: row in r <==> row in rows && row.userId != user
    ensures forall other :: other != user ==> AppIdsOf(r, other) == AppIdsOf(rows, other)
    ensures AppIdsOf(r, user) == []
  {
    if rows == [] then []
    else
      var rest := WithoutUser(rows[1..], user);
      if rows[0].userId != user then
        var r := [rows[0]] + rest;
        assert r[1..] == rest;
        r
      else rest
  }

  /** One row for `user` per requested id, in request order. */
  function RowsFor(user: int, appIds: seq<int>): (r: seq<Row>)
    ensures |r| == |appIds| && forall i :: 0 <= i < |appIds| ==> r[i] == Row(user, appIds[i])
  {
    seq(|appIds|, i requires 0 <= i < |appIds| => Row(user, appIds[i]))
  }

  lemma {:induction false} AppIdsOfAppend(a: seq<Row>, b: seq<Row>, user: int)
    ensures AppIdsOf(a + b, user) == AppIdsOf(a, user) + AppIdsOf(b, user)
  {
    if a == [] {
      assert a + b == b;
    } else {
      assert (a + b)[0] == a[0] && (a + b)[1..] == a[1..] + b;
      AppIdsOfAppend(a[1..], b, user);
    }
  }

  lemma {:induction false} AppIdsOfRowsFor(user: int, other: int, appIds: seq<int>)
    ensures AppIdsOf(RowsFor(user, appIds), other) == if other == user then appIds else []
  {
    if appIds != [] {
      assert RowsFor(user, appIds)[1..] == RowsFor(user, appIds[1..]);
      AppIdsOfRowsFor(user, other, appIds[1..]);
    }
  }

  /** The table after a successful sync. */
  function Synced(rows: seq<Row>, user: int, appIds: seq<int>): seq<Row> {
    WithoutUser(rows, user) + RowsFor(user, appIds)
  }

  /** After a sync the user's ids are exactly the request, in its order, and every other
      user's ids are as they were. */
  lemma SyncReplacesOnlyTheUser(rows: seq<Row>, user: int, appIds: seq<int>, other: int)
    ensures AppIdsOf(Synced(rows, user, appIds), user) == appIds
    ensures other != user ==> AppIdsOf(Synced(rows, user, appIds), other) == AppIdsOf(rows, other)
  {
    AppIdsOfAppend(WithoutUser(rows, user), RowsFor(user, appIds), user);
    AppIdsOfRowsFor(user, user, appIds);
    AppIdsOfAppend(WithoutUser(rows, user), RowsFor(user, appIds), other);
    AppIdsOfRowsFor(user, other, appIds);
  }

  /** The table without the first occurrence of `row`. */
  function RemoveFirst(rows: seq<Row>, row: Row): (r: seq<Row>)
    ensures row in rows ==> multiset(r) == multiset(rows) - multiset{row}
    ensures row !in rows ==> r == rows
  {
    if rows == [] then []
    else if rows[0] == row then
      assert rows == [rows[0]] + rows[1..];
      rows[1..]
    else
      assert rows == [rows[0]] + rows[1..];
      [rows[0]] + RemoveFirst(rows[1..], row)
  }

  /** The table after a successful toggle: the user's first row for the id is deleted if
      there is one, otherwise a row is added. */
  function Toggled(rows: seq<Row>, user: int, appId: int): (r: seq<Row>)
    ensures Row(user, appId) in rows ==> multiset(r) == multiset(rows) - multiset{Row(user, appId)}
    ensures Row(user, appId) !in rows ==> r == rows + [Row(user, appId)]
  {
    if Row(user, appId) in rows then RemoveFirst(rows, Row(user, appId))
    else rows + [Row(user, appId)]
  }

  /** Toggling flips whether the user has played the game, and touches nobody else's rows. */
  lemma ToggleFlips(rows: seq<Row>, user: int, appId: int, other: int, otherId: int)
    requires other != user || otherId != appId
    ensures (appId in AppIdsOf(Toggled(rows, user, appId), user)) == (multiset(rows)[Row(user, appId)] >= 2 || appId !in AppIdsOf(rows, user))
    ensures multiset(Toggled(rows, user, appId))[Row(other, otherId)] == multiset(rows)[Row(other, otherId)]
  {
  }

  /** With at most one row per pair, toggling twice restores the table's contents; from no
      row at all it restores the table exactly. */
  lemma ToggleTwice(rows: seq<Row>, user: int, appId: int)
    requires multiset(rows)[Row(user, appId)] <= 1
    ensures multiset(Toggled(Toggled(rows, user, appId), user, appId)) == multiset(rows)
    ensures Row(user, appId) !in rows ==> Toggled(Toggled(rows, user, appId), user, appId) == rows
  {
    var row := Row(user, appId);
    if row in rows {
      var once := Toggled(rows, user, appId);
      assert multiset(once)[row] == 0;
      assert row !in once;
    } else {
      var once := rows + [row];
      assert once[|rows|] == row;
      FirstAfterEnd(rows, row);
    }
  }

  /** Removing the first occurrence of a row appended to a table that lacks it removes
      the appended one. */
  lemma {:induction false} FirstAfterEnd(rows: seq<Row>, row: Row)
    requires row !in rows
    ensures RemoveFirst(rows + [row], row) == rows
  {
    if rows != [] {
      assert (rows + [row])[1..] == rows[1..] + [row];
      FirstAfterEnd(rows[1..], row);
    }
  }

  datatype SyncReply = SyncReply(status: string, message: string, appIds: seq<int>)
  datatype ToggleReply = ToggleReply(status: string, appId: int, isPlayed: bool)

  class PlayedGamesTable {
    var rows: seq<Row>

    constructor (initial: seq<Row>)
      ensures rows == initial
    {
      rows := initial;
    }

    /** `GET /api/played-games/`: the current user's ids. */
    function GetPlayedGames(user: int, dbError: Option<string>): (r: Result<seq<int>, HttpError>)
      reads this
      ensures dbError.Some? ==> r == Err(HttpError(500, dbError.value))
      ensures dbError.None? ==> r.Ok? && forall id :: id in r.value <==> Row(user, id) in rows
    {
      if dbError.Some? then Err(HttpError(500, dbError.value)) else Ok(AppIdsOf(rows, user))
    }

    /** `POST /api/played-games/`: the user's rows are deleted and one row per requested
        id is added, in a loop, before the commit. The request model guarantees a list of
        integers, so the route's own 400 check never fires. */
    method SyncPlayedGames(user: int, appIds: seq<int>, dbError: Option<string>)
      returns (r: Result<SyncReply, HttpError>)
      modifies this
      ensures dbError.Some? ==> r == Err(HttpError(500, dbError.value)) && rows == old(rows)
      ensures dbError.None? ==> rows == Synced(old(rows), user, appIds)
      ensures dbError.None? ==>
        r == Ok(SyncReply("success", "Synced " + IntToString(|appIds|) + " played games", appIds))
    {
      var pending := WithoutUser(rows, user);
      var i := 0;
      while i < |appIds|
        invariant 0 <= i <= |appIds|
        invariant pending == WithoutUser(rows, user) + RowsFor(user, appIds[..i])
      {
        assert RowsFor(user, appIds[..i + 1]) == RowsFor(user, appIds[..i]) + [Row(user, appIds[i])];
        pending := pending + [Row(user, appIds[i])];
        i := i + 1;
      }
      assert appIds[..i] == appIds;
      if dbError.Some? {
        return Err(HttpError(500, dbError.value));
      }
      rows := pending;
      r := Ok(SyncReply("success", "Synced " + IntToString(|appIds|) + " played games", appIds));
    }

    /** `POST /api/played-games/toggle/{app_id}`. */
    method TogglePlayedGame(user: int, appId: int, dbError: Option<string>)
      returns (r: Result<ToggleReply, HttpError>)
      modifies this
      ensures dbError.Some? ==> r == Err(HttpError(500, dbError.value)) && rows == old(rows)
      ensures dbError.None? ==> rows == Toggled(old(rows), user, appId)
      ensures dbError.None? && Row(user, appId) in old(rows) ==> r == Ok(ToggleReply("removed", appId, false))
      ensures dbError.None? && Row(user, appId) !in old(rows) ==> r == Ok(ToggleReply("added", appId, true))
    {
      if dbError.Some? {
        return Err(HttpError(500, dbError.value));
      }
      var existing := Row(user, appId) in rows;
      rows := Toggled(rows, user, appId);
      if existing {
        r := Ok(ToggleReply("removed", appId, false));
      } else {
        r := Ok(ToggleReply("added", appId, true));
      }
    }
  }
}
