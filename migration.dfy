/** The one-off move of Steam accounts into the per-platform table
    (backend/app/db/migration_to_user_platforms.py): every user with a Steam id and no
    'steam' platform row gets one, copied from the user's own columns. */
module Migration {
  import opened Common

  const STEAM := "steam"

  datatype User = User(id: int, steamId: Option<string>, username: string,
                       avatarUrl: Option<string>, profileUrl: Option<string>)

  datatype Platform = Platform(userId: int, platform: string, platformId: string, username: string,
                               avatarUrl: Option<string>, profileUrl: Option<string>,
                               isActive: bool, lastSynced: int)

  /** Whether the platform table holds a 'steam' row for the user. */
  predicate HasSteam(platforms: seq<Platform>, userId: int) {
    exists k :: 0 <= k < |platforms| && platforms[k].userId == userId && platforms[k].platform == STEAM
  }

  /** The row the migration creates for a user with a Steam id. */
  function SteamRow(u: User, now: int): Platform
    requires u.steamId.Some?
  {
    Platform(u.id, STEAM, u.steamId.value, u.username, u.avatarUrl, u.profileUrl, true, now)
  }

  /** The user ids are the primary key. */
  predicate DistinctIds(users: seq<User>) {
    forall i, j :: 0 <= i < j < |users| ==> users[i].id != users[j].id
  }

  /** The rows the migration adds, in user order, for `users` read in that order. */
  function NewRows(users: seq<User>, platforms: seq<Platform>, now: int): (r: seq<Platform>)
    ensures |r| <= |users|
    ensures forall k :: 0 <= k < |r| ==> r[k].platform == STEAM && r[k].isActive && r[k].lastSynced == now
    ensures forall k :: 0 <= k < |r| ==>
      exists j :: 0 <= j < |users| && users[j].steamId.Some? && r[k] == SteamRow(users[j], now)
  {
    if users == [] then []
    else
      var front := users[..|users| - 1];
      var u := users[|users| - 1];
      var r := NewRows(front, platforms, now);
      assert forall j :: 0 <= j < |front| ==> front[j] == users[j];
      if u.steamId.Some? && !HasSteam(platforms, u.id) then r + [SteamRow(u, now)] else r
  }

  /** How many users with a Steam id already had a 'steam' row. */
  function Skipped(users: seq<User>, platforms: seq<Platform>): (n: nat)
    ensures n <= |users|
  {
    if users == [] then 0
    else
      var u := users[|users| - 1];
      Skipped(users[..|users| - 1], platforms) + if u.steamId.Some? && HasSteam(platforms, u.id) then 1 else 0
  }

  /** The number of users with a Steam id. */
  function SteamUsers(users: seq<User>): (n: nat)
    ensures n <= |users|
  {
    if users == [] then 0
    else SteamUsers(users[..|users| - 1]) + if users[|users| - 1].steamId.Some? then 1 else 0
  }

  /** Every user with a Steam id is either migrated or skipped. */
  lemma {:induction false} MigratedPlusSkipped(users: seq<User>, platforms: seq<Platform>, now: int)
    ensures |NewRows(users, platforms, now)| + Skipped(users, platforms) == SteamUsers(users)
  {
    if users != [] {
      MigratedPlusSkipped(users[..|users| - 1], platforms, now);
    }
  }

  /** The new rows belong to the given users only. */
  lemma NoRowForOthers(users: seq<User>, platforms: seq<Platform>, now: int, id: int)
    requires forall j :: 0 <= j < |users| ==> users[j].id != id
    ensures !HasSteam(NewRows(users, platforms, now), id)
  {
    var r := NewRows(users, platforms, now);
    forall k | 0 <= k < |r| ensures r[k].userId != id {
      var j :| 0 <= j < |users| && users[j].steamId.Some? && r[k] == SteamRow(users[j], now);
    }
  }

  /** A user gets a new row exactly when it has a Steam id and no 'steam' row yet. */
  lemma {:induction false} NewRowFor(users: seq<User>, platforms: seq<Platform>, now: int, i: int)
    requires DistinctIds(users) && 0 <= i < |users|
    ensures HasSteam(NewRows(users, platforms, now), users[i].id)
      <==> users[i].steamId.Some? && !HasSteam(platforms, users[i].id)
    decreases |users|
  {
    var front := users[..|users| - 1];
    assert forall j :: 0 <= j < |front| ==> front[j] == users[j];
    if i < |users| - 1 {
      NewRowFor(front, platforms, now, i);
      LaterRowKeepsAnswer(users, platforms, now, i);
    } else {
      NoRowForOthers(front, platforms, now, users[i].id);
      LastRow(users, platforms, now);
    }
  }

  /** The row added for the last user does not change the answer for an earlier one. */
  lemma LaterRowKeepsAnswer(users: seq<User>, platforms: seq<Platform>, now: int, i: int)
    requires DistinctIds(users) && 0 <= i < |users| - 1
    ensures HasSteam(NewRows(users, platforms, now), users[i].id)
      == HasSteam(NewRows(users[..|users| - 1], platforms, now), users[i].id)
  {
    var u := users[|users| - 1];
    var r := NewRows(users[..|users| - 1], platforms, now);
    if u.steamId.Some? && !HasSteam(platforms, u.id) {
      assert NewRows(users, platforms, now) == r + [SteamRow(u, now)];
      assert users[i].id != u.id;
      HasSteamAppend(r, SteamRow(u, now), users[i].id);
    }
  }

  /** Appending another user's row does not change the answer for a user. */
  lemma HasSteamAppend(rows: seq<Platform>, row: Platform, userId: int)
    requires row.userId != userId
    ensures HasSteam(rows + [row], userId) == HasSteam(rows, userId)
  {
    var all := rows + [row];
    if HasSteam(all, userId) {
      var k :| 0 <= k < |all| && all[k].userId == userId && all[k].platform == STEAM;
      assert k < |rows| && rows[k] == all[k];
    }
    if HasSteam(rows, userId) {
      var k :| 0 <= k < |rows| && rows[k].userId == userId && rows[k].platform == STEAM;
      assert all[k] == rows[k];
    }
  }

  /** The last user gets a row exactly when it has a Steam id and no 'steam' row yet. */
  lemma LastRow(users: seq<User>, platforms: seq<Platform>, now: int)
    requires |users| > 0
    requires !HasSteam(NewRows(users[..|users| - 1], platforms, now), users[|users| - 1].id)
    ensures HasSteam(NewRows(users, platforms, now), users[|users| - 1].id)
      <==> users[|users| - 1].steamId.Some? && !HasSteam(platforms, users[|users| - 1].id)
  {
    var u := users[|users| - 1];
    var r := NewRows(users[..|users| - 1], platforms, now);
    var all := NewRows(users, platforms, now);
    if u.steamId.Some? && !HasSteam(platforms, u.id) {
      assert all == r + [SteamRow(u, now)];
      assert all[|r|] == SteamRow(u, now);
    }
  }

  /** After the migration every user with a Steam id has a 'steam' row. */
  lemma AllSteamUsersMigrated(users: seq<User>, platforms: seq<Platform>, now: int, i: int)
    requires DistinctIds(users) && 0 <= i < |users| && users[i].steamId.Some?
    ensures HasSteam(platforms + NewRows(users, platforms, now), users[i].id)
  {
    var r := NewRows(users, platforms, now);
    var all := platforms + r;
    if HasSteam(platforms, users[i].id) {
      var k :| 0 <= k < |platforms| && platforms[k].userId == users[i].id && platforms[k].platform == STEAM;
      assert all[k] == platforms[k];
    } else {
      NewRowFor(users, platforms, now, i);
      var k :| 0 <= k < |r| && r[k].userId == users[i].id && r[k].platform == STEAM;
      assert all[|platforms| + k] == r[k];
    }
  }

  /** The migration is safe to repeat: a second run adds nothing. */
  lemma {:induction false} SecondRunAddsNothing(users: seq<User>, platforms: seq<Platform>, now: int, later: int)
    requires DistinctIds(users)
    ensures NewRows(users, platforms + NewRows(users, platforms, now), later) == []
  {
    var after := platforms + NewRows(users, platforms, now);
    forall i | 0 <= i < |users| && users[i].steamId.Some?
      ensures HasSteam(after, users[i].id)
    {
      AllSteamUsersMigrated(users, platforms, now, i);
    }
    NothingNew(users, after, later);
  }

  /** No rows are added when every user with a Steam id already has one. */
  lemma {:induction false} NothingNew(users: seq<User>, platforms: seq<Platform>, now: int)
    requires forall i :: 0 <= i < |users| && users[i].steamId.Some? ==> HasSteam(platforms, users[i].id)
    ensures NewRows(users, platforms, now) == []
  {
    if users != [] {
      var front := users[..|users| - 1];
      assert forall j :: 0 <= j < |front| ==> front[j] == users[j];
      NothingNew(front, platforms, now);
    }
  }

  /** How many 'steam' rows the table holds for the user. */
  function SteamRowCount(rows: seq<Platform>, userId: int): nat {
    if rows == [] then 0
    else
      var last := rows[|rows| - 1];
      SteamRowCount(rows[..|rows| - 1], userId) + if last.userId == userId && last.platform == STEAM then 1 else 0
  }

  /** Counting over two tables is counting over each. */
  lemma {:induction false} SteamRowCountAppend(a: seq<Platform>, b: seq<Platform>, userId: int)
    ensures SteamRowCount(a + b, userId) == SteamRowCount(a, userId) + SteamRowCount(b, userId)
    decreases |b|
  {
    if b == [] {
      assert a + b == a;
    } else {
      assert (a + b)[..|a + b| - 1] == a + b[..|b| - 1];
      SteamRowCountAppend(a, b[..|b| - 1], userId);
    }
  }

  /** One more row adds one to its user's count when it is a 'steam' row. */
  lemma SteamRowCountSnoc(rows: seq<Platform>, row: Platform, userId: int)
    ensures SteamRowCount(rows + [row], userId)
      == SteamRowCount(rows, userId) + if row.userId == userId && row.platform == STEAM then 1 else 0
  {
    assert (rows + [row])[..|rows|] == rows;
  }

  /** `NewRows` unfolded once at the last user. */
  lemma NewRowsSnoc(users: seq<User>, platforms: seq<Platform>, now: int)
    requires users != []
    ensures var u := users[|users| - 1];
      NewRows(users, platforms, now)
      == NewRows(users[..|users| - 1], platforms, now)
         + if u.steamId.Some? && !HasSteam(platforms, u.id) then [SteamRow(u, now)] else []
  {
  }

  /** A user whose id no given user carries gets no new row. */
  lemma {:induction false} NoNewRowCounted(users: seq<User>, platforms: seq<Platform>, now: int, userId: int)
    requires forall j :: 0 <= j < |users| ==> users[j].id != userId
    ensures SteamRowCount(NewRows(users, platforms, now), userId) == 0
    decreases |users|
  {
    if users != [] {
      var front := users[..|users| - 1];
      var u := users[|users| - 1];
      assert forall j :: 0 <= j < |front| ==> front[j] == users[j];
      NoNewRowCounted(front, platforms, now, userId);
      NewRowsSnoc(users, platforms, now);
      if u.steamId.Some? && !HasSteam(platforms, u.id) {
        SteamRowCountSnoc(NewRows(front, platforms, now), SteamRow(u, now), userId);
      } else {
        assert NewRows(users, platforms, now) == NewRows(front, platforms, now) + [];
      }
    }
  }

  /** Dropping the last user keeps the ids distinct. */
  lemma DistinctFront(users: seq<User>)
    requires DistinctIds(users) && users != []
    ensures DistinctIds(users[..|users| - 1])
  {
    var front := users[..|users| - 1];
    forall i, j | 0 <= i < j < |front| ensures front[i].id != front[j].id {
      assert front[i] == users[i] && front[j] == users[j];
    }
  }

  /** The migration adds exactly one row for a user with a Steam id and no 'steam' row
      yet, and none for any other user. */
  lemma {:induction false} NewRowsCountFor(users: seq<User>, platforms: seq<Platform>, now: int, i: int)
    requires DistinctIds(users) && 0 <= i < |users|
    ensures SteamRowCount(NewRows(users, platforms, now), users[i].id)
      == if users[i].steamId.Some? && !HasSteam(platforms, users[i].id) then 1 else 0
    decreases |users|
  {
    var front := users[..|users| - 1];
    var u := users[|users| - 1];
    var id := users[i].id;
    if i < |users| - 1 {
      DistinctFront(users);
      assert front[i] == users[i];
      NewRowsCountFor(front, platforms, now, i);
      assert id != u.id;
    } else {
      assert forall j :: 0 <= j < |front| ==> front[j] == users[j];
      NoNewRowCounted(front, platforms, now, id);
    }
    NewRowsSnoc(users, platforms, now);
    if u.steamId.Some? && !HasSteam(platforms, u.id) {
      SteamRowCountSnoc(NewRows(front, platforms, now), SteamRow(u, now), id);
    } else {
      assert NewRows(users, platforms, now) == NewRows(front, platforms, now) + [];
    }
  }

  /** At most one new row per user: the user ids are the primary key. */
  lemma AtMostOneNewRowPerUser(users: seq<User>, platforms: seq<Platform>, now: int, userId: int)
    requires DistinctIds(users)
    ensures SteamRowCount(NewRows(users, platforms, now), userId) <= 1
  {
    if i :| 0 <= i < |users| && users[i].id == userId {
      NewRowsCountFor(users, platforms, now, i);
    } else {
      NoNewRowCounted(users, platforms, now, userId);
    }
  }

  /** A 'steam' row is present exactly when the count is positive. */
  lemma {:induction false} HasSteamCounted(rows: seq<Platform>, userId: int)
    ensures HasSteam(rows, userId) <==> SteamRowCount(rows, userId) > 0
    decreases |rows|
  {
    if rows != [] {
      var front := rows[..|rows| - 1];
      HasSteamCounted(front, userId);
      if HasSteam(front, userId) {
        var k :| 0 <= k < |front| && front[k].userId == userId && front[k].platform == STEAM;
        assert rows[k] == front[k];
      }
      if HasSteam(rows, userId) {
        var k :| 0 <= k < |rows| && rows[k].userId == userId && rows[k].platform == STEAM;
        if k < |front| {
          assert front[k] == rows[k];
        }
      }
    }
  }

  /** After the migration a user with a Steam id has exactly one 'steam' row, provided it
      had at most one before (the table itself does not forbid duplicates, and the
      migration keeps those it finds). */
  lemma OneSteamRowAfterMigration(users: seq<User>, platforms: seq<Platform>, now: int, i: int)
    requires DistinctIds(users) && 0 <= i < |users| && users[i].steamId.Some?
    requires SteamRowCount(platforms, users[i].id) <= 1
    ensures SteamRowCount(platforms + NewRows(users, platforms, now), users[i].id) == 1
  {
    SteamRowCountAppend(platforms, NewRows(users, platforms, now), users[i].id);
    NewRowsCountFor(users, platforms, now, i);
    HasSteamCounted(platforms, users[i].id);
  }

  /** The users and platform tables. */
  class PlatformDb {
    var users: seq<User>
    var platforms: seq<Platform>

    ghost predicate Valid()
      reads this
    {
      DistinctIds(users)
    }

    constructor (initialUsers: seq<User>, initialPlatforms: seq<Platform>)
      requires DistinctIds(initialUsers)
      ensures users == initialUsers && platforms == initialPlatforms && Valid()
    {
      users, platforms := initialUsers, initialPlatforms;
    }

    /** `migrate_steam_users_to_platforms()`: `now` is the clock, `failure` the error a
        database call raised, if one did; the error rolls everything back and is raised again.
        The result is the pair (migrated, skipped). */
    method MigrateSteamUsersToPlatforms(now: int, failure: Option<string>) returns (r: Result<(nat, nat), string>)
      requires Valid()
      modifies this`platforms
      ensures failure.Some? ==> r == Err(failure.value) && platforms == old(platforms)
      ensures failure.None? ==>
        platforms == old(platforms) + NewRows(users, old(platforms), now)
        && r == Ok((|NewRows(users, old(platforms), now)|, Skipped(users, old(platforms))))
    {
      if failure.Some? {
        return Err(failure.value);
      }
      ghost var before := platforms;
      var migrated, skipped := 0, 0;
      var i := 0;
      while i < |users|
        invariant 0 <= i <= |users|
        invariant platforms == before + NewRows(users[..i], before, now)
        invariant migrated == |NewRows(users[..i], before, now)| && skipped == Skipped(users[..i], before)
      {
        var u := users[i];
        assert users[..i + 1][..i] == users[..i];
        assert users[..i + 1][i] == u;
        if u.steamId.Some? {
          ExistingCheck(users[..i + 1], before, now);
          if HasSteam(platforms, u.id) {
            skipped := skipped + 1;
          } else {
            platforms := platforms + [SteamRow(u, now)];
            migrated := migrated + 1;
          }
        }
        i := i + 1;
      }
      assert users[..i] == users;
      r := Ok((migrated, skipped));
    }
  }

  /** The rows added for earlier users never answer the check for a later user. */
  lemma ExistingCheck(users: seq<User>, platforms: seq<Platform>, now: int)
    requires |users| > 0
    requires forall j :: 0 <= j < |users| - 1 ==> users[j].id != users[|users| - 1].id
    ensures HasSteam(platforms + NewRows(users[..|users| - 1], platforms, now), users[|users| - 1].id)
      == HasSteam(platforms, users[|users| - 1].id)
  {
    var front := users[..|users| - 1];
    var u := users[|users| - 1];
    var r := NewRows(front, platforms, now);
    var all := platforms + r;
    forall k | 0 <= k < |r| ensures r[k].userId != u.id {
      var j :| 0 <= j < |front| && front[j].steamId.Some? && r[k] == SteamRow(front[j], now);
      assert front[j] == users[j];
    }
    assert forall k :: |platforms| <= k < |all| ==> all[k] == r[k - |platforms|];
    if HasSteam(all, u.id) {
      var k :| 0 <= k < |all| && all[k].userId == u.id && all[k].platform == STEAM;
      assert all[k] == platforms[k];
    }
    if HasSteam(platforms, u.id) {
      var k :| 0 <= k < |platforms| && platforms[k].userId == u.id && platforms[k].platform == STEAM;
      assert all[k] == platforms[k];
    }
  }
}
