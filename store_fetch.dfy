/** Looking up games the catalog does not know (backend/app/services/auth_service.py):
    the Steam Store lookup with its retry schedule on rate limiting, and the
    bookkeeping of delisted games that decides which ids are looked up at all,
    which are re-checked once a day, and which are recorded as delisted. */
module StoreFetch {
  import opened Common

  /** The value of the key setting that ships in the sample configuration. */
  const PLACEHOLDER_KEY := "your_steam_api_key_here"
  const DEFAULT_MAX_RETRIES: nat := 3
  /** Delisted games are re-checked at most once in this many seconds (a day). */
  const REFETCH_SECONDS := 24 * 60 * 60

  // ---------------------------------------------------------------- store lookup

  /** The `data` member of one app's entry in an appdetails reply. */
  datatype StoreData =
    | DictData(name: Option<string>, headerImage: Option<string>)
    | NullData
    | OtherData

  /** One app's entry; `data` is `None` when the entry has no `data` key. Its `success`
      flag is only logged, so it is not part of the model. */
  datatype AppEntry = AppEntry(data: Option<StoreData>)

  /** What one request produced: a status and the decoded JSON object (`None` when the
      body does not decode), or an exception (a timeout or a transport error). */
  datatype Reply = Http(status: int, body: Option<map<string, AppEntry>>) | Raised

  datatype GameInfo = GameInfo(appId: int, name: string, headerImage: string)

  /** The look-up result: the game info, and the seconds waited before each retry. */
  datatype Outcome = Outcome(info: Option<GameInfo>, waits: seq<nat>)

  predicate HasKey(apiKey: Option<string>) {
    apiKey.Some? && apiKey.value != "" && apiKey.value != PLACEHOLDER_KEY
  }

  function Pow2(n: nat): (r: nat)
    ensures r >= 1
  {
    if n == 0 then 1 else 2 * Pow2(n - 1)
  }

  /** The info of a 200 reply: the app's entry must hold a dictionary with a non-empty name. */
  function ParseDetails(appId: int, body: map<string, AppEntry>): Option<GameInfo>
  {
    var key := IntToString(appId);
    if key in body && body[key].data.Some? && body[key].data.value.DictData? then
      var d := body[key].data.value;
      if d.name.Some? && d.name.value != "" then
        Some(GameInfo(appId, d.name.value, d.headerImage.GetOr("")))
      else None
    else None
  }

  /** The reply the store gives for a listed game. */
  function DetailsOf(info: GameInfo): map<string, AppEntry>
  {
    map[IntToString(info.appId) := AppEntry(Some(DictData(Some(info.name), Some(info.headerImage))))]
  }

  /** A listed game's reply parses back to the game. */
  lemma ParseDetailsOfListed(info: GameInfo)
    requires info.name != ""
    ensures ParseDetails(info.appId, DetailsOf(info)) == Some(info)
  {
  }

  /** A null `data`, a missing `data` key, a nameless entry or a missing entry gives nothing. */
  lemma UnlistedParsesToNothing(appId: int, body: map<string, AppEntry>)
    requires IntToString(appId) !in body
      || body[IntToString(appId)].data in {None, Some(NullData), Some(OtherData)}
      || body[IntToString(appId)].data == Some(DictData(None, None))
    ensures ParseDetails(appId, body).None?
  {
  }

  /** `get_game_info_from_steam(app_id, retry_count, max_retries)`: `reply(k)` is what the
      request of attempt `k` produced. A 429 or 403 is retried after waiting
      `2^retry_count` seconds while `retry_count < max_retries`; every other failure gives
      up at once. */
  function GetGameInfo(apiKey: Option<string>, appId: int, retryCount: nat, maxRetries: nat, reply: nat -> Reply): (r: Outcome)
    decreases maxRetries - retryCount
    ensures !HasKey(apiKey) ==> r == Outcome(None, [])
    ensures retryCount + |r.waits| <= if retryCount <= maxRetries then maxRetries else retryCount
    ensures forall i :: 0 <= i < |r.waits| ==> r.waits[i] == Pow2(retryCount + i)
    ensures r.info.Some? ==> r.info.value.appId == appId && r.info.value.name != ""
    ensures r.info.Some? ==> reply(retryCount + |r.waits|).Http? && reply(retryCount + |r.waits|).status == 200
  {
    if !HasKey(apiKey) then Outcome(None, [])
    else
      match reply(retryCount)
      case Raised => Outcome(None, [])
      case Http(status, body) =>
        if status == 200 then
          Outcome(if body.Some? then ParseDetails(appId, body.value) else None, [])
        else if (status == 429 || status == 403) && retryCount < maxRetries then
          var rest := GetGameInfo(apiKey, appId, retryCount + 1, maxRetries, reply);
          Outcome(rest.info, [Pow2(retryCount)] + rest.waits)
        else Outcome(None, [])
  }

  predicate Throttled(reply: Reply) {
    reply.Http? && (reply.status == 429 || reply.status == 403)
  }

  /** When every attempt is rate limited, the lookup retries exactly `max_retries` times and gives up. */
  lemma {:induction false} ThrottledGivesUp(apiKey: Option<string>, appId: int, retryCount: nat, maxRetries: nat, reply: nat -> Reply)
    requires HasKey(apiKey) && retryCount <= maxRetries
    requires forall k :: retryCount <= k <= maxRetries ==> Throttled(reply(k))
    ensures GetGameInfo(apiKey, appId, retryCount, maxRetries, reply).info.None?
    ensures |GetGameInfo(apiKey, appId, retryCount, maxRetries, reply).waits| == maxRetries - retryCount
    decreases maxRetries - retryCount
  {
    if retryCount < maxRetries {
      ThrottledGivesUp(apiKey, appId, retryCount + 1, maxRetries, reply);
    }
  }

  /** A lookup that is throttled for its first `j` attempts and then answered with a
      listing finds the game after `j` waits. */
  lemma {:induction false} RetriedUntilAnswered(apiKey: Option<string>, info: GameInfo, retryCount: nat, maxRetries: nat, j: nat, reply: nat -> Reply)
    requires HasKey(apiKey) && info.name != "" && retryCount <= j <= maxRetries
    requires forall k :: retryCount <= k < j ==> Throttled(reply(k))
    requires reply(j) == Http(200, Some(DetailsOf(info)))
    ensures GetGameInfo(apiKey, info.appId, retryCount, maxRetries, reply) == Outcome(Some(info), Waits(retryCount, j))
    decreases j - retryCount
  {
    if retryCount < j {
      RetriedUntilAnswered(apiKey, info, retryCount + 1, maxRetries, j, reply);
    } else {
      ParseDetailsOfListed(info);
    }
  }

  /** The backoff schedule from attempt `from` up to attempt `to`: 2^from, ..., 2^(to-1). */
  function Waits(from: nat, to: nat): (w: seq<nat>)
    decreases to - from
    ensures |w| == if from <= to then to - from else 0
  {
    if from < to then [Pow2(from)] + Waits(from + 1, to) else []
  }

  function Sum(s: seq<nat>): nat {
    if s == [] then 0 else s[0] + Sum(s[1..])
  }

  /** The waits of one lookup add up to `2^(retry_count + retries) - 2^retry_count`
      seconds: with the defaults at most 1 + 2 + 4 = 7 seconds. */
  lemma TotalWait(apiKey: Option<string>, appId: int, retryCount: nat, maxRetries: nat, reply: nat -> Reply)
    ensures var r := GetGameInfo(apiKey, appId, retryCount, maxRetries, reply);
      Sum(r.waits) + Pow2(retryCount) == Pow2(retryCount + |r.waits|)
  {
    DoublingSum(GetGameInfo(apiKey, appId, retryCount, maxRetries, reply).waits, retryCount);
  }

  /** Successive powers of two from `2^from` add up to the next power less `2^from`. */
  lemma {:induction false} DoublingSum(waits: seq<nat>, from: nat)
    requires forall i :: 0 <= i < |waits| ==> waits[i] == Pow2(from + i)
    ensures Sum(waits) + Pow2(from) == Pow2(from + |waits|)
  {
    if waits != [] {
      DoublingSum(waits[1..], from + 1);
    }
  }

  // ---------------------------------------------------------------- delisted bookkeeping

  /** What the gathered lookup of one app produced: an exception, or a value. */
  datatype Lookup = Failed | Returned(info: Option<GameInfo>)

  /** A lookup that produced a game with a name. */
  predicate Found(l: Lookup) {
    l.Returned? && l.info.Some? && l.info.value.name != ""
  }

  datatype HltbInfo = HltbInfo(playtime: Option<real>, url: Option<string>)
  datatype ReviewData = ReviewData(score: real, totalReviews: int)

  datatype UnknownGame = UnknownGame(
    appId: int, name: string, headerImage: string,
    playtimeHours: real, score: real, totalReviews: int, hltbUrl: Option<string>)

  /** The game record built for an app whose lookup found it; a missing or zero HLTB
      playtime reads as 0, missing review data as score 0 with 0 reviews. */
  function BuildGame(appId: int, info: GameInfo, hltb: HltbInfo, review: Option<ReviewData>): (g: UnknownGame)
    ensures g.appId == appId && g.name == info.name && g.headerImage == info.headerImage
    ensures g.playtimeHours == if hltb.playtime.Some? then hltb.playtime.value else 0.0
    ensures review.None? ==> g.score == 0.0 && g.totalReviews == 0
  {
    UnknownGame(appId, info.name, info.headerImage,
      if hltb.playtime.Some? && hltb.playtime.value != 0.0 then hltb.playtime.value else 0.0,
      if review.Some? then review.value.score else 0.0,
      if review.Some? then review.value.totalReviews else 0,
      hltb.url)
  }

  /** The outcome of processing the gathered lookups. */
  datatype Processed = Processed(games: seq<UnknownGame>, newlyDelisted: seq<int>, found: nat, skipped: nat)

  /** The results loop over `apps`, in order: a failed lookup is skipped and not marked, a
      lookup without a named game is skipped and marked delisted, a found game is built. */
  function Process(apps: seq<int>, lookup: int -> Lookup, hltb: string -> HltbInfo, reviews: int -> Option<ReviewData>): (p: Processed)
    ensures p.found + p.skipped == |apps|
    ensures p.found == |p.games|
  {
    if apps == [] then Processed([], [], 0, 0)
    else
      var p := Process(apps[..|apps| - 1], lookup, hltb, reviews);
      var id := apps[|apps| - 1];
      var l := lookup(id);
      if l.Failed? then Processed(p.games, p.newlyDelisted, p.found, p.skipped + 1)
      else if !Found(l) then Processed(p.games, p.newlyDelisted + [id], p.found, p.skipped + 1)
      else
        var info := l.info.value;
        Processed(p.games + [BuildGame(id, info, hltb(info.name), reviews(id))], p.newlyDelisted, p.found + 1, p.skipped)
  }

  /** Exactly the apps whose lookup returned no named game are marked delisted, and
      exactly the found ones become games: a failed lookup is neither. */
  lemma {:induction false} ProcessPartition(apps: seq<int>, lookup: int -> Lookup, hltb: string -> HltbInfo, reviews: int -> Option<ReviewData>)
    ensures var p := Process(apps, lookup, hltb, reviews);
      (forall id :: id in p.newlyDelisted <==> id in apps && lookup(id).Returned? && !Found(lookup(id)))
      && (forall g :: g in p.games ==> g.appId in apps && Found(lookup(g.appId)))
      && (forall id :: id in apps && Found(lookup(id)) ==> exists g :: g in p.games && g.appId == id)
  {
    if apps != [] {
      var front := apps[..|apps| - 1];
      ProcessPartition(front, lookup, hltb, reviews);
      assert apps == front + [apps[|apps| - 1]];
      var id := apps[|apps| - 1];
      var p := Process(apps, lookup, hltb, reviews);
      if Found(lookup(id)) {
        assert p.games[|p.games| - 1].appId == id;
      }
    }
  }

  /** The ids of `unknown` the table records as delisted, in order (`delisted_in_unknown`). */
  function DelistedIn(unknown: seq<int>, table: map<int, int>): (r: seq<int>)
    ensures forall id :: id in r <==> id in unknown && id in table
  {
    Filter(unknown, id => id in table)
  }

  /** The ids of `unknown` the table does not record (`apps_to_fetch`). */
  function ToFetch(unknown: seq<int>, table: map<int, int>): (r: seq<int>)
    ensures forall id :: id in r <==> id in unknown && id !in table
  {
    Filter(unknown, id => id !in table)
  }

  /** Every requested id is either skipped as delisted or fetched. */
  lemma {:induction false} SkippedPlusFetched(unknown: seq<int>, table: map<int, int>)
    ensures |DelistedIn(unknown, table)| + |ToFetch(unknown, table)| == |unknown|
  {
    if unknown != [] {
      SkippedPlusFetched(unknown[1..], table);
    }
  }

  /** The once-a-day re-check is due: a database is there, some requested id is recorded
      as delisted, and every record was last checked more than a day ago (so is the
      most recent one, which is what the service compares). */
  predicate RefetchDue(hasDb: bool, table: map<int, int>, unknown: seq<int>, now: int) {
    hasDb && (exists i :: 0 <= i < |unknown| && unknown[i] in table)
    && forall id :: id in table ==> now - table[id] > REFETCH_SECONDS
  }

  /** The re-check loop over `ids`: a restored game's record is deleted, every other
      record is stamped `now` (an update of a deleted record does nothing). */
  function Recheck(table: map<int, int>, ids: seq<int>, refetch: int -> Lookup, now: int): (r: map<int, int>)
    ensures forall id :: id in r <==> id in table && !(id in ids && Found(refetch(id)))
    ensures forall id :: id in r ==> r[id] == if id in ids then now else table[id]
  {
    if ids == [] then table
    else
      var t := Recheck(table, ids[..|ids| - 1], refetch, now);
      var id := ids[|ids| - 1];
      assert ids == ids[..|ids| - 1] + [id];
      if Found(refetch(id)) then t - {id}
      else if id in t then t[id := now]
      else t
  }

  /** The save loop: every newly delisted id not yet recorded gets a record stamped `now`;
      a recorded id keeps its record. */
  function SaveDelisted(table: map<int, int>, ids: seq<int>, now: int): (r: map<int, int>)
    ensures forall id :: id in r <==> id in table || id in ids
    ensures forall id :: id in r ==> r[id] == if id in table then table[id] else now
  {
    if ids == [] then table
    else
      var t := SaveDelisted(table, ids[..|ids| - 1], now);
      var id := ids[|ids| - 1];
      assert ids == ids[..|ids| - 1] + [id];
      if id in t then t else t[id := now]
  }

  /** After a re-check that left some requested record in place, no re-check is due again
      within a day, whatever is requested then. */
  lemma NoSecondRecheckWithinDay(table: map<int, int>, unknown: seq<int>, refetch: int -> Lookup, now: int, later: int, again: seq<int>, kept: int)
    requires kept in unknown && kept in table && !Found(refetch(kept))
    requires later - now <= REFETCH_SECONDS
    ensures !RefetchDue(true, Recheck(table, DelistedIn(unknown, table), refetch, now), again, later)
  {
    var r := Recheck(table, DelistedIn(unknown, table), refetch, now);
    assert kept in r && r[kept] == now;
  }

  datatype Report = Report(found: nat, skipped: nat, delistedSkipped: nat, fetched: nat)

  /** A row of the delisted-games table: an app id and when it was last checked, in seconds. */
  datatype Delisted = Delisted(appId: int, checkedAt: int)

  /** No two rows share an app id. */
  predicate Unique(rows: seq<Delisted>) {
    forall i, j :: 0 <= i < j < |rows| ==> rows[i].appId != rows[j].appId
  }

  /** The table as a map from app id to the time of its last check. */
  function View(rows: seq<Delisted>): map<int, int>
  {
    if rows == [] then map[] else View(rows[1..])[rows[0].appId := rows[0].checkedAt]
  }

  /** Every row's id is in the map view. */
  lemma {:induction false} ViewHas(rows: seq<Delisted>, i: int)
    requires 0 <= i < |rows|
    ensures rows[i].appId in View(rows)
  {
    if i > 0 {
      ViewHas(rows[1..], i - 1);
    }
  }

  /** The map view holds no time later than every row's. */
  lemma {:induction false} ViewBounded(rows: seq<Delisted>, bound: int)
    requires forall i :: 0 <= i < |rows| ==> rows[i].checkedAt <= bound
    ensures forall id :: id in View(rows) ==> View(rows)[id] <= bound
  {
    if rows != [] {
      ViewBounded(rows[1..], bound);
    }
  }

  lemma UniqueTail(rows: seq<Delisted>)
    requires Unique(rows) && rows != []
    ensures Unique(rows[1..])
  {
    forall a, b | 0 <= a < b < |rows| - 1 ensures rows[1..][a].appId != rows[1..][b].appId {
      assert rows[1..][a] == rows[a + 1] && rows[1..][b] == rows[b + 1];
    }
  }

  /** In a table without repeated ids, every row is what the map view holds for its id. */
  lemma {:induction false} ViewAt(rows: seq<Delisted>, i: int)
    requires Unique(rows) && 0 <= i < |rows|
    ensures rows[i].appId in View(rows) && View(rows)[rows[i].appId] == rows[i].checkedAt
  {
    ViewHas(rows, i);
    if i > 0 {
      UniqueTail(rows);
      ViewAt(rows[1..], i - 1);
    }
  }

  /** The delete of one id's records. */
  function Drop(rows: seq<Delisted>, id: int): (r: seq<Delisted>)
    ensures forall j :: 0 <= j < |r| ==> r[j] in rows[..]
    ensures Unique(rows) ==> Unique(r)
  {
    if rows == [] then []
    else
      var rest := Drop(rows[1..], id);
      if rows[0].appId == id then rest
      else
        var r := [rows[0]] + rest;
        assert Unique(rows) ==> Unique(r) by {
          if Unique(rows) {
            UniqueTail(rows);
            forall j | 0 <= j < |rest| ensures rest[j].appId != rows[0].appId {
              var k :| 0 <= k < |rows[1..]| && rows[1..][k] == rest[j];
              assert rows[k + 1] == rest[j];
            }
          }
        }
        r
  }

  lemma {:induction false} DropView(rows: seq<Delisted>, id: int)
    ensures View(Drop(rows, id)) == View(rows) - {id}
  {
    if rows != [] {
      DropView(rows[1..], id);
      var rest := Drop(rows[1..], id);
      var tail := View(rows[1..]);
      if rows[0].appId == id {
        assert View(rows) - {id} == tail - {id};
      } else {
        var r := [rows[0]] + rest;
        assert r[1..] == rest;
        assert View(r) == (tail - {id})[rows[0].appId := rows[0].checkedAt];
        assert View(rows) - {id} == (tail - {id})[rows[0].appId := rows[0].checkedAt];
      }
    }
  }

  /** The update of one id's records to `now`. */
  function Stamp(rows: seq<Delisted>, id: int, now: int): (r: seq<Delisted>)
    ensures |r| == |rows|
    ensures forall j :: 0 <= j < |r| ==> r[j].appId == rows[j].appId
  {
    if rows == [] then []
    else [if rows[0].appId == id then Delisted(id, now) else rows[0]] + Stamp(rows[1..], id, now)
  }

  lemma {:induction false} StampView(rows: seq<Delisted>, id: int, now: int)
    ensures View(Stamp(rows, id, now)) == if id in View(rows) then View(rows)[id := now] else View(rows)
  {
    if rows != [] {
      StampView(rows[1..], id, now);
      var r := Stamp(rows, id, now);
      assert r[1..] == Stamp(rows[1..], id, now);
    }
  }

  /** Appending a row for an id not yet recorded adds exactly that entry. */
  lemma {:induction false} ViewAppend(rows: seq<Delisted>, d: Delisted)
    requires d.appId !in View(rows)
    ensures View(rows + [d]) == View(rows)[d.appId := d.checkedAt]
  {
    if rows != [] {
      ViewAppend(rows[1..], d);
      assert (rows + [d])[1..] == rows[1..] + [d];
    }
  }

  /** The delisted-games table: its rows, in the order the database returns them. */
  class DelistedStore {
    var rows: seq<Delisted>

    ghost predicate Valid()
      reads this
    {
      Unique(rows)
    }

    constructor (initial: seq<Delisted>)
      requires Unique(initial)
      ensures rows == initial && Valid()
    {
      rows := initial;
    }

    /** `max(record.checked_at for record in delisted_records)`, or `None` without records. */
    method LastCheck() returns (last: Option<int>)
      ensures last.None? <==> rows == []
      ensures last.Some? ==> exists i :: 0 <= i < |rows| && rows[i].checkedAt == last.value
      ensures last.Some? ==> forall i :: 0 <= i < |rows| ==> rows[i].checkedAt <= last.value
    {
      last := None;
      var i := 0;
      while i < |rows|
        invariant 0 <= i <= |rows|
        invariant last.None? <==> i == 0
        invariant last.Some? ==> exists k :: 0 <= k < i && rows[k].checkedAt == last.value
        invariant last.Some? ==> forall k :: 0 <= k < i ==> rows[k].checkedAt <= last.value
      {
        if last.None? || rows[i].checkedAt > last.value {
          last := Some(rows[i].checkedAt);
        }
        i := i + 1;
      }
    }

    /** The once-a-day test: the most recent check is compared with `now`. */
    method IsRefetchDue(unknown: seq<int>, hasDb: bool, now: int) returns (due: bool)
      requires Valid()
      ensures due == RefetchDue(hasDb, View(rows), unknown, now)
    {
      var table := View(rows);
      due := false;
      if hasDb && rows != [] && exists i :: 0 <= i < |unknown| && unknown[i] in table {
        var last := LastCheck();
        due := last.None? || now - last.value > REFETCH_SECONDS;
        if due {
          ViewBounded(rows, last.value);
        } else {
          var i :| 0 <= i < |rows| && rows[i].checkedAt == last.value;
          ViewAt(rows, i);
          assert !(now - table[rows[i].appId] > REFETCH_SECONDS);
        }
      }
    }

    /** The re-check of the requested delisted ids, one id at a time. */
    method RunRecheck(ids: seq<int>, refetch: int -> Lookup, now: int)
      requires Valid()
      modifies this
      ensures Valid()
      ensures View(rows) == Recheck(View(old(rows)), ids, refetch, now)
    {
      var i := 0;
      while i < |ids|
        invariant 0 <= i <= |ids|
        invariant Valid()
        invariant View(rows) == Recheck(View(old(rows)), ids[..i], refetch, now)
      {
        var id := ids[i];
        assert ids[..i + 1][..i] == ids[..i];
        if Found(refetch(id)) {
          DropView(rows, id);
          rows := Drop(rows, id);
        } else {
          StampView(rows, id, now);
          rows := Stamp(rows, id, now);
        }
        i := i + 1;
      }
      assert ids[..i] == ids;
    }

    /** The save of the newly delisted ids; an id already recorded is left alone. */
    method SaveNewlyDelisted(ids: seq<int>, now: int)
      requires Valid()
      modifies this
      ensures Valid()
      ensures View(rows) == SaveDelisted(View(old(rows)), ids, now)
    {
      var k := 0;
      while k < |ids|
        invariant 0 <= k <= |ids|
        invariant Valid()
        invariant View(rows) == SaveDelisted(View(old(rows)), ids[..k], now)
      {
        var id := ids[k];
        assert ids[..k + 1][..k] == ids[..k];
        if id !in View(rows) {
          ViewAppend(rows, Delisted(id, now));
          forall j | 0 <= j < |rows| ensures rows[j].appId != id {
            ViewHas(rows, j);
          }
          rows := rows + [Delisted(id, now)];
        }
        k := k + 1;
      }
      assert ids[..k] == ids;
    }

    /** `fetch_unknown_games_info(unknown_app_ids, db)`: `hasDb` says whether a database
        session was passed, `refetch(id)` and `lookup(id)` are the gathered lookups of the
        re-check and of the main fetch, `hltb` and `reviews` the HowLongToBeat and review
        services, `saveFails` whether saving the new records raised. */
    method FetchUnknownGamesInfo(unknown: seq<int>, hasDb: bool, now: int, refetch: int -> Lookup,
                                 lookup: int -> Lookup, hltb: string -> HltbInfo,
                                 reviews: int -> Option<ReviewData>, saveFails: bool)
      returns (games: seq<UnknownGame>, report: Report)
      requires Valid()
      modifies this
      ensures Valid()
      ensures var t0 := View(old(rows));
              var t1 := if RefetchDue(hasDb, t0, unknown, now)
                        then Recheck(t0, DelistedIn(unknown, t0), refetch, now)
                        else t0;
              var apps := if hasDb then ToFetch(unknown, t1) else unknown;
              var p := Process(apps, lookup, hltb, reviews);
              games == p.games
              && report == Report(p.found, p.skipped, |unknown| - |apps|, |apps|)
              && View(rows) == if hasDb && !saveFails then SaveDelisted(t1, p.newlyDelisted, now) else t1
    {
      var due := IsRefetchDue(unknown, hasDb, now);
      if due {
        RunRecheck(DelistedIn(unknown, View(rows)), refetch, now);
      }
      var apps := if hasDb then ToFetch(unknown, View(rows)) else unknown;
      var p := ProcessResults(apps, lookup, hltb, reviews);
      if |p.newlyDelisted| > 0 && hasDb && !saveFails {
        SaveNewlyDelisted(p.newlyDelisted, now);
      }
      games := p.games;
      report := Report(p.found, p.skipped, |unknown| - |apps|, |apps|);
    }
  }

  /** The loop over the gathered lookups, in the order of `apps`. */
  method ProcessResults(apps: seq<int>, lookup: int -> Lookup, hltb: string -> HltbInfo, reviews: int -> Option<ReviewData>)
    returns (p: Processed)
    ensures p == Process(apps, lookup, hltb, reviews)
  {
    var games: seq<UnknownGame> := [];
    var newlyDelisted: seq<int> := [];
    var found, skipped := 0, 0;
    var j := 0;
    while j < |apps|
      invariant 0 <= j <= |apps|
      invariant Processed(games, newlyDelisted, found, skipped) == Process(apps[..j], lookup, hltb, reviews)
    {
      var id := apps[j];
      assert apps[..j + 1][..j] == apps[..j];
      var l := lookup(id);
      if l.Failed? {
        skipped := skipped + 1;
      } else if !Found(l) {
        newlyDelisted := newlyDelisted + [id];
        skipped := skipped + 1;
      } else {
        var info := l.info.value;
        games := games + [BuildGame(id, info, hltb(info.name), reviews(id))];
        found := found + 1;
      }
      j := j + 1;
    }
    assert apps[..j] == apps;
    p := Processed(games, newlyDelisted, found, skipped);
  }
}
