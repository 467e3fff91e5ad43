/** The loading side of web/src/hooks/useGames.js: the mount-time loaders that
    read the library snapshot kept in browser storage, the effect that loads
    the library when the session changes, and `forceRefresh`.
    Browser storage is a map from key to entry; a stored text that JSON cannot
    parse is the entry `Unparsable`. The network reply is an input. */
module GamesCache {
  import opened Common
  import opened GameList

  const CACHE_KEY := "steam_games_cache"
  /** One hour, in milliseconds. */
  const MAX_AGE_MS := 3600000

  /** What the storage key can hold. */
  datatype CacheEntry =
    | Unparsable
    | Snapshot(games: seq<Game>, total: int, dbTotal: int, timestamp: int, token: string)

  /** The outcome of the `/my-games` request. `dbTotal` is `None` when the reply has no
      (or a zero) `db_total`. */
  datatype FetchOutcome =
    | Fetched(games: seq<Game>, total: int, dbTotal: Option<int>)
    | HttpError(status: int, detail: Option<string>)
    | NetworkError(message: string)

  /** What the cache rule makes of the stored entry. */
  datatype Lookup = Missing | Corrupt | Hit(snapshot: CacheEntry) | Stale | Foreign

  /** A session is present when the user is authenticated and the token is not empty
      (a `null` token is the empty string here). */
  predicate SignedIn(authenticated: bool, token: string) {
    authenticated && token != ""
  }

  /** The cache rule: a snapshot is served only when it is younger than an hour and was
      written under the same token; a snapshot of another token is foreign whatever its age. */
  function Classify(storage: map<string, CacheEntry>, token: string, now: int): (r: Lookup)
    ensures r.Hit? <==>
      CACHE_KEY in storage && storage[CACHE_KEY].Snapshot?
      && now - storage[CACHE_KEY].timestamp < MAX_AGE_MS && storage[CACHE_KEY].token == token
    ensures r.Hit? ==> r.snapshot == storage[CACHE_KEY]
    ensures r.Foreign? <==> CACHE_KEY in storage && storage[CACHE_KEY].Snapshot? && storage[CACHE_KEY].token != token
    ensures r.Stale? <==>
      CACHE_KEY in storage && storage[CACHE_KEY].Snapshot?
      && now - storage[CACHE_KEY].timestamp >= MAX_AGE_MS && storage[CACHE_KEY].token == token
    ensures r.Missing? <==> CACHE_KEY !in storage
  {
    if CACHE_KEY !in storage then Missing
    else
      match storage[CACHE_KEY]
      case Unparsable => Corrupt
      case Snapshot(_, _, _, timestamp, cachedToken) =>
        if now - timestamp < MAX_AGE_MS && cachedToken == token then Hit(storage[CACHE_KEY])
        else if cachedToken != token then Foreign
        else Stale
  }

  /** The message the hook stores when the request fails. The detail is read with
      `||`, so an empty detail falls back to "Unknown error" like a missing one. */
  function ErrorMessage(outcome: FetchOutcome): (m: string)
    requires !outcome.Fetched?
    ensures outcome.HttpError? && outcome.detail.Some? && outcome.detail.value != "" ==>
      m == "API error: " + IntToString(outcome.status) + " - " + outcome.detail.value
    ensures outcome.HttpError? && (outcome.detail.None? || outcome.detail.value == "") ==>
      m == "API error: " + IntToString(outcome.status) + " - Unknown error"
    ensures outcome.NetworkError? ==> m == outcome.message
  {
    match outcome
    case HttpError(status, detail) =>
      var shown := if detail.Some? && detail.value != "" then detail.value else "Unknown error";
      "API error: " + IntToString(status) + " - " + shown
    case NetworkError(message) => message
  }

  class GamesHook {
    var allGames: seq<Game>
    var total: int
    var dbTotal: int
    var loading: bool
    var error: Option<string>
    var storage: map<string, CacheEntry>

    /** The three lazy initialisers, in declaration order: the list's initialiser also
        removes a snapshot written under another token. */
    constructor (authenticated: bool, token: string, now: int, stored: map<string, CacheEntry>)
      ensures SignedIn(authenticated, token) && Classify(stored, token, now).Hit? ==>
        var s := stored[CACHE_KEY];
        allGames == s.games && total == s.total && dbTotal == s.dbTotal
      ensures !(SignedIn(authenticated, token) && Classify(stored, token, now).Hit?) ==>
        allGames == [] && total == 0 && dbTotal == 0
      ensures storage == if SignedIn(authenticated, token) && Classify(stored, token, now).Foreign?
                         then stored - {CACHE_KEY} else stored
      ensures !loading && error == None
    {
      storage := stored;
      allGames, total, dbTotal := [], 0, 0;
      loading, error := false, None;
      if SignedIn(authenticated, token) {
        var look := Classify(stored, token, now);
        if look.Hit? {
          allGames, total, dbTotal := look.snapshot.games, look.snapshot.total, look.snapshot.dbTotal;
        } else if look.Foreign? {
          storage := stored - {CACHE_KEY};
        }
      }
    }

    /** Stores a successful reply in the state cells and writes a fresh snapshot. */
    method Accept(token: string, savedAt: int, games: seq<Game>, replyTotal: int, replyDbTotal: Option<int>)
      modifies this
      ensures allGames == games && total == replyTotal && dbTotal == replyDbTotal.GetOr(0)
      ensures storage == old(storage)[CACHE_KEY := Snapshot(games, replyTotal, replyDbTotal.GetOr(0), savedAt, token)]
      ensures loading == old(loading) && error == old(error)
    {
      allGames := games;
      total := replyTotal;
      dbTotal := replyDbTotal.GetOr(0);
      storage := storage[CACHE_KEY := Snapshot(games, replyTotal, dbTotal, savedAt, token)];
    }

    /** The effect that runs when the session changes. `now` is the clock when the
        snapshot is examined, `savedAt` the clock when a new one is written. */
    method LoadEffect(authenticated: bool, token: string, now: int, savedAt: int, outcome: FetchOutcome)
      modifies this
      // signed out: the list is emptied and nothing is fetched
      ensures !SignedIn(authenticated, token) ==>
        allGames == [] && total == 0 && error == None && !loading
        && dbTotal == old(dbTotal) && storage == old(storage)
      // a fresh snapshot of this token: nothing changes at all
      ensures SignedIn(authenticated, token) && Classify(old(storage), token, now).Hit? ==>
        allGames == old(allGames) && total == old(total) && dbTotal == old(dbTotal)
        && loading == old(loading) && error == old(error) && storage == old(storage)
      // otherwise the library is requested
      ensures SignedIn(authenticated, token) && !Classify(old(storage), token, now).Hit? ==>
        var kept := if Classify(old(storage), token, now).Foreign? then old(storage) - {CACHE_KEY} else old(storage);
        && !loading
        && (outcome.Fetched? ==>
              allGames == outcome.games && total == outcome.total && dbTotal == outcome.dbTotal.GetOr(0)
              && error == None
              && storage == kept[CACHE_KEY := Snapshot(outcome.games, outcome.total, outcome.dbTotal.GetOr(0), savedAt, token)])
        && (!outcome.Fetched? ==>
              allGames == [] && total == 0 && dbTotal == old(dbTotal)
              && error == Some(ErrorMessage(outcome)) && storage == kept)
    {
      if !SignedIn(authenticated, token) {
        allGames, total, error, loading := [], 0, None, false;
        return;
      }
      var look := Classify(storage, token, now);
      if look.Hit? {
        return;
      } else if look.Foreign? {
        storage := storage - {CACHE_KEY};
      }
      loading, error := true, None;
      if outcome.Fetched? {
        Accept(token, savedAt, outcome.games, outcome.total, outcome.dbTotal);
      } else {
        error := Some(ErrorMessage(outcome));
        allGames, total := [], 0;
      }
      loading := false;
    }

    /** `forceRefresh`: the snapshot is removed first, whatever happens next; a failed
        request keeps the list that was shown. */
    method ForceRefresh(authenticated: bool, token: string, savedAt: int, outcome: FetchOutcome)
      modifies this
      ensures !SignedIn(authenticated, token) ==>
        allGames == old(allGames) && total == old(total) && dbTotal == old(dbTotal)
        && loading == old(loading) && error == old(error) && storage == old(storage) - {CACHE_KEY}
      ensures SignedIn(authenticated, token) && outcome.Fetched? ==>
        allGames == outcome.games && total == outcome.total && dbTotal == outcome.dbTotal.GetOr(0)
        && error == None && !loading
        && storage == (old(storage) - {CACHE_KEY})[CACHE_KEY := Snapshot(outcome.games, outcome.total, outcome.dbTotal.GetOr(0), savedAt, token)]
      ensures SignedIn(authenticated, token) && !outcome.Fetched? ==>
        allGames == old(allGames) && total == old(total) && dbTotal == old(dbTotal)
        && error == Some(ErrorMessage(outcome)) && !loading && storage == old(storage) - {CACHE_KEY}
    {
      storage := storage - {CACHE_KEY};
      if !SignedIn(authenticated, token) {
        return;
      }
      loading, error := true, None;
      if outcome.Fetched? {
        Accept(token, savedAt, outcome.games, outcome.total, outcome.dbTotal);
      } else {
        error := Some(ErrorMessage(outcome));
      }
      loading := false;
    }
  }

  /** Mounting the hook and running its first effect with a fresh snapshot of the same
      token shows the snapshot's list and never touches the network outcome. */
  method MountWithFreshSnapshot(token: string, now: int, savedAt: int, stored: map<string, CacheEntry>, outcome: FetchOutcome)
    returns (h: GamesHook)
    requires token != "" && Classify(stored, token, now).Hit?
    ensures h.allGames == stored[CACHE_KEY].games && h.total == stored[CACHE_KEY].total
    ensures h.storage == stored && !h.loading && h.error == None
  {
    h := new GamesHook(true, token, now, stored);
    h.LoadEffect(true, token, now, savedAt, outcome);
  }

  /** Mounting under a token other than the snapshot's starts empty, drops the
      snapshot, and the first effect fetches. */
  method MountWithForeignSnapshot(token: string, now: int, savedAt: int, stored: map<string, CacheEntry>, outcome: FetchOutcome)
    returns (h: GamesHook)
    requires token != "" && Classify(stored, token, now).Foreign?
    ensures outcome.Fetched? ==>
      h.allGames == outcome.games && CACHE_KEY in h.storage
      && h.storage[CACHE_KEY] == Snapshot(outcome.games, outcome.total, outcome.dbTotal.GetOr(0), savedAt, token)
    ensures !outcome.Fetched? ==> h.allGames == [] && CACHE_KEY !in h.storage && h.error.Some?
  {
    h := new GamesHook(true, token, now, stored);
    assert CACHE_KEY !in h.storage;
    h.LoadEffect(true, token, now, savedAt, outcome);
  }
}
