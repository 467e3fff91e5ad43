/** The command-line tool's file cache (cache.py): one JSON file per key in a cache
    directory, each holding the value and the time it was written; a value older than
    the time-to-live reads as missing. The directory is a map from file stem to file. */
module FileCache {
  import opened Common
  import opened Json

  /** The default time-to-live: 24 hours, in seconds. */
  const DEFAULT_TTL := 86400

  /** What a cache file holds: undecodable text, or an object with an optional
      `timestamp` (seconds) and a `value` (`JNull` when absent). */
  datatype CacheFile = Unreadable | Entry(timestamp: Option<real>, value: Json)

  /** Characters the file name keeps; every other one becomes '_'. */
  predicate KeepsChar(c: char) {
    IsAsciiAlnum(c) || c == '_' || c == '-'
  }

  /** `_get_cache_file(key)`, without the directory and the ".json" suffix. */
  function SanitizeKey(key: string): (r: string)
    ensures |r| == |key|
    ensures forall i :: 0 <= i < |key| ==> r[i] == (if KeepsChar(key[i]) then key[i] else '_')
  {
    if key == [] then []
    else [if KeepsChar(key[0]) then key[0] else '_'] + SanitizeKey(key[1..])
  }

  /** The file name holds only kept characters (no separator can leave the cache
      directory), so sanitising it again changes nothing. */
  lemma SanitizeIsIdempotent(key: string)
    ensures forall i :: 0 <= i < |key| ==> KeepsChar(SanitizeKey(key)[i])
    ensures SanitizeKey(SanitizeKey(key)) == SanitizeKey(key)
  {
  }

  /** Keys that differ only in one replaced character share a file. */
  lemma ReplacedCharactersCollide(prefix: string, c1: char, c2: char, suffix: string)
    requires !KeepsChar(c1) && !KeepsChar(c2)
    ensures SanitizeKey(prefix + [c1] + suffix) == SanitizeKey(prefix + [c2] + suffix)
  {
    var a, b := SanitizeKey(prefix + [c1] + suffix), SanitizeKey(prefix + [c2] + suffix);
    forall i | 0 <= i < |a| ensures a[i] == b[i] {
      if i < |prefix| {
        assert (prefix + [c1] + suffix)[i] == prefix[i] == (prefix + [c2] + suffix)[i];
      } else if i > |prefix| {
        assert (prefix + [c1] + suffix)[i] == suffix[i - |prefix| - 1] == (prefix + [c2] + suffix)[i];
      }
    }
  }

  /** `get(key)` at time `now`: a missing or undecodable file reads as `None`, and so
      does an entry whose age exceeds the time-to-live; a missing timestamp counts as 0. */
  function Read(files: map<string, CacheFile>, ttl: int, key: string, now: real): Json
  {
    var name := SanitizeKey(key);
    if name !in files then JNull
    else
      match files[name]
      case Unreadable => JNull
      case Entry(timestamp, value) =>
        if now - timestamp.GetOr(0.0) > ttl as real then JNull else value
  }

  /** The file `set(key, value)` writes at time `now`. */
  function Write(files: map<string, CacheFile>, key: string, value: Json, now: real): (r: map<string, CacheFile>)
    ensures r.Keys == files.Keys + {SanitizeKey(key)}
  {
    files[SanitizeKey(key) := Entry(Some(now), value)]
  }

  /** A value read back no later than `ttl` seconds after it was written is the value
      written; an age of exactly `ttl` still counts as fresh. */
  lemma ReadAfterWrite(files: map<string, CacheFile>, ttl: int, key: string, value: Json, written: real, now: real)
    requires now - written <= ttl as real
    ensures Read(Write(files, key, value, written), ttl, key, now) == value
  {
  }

  /** Any later read returns nothing. */
  lemma ExpiredAfterTtl(files: map<string, CacheFile>, ttl: int, key: string, value: Json, written: real, now: real)
    requires now - written > ttl as real
    ensures Read(Write(files, key, value, written), ttl, key, now) == JNull
  {
  }

  /** An entry without a timestamp is as old as the clock reading itself. */
  lemma MissingTimestampIsEpoch(files: map<string, CacheFile>, ttl: int, key: string, value: Json, now: real)
    requires SanitizeKey(key) in files && files[SanitizeKey(key)] == Entry(None, value)
    ensures Read(files, ttl, key, now) == if now > ttl as real then JNull else value
  {
  }

  /** A write leaves every key with another file name as it was. */
  lemma WriteKeepsOthers(files: map<string, CacheFile>, ttl: int, key: string, other: string, value: Json, written: real, now: real)
    requires SanitizeKey(other) != SanitizeKey(key)
    ensures Read(Write(files, key, value, written), ttl, other, now) == Read(files, ttl, other, now)
  {
  }

  /** How `set` ends: the file written, `open` raising (the file is untouched), or
      `json.dump` raising after `open` emptied the file. */
  datatype WriteOutcome = Written | OpenFailed | DumpFailed

  /** After a failed dump the key reads as missing, whatever it held before, and every
      key with another file name reads as before. */
  lemma DumpFailureLosesEntry(files: map<string, CacheFile>, ttl: int, key: string, other: string, now: real)
    ensures Read(files[SanitizeKey(key) := Unreadable], ttl, key, now) == JNull
    ensures SanitizeKey(other) != SanitizeKey(key) ==>
      Read(files[SanitizeKey(key) := Unreadable], ttl, other, now) == Read(files, ttl, other, now)
  {
  }

  /** The cache directory and its time-to-live. */
  class Cache {
    var files: map<string, CacheFile>
    const ttl: int

    constructor (existing: map<string, CacheFile>, timeToLive: int)
      ensures files == existing && ttl == timeToLive
    {
      files := existing;
      ttl := timeToLive;
    }

    /** `get(key)`. */
    function Get(key: string, now: real): Json
      reads this
    {
      Read(files, ttl, key, now)
    }

    /** `set(key, value)`: `outcome` says whether opening the file or dumping the JSON
        raised; either error is logged. Opening with 'w' empties the file first, so a
        failed dump leaves text JSON cannot decode. */
    method Set(key: string, value: Json, now: real, outcome: WriteOutcome)
      modifies this
      ensures files == match outcome
                       case Written => Write(old(files), key, value, now)
                       case OpenFailed => old(files)
                       case DumpFailed => old(files)[SanitizeKey(key) := Unreadable]
    {
      match outcome
      case Written => files := Write(files, key, value, now);
      case OpenFailed =>
      case DumpFailed => files := files[SanitizeKey(key) := Unreadable];
    }

    /** `clear()`: every cache file is deleted. */
    method Clear()
      modifies this
      ensures files == map[]
      ensures forall key, now :: Get(key, now) == JNull
    {
      files := map[];
    }
  }
}
