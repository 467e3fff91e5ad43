/** The release-version bump (increment_version.py): it finds the first
    `APP_VERSION = "<version>"` line of the backend's main module, reads the counter after
    the version's last "-v", and rewrites every such line to
    `<date>-fix-fk-violations-v<counter + 1>`. The file text and the date are inputs. */
module VersionBump {
  import opened Common

  /** The fixed start of a match of `APP_VERSION = "([^"]+)"`. */
  const MARKER := "APP_VERSION = \""
  const SUFFIX := "-fix-fk-violations-v"

  // ---------------------------------------------------------------- the regular expression

  // The pattern is `m([^"]+)"` for a fixed start `m`; the script's `m` is MARKER.

  /** The first '"' at or after `i`, or `|s|` when there is none. */
  function QuoteFrom(s: string, i: nat): (k: nat)
    requires i <= |s|
    ensures i <= k <= |s| && (k < |s| ==> s[k] == '"')
    decreases |s| - i
  {
    if i == |s| || s[i] == '"' then i else QuoteFrom(s, i + 1)
  }

  /** Whether `m` starts at `p`. */
  predicate MarkerAt(s: string, m: string, p: nat) {
    p + |m| <= |s| && s[p..p + |m|] == m
  }

  /** A match starting at `p`: `m`, one or more non-quote characters, and the closing
      quote, whose index is the result. */
  function MatchAt(s: string, m: string, p: nat): (r: Option<nat>)
    ensures r.Some? ==> MarkerAt(s, m, p) && p + |m| < r.value < |s| && s[r.value] == '"'
    ensures r.Some? ==> r.value == QuoteFrom(s, p + |m|)
  {
    if MarkerAt(s, m, p) then
      var k := QuoteFrom(s, p + |m|);
      if p + |m| < k < |s| then Some(k) else None
    else None
  }

  /** `re.search` from `from`: the leftmost match, as (start, index of the closing quote). */
  function Search(s: string, m: string, from: nat): (r: Option<(nat, nat)>)
    requires from <= |s|
    ensures r.Some? ==> from <= r.value.0 < r.value.1 < |s| && MatchAt(s, m, r.value.0) == Some(r.value.1)
    decreases |s| - from
  {
    var found := MatchAt(s, m, from);
    if found.Some? then Some((from, found.value))
    else if from == |s| then None
    else Search(s, m, from + 1)
  }

  /** `re.sub` of every match from `from` on by `repl`, left to right. */
  function Sub(s: string, m: string, from: nat, repl: string): string
    requires from <= |s|
    decreases |s| - from
  {
    var found := Search(s, m, from);
    if found.None? then s[from..] else s[from..found.value.0] + repl + Sub(s, m, found.value.1 + 1, repl)
  }

  /** One step of the substitution: the text before the match, the replacement, and the rest. */
  lemma SubStep(s: string, m: string, from: nat, repl: string, p: nat, k: nat)
    requires from <= |s| && Search(s, m, from) == Some((p, k))
    ensures k + 1 <= |s| && Sub(s, m, from, repl) == s[from..p] + repl + Sub(s, m, k + 1, repl)
  {
  }

  lemma SubWithoutMatch(s: string, m: string, from: nat, repl: string)
    requires from <= |s|
    ensures Search(s, m, from).None? ==> Sub(s, m, from, repl) == s[from..]
  {
  }

  /** The search finds no match where there is none. */
  lemma {:induction false} SearchNone(s: string, m: string, from: nat)
    requires from <= |s| && forall q :: from <= q <= |s| ==> MatchAt(s, m, q).None?
    ensures Search(s, m, from).None?
    decreases |s| - from
  {
    if from < |s| {
      SearchNone(s, m, from + 1);
    }
  }

  /** `QuoteFrom` finds the first quote. */
  lemma {:induction false} QuoteFromFirst(s: string, i: nat, k: nat)
    requires i <= k < |s| && s[k] == '"' && forall j :: i <= j < k ==> s[j] != '"'
    ensures QuoteFrom(s, i) == k
    decreases k - i
  {
    if i < k {
      QuoteFromFirst(s, i + 1, k);
    }
  }

  /** The search finds the leftmost match. */
  lemma {:induction false} SearchFinds(s: string, m: string, from: nat, p: nat)
    requires from <= p <= |s| && MatchAt(s, m, p).Some?
    requires forall q :: from <= q < p ==> MatchAt(s, m, q).None?
    ensures Search(s, m, from) == Some((p, MatchAt(s, m, p).value))
    decreases p - from
  {
    if from < p {
      SearchFinds(s, m, from + 1, p);
    }
  }

  /** `m` occurs nowhere in `s`. */
  predicate NoMarker(s: string, m: string) {
    forall q: nat :: q <= |s| ==> !MarkerAt(s, m, q)
  }

  predicate QuoteFree(s: string) {
    forall i :: 0 <= i < |s| ==> s[i] != '"'
  }

  /** The first character of `m` occurs in it only at its start, so two occurrences
      never overlap. */
  predicate Unbordered(m: string) {
    m != [] && forall d :: 1 <= d < |m| ==> m[d] != m[0]
  }

  /** The line holding `version`. */
  function LineOf(m: string, version: string): string {
    m + version + "\""
  }

  lemma NoMatchBefore(pre: string, m: string, version: string, post: string)
    requires NoMarker(pre, m) && Unbordered(m)
    ensures forall q :: 0 <= q < |pre| ==> MatchAt(pre + LineOf(m, version) + post, m, q).None?
  {
    var s := pre + LineOf(m, version) + post;
    forall q | 0 <= q < |pre| ensures !MarkerAt(s, m, q) {
      if q + |m| <= |pre| {
        assert s[q..q + |m|] == pre[q..q + |m|];
        assert !MarkerAt(pre, m, q);
      } else if q + |m| <= |s| {
        var d := |pre| - q;
        assert s[|pre|] == m[0];
        assert s[q..q + |m|][d] == s[|pre|] != m[d];
      }
    }
  }

  lemma MatchOfLine(pre: string, m: string, version: string, post: string)
    requires version != [] && QuoteFree(version)
    ensures MatchAt(pre + LineOf(m, version) + post, m, |pre|) == Some(|pre| + |m| + |version|)
  {
    var s := pre + LineOf(m, version) + post;
    var p := |pre|;
    assert s[p..p + |m|] == m;
    var k := p + |m| + |version|;
    assert s[k] == '"';
    forall j | p + |m| <= j < k ensures s[j] != '"' {
      assert s[j] == version[j - p - |m|];
    }
    QuoteFromFirst(s, p + |m|, k);
  }

  /** The first match of such a file is its version line. */
  lemma LineFound(pre: string, m: string, version: string, post: string)
    requires NoMarker(pre, m) && Unbordered(m) && version != [] && QuoteFree(version)
    ensures Search(pre + LineOf(m, version) + post, m, 0) == Some((|pre|, |pre| + |m| + |version|))
  {
    var s := pre + LineOf(m, version) + post;
    assert forall q :: 0 <= q < |pre| ==> MatchAt(s, m, q).None? by {
      NoMatchBefore(pre, m, version, post);
    }
    assert MatchAt(s, m, |pre|) == Some(|pre| + |m| + |version|) by {
      MatchOfLine(pre, m, version, post);
    }
    SearchFinds(s, m, 0, |pre|);
  }

  /** The version sits between the line's start and its closing quote. */
  lemma VersionInLine(pre: string, m: string, version: string, post: string)
    ensures (pre + LineOf(m, version) + post)[|pre| + |m|..|pre| + |m| + |version|] == version
  {
  }

  /** `m` does not start anywhere from `from` on. */
  predicate NoMarkerFrom(s: string, m: string, from: nat) {
    forall q: nat :: from <= q <= |s| ==> !MarkerAt(s, m, q)
  }

  /** A tail without a marker is not a match anywhere. */
  lemma TailNoMarker(head: string, m: string, post: string)
    requires NoMarker(post, m)
    ensures NoMarkerFrom(head + post, m, |head|)
  {
    var s := head + post;
    forall q: nat | |head| <= q <= |s| ensures !MarkerAt(s, m, q) {
      if q + |m| <= |s| {
        assert s[q..q + |m|] == post[q - |head|..q - |head| + |m|];
        assert !MarkerAt(post, m, q - |head|);
      }
    }
  }

  /** Substitution leaves a tail without a marker as it is. */
  lemma SubAfterLast(s: string, m: string, from: nat, repl: string)
    requires from <= |s| && NoMarkerFrom(s, m, from)
    ensures Sub(s, m, from, repl) == s[from..]
  {
    SearchNone(s, m, from);
    SubWithoutMatch(s, m, from, repl);
  }

  /** With one match, substitution replaces it and keeps both sides. */
  lemma SubOnce(s: string, m: string, p: nat, k: nat, repl: string)
    requires Search(s, m, 0) == Some((p, k)) && NoMarkerFrom(s, m, k + 1)
    ensures Sub(s, m, 0, repl) == s[..p] + repl + s[k + 1..]
  {
    SubStep(s, m, 0, repl, p, k);
    SubAfterLast(s, m, k + 1, repl);
  }

  /** Substitution replaces the version line and nothing else. */
  lemma SubOfLine(pre: string, m: string, version: string, post: string, repl: string)
    requires NoMarker(pre, m) && NoMarker(post, m) && Unbordered(m) && version != [] && QuoteFree(version)
    ensures Sub(pre + LineOf(m, version) + post, m, 0, repl) == pre + repl + post
  {
    var head := pre + LineOf(m, version);
    var s := head + post;
    var k: nat := |pre| + |m| + |version|;
    LineFound(pre, m, version, post);
    TailNoMarker(head, m, post);
    assert |head| == k + 1;
    SubOnce(s, m, |pre|, k, repl);
    assert s[..|pre|] == pre;
    assert s[k + 1..] == post;
  }

  // ---------------------------------------------------------------- the counter

  /** A "-v" starts at `j`. */
  predicate SepAt(s: string, j: nat) {
    j + 2 <= |s| && s[j] == '-' && s[j + 1] == 'v'
  }

  /** `version.rsplit('-v', 1)`: the index of the last "-v", if any. */
  function LastSep(s: string): (r: Option<nat>)
    ensures r.Some? ==> SepAt(s, r.value) && forall j: nat :: r.value < j ==> !SepAt(s, j)
    ensures r.None? ==> forall j: nat :: !SepAt(s, j)
  {
    if |s| < 2 then None
    else if SepAt(s, |s| - 2) then Some(|s| - 2)
    else
      var front := s[..|s| - 1];
      assert forall j: nat :: SepAt(front, j) ==> SepAt(s, j);
      assert forall j: nat :: SepAt(s, j) ==> SepAt(front, j);
      LastSep(front)
  }

  predicate AllDigits(t: string) {
    forall i :: 0 <= i < |t| ==> IsDigit(t[i])
  }

  /** `int(t)`: an optional sign and one or more decimal digits; anything else raises `ValueError`. */
  function ParseInt(t: string): (r: Result<int, string>)
    ensures r.Ok? <==> (AllDigits(t) && t != []) || (|t| >= 2 && (t[0] == '-' || t[0] == '+') && AllDigits(t[1..]))
  {
    if t != [] && AllDigits(t) then Ok(DigitsValue(t))
    else if |t| >= 2 && t[0] == '-' && AllDigits(t[1..]) then Ok(-(DigitsValue(t[1..]) as int))
    else if |t| >= 2 && t[0] == '+' && AllDigits(t[1..]) then Ok(DigitsValue(t[1..]))
    else Err("ValueError")
  }

  /** The rendering of an integer parses back to it. */
  lemma ParseIntToString(n: int)
    ensures ParseInt(IntToString(n)) == Ok(n)
  {
    var t := IntToString(n);
    if n >= 0 {
      DigitsValueOfNatToString(n);
      assert AllDigits(t) && DigitsValue(t) == n;
    } else {
      var digits := NatToString(-n);
      assert t[1..] == digits;
      DigitsValueOfNatToString(-n);
      assert AllDigits(t[1..]) && DigitsValue(t[1..]) == -n;
      assert !IsDigit(t[0]);
    }
  }

  /** The next counter for a version: one more than the number after its last "-v",
      1 without a "-v", and the `ValueError` of a number that does not parse. */
  function NextCounter(version: string): (r: Result<int, string>)
    ensures LastSep(version).None? ==> r == Ok(1)
  {
    var sep := LastSep(version);
    if sep.None? then Ok(1)
    else
      var parsed := ParseInt(version[sep.value + 2..]);
      if parsed.Ok? then Ok(parsed.value + 1) else Err(parsed.error)
  }

  /** The version the script writes. */
  function NewVersion(date: string, counter: int): (v: string)
    ensures |v| > |SUFFIX|
  {
    date + SUFFIX + IntToString(counter)
  }

  /** A version the script wrote yields the next counter, whatever the date holds. */
  lemma {:induction false} CounterRoundTrip(date: string, counter: int)
    ensures NextCounter(NewVersion(date, counter)) == Ok(counter + 1)
  {
    var v := NewVersion(date, counter);
    var digits := IntToString(counter);
    var i := |date| + |SUFFIX| - 2;
    assert SepAt(v, i);
    forall j: nat | i < j ensures !SepAt(v, j) {
      if j + 2 <= |v| {
        IntToStringChars(counter);
        assert v[j + 1] == digits[j + 1 - |date| - |SUFFIX|];
      }
    }
    LastSepIsLast(v, i);
    assert v[i + 2..] == digits;
    ParseIntToString(counter);
  }

  /** `LastSep` finds a "-v" after which none follows. */
  lemma LastSepIsLast(s: string, i: nat)
    requires SepAt(s, i)
    requires forall j: nat :: i < j ==> !SepAt(s, j)
    ensures LastSep(s) == Some(i)
  {
  }

  // ---------------------------------------------------------------- the script

  /** The line holding `version`. */
  function Line(version: string): string {
    LineOf(MARKER, version)
  }

  /** The counter the script computes for a pattern starting with `m`: 1 without a
      match, else the next counter of the first match's version. */
  function ScriptCounter(m: string, content: string): (r: Result<int, string>)
    ensures Search(content, m, 0).None? ==> r == Ok(1)
  {
    var found := Search(content, m, 0);
    if found.None? then Ok(1) else NextCounter(content[found.value.0 + |m|..found.value.1])
  }

  /** The script for a pattern starting with `m`: every match becomes the line of the
      new version, unless the counter did not parse. */
  function BumpWith(m: string, content: string, date: string): (r: Result<string, string>)
    ensures Search(content, m, 0).None? ==> r == Ok(content)
  {
    var counter := ScriptCounter(m, content);
    if counter.Err? then Err(counter.error)
    else
      SubWithoutMatch(content, m, 0, LineOf(m, NewVersion(date, counter.value)));
      Ok(Sub(content, m, 0, LineOf(m, NewVersion(date, counter.value))))
  }

  /** The whole script on `content` with today's `date`: the new file text, or the
      `ValueError` of a counter that does not parse (the file is then not written).
      Without a version line the counter is 1 but nothing is replaced. */
  function Bump(content: string, date: string): (r: Result<string, string>)
    ensures Search(content, MARKER, 0).None? ==> r == Ok(content)
  {
    BumpWith(MARKER, content, date)
  }

  /** When the first match holds a version with a counter, the script uses it. */
  lemma CounterFound(m: string, content: string, p: nat, k: nat)
    requires Search(content, m, 0) == Some((p, k))
    ensures ScriptCounter(m, content) == NextCounter(content[p + |m|..k])
  {
  }

  /** A counter that parsed: the script substitutes the new line. */
  lemma BumpWithCounter(m: string, content: string, date: string, n: int)
    requires ScriptCounter(m, content) == Ok(n)
    ensures BumpWith(m, content, date) == Ok(Sub(content, m, 0, LineOf(m, NewVersion(date, n))))
  {
  }

  /** A counter that did not parse: the script fails with its error. */
  lemma BumpWithError(m: string, content: string, date: string)
    requires ScriptCounter(m, content).Err?
    ensures BumpWith(m, content, date) == Err(ScriptCounter(m, content).error)
  {
  }

  /** A first match around `version`, whose counter parses: the script substitutes the
      line of the next version for every match. */
  lemma BumpAt(m: string, s: string, date: string, p: nat, version: string, n: int)
    requires Search(s, m, 0) == Some((p, p + |m| + |version|))
    requires s[p + |m|..p + |m| + |version|] == version && NextCounter(version) == Ok(n)
    ensures BumpWith(m, s, date) == Ok(Sub(s, m, 0, LineOf(m, NewVersion(date, n))))
  {
    CounterFound(m, s, p, p + |m| + |version|);
    BumpWithCounter(m, s, date, n);
  }

  /** A file with one version line, and no other marker, gets that line rewritten with
      the next counter and keeps all the rest. */
  lemma BumpWithRewritesLine(pre: string, m: string, version: string, post: string, date: string)
    requires NoMarker(pre, m) && NoMarker(post, m) && Unbordered(m)
    requires version != [] && QuoteFree(version)
    requires NextCounter(version).Ok?
    ensures BumpWith(m, pre + LineOf(m, version) + post, date)
         == Ok(pre + LineOf(m, NewVersion(date, NextCounter(version).value)) + post)
  {
    var n := NextCounter(version).value;
    var s := pre + LineOf(m, version) + post;
    LineFound(pre, m, version, post);
    VersionInLine(pre, m, version, post);
    BumpAt(m, s, date, |pre|, version, n);
    SubOfLine(pre, m, version, post, LineOf(m, NewVersion(date, n)));
  }

  /** The script's marker starts with the only 'A' in it. */
  lemma MarkerUnbordered()
    ensures Unbordered(MARKER)
  {
  }

  /** The script rewrites the one version line of a file and keeps all the rest. */
  lemma BumpRewritesLine(pre: string, version: string, post: string, date: string)
    requires NoMarker(pre, MARKER) && NoMarker(post, MARKER)
    requires version != [] && QuoteFree(version)
    requires NextCounter(version).Ok?
    ensures Bump(pre + Line(version) + post, date)
         == Ok(pre + Line(NewVersion(date, NextCounter(version).value)) + post)
  {
    MarkerUnbordered();
    BumpWithRewritesLine(pre, MARKER, version, post, date);
  }

  /** A first match around a version whose counter does not parse: the script fails
      with that error. */
  lemma RejectAt(m: string, s: string, date: string, p: nat, version: string)
    requires Search(s, m, 0) == Some((p, p + |m| + |version|))
    requires s[p + |m|..p + |m| + |version|] == version && NextCounter(version).Err?
    ensures BumpWith(m, s, date) == Err(NextCounter(version).error)
  {
    CounterFound(m, s, p, p + |m| + |version|);
    BumpWithError(m, s, date);
  }

  /** A version line whose counter is not a number stops the script with `ValueError`,
      so the file is not rewritten. */
  lemma BadCounterRejected(pre: string, version: string, post: string, date: string)
    requires NoMarker(pre, MARKER) && version != [] && QuoteFree(version)
    requires NextCounter(version).Err?
    ensures Bump(pre + Line(version) + post, date) == Err("ValueError")
  {
    var s := pre + Line(version) + post;
    MarkerUnbordered();
    LineFound(pre, MARKER, version, post);
    VersionInLine(pre, MARKER, version, post);
    RejectAt(MARKER, s, date, |pre|, version);
    assert NextCounter(version).error == "ValueError";
  }

  /** Hence the counter goes up by one on every run. */
  lemma BumpTwice(pre: string, post: string, date0: string, date1: string, date2: string, n: int)
    requires NoMarker(pre, MARKER) && NoMarker(post, MARKER) && QuoteFree(date0) && QuoteFree(date1)
    ensures Bump(pre + Line(NewVersion(date0, n)) + post, date1) == Ok(pre + Line(NewVersion(date1, n + 1)) + post)
    ensures Bump(pre + Line(NewVersion(date1, n + 1)) + post, date2) == Ok(pre + Line(NewVersion(date2, n + 2)) + post)
  {
    VersionQuoteFree(date0, n);
    VersionQuoteFree(date1, n + 1);
    CounterRoundTrip(date0, n);
    CounterRoundTrip(date1, n + 1);
    BumpRewritesLine(pre, NewVersion(date0, n), post, date1);
    BumpRewritesLine(pre, NewVersion(date1, n + 1), post, date2);
  }

  /** The characters of a rendered integer: a sign or digits. */
  lemma IntToStringChars(n: int)
    ensures forall k :: 0 <= k < |IntToString(n)| ==> IntToString(n)[k] == '-' || IsDigit(IntToString(n)[k])
  {
    var r := IntToString(n);
    if n >= 0 {
      NatToStringDigits(n);
    } else {
      NatToStringDigits(-n);
      forall k | 1 <= k < |r| ensures IsDigit(r[k]) {
        assert r[k] == NatToString(-n)[k - 1];
      }
    }
  }

  lemma VersionQuoteFree(date: string, n: int)
    requires QuoteFree(date)
    ensures QuoteFree(NewVersion(date, n))
  {
    var v := NewVersion(date, n);
    var digits := IntToString(n);
    IntToStringChars(n);
    forall i | |date| + |SUFFIX| <= i < |v| ensures v[i] != '"' {
      assert v[i] == digits[i - |date| - |SUFFIX|];
    }
  }
}
