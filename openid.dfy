/** The Steam sign-in of backend/app/services/auth_service.py, which follows OpenID
    Authentication 2.0: the `checkid_setup` redirect (`get_login_url`, section 9.1 of the
    standard), and the reading of the positive assertion the provider sends back
    (`verify_steam_id`, sections 10.1 and 11.4.2). The provider's answer to the
    verification request is a function from the request's parameters to the reply text
    (`None` when the request fails), since it is a network call. */
module OpenId {
  import opened Common

  const STEAM_LOGIN := "https://steamcommunity.com/openid/login"
  const OPENID_NS := "http://specs.openid.net/auth/2.0"
  const IDENTIFIER_SELECT := OPENID_NS + "/identifier_select"
  const DEFAULT_API_URL := "http://localhost:8000"
  const CLAIMED_ID_PATH := "steamcommunity.com/openid/id/"
  const VALID_MARK := "is_valid:true"

  // ---------------------------------------------------------------- form encoding

  predicate IsAscii(s: string) {
    forall i :: 0 <= i < |s| ==> s[i] as int < 128
  }

  /** The characters `quote_plus` never escapes. */
  predicate AlwaysSafe(c: char) {
    IsAsciiAlnum(c) || c == '_' || c == '.' || c == '-' || c == '~'
  }

  function HexDigit(d: nat): (c: char)
    requires d < 16
    ensures IsHex(c) && HexValue(c) == d
  {
    if d < 10 then ('0' as int + d) as char else ('A' as int + d - 10) as char
  }

  predicate IsHex(c: char) {
    IsDigit(c) || 'A' <= c <= 'F' || 'a' <= c <= 'f'
  }

  function HexValue(c: char): (d: nat)
    requires IsHex(c)
    ensures d < 16
  {
    if IsDigit(c) then c as int - '0' as int
    else if 'A' <= c <= 'F' then c as int - 'A' as int + 10
    else c as int - 'a' as int + 10
  }

  /** `quote_plus` on one ASCII character: kept, a space as `+`, anything else as `%XX`
      with upper-case hex digits. */
  function QuoteChar(c: char): (r: string)
    requires c as int < 128
    ensures '&' !in r && '=' !in r
  {
    if AlwaysSafe(c) then [c]
    else if c == ' ' then "+"
    else ['%', HexDigit(c as int / 16), HexDigit(c as int % 16)]
  }

  /** `quote_plus(s)`, as `urlencode` applies it to every key and value. */
  function QuotePlus(s: string): (r: string)
    requires IsAscii(s)
    ensures '&' !in r && '=' !in r
  {
    if s == [] then [] else QuoteChar(s[0]) + QuotePlus(s[1..])
  }

  /** The reading of a form-encoded component: `+` is a space, `%XX` the character with
      that code, anything else itself. */
  function Unquote(s: string): (r: string)
    decreases |s|
  {
    if s == [] then []
    else if s[0] == '+' then " " + Unquote(s[1..])
    else if s[0] == '%' && |s| >= 3 && IsHex(s[1]) && IsHex(s[2]) then
      [(HexValue(s[1]) * 16 + HexValue(s[2])) as char] + Unquote(s[3..])
    else [s[0]] + Unquote(s[1..])
  }

  lemma UnquoteChar(c: char, rest: string)
    requires c as int < 128
    ensures Unquote(QuoteChar(c) + rest) == [c] + Unquote(rest)
  {
    var q := QuoteChar(c) + rest;
    if AlwaysSafe(c) {
      assert q[0] == c && q[1..] == rest;
    } else if c == ' ' {
      assert q[0] == '+' && q[1..] == rest;
    } else {
      assert q[0] == '%' && q[3..] == rest;
      assert HexValue(q[1]) * 16 + HexValue(q[2]) == c as int;
    }
  }

  /** Reading back an encoded component gives the original text. */
  lemma {:induction false} UnquoteQuotePlus(s: string)
    requires IsAscii(s)
    ensures Unquote(QuotePlus(s)) == s
  {
    if s != [] {
      UnquoteQuotePlus(s[1..]);
      UnquoteChar(s[0], QuotePlus(s[1..]));
      assert s == [s[0]] + s[1..];
    }
  }

  predicate AllAscii(params: seq<(string, string)>) {
    forall i :: 0 <= i < |params| ==> IsAscii(params[i].0) && IsAscii(params[i].1)
  }

  function EncodedPairs(params: seq<(string, string)>): (r: seq<string>)
    requires AllAscii(params)
    ensures |r| == |params|
    ensures forall i :: 0 <= i < |r| ==> '&' !in r[i]
    ensures forall i :: 0 <= i < |r| ==> r[i] == QuotePlus(params[i].0) + "=" + QuotePlus(params[i].1)
  {
    if params == [] then []
    else [QuotePlus(params[0].0) + "=" + QuotePlus(params[0].1)] + EncodedPairs(params[1..])
  }

  /** `urlencode(params)` for an ordered parameter list. */
  function UrlEncode(params: seq<(string, string)>): string
    requires AllAscii(params)
  {
    Join(EncodedPairs(params), '&')
  }

  /** How the receiving end reads a query string: `&`-separated `key=value` pairs. */
  function DecodePairs(parts: seq<string>): (r: Option<seq<(string, string)>>)
    ensures r.Some? ==> |r.value| == |parts|
  {
    if parts == [] then Some([])
    else
      var kv := Split(parts[0], '=');
      var rest := DecodePairs(parts[1..]);
      if |kv| == 2 && rest.Some? then Some([(Unquote(kv[0]), Unquote(kv[1]))] + rest.value) else None
  }

  function DecodeQuery(q: string): Option<seq<(string, string)>> {
    DecodePairs(Split(q, '&'))
  }

  /** One encoded pair splits at its '=' into the two quoted halves, which unquote back. */
  lemma DecodeOnePair(k: string, v: string)
    requires IsAscii(k) && IsAscii(v)
    ensures var kv := Split(QuotePlus(k) + "=" + QuotePlus(v), '=');
      |kv| == 2 && Unquote(kv[0]) == k && Unquote(kv[1]) == v
  {
    SplitJoin([QuotePlus(k), QuotePlus(v)], '=');
    assert Join([QuotePlus(k), QuotePlus(v)], '=') == QuotePlus(k) + "=" + QuotePlus(v);
    UnquoteQuotePlus(k);
    UnquoteQuotePlus(v);
  }

  lemma {:induction false} DecodeEncodedPairs(params: seq<(string, string)>)
    requires AllAscii(params)
    ensures DecodePairs(EncodedPairs(params)) == Some(params)
  {
    if params != [] {
      var k, v := params[0].0, params[0].1;
      var e := EncodedPairs(params);
      assert e[0] == QuotePlus(k) + "=" + QuotePlus(v);
      DecodeOnePair(k, v);
      assert e[1..] == EncodedPairs(params[1..]);
      DecodeEncodedPairs(params[1..]);
      assert params == [(k, v)] + params[1..];
    }
  }

  /** The encoded query decodes to exactly the parameters, in order. */
  lemma DecodeUrlEncode(params: seq<(string, string)>)
    requires |params| >= 1 && AllAscii(params)
    ensures DecodeQuery(UrlEncode(params)) == Some(params)
  {
    SplitJoin(EncodedPairs(params), '&');
    DecodeEncodedPairs(params);
  }

  // ---------------------------------------------------------------- login redirect

  /** The `api_url` property: the configured value, or the local default when unset. */
  function ApiUrl(setting: Option<string>): (r: string)
    ensures setting.Some? && setting.value != "" ==> r == setting.value
    ensures setting.None? || setting.value == "" ==> r == DEFAULT_API_URL
  {
    if setting.Some? && setting.value != "" then setting.value else DEFAULT_API_URL
  }

  /** The `checkid_setup` request: the provider chooses the identifier, and sends the
      user back to the callback route under the API's own realm. */
  function LoginParams(api: string): seq<(string, string)> {
    [("openid.ns", OPENID_NS),
     ("openid.mode", "checkid_setup"),
     ("openid.return_to", api + "/auth/callback"),
     ("openid.realm", api),
     ("openid.identity", IDENTIFIER_SELECT),
     ("openid.claimed_id", IDENTIFIER_SELECT)]
  }

  lemma AsciiConcat(a: string, b: string)
    requires IsAscii(a) && IsAscii(b)
    ensures IsAscii(a + b)
  {
    assert forall i :: |a| <= i < |a + b| ==> (a + b)[i] == b[i - |a|];
  }

  lemma AllAsciiCons(key: string, value: string, params: seq<(string, string)>)
    requires IsAscii(key) && IsAscii(value) && AllAscii(params)
    ensures AllAscii([(key, value)] + params)
  {
  }

  lemma NsAscii()
    ensures IsAscii(OPENID_NS) && IsAscii(IDENTIFIER_SELECT)
  {
    assert IsAscii(OPENID_NS);
    assert IsAscii("/identifier_select");
    AsciiConcat(OPENID_NS, "/identifier_select");
  }

  lemma KeysAscii()
    ensures IsAscii("openid.ns") && IsAscii("openid.mode") && IsAscii("checkid_setup")
    ensures IsAscii("openid.return_to") && IsAscii("openid.realm")
    ensures IsAscii("openid.identity") && IsAscii("openid.claimed_id")
  {
  }

  lemma LoginParamsAscii(api: string)
    requires IsAscii(api)
    ensures AllAscii(LoginParams(api))
  {
    assert IsAscii("/auth/callback");
    AsciiConcat(api, "/auth/callback");
    NsAscii();
    KeysAscii();
    var ps := LoginParams(api);
    AllAsciiCons("openid.claimed_id", IDENTIFIER_SELECT, []);
    AllAsciiCons("openid.identity", IDENTIFIER_SELECT, ps[5..]);
    assert ps[4..] == [ps[4]] + ps[5..];
    AllAsciiCons("openid.realm", api, ps[4..]);
    assert ps[3..] == [ps[3]] + ps[4..];
    AllAsciiCons("openid.return_to", api + "/auth/callback", ps[3..]);
    assert ps[2..] == [ps[2]] + ps[3..];
    AllAsciiCons("openid.mode", "checkid_setup", ps[2..]);
    assert ps[1..] == [ps[1]] + ps[2..];
    AllAsciiCons("openid.ns", OPENID_NS, ps[1..]);
    assert ps == [ps[0]] + ps[1..];
  }

  lemma LoginUrlDecodes(api: string)
    requires AllAscii(LoginParams(api))
    ensures var url := STEAM_LOGIN + "?" + UrlEncode(LoginParams(api));
      IsPrefix(STEAM_LOGIN + "?", url) && DecodeQuery(url[|STEAM_LOGIN| + 1..]) == Some(LoginParams(api))
  {
    DecodeUrlEncode(LoginParams(api));
    var url := STEAM_LOGIN + "?" + UrlEncode(LoginParams(api));
    assert url[|STEAM_LOGIN| + 1..] == UrlEncode(LoginParams(api));
  }

  /** `get_login_url`: the provider's endpoint with the request in its query string. */
  function GetLoginUrl(setting: Option<string>): (url: string)
    requires setting.Some? ==> IsAscii(setting.value)
    ensures IsPrefix(STEAM_LOGIN + "?", url)
    ensures DecodeQuery(url[|STEAM_LOGIN| + 1..]) == Some(LoginParams(ApiUrl(setting)))
  {
    var api := ApiUrl(setting);
    assert IsAscii(DEFAULT_API_URL);
    LoginParamsAscii(api);
    LoginUrlDecodes(api);
    STEAM_LOGIN + "?" + UrlEncode(LoginParams(api))
  }

  // ---------------------------------------------------------------- positive assertion

  function Get(query: map<string, string>, key: string, default: string): string {
    if key in query then query[key] else default
  }

  function ClaimedId(query: map<string, string>): string {
    Get(query, "openid.claimed_id", "")
  }

  /** `claimed_id.split("/")[-1]`: the text after the last `/`. */
  function SteamIdOf(claimed: string): (id: string)
    ensures '/' !in id
    ensures |id| <= |claimed| && id == claimed[|claimed| - |id|..]
    ensures |id| < |claimed| ==> claimed[|claimed| - |id| - 1] == '/'
  {
    var parts := Split(claimed, '/');
    SplitIsSuffix(claimed);
    parts[|parts| - 1]
  }

  lemma {:induction false} SplitIsSuffix(s: string)
    ensures var p := Split(s, '/'); var last := p[|p| - 1];
      |last| <= |s| && last == s[|s| - |last|..] && (|last| < |s| ==> s[|s| - |last| - 1] == '/')
    decreases |s|
  {
    if s == [] {
      assert Split(s, '/') == [[]];
    } else {
      SplitIsSuffix(s[1..]);
      var r := Split(s[1..], '/');
      var p := Split(s, '/');
      if s[0] == '/' {
        assert p == [[]] + r;
        assert p[|p| - 1] == r[|r| - 1];
      } else if |r| == 1 {
        assert p == [[s[0]] + r[0]];
        assert p[|p| - 1] == s;
      } else {
        assert p == [[s[0]] + r[0]] + r[1..];
        assert p[|p| - 1] == r[|r| - 1];
      }
    }
  }

  /** The id is exactly what follows the last `/`. */
  lemma SteamIdAfterLastSlash(prefix: string, id: string)
    requires |prefix| > 0 && prefix[|prefix| - 1] == '/' && '/' !in id
    ensures SteamIdOf(prefix + id) == id
  {
    var claimed := prefix + id;
    var r := SteamIdOf(claimed);
    assert forall k :: 0 <= k < |r| ==> r[k] == claimed[|claimed| - |r| + k];
    assert forall k :: |prefix| <= k < |claimed| ==> claimed[k] == id[k - |prefix|];
    assert claimed[|prefix| - 1] == '/';
    assert |r| == |id|;
    assert claimed[|prefix|..] == id;
  }

  /** An `id_res` response whose claimed identifier is a Steam community id. */
  predicate IsPositiveAssertion(query: map<string, string>) {
    "openid.mode" in query && query["openid.mode"] == "id_res"
    && Contains(ClaimedId(query), CLAIMED_ID_PATH)
  }

  /** The verification request: the assertion's own fields, with the mode replaced. */
  function CheckRequest(query: map<string, string>, mode: string): (r: map<string, string>)
    ensures "openid.mode" in r && r["openid.mode"] == mode
    ensures forall k :: k in query && k != "openid.mode" ==> k in r && r[k] == query[k]
  {
    query["openid.mode" := mode]
  }

  predicate IsDigits(s: string) {
    |s| > 0 && forall i :: 0 <= i < |s| ==> IsDigit(s[i])
  }

  /** The decision on the provider's reply: confirmed, or (the development fallback) an
      all-digit id. A failed request rejects. */
  function Decide(id: string, reply: Option<string>): (r: Option<string>)
    ensures r.Some? ==> r.value == id
    ensures r.Some? <==> reply.Some? && (Contains(reply.value, VALID_MARK) || IsDigits(id))
  {
    match reply
    case None => None
    case Some(text) =>
      if Contains(text, VALID_MARK) then Some(id)
      else if IsDigits(id) then Some(id)
      else None
  }

  /** `verify_steam_id` as written: the verification request carries the mode
      `check_auth`. */
  function VerifySteamIdAsWritten(query: map<string, string>, provider: map<string, string> -> Option<string>): (r: Option<string>)
    ensures r.Some? ==> IsPositiveAssertion(query) && r.value == SteamIdOf(ClaimedId(query))
  {
    if !IsPositiveAssertion(query) then None
    else Decide(SteamIdOf(ClaimedId(query)), provider(CheckRequest(query, "check_auth")))
  }

  /** `verify_steam_id` with the mode section 11.4.2.1 of OpenID Authentication 2.0
      names, `check_authentication`; everything else as written. */
  function VerifySteamId(query: map<string, string>, provider: map<string, string> -> Option<string>): (r: Option<string>)
    ensures r.Some? ==> IsPositiveAssertion(query) && r.value == SteamIdOf(ClaimedId(query))
    ensures r.Some? ==> '/' !in r.value
  {
    if !IsPositiveAssertion(query) then None
    else Decide(SteamIdOf(ClaimedId(query)), provider(CheckRequest(query, "check_authentication")))
  }

  // ---------------------------------------------------------------- a conforming provider

  const REPLY_HEAD := "ns:" + OPENID_NS + "\n"

  /** A provider that follows OpenID Authentication 2.0: it answers `check_authentication`
      with `is_valid` in key-value form (section 11.4.2.2) and any other mode with an
      error reply (section 5.1.2.2). Whether the signature checks out is its input. */
  function ConformingProvider(signatureValid: bool): map<string, string> -> Option<string> {
    request =>
      if "openid.mode" in request && request["openid.mode"] == "check_authentication" then
        Some(REPLY_HEAD + (if signatureValid then "is_valid:true\n" else "is_valid:false\n"))
      else Some(REPLY_HEAD + "mode:error\nerror:Unknown mode\n")
  }

  lemma {:induction false} ContainsAfter(a: string, n: string, b: string)
    ensures Contains(a + n + b, n)
    decreases |a|
  {
    if a == [] {
      assert a + n + b == n + b;
      assert (n + b)[..|n|] == n;
    } else {
      ContainsAfter(a[1..], n, b);
      assert (a + n + b)[1..] == a[1..] + n + b;
    }
  }

  /** No text lacking one of the needle's characters contains it. */
  lemma {:induction false} MissingCharNotContained(s: string, n: string, c: char)
    requires c in n && c !in s
    ensures !Contains(s, n)
    decreases |s|
  {
    var k :| 0 <= k < |n| && n[k] == c;
    if |n| <= |s| {
      assert s[..|n|][k] == s[k];
      assert s[k] in s;
    }
    if |s| > 0 {
      MissingCharNotContained(s[1..], n, c);
    }
  }

  lemma ReplyHead()
    ensures |REPLY_HEAD| >= 2 && REPLY_HEAD[|REPLY_HEAD| - 2] == '0' && REPLY_HEAD[|REPLY_HEAD| - 1] == '\n'
    ensures '_' !in REPLY_HEAD
  {
    assert OPENID_NS[|OPENID_NS| - 1] == '0';
    assert '_' !in OPENID_NS;
  }

  lemma ErrorReplyNotValid()
    ensures !Contains(REPLY_HEAD + "mode:error\nerror:Unknown mode\n", VALID_MARK)
  {
    assert VALID_MARK[2] == '_';
    ReplyHead();
    assert '_' !in "mode:error\nerror:Unknown mode\n";
    MissingCharNotContained(REPLY_HEAD + "mode:error\nerror:Unknown mode\n", VALID_MARK, '_');
  }

  /** A needle whose third character is missing from `a`, and whose first character
      differs from the last two of `a`, can only occur in `b`. */
  lemma {:induction false} NoMatchBefore(a: string, b: string, n: string)
    requires |a| >= 2 && |n| >= 3 && n[2] !in a
    requires a[|a| - 2] != n[0] && a[|a| - 1] != n[0]
    requires !Contains(b, n)
    ensures !Contains(a + b, n)
    decreases |a|
  {
    assert (a + b)[1..] == a[1..] + b;
    if |a| == 2 {
      assert !IsPrefix(n, a + b) by {
        if |n| <= |a + b| { assert (a + b)[..|n|][0] == a[0]; }
      }
      assert !IsPrefix(n, a[1..] + b) by {
        if |n| <= |a[1..] + b| { assert (a[1..] + b)[..|n|][0] == a[1]; }
      }
      assert (a[1..] + b)[1..] == b;
    } else {
      assert !IsPrefix(n, a + b) by {
        if |n| <= |a + b| { assert (a + b)[..|n|][2] == a[2]; assert a[2] in a; }
      }
      NoMatchBefore(a[1..], b, n);
    }
  }

  lemma NegativeTailNotValid(t: string)
    requires t == "is_valid:false\n"
    ensures !Contains(t, VALID_MARK)
  {
    assert VALID_MARK[9] == 't';
    assert 't' !in t[1..];
    MissingCharNotContained(t[1..], VALID_MARK, 't');
    assert t[..|VALID_MARK|][9] != VALID_MARK[9];
  }

  /** A conforming provider's negative answer does not contain the mark. */
  lemma NegativeReplyNotValid(head: string, tail: string)
    requires head == REPLY_HEAD && tail == "is_valid:false\n"
    ensures !Contains(head + tail, VALID_MARK)
  {
    NegativeTailNotValid(tail);
    ReplyHead();
    assert VALID_MARK[0] == 'i' && VALID_MARK[2] == '_';
    NoMatchBefore(head, tail, VALID_MARK);
  }

  /** As written, against a conforming provider the signature never matters: a
      positive assertion is accepted exactly when its id is all digits. */
  lemma AsWrittenIgnoresSignature(query: map<string, string>, signatureValid: bool)
    ensures VerifySteamIdAsWritten(query, ConformingProvider(signatureValid))
         == if IsPositiveAssertion(query) && IsDigits(SteamIdOf(ClaimedId(query)))
            then Some(SteamIdOf(ClaimedId(query))) else None
  {
    ErrorReplyNotValid();
  }

  /** So an unsigned assertion naming any numeric id is accepted. */
  lemma ForgedAssertionAccepted(id: string)
    requires IsDigits(id)
    ensures VerifySteamIdAsWritten(
              map["openid.mode" := "id_res", "openid.claimed_id" := "https://" + CLAIMED_ID_PATH + id],
              ConformingProvider(false)) == Some(id)
  {
    var claimed := "https://" + CLAIMED_ID_PATH + id;
    var q := map["openid.mode" := "id_res", "openid.claimed_id" := claimed];
    assert ClaimedId(q) == claimed;
    ContainsAfter("https://", CLAIMED_ID_PATH, id);
    assert '/' !in id by {
      assert forall i :: 0 <= i < |id| ==> id[i] != '/';
    }
    var prefix := "https://" + CLAIMED_ID_PATH;
    assert prefix[|prefix| - 1] == '/';
    SteamIdAfterLastSlash(prefix, id);
    AsWrittenIgnoresSignature(q, false);
  }

  /** With the standard mode, a conforming provider's verdict decides: a validly signed
      assertion is accepted whatever its id, and an unsigned one only through the
      development fallback. */
  lemma SignatureDecides(query: map<string, string>, signatureValid: bool)
    ensures VerifySteamId(query, ConformingProvider(signatureValid))
         == if IsPositiveAssertion(query) && (signatureValid || IsDigits(SteamIdOf(ClaimedId(query))))
            then Some(SteamIdOf(ClaimedId(query))) else None
  {
    if signatureValid {
      ContainsAfter(REPLY_HEAD, VALID_MARK, "\n");
      assert REPLY_HEAD + "is_valid:true\n" == REPLY_HEAD + VALID_MARK + "\n";
    } else {
      NegativeReplyNotValid(REPLY_HEAD, "is_valid:false\n");
    }
  }
}
