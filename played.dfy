/** The browser's set of games marked as played (web/src/hooks/usePlayed.js):
    read once from browser storage, toggled id by id, and written back whole
    after every change. The JavaScript `Set` is a duplicate-free sequence in
    insertion order. */
module Played {
  import opened Common
  import opened Json

  const PLAYED_KEY := "playedGames"

  /** A storage entry: the empty text, a text JSON cannot parse, or a parsed value. */
  datatype Stored = EmptyText | Unparsable | Parsed(value: Json)

  // ------------------------------------------------------------------ parseInt

  /** White space and line terminators that `parseInt` skips before the number. */
  predicate IsJsSpace(c: char) {
    || c == ' ' || c == '\t' || c == '\n' || c == '\r'
    || c == '\U{000B}' || c == '\U{000C}' || c == '\U{00A0}' || c == '\U{1680}'
    || ('\U{2000}' <= c <= '\U{200A}')
    || c == '\U{2028}' || c == '\U{2029}' || c == '\U{202F}' || c == '\U{205F}'
    || c == '\U{3000}' || c == '\U{FEFF}'
  }

  function TrimStart(s: string): (r: string)
    ensures |r| <= |s| && r == s[|s| - |r|..]
    ensures r != [] ==> !IsJsSpace(r[0])
  {
    if s != [] && IsJsSpace(s[0]) then TrimStart(s[1..]) else s
  }

  /** The value of `c` as a digit in base `radix` (10 or 16). */
  function DigitIn(c: char, radix: nat): (d: Option<nat>)
    ensures d.Some? ==> d.value < radix
    ensures radix == 10 ==> (d.Some? <==> IsDigit(c))
  {
    if IsDigit(c) && (c as int - '0' as int) < radix then Some(c as int - '0' as int)
    else if radix == 16 && 'a' <= c <= 'f' then Some(c as int - 'a' as int + 10)
    else if radix == 16 && 'A' <= c <= 'F' then Some(c as int - 'A' as int + 10)
    else None
  }

  /** The number of leading characters of `s` that are digits in `radix`. */
  function DigitRun(s: string, radix: nat): (n: nat)
    ensures n <= |s|
    ensures forall i :: 0 <= i < n ==> DigitIn(s[i], radix).Some?
    ensures n < |s| ==> DigitIn(s[n], radix).None?
  {
    if s != [] && DigitIn(s[0], radix).Some? then 1 + DigitRun(s[1..], radix) else 0
  }

  /** The value of a run of digits in `radix`, most significant first. */
  function RunValue(s: string, radix: nat): (v: nat)
    requires forall i :: 0 <= i < |s| ==> DigitIn(s[i], radix).Some?
    decreases |s|
  {
    if s == [] then 0
    else
      var front := s[..|s| - 1];
      assert forall i :: 0 <= i < |front| ==> front[i] == s[i];
      var last := DigitIn(s[|s| - 1], radix);
      assert last.Some?;
      var high := RunValue(front, radix);
      assert high * radix >= 0;
      high * radix + last.value
  }

  /** `parseInt(text)` without a radix: leading white space, an optional sign, a `0x`
      prefix selecting base 16, then the longest run of digits; no digits is `NaN` (`None`). */
  function ParseIntText(text: string): (r: Option<int>)
    ensures (forall i :: 0 <= i < |text| ==> !IsDigit(text[i])) ==> r.None?
  {
    var t := TrimStart(text);
    var negative := t != [] && t[0] == '-';
    var unsigned := if t != [] && (t[0] == '-' || t[0] == '+') then t[1..] else t;
    var hex := |unsigned| >= 2 && unsigned[0] == '0' && (unsigned[1] == 'x' || unsigned[1] == 'X');
    var radix := if hex then 16 else 10;
    var body := if hex then unsigned[2..] else unsigned;
    var n := DigitRun(body, radix);
    if n == 0 then None
    else
      assert body == text[|text| - |body|..];
      assert !hex ==> IsDigit(body[0]);
      var v: int := RunValue(body[..n], radix);
      Some(if negative then -v else v)
  }

  /** Truncation toward zero, what `parseInt` makes of a number written in plain decimal. */
  function Trunc(x: real): (r: int)
    ensures x >= 0.0 ==> r as real <= x < r as real + 1.0
    ensures x < 0.0 ==> r as real - 1.0 < x <= r as real
  {
    if x >= 0.0 then x.Floor else -((-x).Floor)
  }

  /** `String(x)` writes a number in plain decimal when its magnitude is at least 10^-6
      and below 10^21 (or it is zero); otherwise in exponent form, `d.ddde+n` or `d.ddde-n`. */
  const PLAIN_MIN: real := 0.000001
  const PLAIN_MAX: real := 1000000000000000000000.0

  predicate PrintsPlain(x: real) {
    x == 0.0 || (x > 0.0 && PLAIN_MIN <= x < PLAIN_MAX) || (x < 0.0 && PLAIN_MIN <= -x < PLAIN_MAX)
  }

  /** Distance from [1, 10), in steps of ten: the termination measure of `LeadingDigit`. */
  function ScaleMeasure(x: real): nat
    requires x > 0.0
  {
    if x >= 10.0 then x.Floor else if x < 1.0 then (1.0 / x).Floor else 0
  }

  lemma ScaleDownMeasure(x: real)
    requires x >= 10.0
    ensures ScaleMeasure(x / 10.0) < ScaleMeasure(x)
  {
    if x / 10.0 >= 10.0 {
      assert (x / 10.0).Floor as real <= x / 10.0 < x - 1.0 < x.Floor as real;
    }
  }

  lemma ScaleUpMeasure(x: real)
    requires 0.0 < x < 1.0
    ensures ScaleMeasure(x * 10.0) < ScaleMeasure(x)
  {
    var y := 1.0 / x;
    assert y > 1.0;
    if x * 10.0 < 1.0 {
      assert 1.0 / (x * 10.0) == y / 10.0;
      assert y > 10.0;
      var f := y.Floor;
      assert f as real <= y < f as real + 1.0;
      assert y / 10.0 < f as real;
    }
  }

  /** The first significant digit of a positive number. */
  function LeadingDigit(x: real): (d: int)
    requires x > 0.0
    ensures 1 <= d <= 9
    ensures 1.0 <= x < 10.0 ==> d == x.Floor
    decreases ScaleMeasure(x)
  {
    if x >= 10.0 then
      ScaleDownMeasure(x);
      LeadingDigit(x / 10.0)
    else if x < 1.0 then
      ScaleUpMeasure(x);
      LeadingDigit(x * 10.0)
    else x.Floor
  }

  /** Scaling by ten does not move the first significant digit. */
  lemma LeadingDigitScale(x: real)
    requires x > 0.0
    ensures LeadingDigit(x * 10.0) == LeadingDigit(x)
  {
    assert x * 10.0 / 10.0 == x;
  }

  /** `parseInt(x)` for a number: plain decimal reads as its truncation; exponent form
      stops at the '.' or 'e' after the first digit, so it reads as the leading digit
      with the number's sign. */
  function NumberParseInt(x: real): (r: int)
    ensures PrintsPlain(x) ==> r == Trunc(x)
    ensures !PrintsPlain(x) && x > 0.0 ==> r == LeadingDigit(x)
    ensures !PrintsPlain(x) && x < 0.0 ==> r == -LeadingDigit(-x)
    ensures !PrintsPlain(x) ==> 1 <= (if r < 0 then -r else r) <= 9
  {
    if PrintsPlain(x) then Trunc(x)
    else if x > 0.0 then LeadingDigit(x)
    else -LeadingDigit(-x)
  }

  /** Plain-decimal integers read back as themselves. */
  lemma IntegerReadsBack(n: int)
    requires -1000000000000000000000 < n < 1000000000000000000000
    ensures NumberParseInt(n as real) == n
  {
  }

  /** `x` multiplied by ten `n` times. */
  function TimesTenPow(x: real, n: nat): (y: real)
    ensures x > 0.0 ==> y > 0.0
  {
    if n == 0 then x else TimesTenPow(x, n - 1) * 10.0
  }

  /** Scaling by any power of ten does not move the first significant digit. */
  lemma {:induction false} LeadingDigitScaleN(x: real, n: nat)
    requires x > 0.0
    ensures LeadingDigit(TimesTenPow(x, n)) == LeadingDigit(x)
  {
    if n > 0 {
      LeadingDigitScaleN(x, n - 1);
      LeadingDigitScale(TimesTenPow(x, n - 1));
    }
  }

  /** 10^21 is printed as "1e+21" and reads back as 1; 5 * 10^-7 is printed as "5e-7"
      and reads back as 5. */
  lemma ExponentFormReadsLeadingDigit()
    ensures NumberParseInt(PLAIN_MAX) == 1
    ensures NumberParseInt(0.0000005) == 5
  {
    assert TimesTenPow(1.0, 7) == 10000000.0;
    assert TimesTenPow(10000000.0, 7) == 100000000000000.0;
    assert TimesTenPow(100000000000000.0, 7) == PLAIN_MAX;
    assert TimesTenPow(0.0000005, 7) == 5.0;
    LeadingDigitScaleN(1.0, 7);
    LeadingDigitScaleN(10000000.0, 7);
    LeadingDigitScaleN(100000000000000.0, 7);
    LeadingDigitScaleN(0.0000005, 7);
  }

  /** `parseInt(v)`: the value is first turned into its string form. A number reads as
      `NumberParseInt` says; an array's string form starts with that of its first element,
      followed by ',' (which stops the digits), so it reads as its first element;
      `null`, booleans and objects read as `NaN`. */
  function ParseIntOf(v: Json): (r: Option<int>)
    ensures v.JNum? ==> r == Some(NumberParseInt(v.n))
    ensures v.JNull? || v.JBool? || v.JObj? ==> r.None?
  {
    match v
    case JNum(n) => Some(NumberParseInt(n))
    case JStr(s) => ParseIntText(s)
    case JArr(items) => if items == [] then None else ParseIntOf(items[0])
    case _ => None
  }

  // ------------------------------------------------------------------ the stored list

  /** The values `parseInt` gives for the entries it can read. */
  function ParsedValues(items: seq<Json>): set<int> {
    set i | 0 <= i < |items| && ParseIntOf(items[i]).Some? :: ParseIntOf(items[i]).value
  }

  lemma ParsedValuesCons(items: seq<Json>)
    requires items != []
    ensures ParsedValues(items) ==
      (if ParseIntOf(items[0]).Some? then {ParseIntOf(items[0]).value} else {}) + ParsedValues(items[1..])
  {
    var head := if ParseIntOf(items[0]).Some? then {ParseIntOf(items[0]).value} else {};
    forall x | x in ParsedValues(items) ensures x in head + ParsedValues(items[1..]) {
      var i :| 0 <= i < |items| && ParseIntOf(items[i]).Some? && ParseIntOf(items[i]).value == x;
      if i > 0 {
        assert items[1..][i - 1] == items[i];
      }
    }
    forall x | x in ParsedValues(items[1..]) ensures x in ParsedValues(items) {
      var i :| 0 <= i < |items[1..]| && ParseIntOf(items[1..][i]).Some? && ParseIntOf(items[1..][i]).value == x;
      assert items[i + 1] == items[1..][i];
    }
  }

  /** The entries that survive the filter (a number, or anything `parseInt` reads), each
      replaced by `parseInt(entry)`, in order. */
  function ValidIds(items: seq<Json>): (ids: seq<int>)
    ensures |ids| <= |items|
    ensures Elements(ids) == ParsedValues(items)
  {
    if items == [] then []
    else
      var rest := ValidIds(items[1..]);
      ParsedValuesCons(items);
      match ParseIntOf(items[0])
      case Some(x) =>
        assert Elements([x] + rest) == {x} + Elements(rest);
        [x] + rest
      case None => rest
  }

  /** The set the hook starts from, given what storage holds under its key. */
  function InitialIds(stored: Option<Stored>): (ids: seq<int>)
    ensures NoDup(ids)
    ensures stored.None? || stored == Some(EmptyText) || stored == Some(Unparsable) ==> ids == []
    ensures stored.Some? && stored.value.Parsed? && !stored.value.value.JArr? ==> ids == []
    ensures stored.Some? && stored.value.Parsed? && stored.value.value.JArr? ==>
      Elements(ids) == ParsedValues(stored.value.value.items)
  {
    match stored
    case Some(Parsed(JArr(items))) => Dedup(ValidIds(items))
    case _ => []
  }

  /** `JSON.stringify(Array.from(played))`, as a parsed value. */
  function Serialize(ids: seq<int>): (v: Json)
    ensures v.JArr? && |v.items| == |ids|
    ensures forall i :: 0 <= i < |ids| ==> v.items[i] == JNum(ids[i] as real)
  {
    JArr(seq(|ids|, i requires 0 <= i < |ids| => JNum(ids[i] as real)))
  }

  /** Ids below 10^21 in magnitude: `JSON.stringify` writes them in plain decimal. */
  predicate PlainIds(ids: seq<int>) {
    forall i :: 0 <= i < |ids| ==> -1000000000000000000000 < ids[i] < 1000000000000000000000
  }

  lemma {:induction false} ValidIdsOfNumbers(ids: seq<int>)
    requires PlainIds(ids)
    ensures ValidIds(Serialize(ids).items) == ids
  {
    if ids != [] {
      var items := Serialize(ids).items;
      ValidIdsOfNumbers(ids[1..]);
      assert items[1..] == Serialize(ids[1..]).items;
      IntegerReadsBack(ids[0]);
      assert ParseIntOf(items[0]) == Some(ids[0]);
      assert ValidIds(items) == [ids[0]] + ValidIds(items[1..]);
    }
  }

  lemma {:induction false} DedupOfDistinct(s: seq<int>)
    requires NoDup(s)
    ensures Dedup(s) == s
    decreases |s|
  {
    if s != [] {
      DedupOfDistinct(s[..|s| - 1]);
      assert s[|s| - 1] !in s[..|s| - 1];
      assert s == s[..|s| - 1] + [s[|s| - 1]];
    }
  }

  /** What the hook writes it reads back unchanged: reloading the page keeps the set and its order. */
  lemma ReloadRestoresSet(ids: seq<int>)
    requires NoDup(ids) && PlainIds(ids)
    ensures InitialIds(Some(Parsed(Serialize(ids)))) == ids
  {
    ValidIdsOfNumbers(ids);
    DedupOfDistinct(ids);
  }

  /** An id of 10^21 or more is written in exponent form and reads back as its leading
      digit. */
  lemma HugeIdReadsBackAsDigit()
    ensures InitialIds(Some(Parsed(Serialize([1000000000000000000000])))) == [1]
  {
    var items := Serialize([1000000000000000000000]).items;
    ExponentFormReadsLeadingDigit();
    assert ParseIntOf(items[0]) == Some(1);
    assert ValidIds(items) == [1] + ValidIds(items[1..]);
    assert Dedup([1]) == [1];
  }

  // ------------------------------------------------------------------ toggling

  /** The set after `togglePlayed(appid)`: deleted when present, appended otherwise. */
  function Toggled(s: seq<int>, appid: int): (r: seq<int>)
    ensures appid in r <==> appid !in s
    ensures forall y :: y != appid ==> (y in r <==> y in s)
    ensures NoDup(s) ==> NoDup(r)
  {
    if appid in s then
      var r := Remove(s, appid);
      assert forall y :: y in r <==> y in Elements(r);
      r
    else
      s + [appid]
  }

  /** Toggling an id twice gives the same set back; when the id was absent, even the same order. */
  lemma ToggleTwice(s: seq<int>, appid: int)
    requires NoDup(s)
    ensures Elements(Toggled(Toggled(s, appid), appid)) == Elements(s)
    ensures appid !in s ==> Toggled(Toggled(s, appid), appid) == s
  {
    var twice := Toggled(Toggled(s, appid), appid);
    assert forall y :: y in twice <==> y in s;
    if appid !in s {
      RemoveAbsent(s, appid);
      assert Remove(s + [appid], appid) == Remove(s, appid) + Remove([appid], appid) by {
        RemoveAppend(s, [appid], appid);
      }
    }
  }

  lemma {:induction false} RemoveAbsent(s: seq<int>, x: int)
    requires x !in s
    ensures Remove(s, x) == s
  {
    if s != [] {
      RemoveAbsent(s[1..], x);
    }
  }

  lemma {:induction false} RemoveAppend(s: seq<int>, t: seq<int>, x: int)
    ensures Remove(s + t, x) == Remove(s, x) + Remove(t, x)
  {
    if s != [] {
      RemoveAppend(s[1..], t, x);
      assert (s + t)[1..] == s[1..] + t;
    } else {
      assert s + t == t;
    }
  }

  // ------------------------------------------------------------------ the hook

  class PlayedStore {
    var played: seq<int>
    var storage: map<string, Stored>

    /** The set is duplicate-free and storage holds it, as the effect writes it after every change. */
    ghost predicate Valid()
      reads this
    {
      NoDup(played) && PLAYED_KEY in storage && storage[PLAYED_KEY] == Parsed(Serialize(played))
    }

    /** Mounting: the initialiser reads storage (removing an unparsable entry), then
        the effect writes the set back. */
    constructor (stored: map<string, Stored>)
      ensures played == InitialIds(if PLAYED_KEY in stored then Some(stored[PLAYED_KEY]) else None)
      ensures storage == (if PLAYED_KEY in stored && stored[PLAYED_KEY] == Unparsable
                          then stored - {PLAYED_KEY} else stored)[PLAYED_KEY := Parsed(Serialize(played))]
      ensures Valid()
    {
      var entry := if PLAYED_KEY in stored then Some(stored[PLAYED_KEY]) else None;
      played := InitialIds(entry);
      storage := if entry == Some(Unparsable) then stored - {PLAYED_KEY} else stored;
      new;
      Persist();
    }

    /** The effect that mirrors the set into storage. */
    method Persist()
      requires NoDup(played)
      modifies this
      ensures played == old(played)
      ensures storage == old(storage)[PLAYED_KEY := Parsed(Serialize(played))]
      ensures Valid()
    {
      storage := storage[PLAYED_KEY := Parsed(Serialize(played))];
    }

    /** `togglePlayed`, followed by the effect it triggers. */
    method TogglePlayed(appid: int)
      requires Valid()
      modifies this
      ensures played == Toggled(old(played), appid)
      ensures storage == old(storage)[PLAYED_KEY := Parsed(Serialize(played))]
      ensures Valid()
    {
      played := Toggled(played, appid);
      Persist();
    }

    /** `isPlayed`: membership of the set. */
    function IsPlayed(appid: int): (b: bool)
      reads this
      ensures b <==> appid in Elements(played)
    {
      appid in played
    }

    /** `getPlayedCount`: the number of distinct ids in the set. */
    function PlayedCount(): (n: nat)
      reads this
      requires Valid()
      ensures n == |Elements(played)|
    {
      NoDupSize(played);
      |played|
    }
  }
}
