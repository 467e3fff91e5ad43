/** `normalize_game_name` (backend/app/services/auth_service.py), which cleans a Steam
    title before it is searched on HowLongToBeat: trademark signs go, a colon and the
    whitespace around it become one space, whitespace runs become one space, the text
    is title-cased and then stripped. Whitespace and letter case are the ASCII ones. */
module NameNormalizer {
  import opened Common

  /** `[™®©]`. */
  predicate IsMark(c: char) { c == '\U{2122}' || c == '\U{00AE}' || c == '\U{00A9}' }

  /** `\s` and what `strip()` removes, over ASCII. */
  predicate IsSpace(c: char) {
    c == ' ' || c == '\t' || c == '\n' || c == '\r' || c == '\U{000B}' || c == '\U{000C}'
  }

  /** Every character of `r` is one of `s` or a space. */
  predicate DrawnFrom(r: string, s: string) {
    forall i :: 0 <= i < |r| ==> r[i] in s || r[i] == ' '
  }

  /** Whitespace only as single spaces. */
  predicate SingleSpaced(r: string) {
    (forall i :: 0 <= i < |r| ==> IsSpace(r[i]) ==> r[i] == ' ')
    && (forall i :: 0 <= i < |r| - 1 ==> !(r[i] == ' ' && r[i + 1] == ' '))
  }

  /** Position `i` is not preceded by a letter. */
  predicate StartsWord(r: string, i: int)
    requires 0 <= i < |r|
  {
    i == 0 || !IsAsciiLetter(r[i - 1])
  }

  /** `str.title()`: a letter is upper-case exactly when it starts a run of letters. */
  predicate TitleCased(r: string) {
    forall i :: 0 <= i < |r| && IsAsciiLetter(r[i]) ==> (IsAsciiUpper(r[i]) <==> StartsWord(r, i))
  }

  predicate Stripped(r: string) {
    r == [] || (!IsSpace(r[0]) && !IsSpace(r[|r| - 1]))
  }

  // ---------------------------------------------------------------- the steps

  function RemoveMarks(s: string): (r: string)
    ensures forall i :: 0 <= i < |r| ==> !IsMark(r[i]) && r[i] in s
  {
    Filter(s, c => !IsMark(c))
  }

  /** The length of the whitespace run `s` starts with. */
  function LeadingSpaces(s: string): (n: nat)
    ensures n <= |s|
    ensures forall i :: 0 <= i < n ==> IsSpace(s[i])
    ensures n < |s| ==> !IsSpace(s[n])
  {
    if s != [] && IsSpace(s[0]) then 1 + LeadingSpaces(s[1..]) else 0
  }

  /** `re.sub(r'\s*:\s*', ' ', s)`: scanning left to right, a colon with the whitespace
      before and after it becomes one space. */
  function ColonsToSpace(s: string): (r: string)
    ensures ':' !in r
    ensures DrawnFrom(r, s)
    decreases |s|
  {
    if s == [] then []
    else
      var k := LeadingSpaces(s);
      if k < |s| && s[k] == ':' then
        var after := s[k + 1..];
        var rest := ColonsToSpace(after[LeadingSpaces(after)..]);
        assert forall c :: c in after[LeadingSpaces(after)..] ==> c in s;
        " " + rest
      else
        var rest := ColonsToSpace(s[1..]);
        assert forall c :: c in s[1..] ==> c in s;
        [s[0]] + rest
  }

  lemma SingleSpacedCons(c: char, rest: string)
    requires SingleSpaced(rest) && (IsSpace(c) ==> c == ' ')
    requires c == ' ' && rest != [] ==> rest[0] != ' '
    ensures SingleSpaced([c] + rest)
  {
    var r := [c] + rest;
    assert forall i :: 1 <= i < |r| ==> r[i] == rest[i - 1];
  }

  lemma DrawnFromCons(c: char, rest: string, s: string)
    requires DrawnFrom(rest, s) && (c in s || c == ' ')
    ensures DrawnFrom([c] + rest, s)
  {
    var r := [c] + rest;
    assert forall i :: 1 <= i < |r| ==> r[i] == rest[i - 1];
  }

  lemma DrawnFromSuffix(r: string, s: string, k: nat)
    requires k <= |s| && DrawnFrom(r, s[k..])
    ensures DrawnFrom(r, s)
  {
    assert forall c :: c in s[k..] ==> c in s;
  }

  /** `re.sub(r'\s+', ' ', s)`. */
  function CollapseSpaces(s: string): (r: string)
    ensures SingleSpaced(r)
    ensures DrawnFrom(r, s)
    ensures |r| == 0 <==> |s| == 0
    ensures |s| > 0 && !IsSpace(s[0]) ==> r[0] == s[0]
    ensures |s| > 0 && IsSpace(s[0]) ==> r[0] == ' '
    decreases |s|
  {
    if s == [] then []
    else
      var k := LeadingSpaces(s);
      if k > 0 then
        var rest := CollapseSpaces(s[k..]);
        SingleSpacedCons(' ', rest);
        DrawnFromSuffix(rest, s, k);
        DrawnFromCons(' ', rest, s);
        [' '] + rest
      else
        var rest := CollapseSpaces(s[1..]);
        SingleSpacedCons(s[0], rest);
        DrawnFromSuffix(rest, s, 1);
        DrawnFromCons(s[0], rest, s);
        [s[0]] + rest
  }

  function TitleChar(c: char, afterLetter: bool): (r: char)
    ensures !IsAsciiLetter(c) ==> r == c
    ensures IsAsciiLetter(c) ==> IsAsciiLetter(r) && ToLowerChar(r) == ToLowerChar(c) && (IsAsciiUpper(r) <==> !afterLetter)
  {
    if !IsAsciiLetter(c) then c
    else if afterLetter then ToLowerChar(c)
    else ToUpperChar(c)
  }

  /** `str.title()`, continuing after a letter when `afterLetter` holds. */
  function TitleFrom(s: string, afterLetter: bool): (r: string)
    ensures |r| == |s|
    ensures forall i :: 0 <= i < |s| ==> r[i] == TitleChar(s[i], if i == 0 then afterLetter else IsAsciiLetter(s[i - 1]))
  {
    if s == [] then []
    else [TitleChar(s[0], afterLetter)] + TitleFrom(s[1..], IsAsciiLetter(s[0]))
  }

  function Title(s: string): (r: string)
    ensures |r| == |s| && TitleCased(r)
    ensures forall i :: 0 <= i < |s| ==> (IsAsciiLetter(r[i]) <==> IsAsciiLetter(s[i]))
    ensures forall i :: 0 <= i < |s| && !IsAsciiLetter(s[i]) ==> r[i] == s[i]
  {
    var r := TitleFrom(s, false);
    forall i | 0 <= i < |s|
      ensures IsAsciiLetter(r[i]) <==> IsAsciiLetter(s[i])
      ensures !IsAsciiLetter(s[i]) ==> r[i] == s[i]
      ensures IsAsciiLetter(s[i]) ==> (IsAsciiUpper(r[i]) <==> (i == 0 || !IsAsciiLetter(s[i - 1])))
    {
      var _ := TitleChar(s[i], if i == 0 then false else IsAsciiLetter(s[i - 1]));
    }
    r
  }

  function StripEnd(s: string): (r: string)
    ensures |r| <= |s| && r == s[..|r|]
    ensures r == [] || !IsSpace(r[|r| - 1])
  {
    if s != [] && IsSpace(s[|s| - 1]) then StripEnd(s[..|s| - 1]) else s
  }

  /** `str.strip()`: the whitespace at both ends goes. */
  function Strip(s: string): (r: string)
    ensures Stripped(r)
    ensures LeadingSpaces(s) + |r| <= |s| && r == s[LeadingSpaces(s)..LeadingSpaces(s) + |r|]
  {
    StripEnd(s[LeadingSpaces(s)..])
  }

  /** No trademark sign and no colon. */
  predicate Clean(r: string) {
    forall i :: 0 <= i < |r| ==> !IsMark(r[i]) && r[i] != ':'
  }

  /** The shape every normalised name has. */
  predicate Normalized(r: string) {
    Clean(r) && SingleSpaced(r) && TitleCased(r) && Stripped(r)
  }

  lemma DrawnKeepsClean(r: string, s: string)
    requires DrawnFrom(r, s) && Clean(s)
    ensures Clean(r)
  {
  }

  lemma MarksStayGone(c: string, m: string)
    requires DrawnFrom(c, m) && ':' !in c
    requires forall i :: 0 <= i < |m| ==> !IsMark(m[i])
    ensures Clean(c)
  {
    forall i | 0 <= i < |c|
      ensures !IsMark(c[i])
    {
      if c[i] in m {
        var j :| 0 <= j < |m| && m[j] == c[i];
      }
    }
  }

  lemma TitleKeepsShape(w: string)
    requires Clean(w) && SingleSpaced(w)
    ensures Clean(Title(w)) && SingleSpaced(Title(w))
  {
    var t := Title(w);
    assert forall i :: 0 <= i < |t| ==> IsAsciiLetter(t[i]) || t[i] == w[i];
  }

  lemma TitleCasedAt(t: string, j: int)
    requires TitleCased(t) && 0 <= j < |t| && IsAsciiLetter(t[j])
    ensures IsAsciiUpper(t[j]) <==> (j == 0 || !IsAsciiLetter(t[j - 1]))
  {
  }

  lemma SliceTitleCased(t: string, a: int, b: int)
    requires 0 <= a <= b <= |t| && TitleCased(t)
    requires a > 0 ==> !IsAsciiLetter(t[a - 1])
    ensures TitleCased(t[a..b])
  {
    var r := t[a..b];
    forall i | 0 <= i < |r| && IsAsciiLetter(r[i])
      ensures IsAsciiUpper(r[i]) <==> (i == 0 || !IsAsciiLetter(r[i - 1]))
    {
      assert r[i] == t[a + i];
      TitleCasedAt(t, a + i);
      assert i > 0 ==> r[i - 1] == t[a + i - 1];
    }
  }

  lemma SliceKeepsShape(t: string, a: int, b: int)
    requires 0 <= a <= b <= |t|
    requires Clean(t) && SingleSpaced(t) && TitleCased(t)
    requires a > 0 ==> !IsAsciiLetter(t[a - 1])
    ensures Clean(t[a..b]) && SingleSpaced(t[a..b]) && TitleCased(t[a..b])
  {
    var r := t[a..b];
    assert forall i :: 0 <= i < |r| ==> r[i] == t[a + i];
    SliceTitleCased(t, a, b);
  }

  /** `normalize_game_name`. */
  function NormalizeGameName(name: string): (r: string)
    ensures Normalized(r)
  {
    var m := RemoveMarks(name);
    var c := ColonsToSpace(m);
    MarksStayGone(c, m);
    var w := CollapseSpaces(c);
    DrawnKeepsClean(w, c);
    var t := Title(w);
    TitleKeepsShape(w);
    var r := Strip(t);
    SliceKeepsShape(t, LeadingSpaces(t), LeadingSpaces(t) + |r|);
    r
  }

  // ---------------------------------------------------------------- idempotence

  /** `ColonsToSpace` unfolded once at a character that does not start a colon run. */
  lemma ColonsToSpaceCons(s: string)
    requires s != [] && !(LeadingSpaces(s) < |s| && s[LeadingSpaces(s)] == ':')
    ensures ColonsToSpace(s) == [s[0]] + ColonsToSpace(s[1..])
  {
  }

  lemma {:induction false} ColonsToSpaceKeeps(s: string)
    requires ':' !in s
    ensures ColonsToSpace(s) == s
    decreases |s|
  {
    if s != [] {
      var k := LeadingSpaces(s);
      if k < |s| {
        assert s[k] in s;
      }
      ColonsToSpaceCons(s);
      var t := s[1..];
      assert ':' !in t by {
        assert forall i :: 0 <= i < |t| ==> t[i] == s[i + 1];
      }
      ColonsToSpaceKeeps(t);
      assert s == [s[0]] + t;
    }
  }

  lemma {:induction false} CollapseSpacesKeeps(s: string)
    requires SingleSpaced(s)
    ensures CollapseSpaces(s) == s
    decreases |s|
  {
    if s != [] {
      var k := LeadingSpaces(s);
      if k > 0 {
        assert s[0] == ' ';
        assert |s| > 1 ==> !IsSpace(s[1]);
        assert k == 1;
      }
      assert SingleSpaced(s[1..]) by {
        assert forall i :: 0 <= i < |s| - 1 ==> s[1..][i] == s[i + 1];
      }
      CollapseSpacesKeeps(s[1..]);
      assert s == [s[0]] + s[1..];
    }
  }

  /** Whether the character before position `i` is a letter, `afterLetter` standing for
      the one before the start. */
  predicate AfterLetterAt(s: string, i: int, afterLetter: bool)
    requires 0 <= i < |s|
  {
    if i == 0 then afterLetter else IsAsciiLetter(s[i - 1])
  }

  predicate TitledFrom(s: string, afterLetter: bool) {
    forall i :: 0 <= i < |s| && IsAsciiLetter(s[i]) ==> (IsAsciiUpper(s[i]) <==> !AfterLetterAt(s, i, afterLetter))
  }

  lemma {:induction false} TitleFromKeeps(s: string, afterLetter: bool)
    requires TitledFrom(s, afterLetter)
    ensures TitleFrom(s, afterLetter) == s
    decreases |s|
  {
    if s != [] {
      var rest := s[1..];
      forall i | 0 <= i < |rest| && IsAsciiLetter(rest[i])
        ensures IsAsciiUpper(rest[i]) <==> !AfterLetterAt(rest, i, IsAsciiLetter(s[0]))
      {
        assert rest[i] == s[i + 1];
        assert AfterLetterAt(s, i + 1, afterLetter) == AfterLetterAt(rest, i, IsAsciiLetter(s[0]));
      }
      TitleFromKeeps(rest, IsAsciiLetter(s[0]));
      var c := s[0];
      if IsAsciiLetter(c) {
        assert IsAsciiUpper(c) <==> !AfterLetterAt(s, 0, afterLetter);
      }
      assert TitleChar(c, afterLetter) == c;
      assert s == [c] + rest;
    }
  }

  lemma TitleKeeps(s: string)
    requires TitleCased(s)
    ensures Title(s) == s
  {
    forall i | 0 <= i < |s| && IsAsciiLetter(s[i])
      ensures IsAsciiUpper(s[i]) <==> !AfterLetterAt(s, i, false)
    {
      assert IsAsciiUpper(s[i]) <==> StartsWord(s, i);
    }
    TitleFromKeeps(s, false);
  }

  lemma {:induction false} StripEndKeeps(s: string)
    requires s == [] || !IsSpace(s[|s| - 1])
    ensures StripEnd(s) == s
  {
  }

  /** A normalised name is its own normalisation. */
  lemma NormalizedIsFixed(r: string)
    requires Normalized(r)
    ensures NormalizeGameName(r) == r
  {
    FilterKeepsAll(r, c => !IsMark(c));
    ColonsToSpaceKeeps(r);
    CollapseSpacesKeeps(r);
    TitleKeeps(r);
    assert LeadingSpaces(r) == 0;
    StripEndKeeps(r);
  }

  /** Normalising twice is normalising once. */
  lemma NormalizeIsIdempotent(name: string)
    ensures NormalizeGameName(NormalizeGameName(name)) == NormalizeGameName(name)
  {
    NormalizedIsFixed(NormalizeGameName(name));
  }
}
