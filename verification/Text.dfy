/** Strings the way the sources cut them, by a separator and by surrounding blanks, and compare them. */
module Text {

  function Split(s: string, sep: char): (parts: seq<string>)
    ensures parts != []
  {
    if s == "" then [""] else Prepend(s[0], Split(s[1..], sep), sep)
  }

  function Prepend(c: char, parts: seq<string>, sep: char): (r: seq<string>)
    requires parts != []
    ensures r != []
  {
    if c == sep then [""] + parts else [[c] + parts[0]] + parts[1..]
  }

  function Join(parts: seq<string>, sep: char): string {
    if parts == [] then ""
    else if |parts| == 1 then parts[0]
    else parts[0] + [sep] + Join(parts[1..], sep)
  }

  lemma PrependConcat(c: char, front: seq<string>, back: seq<string>, sep: char)
    requires front != []
    ensures Prepend(c, front + back, sep) == Prepend(c, front, sep) + back
  {}

  lemma {:induction false} SplitConcat(a: string, b: string, sep: char)
    ensures Split(a + [sep] + b, sep) == Split(a, sep) + Split(b, sep)
  {
    var s := a + [sep] + b;
    if a == "" {
      assert s[1..] == b;
    } else {
      SplitConcat(a[1..], b, sep);
      assert s[1..] == a[1..] + [sep] + b;
      PrependConcat(a[0], Split(a[1..], sep), Split(b, sep), sep);
    }
  }

  lemma {:induction false} SplitPlain(s: string, sep: char)
    requires sep !in s
    ensures Split(s, sep) == [s]
  {
    if s != "" {
      SplitPlain(s[1..], sep);
      assert [s[0]] + s[1..] == s;
    }
  }

  /** Cutting a joined list gives the list back. */
  lemma {:induction false} SplitJoin(parts: seq<string>, sep: char)
    requires parts != [] && forall i :: 0 <= i < |parts| ==> sep !in parts[i]
    ensures Split(Join(parts, sep), sep) == parts
  {
    SplitPlain(parts[0], sep);
    if |parts| > 1 {
      SplitJoin(parts[1..], sep);
      SplitConcat(parts[0], Join(parts[1..], sep), sep);
      assert parts == [parts[0]] + parts[1..];
    }
  }

  /** And joining the parts of a string gives the string back. */
  lemma {:induction false} JoinSplit(s: string, sep: char)
    ensures Join(Split(s, sep), sep) == s
  {
    if s != "" {
      var parts := Split(s[1..], sep);
      JoinSplit(s[1..], sep);
      JoinPrepend(s[0], parts, sep);
      assert s == [s[0]] + s[1..];
    }
  }

  lemma JoinPrepend(c: char, parts: seq<string>, sep: char)
    requires parts != []
    ensures Join(Prepend(c, parts, sep), sep) == [c] + Join(parts, sep)
  {
    if c == sep {
      assert ([""] + parts)[1..] == parts;
      assert "" + [sep] + Join(parts, sep) == [c] + Join(parts, sep);
    } else if |parts| > 1 {
      assert ([[c] + parts[0]] + parts[1..])[1..] == parts[1..];
      assert ([c] + parts[0]) + [sep] + Join(parts[1..], sep) == [c] + (parts[0] + [sep] + Join(parts[1..], sep));
    }
  }

  function FirstSlash(t: string): (n: nat)
    ensures n <= |t| && (forall i :: 0 <= i < n ==> t[i] != '/') && (n < |t| ==> t[n] == '/')
  {
    if t == "" || t[0] == '/' then 0
    else
      var m := FirstSlash(t[1..]);
      assert forall i :: 1 <= i < m + 1 ==> t[i] == t[1..][i - 1];
      m + 1
  }

  /** Unicode White_Space, as `trim` uses it. */
  predicate IsBlank(c: char) {
    '\U{9}' <= c <= '\U{D}' || c == ' ' || c == '\U{85}' || c == '\U{A0}' || c == '\U{1680}' ||
    '\U{2000}' <= c <= '\U{200A}' || c == '\U{2028}' || c == '\U{2029}' || c == '\U{202F}' ||
    c == '\U{205F}' || c == '\U{3000}'
  }

  function TrimStart(s: string): string {
    if s != "" && IsBlank(s[0]) then TrimStart(s[1..]) else s
  }

  function TrimEnd(s: string): string {
    if s != "" && IsBlank(s[|s| - 1]) then TrimEnd(s[..|s| - 1]) else s
  }

  function Trim(s: string): string {
    TrimEnd(TrimStart(s))
  }

  // --- letters without their case ----------------------------------------------------

  function LowerChar(c: char): char {
    if 'A' <= c <= 'Z' then ((c as int) + 32) as char else c
  }

  predicate SameLetters(a: string, b: string) {
    |a| == |b| && forall i :: 0 <= i < |a| ==> LowerChar(a[i]) == LowerChar(b[i])
  }

  /** A capital letter from A to Z and its small one. */
  predicate TwoCases(capital: char, small: char) {
    'A' <= capital <= 'Z' && small as int - 'a' as int == capital as int - 'A' as int
  }

  /** Letter by letter the same, or the same letter of A to Z in its two cases. */
  predicate EqualButCase(a: string, b: string) {
    |a| == |b| && forall i :: 0 <= i < |a| ==> a[i] == b[i] || TwoCases(a[i], b[i]) || TwoCases(b[i], a[i])
  }

  lemma SameLettersMeans(a: string, b: string)
    ensures SameLetters(a, b) <==> EqualButCase(a, b)
  {
    forall i | 0 <= i < |a| && i < |b|
      ensures LowerChar(a[i]) == LowerChar(b[i]) <==> a[i] == b[i] || TwoCases(a[i], b[i]) || TwoCases(b[i], a[i])
    {}
  }

  // --- what trimming leaves --------------------------------------------------------------

  /** The characters that count as white space, one by one. */
  const BLANKS := "\t\n\U{B}\U{C}\r \U{85}\U{A0}\U{1680}" +
                  "\U{2000}\U{2001}\U{2002}\U{2003}\U{2004}\U{2005}\U{2006}\U{2007}\U{2008}\U{2009}\U{200A}" +
                  "\U{2028}\U{2029}\U{202F}\U{205F}\U{3000}"

  lemma BlanksAreListed(c: char)
    ensures IsBlank(c) <==> c in BLANKS
  {
    assert forall i :: 0 <= i < |BLANKS| ==> IsBlank(BLANKS[i]);
  }

  predicate AllBlank(s: string) {
    forall i :: 0 <= i < |s| ==> IsBlank(s[i])
  }

  /** `core` lies in `s` between blanks only, and has none at either end itself. */
  ghost predicate TrimmedTo(s: string, core: string) {
    (core != "" ==> !IsBlank(core[0]) && !IsBlank(core[|core| - 1])) &&
    exists front, back :: s == front + core + back && AllBlank(front) && AllBlank(back)
  }

  /** Trimming takes the blanks off both ends and nothing else. */
  lemma TrimMeans(s: string)
    ensures TrimmedTo(s, Trim(s))
    ensures Trim(s) == "" <==> AllBlank(s)
  {
    StartTrimmed(s);
    var t, core := TrimStart(s), Trim(s);
    EndTrimmed(t);
    var front, back := s[..|s| - |t|], t[|core|..];
    assert s == front + core + back && AllBlank(front) && AllBlank(back);
  }

  /** What lies between blanks, with none at its own ends, is what trimming leaves. */
  lemma TrimExactly(front: string, core: string, back: string)
    requires AllBlank(front) && AllBlank(back)
    requires core != "" && !IsBlank(core[0]) && !IsBlank(core[|core| - 1])
    ensures Trim(front + core + back) == core
  {
    assert front + core + back == front + (core + back);
    StartTrims(front, core + back);
    EndTrims(core, back);
  }

  lemma {:induction false} StartTrims(front: string, rest: string)
    requires AllBlank(front) && rest != "" && !IsBlank(rest[0])
    ensures TrimStart(front + rest) == rest
  {
    if front == "" {
      assert front + rest == rest;
    } else {
      assert (front + rest)[1..] == front[1..] + rest && (front + rest)[0] == front[0];
      StartTrims(front[1..], rest);
    }
  }

  lemma {:induction false} EndTrims(rest: string, back: string)
    requires AllBlank(back) && rest != "" && !IsBlank(rest[|rest| - 1])
    ensures TrimEnd(rest + back) == rest
  {
    if back == "" {
      assert rest + back == rest;
    } else {
      var s := rest + back;
      assert s[..|s| - 1] == rest + back[..|back| - 1] && s[|s| - 1] == back[|back| - 1];
      EndTrims(rest, back[..|back| - 1]);
    }
  }

  lemma {:induction false} StartTrimmed(s: string)
    ensures var t := TrimStart(s);
            |t| <= |s| && t == s[|s| - |t|..] && (t != "" ==> !IsBlank(t[0])) && forall i :: 0 <= i < |s| - |t| ==> IsBlank(s[i])
  {
    if s != "" && IsBlank(s[0]) {
      StartTrimmed(s[1..]);
      forall i | 0 <= i < |s| - |TrimStart(s)| ensures IsBlank(s[i]) {
        assert i > 0 ==> s[i] == s[1..][i - 1];
      }
    }
  }

  lemma {:induction false} EndTrimmed(s: string)
    ensures var t := TrimEnd(s);
            |t| <= |s| && t == s[..|t|] && (t != "" ==> !IsBlank(t[|t| - 1])) && forall i :: |t| <= i < |s| ==> IsBlank(s[i])
  {
    if s != "" && IsBlank(s[|s| - 1]) {
      EndTrimmed(s[..|s| - 1]);
    }
  }
}
