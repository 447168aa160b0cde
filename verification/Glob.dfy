/**
 The exclude-glob matcher of folder sync (crates/mcp-server/src/exclude.rs).

 `Matches` says what a pattern means; `GlobMatch` is the source's loop with its
 single backtracking anchor. The loop is sound for every pattern. With `/`
 special it is complete for exactly the patterns whose every `*` after a `**` is
 directly followed by `/` and another star (`Chained`): anywhere else the loop
 gives up at a `/` that the earlier `**` could still have absorbed.
 */
module Glob {
  import opened Wrappers

  datatype Token = Lit(c: char) | Any | Star | DoubleStar {
    predicate IsStar() {
      Star? || DoubleStar?
    }

    /** Whether this token consumes the single character `d`. */
    predicate Accepts(d: char, slashSensitive: bool) {
      match this
      case Lit(e) => d == e
      case Any => !(slashSensitive && d == '/')
      case _ => false
    }
  }

  /** The pattern cut into tokens, left to right; `**` binds before `*`. */
  function Tokens(p: string): seq<Token> {
    if p == "" then []
    else if p[0] == '*' then
      if |p| > 1 && p[1] == '*' then [DoubleStar] + Tokens(p[2..]) else [Star] + Tokens(p[1..])
    else [if p[0] == '?' then Any else Lit(p[0])] + Tokens(p[1..])
  }

  /** Whether a star may absorb `run`: a single `*` never crosses a special `/`. */
  predicate Absorbs(double: bool, run: string, slashSensitive: bool) {
    double || !slashSensitive || '/' !in run
  }

  /** The declarative meaning of a token sequence. */
  ghost predicate Matches(ts: seq<Token>, t: string, slashSensitive: bool)
    decreases |ts|
  {
    if ts == [] then t == ""
    else if ts[0].IsStar() then
      exists k: nat :: k <= |t| && AbsorbsThen(ts, t, k, slashSensitive)
    else
      t != "" && ts[0].Accepts(t[0], slashSensitive) && Matches(ts[1..], t[1..], slashSensitive)
  }

  /** The leading star absorbs the first `k` characters and the rest matches. */
  ghost predicate AbsorbsThen(ts: seq<Token>, t: string, k: nat, slashSensitive: bool)
    requires ts != [] && ts[0].IsStar() && k <= |t|
    decreases |ts|, 0
  {
    Absorbs(ts[0].DoubleStar?, t[..k], slashSensitive) && Matches(ts[1..], t[k..], slashSensitive)
  }

  predicate AllStars(ts: seq<Token>) {
    forall k :: 0 <= k < |ts| ==> ts[k].IsStar()
  }

  /** The loop's backtrack anchor: the tokens past the latest star and the text
      that star has not absorbed yet. */
  datatype Anchor = NoStar | At(rest: seq<Token>, text: string, double: bool)

  /** The loop as a function of what is left of pattern and text. */
  function Run(ts: seq<Token>, t: string, a: Anchor, slashSensitive: bool): bool
    requires a.At? ==> |t| <= |a.text|
    decreases if a.At? then |a.text| else |t| + 1, |ts|
  {
    if t == "" then AllStars(ts)
    else if ts != [] && ts[0].IsStar() then
      Run(ts[1..], t, At(ts[1..], t, ts[0].DoubleStar?), slashSensitive)
    else if ts != [] && ts[0].Accepts(t[0], slashSensitive) then
      Run(ts[1..], t[1..], a, slashSensitive)
    else
      match a
      case NoStar => false
      case At(rest, text, double) =>
        (double || !slashSensitive || text[0] != '/') &&
        Run(rest, text[1..], At(rest, text[1..], double), slashSensitive)
  }

  function GlobAccepts(p: string, t: string, slashSensitive: bool): bool {
    Run(Tokens(p), t, NoStar, slashSensitive)
  }

  // --- the loop ---------------------------------------------------------------

  /** The loop's variables. */
  datatype Cursor = Cursor(i: int, j: int, starJ: Option<int>, starI: int, double: bool)

  ghost predicate InRange(p: string, t: string, c: Cursor) {
    0 <= c.i <= |t| && 0 <= c.j <= |p| &&
    (c.starJ.Some? ==> 0 <= c.starJ.value <= |p| && 0 <= c.starI <= c.i)
  }

  /** What the loop answers from here. */
  ghost function Answer(p: string, t: string, c: Cursor, slashSensitive: bool): bool
    requires InRange(p, t, c)
  {
    var a := if c.starJ.None? then NoStar else At(Tokens(p[c.starJ.value..]), t[c.starI..], c.double);
    Run(Tokens(p[c.j..]), t[c.i..], a, slashSensitive)
  }

  /** Bounds the iterations left: each one lowers it. */
  ghost function Potential(p: string, t: string, c: Cursor): nat
    requires InRange(p, t, c)
  {
    Times(if c.starJ.None? then |t| - c.i + 1 else |t| - c.starI, |p| + 1) + |p| - c.j
  }

  /** `d` carries on from `c`: same answer, closer to the end. */
  ghost predicate Follows(p: string, t: string, c: Cursor, d: Cursor, slashSensitive: bool)
    requires InRange(p, t, c)
  {
    InRange(p, t, d) && Answer(p, t, d, slashSensitive) == Answer(p, t, c, slashSensitive) &&
    Potential(p, t, d) < Potential(p, t, c)
  }

  lemma OnStar(p: string, t: string, c: Cursor, d: Cursor, slashSensitive: bool)
    requires InRange(p, t, c) && c.i < |t| && c.j < |p| && p[c.j] == '*'
    requires d.double == (c.j + 1 < |p| && p[c.j + 1] == '*')
    requires d == Cursor(c.i, c.j + if d.double then 2 else 1, Some(d.j), c.i, d.double)
    ensures Follows(p, t, c, d, slashSensitive)
  {
    TimesGrows(|t| - c.i, if c.starJ.None? then |t| - c.i + 1 else |t| - c.starI, |p| + 1);
  }

  lemma OnCharacter(p: string, t: string, c: Cursor, d: Cursor, slashSensitive: bool)
    requires InRange(p, t, c) && c.i < |t| && c.j < |p| && p[c.j] != '*'
    requires p[c.j] == t[c.i] || (p[c.j] == '?' && !(slashSensitive && t[c.i] == '/'))
    requires d == c.(i := c.i + 1, j := c.j + 1)
    ensures Follows(p, t, c, d, slashSensitive)
  {
    assert t[c.i..][1..] == t[c.i + 1..];
    if c.starJ.None? {
      TimesGrows(|t| - c.i, |t| - c.i + 1, |p| + 1);
    }
  }

  predicate Mismatch(p: string, t: string, c: Cursor, slashSensitive: bool)
    requires InRange(p, t, c)
  {
    c.i < |t| &&
    (c.j < |p| ==> p[c.j] != '*' && p[c.j] != t[c.i] && !(p[c.j] == '?' && !(slashSensitive && t[c.i] == '/')))
  }

  lemma OnGiveUp(p: string, t: string, c: Cursor, slashSensitive: bool)
    requires InRange(p, t, c) && Mismatch(p, t, c, slashSensitive)
    requires c.starJ.None? || (!c.double && slashSensitive && t[c.starI] == '/')
    ensures !Answer(p, t, c, slashSensitive)
  {}

  lemma OnBacktrack(p: string, t: string, c: Cursor, d: Cursor, slashSensitive: bool)
    requires InRange(p, t, c) && Mismatch(p, t, c, slashSensitive)
    requires c.starJ.Some? && !(!c.double && slashSensitive && t[c.starI] == '/')
    requires d == c.(i := c.starI + 1, j := c.starJ.value, starI := c.starI + 1)
    ensures Follows(p, t, c, d, slashSensitive)
  {
    assert t[c.starI..][1..] == t[c.starI + 1..] && t[c.starI..][0] == t[c.starI];
    TimesGrows(|t| - c.starI - 1, |t| - c.starI, |p| + 1);
  }

  lemma AtEnd(p: string, t: string, c: Cursor, slashSensitive: bool)
    requires InRange(p, t, c) && c.i == |t|
    ensures Answer(p, t, c, slashSensitive) <==> forall k :: c.j <= k < |p| ==> p[k] == '*'
  {
    assert t[c.i..] == "";
    var q := p[c.j..];
    StarTail(q);
    assert forall k :: c.j <= k < |p| ==> p[k] == q[k - c.j];
  }

  lemma AtStart(p: string, t: string, slashSensitive: bool)
    ensures Answer(p, t, Cursor(0, 0, None, 0, false), slashSensitive) == GlobAccepts(p, t, slashSensitive)
    ensures Potential(p, t, Cursor(0, 0, None, 0, false)) == (|t| + 1) * (|p| + 1) + |p|
  {
    TimesIsProduct(|t| + 1, |p| + 1);
    assert p[0..] == p && t[0..] == t;
  }

  /** The trailing loop: stars left in the pattern match the empty remainder. */
  method OnlyStarsFrom(p: string, from: nat) returns (r: bool)
    requires from <= |p|
    ensures r <==> forall k :: from <= k < |p| ==> p[k] == '*'
  {
    var j := from;
    while j < |p| && p[j] == '*'
      invariant from <= j <= |p|
      invariant forall k :: from <= k < j ==> p[k] == '*'
    {
      j := j + 1;
    }
    r := j == |p|;
  }

  /** The loop of the source. Besides the answer, `steps` counts its iterations. */
  method GlobMatch(p: string, t: string, slashSensitive: bool) returns (r: bool, ghost steps: nat)
    ensures r == GlobAccepts(p, t, slashSensitive)
    ensures r ==> |t| <= steps
    ensures steps <= (|t| + 1) * (|p| + 1) + |p|
  {
    var i, j := 0, 0;
    var starJ: Option<int> := None;
    var starI := 0;
    var double := false;
    ghost var c := Cursor(0, 0, None, 0, false);
    steps := 0;
    AtStart(p, t, slashSensitive);
    while i < |t|
      invariant c == Cursor(i, j, starJ, starI, double) && InRange(p, t, c)
      invariant Answer(p, t, c, slashSensitive) == GlobAccepts(p, t, slashSensitive)
      invariant i <= steps && steps + Potential(p, t, c) <= (|t| + 1) * (|p| + 1) + |p|
      decreases Potential(p, t, c)
    {
      ghost var before := c;
      steps := steps + 1;
      if j < |p| && p[j] == '*' {
        double := j + 1 < |p| && p[j + 1] == '*';
        j := j + (if double then 2 else 1);
        starJ := Some(j);
        starI := i;
        c := Cursor(i, j, starJ, starI, double);
        OnStar(p, t, before, c, slashSensitive);
      } else if j < |p| && (p[j] == t[i] || (p[j] == '?' && !(slashSensitive && t[i] == '/'))) {
        i := i + 1;
        j := j + 1;
        c := Cursor(i, j, starJ, starI, double);
        OnCharacter(p, t, before, c, slashSensitive);
      } else {
        if starJ.None? || (!double && slashSensitive && t[starI] == '/') {
          OnGiveUp(p, t, before, slashSensitive);
          return false, steps;
        }
        starI := starI + 1;
        i := starI;
        j := starJ.value;
        c := Cursor(i, j, starJ, starI, double);
        OnBacktrack(p, t, before, c, slashSensitive);
      }
      assert Follows(p, t, before, c, slashSensitive);
    }
    AtEnd(p, t, c, slashSensitive);
    r := OnlyStarsFrom(p, j);
  }

  /** `n * w`, by repeated addition so that the loop's step count stays linear. */
  ghost function Times(n: nat, w: nat): nat {
    if n == 0 then 0 else Times(n - 1, w) + w
  }

  lemma {:induction false} TimesGrows(a: nat, b: nat, w: nat)
    requires a <= b
    ensures Times(a, w) <= Times(b, w)
    ensures a < b ==> Times(a, w) + w <= Times(b, w)
  {
    if a < b { TimesGrows(a, b - 1, w); }
  }

  lemma {:induction false} TimesIsProduct(n: nat, w: nat)
    ensures Times(n, w) == n * w
  {
    if n > 0 {
      TimesIsProduct(n - 1, w);
      assert n * w == (n - 1) * w + w;
    }
  }

  lemma {:induction false} StarTail(q: string)
    ensures AllStars(Tokens(q)) <==> forall k :: 0 <= k < |q| ==> q[k] == '*'
  {
    if q != "" {
      var n := if q[0] == '*' && |q| > 1 && q[1] == '*' then 2 else 1;
      StarTail(q[n..]);
      var ts := Tokens(q);
      assert ts[1..] == Tokens(q[n..]);
      assert AllStars(ts) <==> ts[0].IsStar() && AllStars(ts[1..]);
      assert (forall k :: 0 <= k < |q| ==> q[k] == '*') <==>
             (forall k :: 0 <= k < n ==> q[k] == '*') && (forall k :: n <= k < |q| ==> q[k] == '*');
      assert forall k :: n <= k < |q| ==> q[k] == q[n..][k - n];
    }
  }

  // --- soundness ----------------------------------------------------------------

  /** The anchor's star can take at least one more character and then match. */
  ghost predicate Extends(a: Anchor, slashSensitive: bool) {
    a.At? && exists k: nat :: 1 <= k <= |a.text| && ExtendsBy(a, k, slashSensitive)
  }

  ghost predicate ExtendsBy(a: Anchor, k: nat, slashSensitive: bool)
    requires a.At? && k <= |a.text|
  {
    Absorbs(a.double, a.text[..k], slashSensitive) && Matches(a.rest, a.text[k..], slashSensitive)
  }

  /** Shrinking the anchor by one absorbed character. */
  lemma ExtendsStep(a: Anchor, slashSensitive: bool)
    requires a.At? && a.text != ""
    ensures Extends(a, slashSensitive) <==>
            Absorbs(a.double, a.text[..1], slashSensitive) &&
            (Matches(a.rest, a.text[1..], slashSensitive) ||
             Extends(At(a.rest, a.text[1..], a.double), slashSensitive))
  {
    var b := At(a.rest, a.text[1..], a.double);
    forall k: nat | k < |a.text|
      ensures ExtendsBy(a, k + 1, slashSensitive) <==>
              Absorbs(a.double, a.text[..1], slashSensitive) && ExtendsBy(b, k, slashSensitive)
    {
      assert a.text[..k + 1] == a.text[..1] + b.text[..k];
      assert a.text[k + 1..] == b.text[k..];
    }
    assert b.text[0..] == b.text && b.text[..0] == "";
    if Extends(a, slashSensitive) {
      var k: nat :| 1 <= k <= |a.text| && ExtendsBy(a, k, slashSensitive);
      assert ExtendsBy(a, (k - 1) + 1, slashSensitive);
      assert ExtendsBy(b, k - 1, slashSensitive);
    }
    if Absorbs(a.double, a.text[..1], slashSensitive) {
      if Matches(b.rest, b.text, slashSensitive) {
        assert ExtendsBy(b, 0, slashSensitive);
        assert ExtendsBy(a, 0 + 1, slashSensitive);
      }
      if Extends(b, slashSensitive) {
        var k: nat :| 1 <= k <= |b.text| && ExtendsBy(b, k, slashSensitive);
        assert ExtendsBy(a, k + 1, slashSensitive);
      }
    }
  }

  /** A leading star absorbs nothing, or it extends as a fresh anchor. */
  lemma StarSplit(ts: seq<Token>, t: string, slashSensitive: bool)
    requires ts != [] && ts[0].IsStar()
    ensures Matches(ts, t, slashSensitive) <==>
            Matches(ts[1..], t, slashSensitive) ||
            Extends(At(ts[1..], t, ts[0].DoubleStar?), slashSensitive)
  {
    var a := At(ts[1..], t, ts[0].DoubleStar?);
    assert t[0..] == t && t[..0] == "";
    forall k: nat | k <= |t|
      ensures AbsorbsThen(ts, t, k, slashSensitive) <==> ExtendsBy(a, k, slashSensitive)
    {}
    if Matches(ts[1..], t, slashSensitive) {
      assert AbsorbsThen(ts, t, 0, slashSensitive);
    }
    if Extends(a, slashSensitive) {
      var k: nat :| 1 <= k <= |t| && ExtendsBy(a, k, slashSensitive);
      assert AbsorbsThen(ts, t, k, slashSensitive);
    }
  }

  lemma {:induction false} EmptyText(ts: seq<Token>, slashSensitive: bool)
    ensures Matches(ts, "", slashSensitive) <==> AllStars(ts)
  {
    if ts != [] {
      EmptyText(ts[1..], slashSensitive);
      assert AllStars(ts) <==> ts[0].IsStar() && AllStars(ts[1..]);
      if ts[0].IsStar() {
        StarSplit(ts, "", slashSensitive);
      }
    }
  }

  lemma {:induction false} RunSound(ts: seq<Token>, t: string, a: Anchor, slashSensitive: bool)
    requires a.At? ==> |t| <= |a.text|
    requires Run(ts, t, a, slashSensitive)
    ensures Matches(ts, t, slashSensitive) || Extends(a, slashSensitive)
    decreases if a.At? then |a.text| else |t| + 1, |ts|
  {
    if t == "" {
      EmptyText(ts, slashSensitive);
    } else if ts != [] && ts[0].IsStar() {
      RunSound(ts[1..], t, At(ts[1..], t, ts[0].DoubleStar?), slashSensitive);
      StarSplit(ts, t, slashSensitive);
    } else if ts != [] && ts[0].Accepts(t[0], slashSensitive) {
      RunSound(ts[1..], t[1..], a, slashSensitive);
    } else {
      var b := At(a.rest, a.text[1..], a.double);
      RunSound(a.rest, a.text[1..], b, slashSensitive);
      ExtendsStep(a, slashSensitive);
    }
  }

  /** Whatever the loop accepts, the pattern means: for every pattern and text. */
  lemma GlobSound(p: string, t: string, slashSensitive: bool)
    requires GlobAccepts(p, t, slashSensitive)
    ensures Matches(Tokens(p), t, slashSensitive)
  {
    RunSound(Tokens(p), t, NoStar, slashSensitive);
  }
}
