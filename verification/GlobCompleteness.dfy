/**
 When the loop of `Glob` finds every match. With `/` not special: always. With
 `/` special: exactly when the pattern is `Chained` - every `*` somewhere after
 a `**` is directly followed by `/` and then by another star.
 */
module GlobCompleteness {
  import opened Glob
  import opened Text

  /** The star at `k` is followed by `/` and another star. */
  predicate Linked(ts: seq<Token>, k: nat) {
    k + 2 < |ts| && ts[k + 1] == Lit('/') && ts[k + 2].IsStar()
  }

  /** Every `*` of these tokens is linked. */
  predicate AllLinked(ts: seq<Token>) {
    forall k :: 0 <= k < |ts| && ts[k].Star? ==> Linked(ts, k)
  }

  /** Every `*` after a `**` is linked. */
  predicate Chained(ts: seq<Token>) {
    forall j, k :: 0 <= j < k < |ts| && ts[j].DoubleStar? && ts[k].Star? ==> Linked(ts, k)
  }

  // --- sufficiency ----------------------------------------------------------------

  /** The tokens past the anchor's star, up to `ts`, are plain and consumed the
      anchor's text up to `t` one character each. */
  ghost predicate Behind(a: Anchor, ts: seq<Token>, t: string, slashSensitive: bool)
    requires a.At?
  {
    var n := |a.text| - |t|;
    0 <= n <= |a.rest| && a.text[n..] == t && a.rest[n..] == ts &&
    forall k :: 0 <= k < n ==> a.rest[k].Accepts(a.text[k], slashSensitive)
  }

  /** A match of `ts` consumes one character per leading plain token. */
  lemma {:induction false} PlainPrefix(ts: seq<Token>, t: string, n: nat, slashSensitive: bool)
    requires n <= |ts| && Matches(ts, t, slashSensitive)
    requires forall k :: 0 <= k < n ==> !ts[k].IsStar()
    ensures n <= |t| && Matches(ts[n..], t[n..], slashSensitive)
    ensures forall k :: 0 <= k < n ==> ts[k].Accepts(t[k], slashSensitive)
  {
    if n == 0 {
      assert ts[0..] == ts && t[0..] == t;
    } else {
      PlainPrefix(ts[1..], t[1..], n - 1, slashSensitive);
      assert ts[1..][n - 1..] == ts[n..] && t[1..][n - 1..] == t[n..];
      assert forall k :: 1 <= k < n ==> ts[k] == ts[1..][k - 1] && t[k] == t[1..][k - 1];
    }
  }

  /** If a star-headed rest matches later and its star may absorb the gap, it
      matches here. */
  lemma AbsorbMore(ts: seq<Token>, t: string, k: nat, slashSensitive: bool)
    requires ts != [] && ts[0].IsStar() && k <= |t|
    requires Matches(ts, t[k..], slashSensitive)
    requires Absorbs(ts[0].DoubleStar?, t[..k], slashSensitive)
    ensures Matches(ts, t, slashSensitive)
  {
    var m: nat :| m <= |t[k..]| && AbsorbsThen(ts, t[k..], m, slashSensitive);
    assert t[..k + m] == t[..k] + t[k..][..m];
    assert t[k..][m..] == t[k + m..];
    assert AbsorbsThen(ts, t, k + m, slashSensitive);
  }

  /** A chain of linked stars that matches later also matches here: each star
      stops at the first `/`, which only comes sooner. */
  lemma {:induction false} ChainMatchesEarlier(ts: seq<Token>, t: string, k: nat)
    requires ts != [] && ts[0].IsStar() && AllLinked(ts) && k <= |t|
    requires Matches(ts, t[k..], true)
    ensures Matches(ts, t, true)
    decreases |ts|
  {
    if ts[0].DoubleStar? {
      AbsorbMore(ts, t, k, true);
    } else {
      assert Linked(ts, 0);
      var u := t[k..];
      var m: nat :| m <= |u| && AbsorbsThen(ts, u, m, true);
      var tail := ts[1..];
      assert Matches(tail, u[m..], true) && tail[0] == ts[1] && tail[1] == ts[2];
      var s := FirstSlash(t);
      assert u[m] == '/' && t[k + m] == '/';
      var rest := tail[1..];
      assert rest == ts[2..] && rest[0] == ts[2];
      assert AllLinked(rest) by {
        forall i | 0 <= i < |rest| && rest[i].Star? ensures Linked(rest, i) {
          assert ts[i + 2].Star? && Linked(ts, i + 2);
        }
      }
      var v := t[s + 1..];
      assert u[m..][1..] == v[k + m - s..];
      ChainMatchesEarlier(rest, v, k + m - s);
      assert t[s..][1..] == v;
      assert Matches(tail, t[s..], true);
      assert AbsorbsThen(ts, t, s, true);
    }
  }

  /** No `/` within the single star's shift by `k`, nor in the plain run behind it. */
  lemma {:induction false} NoSlashAt(a: Anchor, n: nat, k: nat, at: nat)
    requires a.At? && 1 <= k && n + k <= |a.text| && n <= |a.rest| && at < n + k
    requires '/' !in a.text[..k]
    requires forall i :: 0 <= i < n ==> a.rest[i].Accepts(a.text[i], true) && a.rest[i].Accepts(a.text[k + i], true)
    ensures a.text[at] != '/'
    decreases at
  {
    if at < k {
      assert a.text[at] == a.text[..k][at];
    } else {
      NoSlashAt(a, n, k, at - k);
      assert a.rest[at - k].Accepts(a.text[at - k], true) && a.rest[at - k].Accepts(a.text[k + (at - k)], true);
    }
  }

  /** A newer star makes the older anchor redundant. */
  lemma NewerStarSuffices(a: Anchor, ts: seq<Token>, t: string, slashSensitive: bool)
    requires a.At? && ts != [] && ts[0].IsStar() && Behind(a, ts, t, slashSensitive)
    requires slashSensitive && a.double ==> AllLinked(ts)
    requires Extends(a, slashSensitive)
    ensures Matches(ts, t, slashSensitive)
  {
    var k: nat :| 1 <= k <= |a.text| && ExtendsBy(a, k, slashSensitive);
    var n := |a.text| - |t|;
    PlainPrefix(a.rest, a.text[k..], n, slashSensitive);
    assert a.text[k..][n..] == a.text[n..][k..];
    assert Matches(ts, t[k..], slashSensitive);
    if !slashSensitive || ts[0].DoubleStar? {
      AbsorbMore(ts, t, k, slashSensitive);
    } else if a.double {
      ChainMatchesEarlier(ts, t, k);
    } else {
      forall i | 0 <= i < k ensures t[i] != '/' {
        NoSlashAt(a, n, k, n + i);
        assert a.text[n..][i] == a.text[n + i];
      }
      assert '/' !in t[..k];
      AbsorbMore(ts, t, k, slashSensitive);
    }
  }

  /** An anchor cannot extend once its text is used up by plain tokens. */
  lemma ExhaustedAnchor(a: Anchor, ts: seq<Token>, slashSensitive: bool)
    requires a.At? && Behind(a, ts, "", slashSensitive)
    ensures !Extends(a, slashSensitive)
  {
    if Extends(a, slashSensitive) {
      var k: nat :| 1 <= k <= |a.text| && ExtendsBy(a, k, slashSensitive);
      PlainPrefix(a.rest, a.text[k..], |a.text|, slashSensitive);
    }
  }

  lemma BehindStep(a: Anchor, ts: seq<Token>, t: string, slashSensitive: bool)
    requires ts != [] && t != "" && ts[0].Accepts(t[0], slashSensitive)
    requires a.At? ==> Behind(a, ts, t, slashSensitive)
    ensures a.At? ==> Behind(a, ts[1..], t[1..], slashSensitive)
  {
    if a.At? {
      var n := |a.text| - |t|;
      assert a.text[n + 1..] == a.text[n..][1..] && a.rest[n + 1..] == a.rest[n..][1..];
      assert a.text[n] == a.text[n..][0] && a.rest[n] == a.rest[n..][0];
    }
  }

  lemma ChainedTail(ts: seq<Token>)
    requires ts != []
    ensures Chained(ts) ==> Chained(ts[1..])
    ensures Chained(ts) && ts[0].DoubleStar? ==> AllLinked(ts[1..])
  {
    var us := ts[1..];
    if Chained(ts) {
      forall j, k | 0 <= j < k < |us| && us[j].DoubleStar? && us[k].Star? ensures Linked(us, k) {
        assert ts[j + 1].DoubleStar? && ts[k + 1].Star? && Linked(ts, k + 1);
      }
      if ts[0].DoubleStar? {
        forall k | 0 <= k < |us| && us[k].Star? ensures Linked(us, k) {
          assert ts[0].DoubleStar? && ts[k + 1].Star? && Linked(ts, k + 1);
        }
      }
    }
  }

  /** Where the loop of a chained pattern can be. */
  ghost predicate Poised(ts: seq<Token>, t: string, a: Anchor, slashSensitive: bool) {
    (a.At? ==> Behind(a, ts, t, slashSensitive)) &&
    (slashSensitive ==>
       Chained(ts) && (a.At? ==> Chained(a.rest)) && (a.At? && a.double ==> AllLinked(ts) && AllLinked(a.rest)))
  }

  lemma PoisedAtStar(ts: seq<Token>, t: string, a: Anchor, slashSensitive: bool)
    requires Poised(ts, t, a, slashSensitive) && ts != [] && ts[0].IsStar()
    ensures Poised(ts[1..], t, At(ts[1..], t, ts[0].DoubleStar?), slashSensitive)
  {
    ChainedTail(ts);
  }

  lemma PoisedAtPlain(ts: seq<Token>, t: string, a: Anchor, slashSensitive: bool)
    requires Poised(ts, t, a, slashSensitive) && ts != [] && t != "" && ts[0].Accepts(t[0], slashSensitive)
    ensures Poised(ts[1..], t[1..], a, slashSensitive)
  {
    ChainedTail(ts);
    BehindStep(a, ts, t, slashSensitive);
    if AllLinked(ts) {
      forall k | 0 <= k < |ts[1..]| && ts[1..][k].Star? ensures Linked(ts[1..], k) {
        assert ts[k + 1].Star? && Linked(ts, k + 1);
      }
    }
  }

  lemma {:induction false} RunComplete(ts: seq<Token>, t: string, a: Anchor, slashSensitive: bool)
    requires Poised(ts, t, a, slashSensitive)
    requires Matches(ts, t, slashSensitive) || Extends(a, slashSensitive)
    ensures Run(ts, t, a, slashSensitive)
    decreases if a.At? then |a.text| else |t| + 1, |ts|
  {
    if t == "" {
      EmptyText(ts, slashSensitive);
      if a.At? { ExhaustedAnchor(a, ts, slashSensitive); }
    } else if ts != [] && ts[0].IsStar() {
      var b := At(ts[1..], t, ts[0].DoubleStar?);
      if Extends(a, slashSensitive) {
        NewerStarSuffices(a, ts, t, slashSensitive);
      }
      StarSplit(ts, t, slashSensitive);
      PoisedAtStar(ts, t, a, slashSensitive);
      RunComplete(ts[1..], t, b, slashSensitive);
    } else if ts != [] && ts[0].Accepts(t[0], slashSensitive) {
      PoisedAtPlain(ts, t, a, slashSensitive);
      assert Matches(ts, t, slashSensitive) ==> Matches(ts[1..], t[1..], slashSensitive);
      RunComplete(ts[1..], t[1..], a, slashSensitive);
    } else {
      RunCompleteBack(ts, t, a, slashSensitive);
      RunComplete(a.rest, a.text[1..], At(a.rest, a.text[1..], a.double), slashSensitive);
    }
  }

  /** A token that does not accept sends the loop back to the anchor. */
  lemma RunCompleteBack(ts: seq<Token>, t: string, a: Anchor, slashSensitive: bool)
    requires Poised(ts, t, a, slashSensitive) && t != ""
    requires ts == [] || !(ts[0].IsStar() || ts[0].Accepts(t[0], slashSensitive))
    requires Matches(ts, t, slashSensitive) || Extends(a, slashSensitive)
    ensures a.At? && a.text != "" && (a.double || !slashSensitive || a.text[0] != '/')
    ensures var b := At(a.rest, a.text[1..], a.double);
            Poised(a.rest, a.text[1..], b, slashSensitive) &&
            (Matches(a.rest, a.text[1..], slashSensitive) || Extends(b, slashSensitive))
  {
    ExtendsStep(a, slashSensitive);
    assert a.text[..1] == [a.text[0]];
  }

  // --- necessity --------------------------------------------------------------------

  /** A shortest text the token accepts. */
  function LeastOf(token: Token): string {
    match token
    case Lit(c) => [c]
    case Any => "a"
    case _ => ""
  }

  function Least(ts: seq<Token>): string {
    if ts == [] then "" else LeastOf(ts[0]) + Least(ts[1..])
  }

  lemma LeastStep(ts: seq<Token>, u: string)
    requires ts != [] && Matches(ts[1..], u, true)
    ensures Matches(ts, LeastOf(ts[0]) + u, true)
  {
    if ts[0].IsStar() {
      assert LeastOf(ts[0]) + u == u;
      StarSplit(ts, u, true);
    } else {
      assert (LeastOf(ts[0]) + u)[1..] == u;
    }
  }

  lemma {:induction false} LeastMatches(front: seq<Token>, back: seq<Token>, t: string)
    requires Matches(back, t, true)
    ensures Matches(front + back, Least(front) + t, true)
  {
    if front == [] {
      assert front + back == back && Least(front) + t == t;
    } else {
      LeastMatches(front[1..], back, t);
      var ts, u := front + back, Least(front[1..]) + t;
      assert ts[1..] == front[1..] + back && ts[0] == front[0];
      assert Least(front) + t == LeastOf(ts[0]) + u;
      LeastStep(ts, u);
    }
  }

  /** Fed a pattern's least text, the loop runs straight through it. */
  lemma {:induction false} RunsStraight(front: seq<Token>, back: seq<Token>, t: string, a: Anchor)
    returns (b: Anchor)
    requires t != "" && (a.At? ==> |Least(front)| + |t| <= |a.text|)
    ensures b.At? ==> |t| <= |b.text|
    ensures Run(front + back, Least(front) + t, a, true) == Run(back, t, b, true)
    decreases |front|
  {
    var ts, u := front + back, Least(front) + t;
    if front == [] {
      assert ts == back && u == t;
      b := a;
    } else {
      assert ts[1..] == front[1..] + back && ts[0] == front[0];
      if front[0].IsStar() {
        assert u == Least(front[1..]) + t;
        b := RunsStraight(front[1..], back, t, At(ts[1..], u, front[0].DoubleStar?));
      } else {
        assert u[1..] == Least(front[1..]) + t;
        b := RunsStraight(front[1..], back, t, a);
      }
    }
  }

  /** Text that a `*` not linked to a further star cannot get past, whatever follows. */
  function Stopper(after: seq<Token>): (x: string)
    ensures x != "" && x[0] == '/'
  {
    if after == [] || after[0] != Lit('/') then "/"
    else if |after| > 1 && after[1] == Any then "//"
    else if |after| > 1 && after[1] == Lit('a') then "/b"
    else "/a"
  }

  lemma StopperStops(after: seq<Token>, x: string)
    requires after != [] ==> !after[0].IsStar()
    requires !(|after| > 1 && after[0] == Lit('/') && after[1].IsStar())
    ensures var t := Stopper(after) + x; !Run(after, t, At(after, t, false), true)
  {
    var t := Stopper(after) + x;
    assert t[0] == '/';
    if after != [] && after[0] == Lit('/') {
      assert t[1..] != "" && t[1..][0] == Stopper(after)[1];
    }
  }

  /** A star never directly follows a single `*`: the two would read as `**`. */
  lemma {:induction false} NoStarAfterStar(p: string, k: nat)
    requires k + 1 < |Tokens(p)| && Tokens(p)[k].Star?
    ensures !Tokens(p)[k + 1].IsStar()
    decreases |p|
  {
    var n := if p[0] == '*' && |p| > 1 && p[1] == '*' then 2 else 1;
    assert Tokens(p)[1..] == Tokens(p[n..]);
    if k > 0 {
      NoStarAfterStar(p[n..], k - 1);
    } else {
      assert p[1..] != "" && p[1..][0] == p[1];
    }
  }

  /** A pattern with an unlinked `*` after a `**` misses some text it means, and misses it
      with `more` tokens behind it too if those leave the star unlinked. */
  lemma UnlinkedMissesSome(p: string, more: seq<Token>, j: nat, k: nat) returns (t: string)
    requires j < k < |Tokens(p)| && Tokens(p)[j].DoubleStar? && Tokens(p)[k].Star?
    requires !Linked(Tokens(p) + more, k) && (more == [] || k + 1 < |Tokens(p)|)
    requires more != [] ==> more[0] == Lit('/')
    ensures Matches(Tokens(p), t, true) && !Run(Tokens(p), t, NoStar, true) && !Run(Tokens(p) + more, t, NoStar, true)
  {
    var ts := Tokens(p);
    var mid, back := ts[j + 1..k], ts[k..];
    if back[1..] != [] { NoStarAfterStar(p, k); }
    // The `**` could absorb everything up to a second copy of what follows it...
    var x := Stopper(back[1..]);
    var again := Least(mid + back);
    SecondCopyMatches(ts[..j], mid, back, x);
    CutAround(ts, j, k);
    t := Least(ts[..j]) + (Least(mid) + x + again);
    // ...but the loop commits to the first copy and stops at the `/`.
    LeastOfPrefix(ts, j, k);
    Reassociate(Least(ts[..j]), Least(mid), x, again);
    FirstCopyStops(ts, k, again);
    SameStopper(ts, more, k);
    FirstCopyStops(ts + more, k, again);
  }

  lemma SameStopper(ts: seq<Token>, more: seq<Token>, k: nat)
    requires k < |ts| && (more == [] || (k + 1 < |ts| && more[0] == Lit('/')))
    ensures (ts + more)[..k] == ts[..k]
    ensures Stopper((ts + more)[k..][1..]) == Stopper(ts[k..][1..])
  {
    var after, longer := ts[k..][1..], (ts + more)[k..][1..];
    assert longer == after + more;
  }

  lemma CutAround(ts: seq<Token>, j: nat, k: nat)
    requires j < k < |ts| && ts[j].DoubleStar?
    ensures ts == ts[..j] + ([DoubleStar] + (ts[j + 1..k] + ts[k..]))
  {}

  lemma Reassociate(a: string, b: string, c: string, d: string)
    ensures a + (b + c + d) == (a + b) + (c + d)
  {}

  lemma FirstCopyStops(ts: seq<Token>, k: nat, again: string)
    requires k < |ts| && ts[k].Star? && !Linked(ts, k) && (k + 1 < |ts| ==> !ts[k + 1].IsStar())
    ensures !Run(ts, Least(ts[..k]) + (Stopper(ts[k..][1..]) + again), NoStar, true)
  {
    var back := ts[k..];
    var x := Stopper(back[1..]) + again;
    var b := RunsStraight(ts[..k], back, x, NoStar);
    assert ts[..k] + back == ts;
    StopperStops(back[1..], again);
  }

  lemma SecondCopyMatches(front: seq<Token>, mid: seq<Token>, back: seq<Token>, x: string)
    ensures Matches(front + ([DoubleStar] + (mid + back)), Least(front) + (Least(mid) + x + Least(mid + back)), true)
  {
    var again := Least(mid + back);
    LeastMatches(mid + back, [], "");
    assert mid + back + [] == mid + back && Least(mid + back) + "" == again;
    var skipped := Least(mid) + x;
    var tail := [DoubleStar] + (mid + back);
    assert tail[1..] == mid + back;
    assert (skipped + again)[|skipped|..] == again;
    assert AbsorbsThen(tail, skipped + again, |skipped|, true);
    LeastMatches(front, tail, skipped + again);
  }

  lemma LeastOfPrefix(ts: seq<Token>, j: nat, k: nat)
    requires j < k <= |ts| && ts[j].DoubleStar?
    ensures Least(ts[..k]) == Least(ts[..j]) + Least(ts[j + 1..k])
  {
    LeastJoins(ts[..j], ts[j..k]);
    assert ts[..k] == ts[..j] + ts[j..k];
    assert ts[j..k][1..] == ts[j + 1..k];
  }

  lemma {:induction false} LeastJoins(a: seq<Token>, b: seq<Token>)
    ensures Least(a + b) == Least(a) + Least(b)
  {
    var ab := a + b;
    if a == [] {
      assert ab == b;
    } else {
      LeastJoins(a[1..], b);
      assert ab[1..] == a[1..] + b && ab[0] == a[0];
      Associate(LeastOf(a[0]), Least(a[1..]), Least(b));
    }
  }

  lemma Associate(a: string, b: string, c: string)
    ensures a + (b + c) == (a + b) + c
  {}

  // --- main results -------------------------------------------------------------------

  /** With `/` an ordinary character, the loop decides the pattern's meaning. */
  lemma GlobExactInSegments(p: string, t: string)
    ensures GlobAccepts(p, t, false) <==> Matches(Tokens(p), t, false)
  {
    if GlobAccepts(p, t, false) { GlobSound(p, t, false); }
    if Matches(Tokens(p), t, false) { RunComplete(Tokens(p), t, NoStar, false); }
  }

  lemma UnchainedMissesSome(p: string) returns (t: string)
    requires !Chained(Tokens(p))
    ensures Matches(Tokens(p), t, true) && !GlobAccepts(p, t, true)
  {
    var ts := Tokens(p);
    var j, k :| 0 <= j < k < |ts| && ts[j].DoubleStar? && ts[k].Star? && !Linked(ts, k);
    assert ts + [] == ts;
    t := UnlinkedMissesSome(p, [], j, k);
  }

  /** With `/` special, the loop finds every match of a pattern exactly when the
      pattern is chained. */
  lemma GlobCompleteIff(p: string)
    ensures (forall t :: Matches(Tokens(p), t, true) ==> GlobAccepts(p, t, true)) <==> Chained(Tokens(p))
  {
    if Chained(Tokens(p)) {
      forall t | Matches(Tokens(p), t, true) ensures GlobAccepts(p, t, true) {
        RunComplete(Tokens(p), t, NoStar, true);
      }
    } else {
      var t := UnchainedMissesSome(p);
    }
  }

  /** A pattern and path on which the documented meaning and the loop part. */
  lemma MixedStarsMiss()
    ensures Matches(Tokens("**/*.js"), "a/b/c.js", true)
    ensures !GlobAccepts("**/*.js", "a/b/c.js", true)
  {
    var p := "**/*.js";
    assert p[2..] == "/*.js" && p[2..][1..] == "*.js" && p[2..][1..][1..] == ".js";
    var file := [Star, Lit('.'), Lit('j'), Lit('s')];
    var slash := [Lit('/')] + file;
    assert Tokens(".js") == file[1..];
    assert Tokens("*.js") == file;
    assert Tokens("/*.js") == slash;
    assert Tokens(p) == [DoubleStar] + slash;
    LongReading([DoubleStar] + slash, slash, file);
    StrayRun([DoubleStar] + slash, slash, file);
  }

  /** `**` = "a/b", `*` = "c". */
  lemma LongReading(ts: seq<Token>, slash: seq<Token>, file: seq<Token>)
    requires file == [Star, Lit('.'), Lit('j'), Lit('s')] && slash == [Lit('/')] + file && ts == [DoubleStar] + slash
    ensures Matches(ts, "a/b/c.js", true)
  {
    var last := file[1..];
    assert last == [Lit('.')] + [Lit('j'), Lit('s')] && last[1..][1..] == [Lit('s')] && last[1..][1..][1..] == [];
    assert ".js"[1..] == "js" && "js"[1..] == "s" && "s"[1..] == "";
    assert Matches(last[1..][1..], "s", true) && Matches(last[1..], "js", true);
    assert Matches(last, ".js", true);
    assert "c.js"[1..] == ".js";
    assert AbsorbsThen(file, "c.js", 1, true);
    assert slash[1..] == file && "/c.js"[1..] == "c.js" && Matches(slash, "/c.js", true);
    assert ts[1..] == slash && "a/b/c.js"[3..] == "/c.js";
    assert AbsorbsThen(ts, "a/b/c.js", 3, true);
  }

  /** The loop settles on `**` = "a" and cannot take `*` past the next `/`. */
  lemma StrayRun(ts: seq<Token>, slash: seq<Token>, file: seq<Token>)
    requires file == [Star, Lit('.'), Lit('j'), Lit('s')] && slash == [Lit('/')] + file && ts == [DoubleStar] + slash
    ensures !Run(ts, "a/b/c.js", NoStar, true)
  {
    var t := "a/b/c.js";
    assert ts[1..] == slash && slash[1..] == file;
    var a := At(slash, t, true);
    assert t[1..] == "/b/c.js" && t[1..][1..] == "b/c.js" && t[2..][1..] == "/c.js";
    var b := At(slash, t[1..], true);
    assert Run(ts, t, NoStar, true) == Run(slash, t, a, true) == Run(slash, t[1..], b, true) == Run(file, "b/c.js", b, true);
    var name := file[1..];
    assert name[0] == Lit('.');
    assert "b/c.js"[1..] == "/c.js";
    assert !Run(name, "/c.js", At(name, "/c.js", false), true);
    assert !Run(name, "b/c.js", At(name, "b/c.js", false), true);
  }
}
