/**
 Exclude patterns of folder sync (crates/mcp-server/src/exclude.rs): which
 relative paths a pattern list excludes, and why the directory walk may prune.
 */
module Exclude {
  import opened Text
  import opened Glob
  import opened GlobCompleteness

  predicate PathOrSubtree(pat: string, rel: string) {
    GlobAccepts(pat, rel, true) || GlobAccepts(pat + "/**", rel, true)
  }

  function StripSlash(pat: string): string {
    if pat != "" && pat[|pat| - 1] == '/' then pat[..|pat| - 1] else pat
  }

  predicate MatchesPattern(rel: string, pattern: string) {
    var trimmed := Trim(pattern);
    var pat := StripSlash(trimmed);
    if trimmed == "" || pat == "" then false
    else if pat[0] == '/' then PathOrSubtree(pat[1..], rel)
    else if '/' in pat then PathOrSubtree(pat, rel)
    else exists seg :: seg in Split(rel, '/') && GlobAccepts(pat, seg, false)
  }

  predicate IsExcluded(rel: string, patterns: seq<string>) {
    exists p :: p in patterns && MatchesPattern(rel, p)
  }

  predicate DirExcluded(relDir: string, patterns: seq<string>) {
    relDir != "" && exists p :: p in patterns && MatchesPattern(relDir, p)
  }

  // --- pruning equals filtering ---------------------------------------------------

  // The tokens of the suffix "/**".
  const SUBTREE: seq<Token> := [Lit('/'), DoubleStar]

  lemma {:induction false} SubtreeTokens(pat: string)
    ensures Tokens(pat + "/**") == Tokens(pat) + SUBTREE
  {
    var q := pat + "/**";
    if pat == "" {
      assert q == "/**" && q[1..] == "**" && q[1..][2..] == "";
    } else {
      var n := if pat[0] == '*' && |pat| > 1 && pat[1] == '*' then 2 else 1;
      SubtreeTokens(pat[n..]);
      assert q[n..] == pat[n..] + "/**";
      assert q[0] == pat[0] && (|pat| > 1 ==> q[1] == pat[1]) && (|pat| == 1 ==> q[1] == '/');
      assert Tokens(pat) == [Tokens(pat)[0]] + Tokens(pat[n..]);
    }
  }

  /** A final `**` swallows whatever text is left. */
  lemma {:induction false} OpenEnd(t: string, text: string)
    requires |t| <= |text|
    ensures Run([], t, At([], text, true), true)
    decreases |text|
  {
    if t != "" { OpenEnd(text[1..], text[1..]); }
  }

  lemma {:induction false} StarsThenSubtree(ts: seq<Token>, rest: string, a: Anchor)
    requires AllStars(ts) && (a.At? ==> |rest| + 1 <= |a.text|)
    ensures Run(ts + SUBTREE, "/" + rest, a, true)
    decreases |ts|
  {
    var us, u := ts + SUBTREE, "/" + rest;
    if ts == [] {
      assert us[1..] == [DoubleStar] && u[1..] == rest && [DoubleStar][1..] == [];
      if rest != "" { OpenEnd(rest, rest); }
    } else {
      assert us[1..] == ts[1..] + SUBTREE;
      StarsThenSubtree(ts[1..], rest, At(us[1..], u, ts[0].DoubleStar?));
    }
  }

  function Extended(a: Anchor, tokens: seq<Token>, text: string): Anchor {
    if a.NoStar? then NoStar else At(a.rest + tokens, a.text + text, a.double)
  }

  // A pattern accepting a directory accepts, with "/**" added, everything below it.
  lemma {:induction false} AcceptsBelow(ts: seq<Token>, t: string, a: Anchor, rest: string)
    requires a.At? ==> |t| <= |a.text|
    requires Run(ts, t, a, true)
    ensures Run(ts + SUBTREE, t + ("/" + rest), Extended(a, SUBTREE, "/" + rest), true)
    decreases if a.At? then |a.text| else |t| + 1, |ts|
  {
    var us, u, b := ts + SUBTREE, t + ("/" + rest), Extended(a, SUBTREE, "/" + rest);
    if t == "" {
      assert u == "/" + rest;
      StarsThenSubtree(ts, rest, b);
    } else {
      assert u[1..] == t[1..] + ("/" + rest) && (ts != [] ==> us[1..] == ts[1..] + SUBTREE);
      if ts != [] && ts[0].IsStar() {
        AcceptsBelow(ts[1..], t, At(ts[1..], t, ts[0].DoubleStar?), rest);
      } else if ts != [] && ts[0].Accepts(t[0], true) {
        AcceptsBelow(ts[1..], t[1..], a, rest);
      } else if ts == [] && t[0] == '/' {
        assert us[1..] == [DoubleStar] && [DoubleStar][1..] == [];
        OpenEnd(u[1..], u[1..]);
      } else {
        AcceptsBelow(a.rest, a.text[1..], At(a.rest, a.text[1..], a.double), rest);
        assert b.text[1..] == a.text[1..] + ("/" + rest) && b.text[0] == a.text[0];
      }
    }
  }

  /** The tokens end in `**`, or that `**` is already the anchor. */
  predicate Open(ts: seq<Token>, a: Anchor) {
    (if ts == [] then a.At? && a.rest == [] && a.double else ts[|ts| - 1].DoubleStar?) &&
    (a.At? ==> if a.rest == [] then a.double else a.rest[|a.rest| - 1].DoubleStar?)
  }

  /** A pattern ending in `**` keeps accepting as the text grows. */
  lemma {:induction false} AcceptsLonger(ts: seq<Token>, t: string, a: Anchor, more: string)
    requires (a.At? ==> |t| <= |a.text|) && Open(ts, a)
    requires Run(ts, t, a, true)
    ensures Run(ts, t + more, Extended(a, [], more), true)
    decreases if a.At? then |a.text| else |t| + 1, |ts|
  {
    var u, b := t + more, Extended(a, [], more);
    if a.At? { assert a.rest + [] == a.rest; }
    if t == "" {
      assert u == more;
      StarsAcceptAll(ts, u, b);
    } else {
      assert u[1..] == t[1..] + more;
      if ts != [] && ts[0].IsStar() {
        assert ts[1..] + [] == ts[1..];
        AcceptsLonger(ts[1..], t, At(ts[1..], t, ts[0].DoubleStar?), more);
      } else if ts != [] && ts[0].Accepts(t[0], true) {
        AcceptsLonger(ts[1..], t[1..], a, more);
      } else {
        AcceptsLonger(a.rest, a.text[1..], At(a.rest, a.text[1..], a.double), more);
        assert b.text[1..] == a.text[1..] + more && b.text[0] == a.text[0];
      }
    }
  }

  lemma {:induction false} StarsAcceptAll(ts: seq<Token>, t: string, a: Anchor)
    requires (a.At? ==> |t| <= |a.text|) && Open(ts, a) && AllStars(ts)
    ensures Run(ts, t, a, true)
    decreases |ts|
  {
    if t != "" {
      if ts == [] {
        OpenEnd(t, a.text);
      } else {
        StarsAcceptAll(ts[1..], t, At(ts[1..], t, ts[0].DoubleStar?));
      }
    }
  }

  lemma SubtreeInherits(pat: string, dir: string, rest: string)
    requires PathOrSubtree(pat, dir)
    ensures PathOrSubtree(pat, dir + "/" + rest)
  {
    SubtreeTokens(pat);
    assert dir + "/" + rest == dir + ("/" + rest);
    if GlobAccepts(pat, dir, true) {
      AcceptsBelow(Tokens(pat), dir, NoStar, rest);
    } else {
      AcceptsLonger(Tokens(pat + "/**"), dir, NoStar, "/" + rest);
    }
  }

  /** An excluded directory excludes every path below it: for every pattern list,
      every directory and every remainder. */
  lemma PrunedMeansExcluded(dir: string, rest: string, patterns: seq<string>)
    requires DirExcluded(dir, patterns)
    ensures IsExcluded(dir + "/" + rest, patterns)
  {
    var p :| p in patterns && MatchesPattern(dir, p);
    var pat := StripSlash(Trim(p));
    if pat[0] == '/' {
      SubtreeInherits(pat[1..], dir, rest);
    } else if '/' in pat {
      SubtreeInherits(pat, dir, rest);
    } else {
      SplitConcat(dir, rest, '/');
    }
    assert MatchesPattern(dir + "/" + rest, p);
  }

  // --- what a pattern excludes ------------------------------------------------------

  lemma StarTakes(ts: seq<Token>, t: string) returns (m: nat)
    requires ts != [] && ts[0].IsStar() && Matches(ts, t, true)
    ensures m <= |t| && AbsorbsThen(ts, t, m, true)
  {
    m :| m <= |t| && AbsorbsThen(ts, t, m, true);
  }

  // With "/**" added: some proper ancestor directory of the path matches `ts`.
  lemma {:induction false} SubtreeMeaning(ts: seq<Token>, t: string)
    ensures Matches(ts + SUBTREE, t, true) <==>
            exists k: nat :: k < |t| && t[k] == '/' && Matches(ts, t[..k], true)
    decreases |ts|
  {
    var us := ts + SUBTREE;
    if ts == [] {
      assert us == SUBTREE && us[1..] == [DoubleStar] && [DoubleStar][1..] == [];
      if t != "" {
        var u := t[1..];
        assert u[|u|..] == "";
        assert AbsorbsThen([DoubleStar], u, |u|, true);
        if t[0] == '/' { assert t[..0] == "" && Matches(ts, t[..0], true); }
      }
    } else {
      assert us[1..] == ts[1..] + SUBTREE;
      if ts[0].IsStar() {
        forall m: nat | m <= |t|
          ensures AbsorbsThen(us, t, m, true) <==>
                  exists k: nat :: m <= k < |t| && t[k] == '/' && AbsorbsThen(ts, t[..k], m, true)
        {
          SubtreeMeaning(ts[1..], t[m..]);
          forall k: nat | m <= k < |t| ensures t[..k][..m] == t[..m] && t[..k][m..] == t[m..][..k - m] {}
          if i: nat :| i < |t[m..]| && t[m..][i] == '/' && Matches(ts[1..], t[m..][..i], true) {
            assert t[m + i] == '/' && t[..m + i][m..] == t[m..][..i] && t[..m + i][..m] == t[..m];
          }
        }
        if Matches(us, t, true) {
          var m := StarTakes(us, t);
          var k: nat :| m <= k < |t| && t[k] == '/' && AbsorbsThen(ts, t[..k], m, true);
          assert Matches(ts, t[..k], true);
        }
        if k: nat :| k < |t| && t[k] == '/' && Matches(ts, t[..k], true) {
          var m := StarTakes(ts, t[..k]);
          assert AbsorbsThen(us, t, m, true);
        }
      } else if t != "" {
        SubtreeMeaning(ts[1..], t[1..]);
        forall k: nat | 1 <= k < |t|
          ensures Matches(ts, t[..k], true) <==> ts[0].Accepts(t[0], true) && Matches(ts[1..], t[1..][..k - 1], true)
        {
          assert t[..k][1..] == t[1..][..k - 1];
        }
        if k: nat :| k < |t[1..]| && t[1..][k] == '/' && Matches(ts[1..], t[1..][..k], true) {
          assert t[k + 1] == '/';
        }
        if k: nat :| k < |t| && t[k] == '/' && Matches(ts, t[..k], true) {
          assert k > 0 && t[1..][k - 1] == '/';
        }
      }
    }
  }

  /** What a path-shaped pattern is documented to exclude: what it means, and everything
      below a directory it means. */
  ghost predicate Meant(pat: string, rel: string) {
    Matches(Tokens(pat), rel, true) || exists k: nat :: k < |rel| && rel[k] == '/' && Matches(Tokens(pat), rel[..k], true)
  }

  ghost predicate ExcludesAllMeant(pat: string) {
    forall rel :: Meant(pat, rel) ==> PathOrSubtree(pat, rel)
  }

  /** A single star in front of the subtree suffix, or alone: one of the two takes any text. */
  lemma LastStarTakesAll(t: string)
    ensures Run([Star], t, NoStar, true) || Run([Star] + SUBTREE, t, NoStar, true)
  {
    var k := FirstSlash(t);
    assert [Star][1..] == [] && ([Star] + SUBTREE)[1..] == SUBTREE;
    if t != "" {
      if k == |t| { StarAlone(t); } else { StarThenSubtree(t, t); }
    }
  }

  lemma {:induction false} StarAlone(t: string)
    requires FirstSlash(t) == |t|
    ensures Run([], t, At([], t, false), true)
  {
    if t != "" { StarAlone(t[1..]); }
  }

  lemma {:induction false} StarThenSubtree(t: string, text: string)
    requires t == text && FirstSlash(t) < |t|
    ensures Run(SUBTREE, t, At(SUBTREE, text, false), true)
    decreases |t|
  {
    if t[0] == '/' {
      assert SUBTREE[1..] == [DoubleStar] && [DoubleStar][1..] == [];
      if t[1..] != "" { OpenEnd(t[1..], t[1..]); }
    } else {
      StarThenSubtree(t[1..], text[1..]);
    }
  }

  function Followed(a: Anchor, tokens: seq<Token>): Anchor {
    if a.NoStar? then NoStar else At(a.rest + tokens, a.text, a.double)
  }

  // Where a run with a final `**` accepts, so does one with a final `*`, or one with a
  // final `*` and "/**": all three run alike up to that star.
  lemma {:induction false} FinalStarEither(us: seq<Token>, t: string, a: Anchor)
    requires a.At? ==> |t| <= |a.text|
    requires Run(us + [DoubleStar], t, Followed(a, [DoubleStar]), true)
    ensures Run(us + [Star], t, Followed(a, [Star]), true) || Run(us + [Star] + SUBTREE, t, Followed(a, [Star] + SUBTREE), true)
    decreases if a.At? then |a.text| else |t| + 1, |us|
  {
    if t == "" {
      assert AllStars(us) by { forall k | 0 <= k < |us| ensures us[k].IsStar() { assert (us + [DoubleStar])[k].IsStar(); } }
    } else if us == [] {
      LastStarTakesAll(t);
      assert us + [Star] == [Star] && us + [Star] + SUBTREE == [Star] + SUBTREE;
    } else {
      TailsAlike(us);
      if us[0].IsStar() {
        FinalStarEither(us[1..], t, At(us[1..], t, us[0].DoubleStar?));
      } else if us[0].Accepts(t[0], true) {
        FinalStarEither(us[1..], t[1..], a);
      } else {
        assert a.rest + ([Star] + SUBTREE) == a.rest + [Star] + SUBTREE;
        FinalStarEither(a.rest, a.text[1..], At(a.rest, a.text[1..], a.double));
      }
    }
  }

  lemma TailsAlike(us: seq<Token>)
    requires us != []
    ensures (us + [DoubleStar])[1..] == us[1..] + [DoubleStar] && (us + [Star])[1..] == us[1..] + [Star]
    ensures (us + [Star] + SUBTREE)[1..] == us[1..] + [Star] + SUBTREE == us[1..] + ([Star] + SUBTREE)
  {}

  lemma {:induction false} WiderStarMatches(us: seq<Token>, t: string)
    requires Matches(us + [Star], t, true)
    ensures Matches(us + [DoubleStar], t, true)
    decreases |us|
  {
    var ts, ws := us + [Star], us + [DoubleStar];
    if ts[0].IsStar() {
      var m := StarTakes(ts, t);
      if us == [] {
        assert ts[1..] == ws[1..] == [];
      } else {
        assert ts[1..] == us[1..] + [Star] && ws[1..] == us[1..] + [DoubleStar];
        WiderStarMatches(us[1..], t[m..]);
      }
      assert AbsorbsThen(ws, t, m, true);
    } else {
      assert ts[1..] == us[1..] + [Star] && ws[1..] == us[1..] + [DoubleStar];
      WiderStarMatches(us[1..], t[1..]);
    }
  }

  /** The subtree suffix links a final star, and no other. */
  lemma ChainedButForTheLast(ts: seq<Token>)
    requires Chained(ts + SUBTREE) && !Chained(ts)
    ensures ts != [] && ts[|ts| - 1] == Star && Chained(ts[..|ts| - 1] + [DoubleStar])
  {
    var us, long := ts + SUBTREE, ts[..|ts| - 1] + [DoubleStar];
    var j, k :| 0 <= j < k < |ts| && ts[j].DoubleStar? && ts[k].Star? && !Linked(ts, k);
    assert us[j].DoubleStar? && us[k].Star? && Linked(us, k);
    forall i, m | 0 <= i < m < |long| && long[i].DoubleStar? && long[m].Star? ensures Linked(long, m) {
      assert us[i].DoubleStar? && us[m].Star? && Linked(us, m);
    }
  }

  /** Everything meant is excluded if no star is unlinked once the suffix is there. */
  lemma ChainedExcludesAll(pat: string, rel: string)
    requires Chained(Tokens(pat) + SUBTREE) && Meant(pat, rel)
    ensures PathOrSubtree(pat, rel)
  {
    var ts := Tokens(pat);
    SubtreeTokens(pat);
    SubtreeMeaning(ts, rel);
    if Matches(ts + SUBTREE, rel, true) {
      RunComplete(ts + SUBTREE, rel, NoStar, true);
    } else if Chained(ts) {
      RunComplete(ts, rel, NoStar, true);
    } else {
      ChainedButForTheLast(ts);
      var us := ts[..|ts| - 1];
      assert ts == us + [Star];
      WiderStarMatches(us, rel);
      RunComplete(us + [DoubleStar], rel, NoStar, true);
      FinalStarEither(us, rel, NoStar);
    }
  }

  /** Otherwise something meant is missed by both attempts. */
  lemma UnchainedMisses(pat: string) returns (rel: string)
    requires !Chained(Tokens(pat) + SUBTREE)
    ensures Meant(pat, rel) && !PathOrSubtree(pat, rel)
  {
    var ts := Tokens(pat);
    var us := ts + SUBTREE;
    SubtreeTokens(pat);
    var j, k :| 0 <= j < k < |us| && us[j].DoubleStar? && us[k].Star? && !Linked(us, k);
    assert k < |ts|;
    assert k == |ts| - 1 ==> Linked(us, k);
    rel := UnlinkedMissesSome(pat, SUBTREE, j, k);
  }

  /** What a path-shaped pattern excludes is always meant. All that is meant is excluded if
      and only if every `*` after a `**` is followed by `/` and another star - or is the last
      token, which the subtree suffix makes up for. */
  lemma PathPatternMeaning(pat: string)
    ensures forall rel :: PathOrSubtree(pat, rel) ==> Meant(pat, rel)
    ensures ExcludesAllMeant(pat) <==> Chained(Tokens(pat) + SUBTREE)
  {
    SubtreeTokens(pat);
    forall rel | PathOrSubtree(pat, rel) ensures Meant(pat, rel) {
      SubtreeMeaning(Tokens(pat), rel);
      if GlobAccepts(pat, rel, true) { GlobSound(pat, rel, true); }
      if GlobAccepts(pat + "/**", rel, true) { GlobSound(pat + "/**", rel, true); }
    }
    if Chained(Tokens(pat) + SUBTREE) {
      forall rel | Meant(pat, rel) ensures PathOrSubtree(pat, rel) { ChainedExcludesAll(pat, rel); }
    } else {
      var rel := UnchainedMisses(pat);
    }
  }

  /** A final star after `**` loses nothing, although alone it would. */
  lemma FinalStarIsMadeUpFor()
    ensures !Chained(Tokens("**/*")) && ExcludesAllMeant("**/*")
  {
    var ts := [DoubleStar, Lit('/'), Star];
    assert "**/*"[2..] == "/*" && "/*"[1..] == "*" && "*"[1..] == "";
    assert Tokens("*") == [Star] && Tokens("/*") == [Lit('/')] + [Star];
    assert Tokens("**/*") == ts;
    assert ts[0].DoubleStar? && ts[2].Star? && !Linked(ts, 2);
    var us := ts + SUBTREE;
    assert us == [DoubleStar, Lit('/'), Star, Lit('/'), DoubleStar] && Linked(us, 2);
    PathPatternMeaning("**/*");
  }

  ghost predicate SomeSegmentMatches(pat: string, rel: string) {
    exists seg :: seg in Split(rel, '/') && Matches(Tokens(pat), seg, false)
  }

  /** A bare name excludes exactly the paths with a matching segment, at any depth. */
  lemma BareNameMeaning(rel: string, pattern: string)
    requires var pat := StripSlash(Trim(pattern)); pat != "" && '/' !in pat
    ensures MatchesPattern(rel, pattern) <==>
            SomeSegmentMatches(StripSlash(Trim(pattern)), rel)
  {
    var pat := StripSlash(Trim(pattern));
    var segments := Split(rel, '/');
    assert pat[0] in pat && Trim(pattern) != "";
    assert MatchesPattern(rel, pattern) <==> exists seg :: seg in segments && GlobAccepts(pat, seg, false);
    forall seg | seg in segments
      ensures GlobAccepts(pat, seg, false) <==> Matches(Tokens(pat), seg, false)
    {
      GlobExactInSegments(pat, seg);
    }
    if seg :| seg in segments && Matches(Tokens(pat), seg, false) {
      assert GlobAccepts(pat, seg, false);
    }
    if seg :| seg in segments && GlobAccepts(pat, seg, false) {
      assert Matches(Tokens(pat), seg, false);
    }
  }

  // --- the shapes of a pattern ------------------------------------------------------------------

  /** The matcher takes the path, or a directory above it. */
  predicate TakesPathOrAbove(pat: string, rel: string) {
    GlobAccepts(pat, rel, true) || GlobAccepts(pat + "/**", rel, true)
  }

  predicate TakesSomeSegment(pat: string, rel: string) {
    exists i :: 0 <= i < |Split(rel, '/')| && GlobAccepts(pat, Split(rel, '/')[i], false)
  }

  /** Blanks around a pattern and one slash at its end do not count. With a slash in front the rest is for
      the whole path; so is a pattern with another slash in it; any other is for each segment. */
  lemma PatternShapes(front: string, pat: string, slash: string, back: string, rel: string)
    requires AllBlank(front) && AllBlank(back) && pat != "" && !IsBlank(pat[0])
    requires slash == "/" || (slash == "" && !IsBlank(pat[|pat| - 1]) && pat[|pat| - 1] != '/')
    ensures MatchesPattern(rel, front + (pat + slash) + back) <==>
            if pat[0] == '/' then TakesPathOrAbove(pat[1..], rel)
            else if '/' in pat then TakesPathOrAbove(pat, rel)
            else TakesSomeSegment(pat, rel)
  {
    TrimExactly(front, pat + slash, back);
    assert StripSlash(pat + slash) == pat by { if slash == "/" { assert (pat + "/")[..|pat|] == pat; } else { assert pat + "" == pat; } }
  }

  /** Blanks alone, or around a single slash, exclude nothing. */
  lemma BlankExcludesNothing(front: string, back: string, rel: string)
    requires AllBlank(front) && AllBlank(back)
    ensures !MatchesPattern(rel, front) && !MatchesPattern(rel, front + "/" + back)
  {
    TrimMeans(front);
    TrimExactly(front, "/", back);
    assert StripSlash("/") == "";
  }

  /** A path is excluded if some pattern matches it; a directory likewise, but for the root. */
  lemma ExcludedBySome(rel: string, patterns: seq<string>)
    ensures IsExcluded(rel, patterns) <==> exists i :: 0 <= i < |patterns| && MatchesPattern(rel, patterns[i])
    ensures DirExcluded(rel, patterns) <==> rel != "" && IsExcluded(rel, patterns)
  {
    forall i | 0 <= i < |patterns| ensures patterns[i] in patterns {}
  }
}
