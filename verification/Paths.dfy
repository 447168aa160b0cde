/**
 Lexical paths (crates/mcp-server/src/safety.rs and the remote join of
 relay_controller.rs): a path string is resolved to the list of names below `/`.
 */
module Paths {
  import opened Text

  type Path = seq<string>

  /** A directory entry's name as a Unix file system holds it. */
  predicate ProperName(name: string) {
    name != "" && name != "." && name != ".." && '/' !in name
  }

  predicate Proper(path: Path) {
    forall i :: 0 <= i < |path| ==> ProperName(path[i])
  }

  /** One component of a walk: `.` and empty ones stay, `..` goes up. */
  function Enter(comp: string, at: Path): Path {
    if comp == "" || comp == "." then at
    else if comp == ".." then (if at == [] then [] else at[..|at| - 1])
    else at + [comp]
  }

  /** Walk the components from `at`. */
  function Resolve(comps: seq<string>, at: Path): Path {
    if comps == [] then at else Resolve(comps[1..], Enter(comps[0], at))
  }

  predicate IsAbsolute(path: string) {
    path != "" && path[0] == '/'
  }

  /** What `path` names for a process whose working directory is `cwd`. */
  function Normal(path: string, cwd: Path): Path {
    Resolve(Split(path, '/'), if IsAbsolute(path) then [] else cwd)
  }

  /** The loop of `normalize`, pushing and popping components. */
  method Normalize(path: string, cwd: Path) returns (out: Path)
    ensures out == Normal(path, cwd)
  {
    out := if IsAbsolute(path) then [] else cwd;
    var comps := Split(path, '/');
    var i := 0;
    while i < |comps|
      invariant 0 <= i <= |comps|
      invariant Resolve(comps[i..], out) == Normal(path, cwd)
    {
      assert comps[i..][1..] == comps[i + 1..];
      if comps[i] == ".." {
        out := if out == [] then [] else out[..|out| - 1];
      } else if comps[i] != "" && comps[i] != "." {
        out := out + [comps[i]];
      }
      i := i + 1;
    }
    assert comps[i..] == [];
  }

  /** The absolute path string of a resolved path. */
  function Render(path: Path): string {
    "/" + Join(path, '/')
  }

  lemma {:induction false} SplitHasNoSeparator(s: string, sep: char)
    ensures forall i :: 0 <= i < |Split(s, sep)| ==> sep !in Split(s, sep)[i]
  {
    if s != "" { SplitHasNoSeparator(s[1..], sep); }
  }

  lemma {:induction false} ResolveProper(comps: seq<string>, at: Path)
    requires Proper(at) && forall i :: 0 <= i < |comps| ==> '/' !in comps[i]
    ensures Proper(Resolve(comps, at))
  {
    if comps != [] {
      ResolveProper(comps[1..], Enter(comps[0], at));
    }
  }

  /** Proper names are simply appended. */
  lemma {:induction false} ResolveAppends(comps: seq<string>, at: Path)
    requires Proper(comps)
    ensures Resolve(comps, at) == at + comps
  {
    if comps == [] {
      assert at + [] == at;
    } else {
      ResolveAppends(comps[1..], at + [comps[0]]);
      assert (at + [comps[0]]) + comps[1..] == at + comps;
    }
  }

  lemma {:induction false} ResolveConcat(a: seq<string>, b: seq<string>, at: Path)
    ensures Resolve(a + b, at) == Resolve(b, Resolve(a, at))
  {
    if a == [] {
      assert a + b == b;
    } else {
      assert (a + b)[1..] == a[1..] + b && (a + b)[0] == a[0];
      ResolveConcat(a[1..], b, Enter(a[0], at));
    }
  }

  /** What follows a slash is walked from where what precedes it leads. */
  lemma ResolveSlash(front: string, back: string, at: Path)
    ensures Resolve(Split(front + ['/'] + back, '/'), at) == Resolve(Split(back, '/'), Resolve(Split(front, '/'), at))
  {
    SplitConcat(front, back, '/');
    ResolveConcat(Split(front, '/'), Split(back, '/'), at);
  }

  /** A normalised path has no `.`, `..` or empty component. */
  lemma NormalIsProper(path: string, cwd: Path)
    requires Proper(cwd)
    ensures Proper(Normal(path, cwd))
  {
    SplitHasNoSeparator(path, '/');
    ResolveProper(Split(path, '/'), if IsAbsolute(path) then [] else cwd);
  }

  /** Normalising twice changes nothing, from whatever directory. */
  lemma NormalIdempotent(path: string, cwd: Path, elsewhere: Path)
    requires Proper(cwd)
    ensures Normal(Render(Normal(path, cwd)), elsewhere) == Normal(path, cwd)
  {
    NormalIsProper(path, cwd);
    RenderResolves(Normal(path, cwd), elsewhere);
  }

  lemma RenderResolves(path: Path, cwd: Path)
    requires Proper(path)
    ensures Normal(Render(path), cwd) == path
  {
    var s := Render(path);
    SplitConcat("", Join(path, '/'), '/');
    assert "" + ['/'] + Join(path, '/') == s;
    if path == [] {
      assert Split(s, '/') == ["", ""] && ["", ""][1..] == [""] && [""][1..] == [];
    } else {
      SplitJoin(path, '/');
      assert Split(s, '/') == [""] + path;
      ResolveAppends(path, []);
      assert ([""] + path)[1..] == path;
    }
  }

  /** A path with a slash in front is the same from everywhere; any other is what it is
      behind the working directory's own path. */
  lemma RelativeIsFromHere(path: string, cwd: Path, elsewhere: Path)
    requires Proper(cwd)
    ensures path != "" && path[0] == '/' ==> Normal(path, cwd) == Normal(path, elsewhere)
    ensures path == "" || path[0] != '/' ==> Normal(path, cwd) == Normal(Render(cwd) + "/" + path, elsewhere)
  {
    RenderResolves(cwd, []);
    ResolveSlash(Render(cwd), path, []);
    assert Render(cwd) + ['/'] + path == Render(cwd) + "/" + path;
  }

  // --- the remote join ------------------------------------------------------------

  predicate IsSeparator(c: char) {
    c == '/' || c == '\\'
  }

  function TrimSeparators(base: string): string {
    if base != "" && IsSeparator(base[|base| - 1]) then TrimSeparators(base[..|base| - 1]) else base
  }

  /** Destination root and manifest-relative path, always joined with `/`. */
  function JoinRemote(base: string, rel: string): string {
    TrimSeparators(base) + "/" + rel
  }

  /** The base names a directory and does not end in a backslash run. */
  predicate PlainBase(base: string) {
    base != "" && forall i :: |TrimSeparators(base)| <= i < |base| ==> base[i] == '/'
  }

  lemma {:induction false} TrimIsPrefix(base: string)
    ensures |TrimSeparators(base)| <= |base| && TrimSeparators(base) == base[..|TrimSeparators(base)|]
    ensures forall i :: |TrimSeparators(base)| <= i < |base| ==> IsSeparator(base[i])
  {
    if base != "" && IsSeparator(base[|base| - 1]) {
      TrimIsPrefix(base[..|base| - 1]);
    }
  }

  /** What is trimmed is the run of slashes and backslashes at the end, all of it. */
  lemma TrimsWholeRun(base: string)
    ensures exists n | 0 <= n <= |base| ::
              TrimSeparators(base) == base[..n] &&
              (forall i :: n <= i < |base| ==> base[i] == '/' || base[i] == '\\') &&
              (n > 0 ==> base[n - 1] != '/' && base[n - 1] != '\\')
  {
    TrimIsPrefix(base);
    TrimLeavesNone(base);
  }

  lemma {:induction false} TrimLeavesNone(base: string)
    ensures var t := TrimSeparators(base); t != "" ==> !IsSeparator(t[|t| - 1])
  {
    if base != "" && IsSeparator(base[|base| - 1]) {
      TrimLeavesNone(base[..|base| - 1]);
    }
  }

  /** Trailing slashes do not change what a path names. */
  lemma {:induction false} TrailingSlashes(base: string, n: nat, at: Path)
    requires n <= |base| && forall i :: n <= i < |base| ==> base[i] == '/'
    ensures Resolve(Split(base, '/'), at) == Resolve(Split(base[..n], '/'), at)
    decreases |base|
  {
    if n < |base| {
      var shorter := base[..|base| - 1];
      assert shorter[..n] == base[..n];
      TrailingSlashes(shorter, n, at);
      ResolveSlash(shorter, "", at);
      assert shorter + ['/'] + "" == base;
      assert [""][1..] == [];
      assert Resolve([""], Resolve(Split(shorter, '/'), at)) == Resolve(Split(shorter, '/'), at);
    } else {
      assert base[..n] == base;
    }
  }

  /** A relative path is walked from the place that the base names. */
  lemma JoinIsWalked(base: string, rel: string, cwd: Path)
    requires PlainBase(base)
    ensures Normal(JoinRemote(base, rel), cwd) == Resolve(Split(rel, '/'), Normal(base, cwd))
  {
    var trimmed := TrimSeparators(base);
    TrimIsPrefix(base);
    var joined := JoinRemote(base, rel);
    var at := if IsAbsolute(joined) then [] else cwd;
    ResolveSlash(trimmed, rel, at);
    assert trimmed + ['/'] + rel == joined;
    assert IsAbsolute(joined) <==> IsAbsolute(base);
    TrailingSlashes(base, |trimmed|, at);
  }

  /** A joined path names the place below the root where the relative path says. */
  lemma JoinStaysBelow(base: string, path: Path, cwd: Path)
    requires PlainBase(base) && path != [] && Proper(path)
    ensures Normal(JoinRemote(base, Join(path, '/')), cwd) == Normal(base, cwd) + path
  {
    JoinIsWalked(base, Join(path, '/'), cwd);
    SplitJoin(path, '/');
    ResolveAppends(path, Normal(base, cwd));
  }

  // --- exactly when a joined path stays below its base ----------------------------------

  function LastPart(parts: seq<string>): string
    requires parts != []
  {
    parts[|parts| - 1]
  }

  function Lengthened(parts: seq<string>, more: string): seq<string>
    requires parts != []
  {
    parts[..|parts| - 1] + [LastPart(parts) + more]
  }

  lemma PrependLengthens(c: char, parts: seq<string>, more: string)
    requires parts != []
    ensures Prepend(c, Lengthened(parts, more), '/') == Lengthened(Prepend(c, parts, '/'), more)
  {
    if c == '/' {
      assert ([""] + parts)[..|parts|] == [""] + parts[..|parts| - 1];
    } else if |parts| == 1 {
      assert [c] + (parts[0] + more) == ([c] + parts[0]) + more;
    }
  }

  /** Text without a separator only lengthens the last part. */
  lemma {:induction false} SplitLengthens(s: string, more: string)
    requires '/' !in more
    ensures Split(s + more, '/') == Lengthened(Split(s, '/'), more)
  {
    if s == "" {
      assert s + more == more && "" + more == more;
      SplitPlain(more, '/');
    } else {
      SplitLengthens(s[1..], more);
      assert (s + more)[1..] == s[1..] + more && (s + more)[0] == s[0];
      PrependLengthens(s[0], Split(s[1..], '/'), more);
    }
  }

  predicate Backslashes(s: string) {
    forall i :: 0 <= i < |s| ==> s[i] == '\\'
  }

  predicate Separators(s: string) {
    forall i :: 0 <= i < |s| ==> IsSeparator(s[i])
  }

  lemma TailSeparates(r: string, k: nat)
    requires Separators(r) && k <= |r|
    ensures Separators(r[k..])
  {}

  /** Among separators, every backslash run is a name of its own. */
  lemma {:induction false} RunOfSeparators(r: string, at: Path)
    requires Separators(r)
    ensures at <= Resolve(Split(r, '/'), at)
    ensures Resolve(Split(r, '/'), at) == at <==> '\\' !in r
    decreases |r|
  {
    var k := FirstSlash(r);
    var run := r[..k];
    assert Backslashes(run) && '/' !in run;
    SplitPlain(run, '/');
    var next := if run == "" then at else at + [run];
    assert Resolve([run], at) == next by {
      var alone: Path := [run];
      assert alone[1..] == [];
      assert run != "." && run != ".." by { if run != "" { assert run[0] == '\\'; } }
    }
    if k < |r| {
      var rest := r[k + 1..];
      assert r == run + ['/'] + rest;
      ResolveSlash(run, rest, at);
      TailSeparates(r, k + 1);
      RunOfSeparators(rest, next);
    } else {
      assert run == r;
    }
    if run != "" { assert r[0] == '\\'; }
  }

  lemma ResolveLast(parts: seq<string>, at: Path)
    requires parts != []
    ensures Resolve(parts, at) == Enter(LastPart(parts), Resolve(parts[..|parts| - 1], at))
  {
    ResolveConcat(parts[..|parts| - 1], [LastPart(parts)], at);
    assert parts == parts[..|parts| - 1] + [LastPart(parts)];
    var last: Path := [LastPart(parts)];
    assert last[1..] == [];
  }

  /** Backslashes after a name make another name. */
  lemma LongerNameDiffers(comp: string, run: string, at: Path)
    requires run != "" && Backslashes(run)
    ensures Enter(comp + run, at) == at + [comp + run]
    ensures !(at + [comp + run] <= Enter(comp, at))
  {
    var name := comp + run;
    assert name[|comp|] == '\\' && |name| == |comp| + |run|;
    assert (at + [name])[|at|] == name;
  }

  /** Backslashes right after `t` lead elsewhere, and nothing added below leads back. */
  lemma BackslashesLeadAway(t: string, run: string, at: Path)
    requires run != "" && Backslashes(run)
    ensures !(Resolve(Split(t + run, '/'), at) <= Resolve(Split(t, '/'), at))
  {
    var parts, longer := Split(t, '/'), Split(t + run, '/');
    SplitLengthens(t, run);
    ResolveLast(parts, at);
    ResolveLast(longer, at);
    assert longer[..|longer| - 1] == parts[..|parts| - 1] && LastPart(longer) == LastPart(parts) + run;
    LongerNameDiffers(LastPart(parts), run, Resolve(parts[..|parts| - 1], at));
  }

  /** A run of separators after `t` leads back to what `t` names exactly when none of
      them is a backslash. */
  lemma TrailingRun(t: string, r: string, at: Path)
    requires Separators(r)
    ensures Resolve(Split(t + r, '/'), at) == Resolve(Split(t, '/'), at) <==> '\\' !in r
  {
    var k := FirstSlash(r);
    var run := r[..k];
    assert Backslashes(run);
    var here := Resolve(Split(t + run, '/'), at);
    if run != "" {
      BackslashesLeadAway(t, run, at);
      assert r[0] == '\\';
    } else {
      assert t + run == t;
    }
    if k < |r| {
      var rest := r[k + 1..];
      assert t + r == (t + run) + ['/'] + rest;
      ResolveSlash(t + run, rest, at);
      TailSeparates(r, k + 1);
      RunOfSeparators(rest, here);
    } else {
      assert run == r;
    }
  }

  /** A joined path leads below its base exactly when the base names a directory and its
      trailing separators are slashes; an empty base only where the working directory is `/`. */
  lemma JoinStaysBelowExactly(base: string, path: Path, cwd: Path)
    requires path != [] && Proper(path)
    ensures Normal(JoinRemote(base, Join(path, '/')), cwd) == Normal(base, cwd) + path <==>
            PlainBase(base) || (base == "" && cwd == [])
  {
    TrimIsPrefix(base);
    var t, rel := TrimSeparators(base), Join(path, '/');
    var r := base[|t|..];
    assert base == t + r && Separators(r);
    var joined := JoinRemote(base, rel);
    var at, from := if IsAbsolute(joined) then [] else cwd, if IsAbsolute(base) then [] else cwd;
    ResolveSlash(t, rel, at);
    assert t + ['/'] + rel == joined;
    SplitJoin(path, '/');
    ResolveAppends(path, Resolve(Split(t, '/'), at));
    assert Normal(joined, cwd) == Resolve(Split(t, '/'), at) + path;
    SameSuffixSame(Resolve(Split(t, '/'), at), Normal(base, cwd), path);
    TrailingRun(t, r, from);
    PlainBaseMeans(base, t, r);
    if t == "" {
      assert at == [] && base == r;
      RunOfSeparators(r, from);
      assert [""][1..] == [];
    }
  }

  /** An empty base leads to `/`, and a trailing backslash is lost. */
  lemma SomeBasesStray()
    ensures Normal(JoinRemote("", "x"), ["u"]) != Normal("", ["u"]) + ["x"]
    ensures Normal(JoinRemote("d\\", "x"), []) != Normal("d\\", []) + ["x"]
  {
    assert Join(["x"], '/') == "x";
    JoinStaysBelowExactly("", ["x"], ["u"]);
    assert "d\\"[..1] == "d" && TrimSeparators("d\\") == "d";
    assert "d\\"[1] == '\\';
    JoinStaysBelowExactly("d\\", ["x"], []);
  }

  lemma SameSuffixSame(a: Path, b: Path, path: Path)
    ensures a + path == b + path <==> a == b
  {
    if a + path == b + path {
      assert a == (a + path)[..|a|] && b == (b + path)[..|b|];
    }
  }

  lemma PlainBaseMeans(base: string, t: string, r: string)
    requires t == TrimSeparators(base) && base == t + r && Separators(r)
    ensures PlainBase(base) <==> base != "" && '\\' !in r
  {
    forall i | |t| <= i < |base| ensures base[i] == r[i - |t|] {}
    if '\\' in r {
      var j :| 0 <= j < |r| && r[j] == '\\';
      assert base[|t| + j] == '\\';
    }
  }

  // --- the walk of the file system ------------------------------------------------------

  predicate IsDirectory(place: Path, dirs: set<Path>) {
    place == [] || place in dirs
  }

  /** Every place in which the file system looks a name up is a directory. */
  predicate Reaches(comps: seq<string>, at: Path, dirs: set<Path>) {
    comps == [] || (IsDirectory(at, dirs) && Reaches(comps[1..], Enter(comps[0], at), dirs))
  }

  /** The first of them that is not one is a file. */
  predicate Obstructed(comps: seq<string>, at: Path, files: set<Path>, dirs: set<Path>) {
    comps != [] && (at in files || (IsDirectory(at, dirs) && Obstructed(comps[1..], Enter(comps[0], at), files, dirs)))
  }

  /** The file system gets to the end of a path; what is there is another matter. */
  predicate Leads(path: string, cwd: Path, dirs: set<Path>) {
    Reaches(Split(path, '/'), if IsAbsolute(path) then [] else cwd, dirs)
  }

  /** The path leads through a file. */
  predicate Stuck(path: string, cwd: Path, files: set<Path>, dirs: set<Path>) {
    Obstructed(Split(path, '/'), if IsAbsolute(path) then [] else cwd, files, dirs)
  }

  /** The path leads to a directory. */
  predicate Finds(path: string, cwd: Path, dirs: set<Path>) {
    Leads(path, cwd, dirs) && IsDirectory(Normal(path, cwd), dirs)
  }

  /** Where the name number `k` of a walk is looked up. */
  function Place(comps: seq<string>, at: Path, k: nat): Path
    requires k <= |comps|
  {
    Resolve(comps[..k], at)
  }

  /** A walk gets to its end if all the places in which a name is looked up, `/` or not,
      are directories. */
  lemma {:induction false} ReachesMeans(comps: seq<string>, at: Path, dirs: set<Path>)
    ensures Reaches(comps, at, dirs) <==>
            forall k :: 0 <= k < |comps| ==> Place(comps, at, k) == [] || Place(comps, at, k) in dirs
  {
    if comps != [] {
      ReachesMeans(comps[1..], Enter(comps[0], at), dirs);
      PlacesBehind(comps, at);
    }
  }

  /** It is stuck if the first of them that is not one is a file. */
  lemma {:induction false} ObstructedMeans(comps: seq<string>, at: Path, files: set<Path>, dirs: set<Path>)
    ensures Obstructed(comps, at, files, dirs) <==>
            exists k :: 0 <= k < |comps| && Place(comps, at, k) in files &&
                        forall j :: 0 <= j < k ==> Place(comps, at, j) == [] || Place(comps, at, j) in dirs
  {
    if comps != [] {
      ObstructedMeans(comps[1..], Enter(comps[0], at), files, dirs);
      PlacesBehind(comps, at);
    }
  }

  lemma PlacesBehind(comps: seq<string>, at: Path)
    requires comps != []
    ensures Place(comps, at, 0) == at
    ensures forall k :: 0 < k < |comps| ==> Place(comps, at, k) == Place(comps[1..], Enter(comps[0], at), k - 1)
    ensures forall k :: 0 <= k < |comps| - 1 ==> Place(comps[1..], Enter(comps[0], at), k) == Place(comps, at, k + 1)
  {
    forall k | 0 < k < |comps| ensures Place(comps, at, k) == Place(comps[1..], Enter(comps[0], at), k - 1) {
      assert comps[..k][1..] == comps[1..][..k - 1] && comps[..k][0] == comps[0];
    }
  }

  lemma {:induction false} ReachesConcat(a: seq<string>, b: seq<string>, at: Path, dirs: set<Path>)
    ensures Reaches(a + b, at, dirs) <==> Reaches(a, at, dirs) && Reaches(b, Resolve(a, at), dirs)
  {
    if a == [] {
      assert a + b == b;
    } else {
      assert (a + b)[1..] == a[1..] + b && (a + b)[0] == a[0];
      ReachesConcat(a[1..], b, Enter(a[0], at), dirs);
    }
  }

  lemma {:induction false} ReachesMore(comps: seq<string>, at: Path, dirs: set<Path>, more: set<Path>)
    requires Reaches(comps, at, dirs) && dirs <= more
    ensures Reaches(comps, at, more)
  {
    if comps != [] { ReachesMore(comps[1..], Enter(comps[0], at), dirs, more); }
  }

  lemma LeadsMore(path: string, cwd: Path, dirs: set<Path>, more: set<Path>)
    requires Leads(path, cwd, dirs) && dirs <= more
    ensures Leads(path, cwd, more)
  {
    ReachesMore(Split(path, '/'), if IsAbsolute(path) then [] else cwd, dirs, more);
  }

  /** Proper names are reached where what is above them are directories. */
  lemma {:induction false} ReachesProper(path: Path, at: Path, dirs: set<Path>)
    requires Proper(path) && forall k :: 0 <= k < |path| ==> IsDirectory(at + path[..k], dirs)
    ensures Reaches(path, at, dirs)
  {
    if path != [] {
      assert at + path[..0] == at;
      forall k | 0 <= k < |path[1..]| ensures IsDirectory(at + [path[0]] + path[1..][..k], dirs) {
        assert at + [path[0]] + path[1..][..k] == at + path[..k + 1];
      }
      ReachesProper(path[1..], at + [path[0]], dirs);
    }
  }

  /** The walk to the end of a base without its trailing slashes. */
  lemma BaseReaches(base: string, cwd: Path, dirs: set<Path>)
    requires PlainBase(base) && Leads(base, cwd, dirs)
    ensures var at := if IsAbsolute(base) then [] else cwd;
            Reaches(Split(TrimSeparators(base), '/'), at, dirs) &&
            Resolve(Split(TrimSeparators(base), '/'), at) == Normal(base, cwd)
    ensures forall rel :: IsAbsolute(JoinRemote(base, rel)) <==> IsAbsolute(base)
  {
    var trimmed, at := TrimSeparators(base), if IsAbsolute(base) then [] else cwd;
    TrimIsPrefix(base);
    TrailingSlashes(base, |trimmed|, at);
    if trimmed != base {
      var rest := base[|trimmed| + 1..];
      assert trimmed + ['/'] + rest == base;
      SplitConcat(trimmed, rest, '/');
      ReachesConcat(Split(trimmed, '/'), Split(rest, '/'), at, dirs);
    }
  }

  /** Where the base leads to its end, a joined path does so as far as its relative part does. */
  lemma JoinReaches(base: string, rel: string, cwd: Path, dirs: set<Path>)
    requires PlainBase(base) && Leads(base, cwd, dirs)
    ensures Leads(JoinRemote(base, rel), cwd, dirs) <==> Reaches(Split(rel, '/'), Normal(base, cwd), dirs)
  {
    var trimmed, at := TrimSeparators(base), if IsAbsolute(base) then [] else cwd;
    BaseReaches(base, cwd, dirs);
    SplitConcat(trimmed, rel, '/');
    assert trimmed + ['/'] + rel == JoinRemote(base, rel);
    ReachesConcat(Split(trimmed, '/'), Split(rel, '/'), at, dirs);
  }

  lemma {:induction false} ObstructedLater(a: seq<string>, b: seq<string>, at: Path, files: set<Path>, dirs: set<Path>)
    requires Reaches(a, at, dirs) && Obstructed(b, Resolve(a, at), files, dirs)
    ensures Obstructed(a + b, at, files, dirs)
  {
    if a == [] {
      assert a + b == b;
    } else {
      assert (a + b)[1..] == a[1..] + b && (a + b)[0] == a[0];
      ObstructedLater(a[1..], b, Enter(a[0], at), files, dirs);
    }
  }

  lemma JoinIsObstructed(base: string, rel: string, cwd: Path, files: set<Path>, dirs: set<Path>)
    requires PlainBase(base) && Leads(base, cwd, dirs) && Obstructed(Split(rel, '/'), Normal(base, cwd), files, dirs)
    ensures Stuck(JoinRemote(base, rel), cwd, files, dirs)
  {
    var trimmed, at := TrimSeparators(base), if IsAbsolute(base) then [] else cwd;
    BaseReaches(base, cwd, dirs);
    SplitConcat(trimmed, rel, '/');
    assert trimmed + ['/'] + rel == JoinRemote(base, rel);
    ObstructedLater(Split(trimmed, '/'), Split(rel, '/'), at, files, dirs);
  }

  // --- what a walk leads to -------------------------------------------------------------

  /** A walk gets one name further at most each time, and only by proper names. */
  lemma {:induction false} ResolveShort(comps: seq<string>, at: Path)
    requires forall i :: 0 <= i < |comps| ==> '/' !in comps[i]
    ensures |Resolve(comps, at)| <= |at| + |comps|
    ensures |Resolve(comps, at)| == |at| + |comps| ==> Proper(comps)
  {
    if comps != [] {
      ResolveShort(comps[1..], Enter(comps[0], at));
    }
  }

  /** A joined path stays right below its base exactly by proper names. */
  lemma JoinStaysByProperNames(base: string, rel: string, cwd: Path)
    requires PlainBase(base)
    ensures Normal(JoinRemote(base, rel), cwd) == Normal(base, cwd) + Split(rel, '/') <==> Proper(Split(rel, '/'))
  {
    JoinIsWalked(base, rel, cwd);
    SplitHasNoSeparator(rel, '/');
    ResolveShort(Split(rel, '/'), Normal(base, cwd));
    if Proper(Split(rel, '/')) { ResolveAppends(Split(rel, '/'), Normal(base, cwd)); }
  }

  // --- policy -------------------------------------------------------------------------

  predicate Below(path: Path, root: Path) {
    |root| <= |path| && path[..|root|] == root
  }

  predicate Allowed(path: Path, denied: seq<Path>, allowed: seq<Path>) {
    (forall d :: d in denied ==> !Below(path, d)) &&
    (allowed == [] || exists a :: a in allowed && Below(path, a))
  }

  /** Policy allows a path that lies below no denied one, and below an allowed one if any is listed. */
  lemma PolicyMeans(path: Path, denied: seq<Path>, allowed: seq<Path>)
    ensures Allowed(path, denied, allowed) <==>
            !(exists i :: 0 <= i < |denied| && denied[i] <= path) && (|allowed| == 0 || exists i :: 0 <= i < |allowed| && allowed[i] <= path)
  {
    forall root ensures Below(path, root) <==> root <= path {}
    forall i | 0 <= i < |denied| ensures denied[i] in denied {}
    forall i | 0 <= i < |allowed| ensures allowed[i] in allowed {}
  }
}
