/**
 What file names with backslashes do to a sync. Manifests write them as `/`, so that a
 file `a\b` gets the relative path of a file `b` in a directory `a`.
 */
module SyncCases {
  import opened Wrappers
  import opened Text
  import opened Paths
  import opened Walk
  import opened Transfer
  import opened Sync
  import opened SyncRun
  import opened SyncResults

  /** A file `b` in a directory `a`, and a file whose name has the backslash. */
  const NESTED: Path := ["a", "b"]
  const SLANTED: Path := ["a\\b"]

  lemma SlantedReadsNested()
    ensures RelPath(NESTED) == RelPath(SLANTED) == "a/b" && ReadBack(SLANTED) == NESTED && Tame(SLANTED) && NESTED != SLANTED
  {
    assert Join(NESTED, '/') == "a" + ['/'] + "b" && Join(SLANTED, '/') == "a\\b";
    assert RelPath(NESTED) == "a/b" && RelPath(SLANTED) == "a/b";
    assert PlainPath(NESTED);
    RelPathSplits(NESTED);
    assert SLANTED[0] != NESTED[0] || |SLANTED| != |NESTED|;
  }

  /** A destination that has `a\b` and no `a/b`, the former as long as the source's `a/b` and no
      older, or with checksums of the same content, passes for up to date: nothing is sent, and
      there still is no `a/b`. */
  lemma BackslashHides(j: Job, mine: FileRec, other: FileRec)
    requires j.src == map[NESTED := mine] && j.before == map[j.root + SLANTED := other]
    requires !j.skip.file("a/b") && j.found && Answered(j)
    requires if j.checksum then j.hash.Some? && mine.content == other.content
             else |mine.content| == |other.content| && mine.mtime <= other.mtime
    ensures ToSend([SourceLineOf(j.src, NESTED, j.hash)], j.seen, j.checksum) == [] && j.root + NESTED !in j.before
    ensures !NoneHidden(j) && !Unmasked(j.before, j.root, j.src, j.skip)
  {
    SlantedReadsNested();
    assert j.root + NESTED != j.root + SLANTED by { assert |j.root + NESTED| != |j.root + SLANTED|; }
    assert [] + NESTED == NESTED;
    assert MustList(j.src, [], j.skip, NESTED) && MustList(j.before, j.root, j.skip, SLANTED) && Wanted(j, NESTED);
    forall p | MustList(j.before, j.root, j.skip, p) ensures p == SLANTED {
      SameSuffix(j.root, p, SLANTED);
    }
    OwnEntry(j.seen, j.before, j.root, j.skip, j.hash, SLANTED);
  }

  /** With nothing on the source, `a\b` is asked to be deleted as `a/b`, and stays. */
  lemma BackslashStays(j: Job, other: FileRec, dirs: set<Path>)
    requires j.src == map[] && j.before == map[j.root + SLANTED := other] && !j.skip.file("a/b") && j.delete && j.found
    ensures AskedFor(j, SLANTED) && Resolve(ReadBack(SLANTED), j.root) == j.root + NESTED
    ensures !DoomedPlace(j, dirs, j.root + SLANTED) && !Clearable(j)
  {
    SlantedReadsNested();
    ResolveAppends(NESTED, j.root);
    assert MustList(j.before, j.root, j.skip, SLANTED);
    assert !PlainName(SLANTED[0]) by { assert SLANTED[0][1] == '\\'; }
    if DoomedPlace(j, dirs, j.root + SLANTED) { DoomedIsPlain(j, dirs, SLANTED); }
  }

  /** On the source, `a\b` is opened as `a/b`: if that is not there the run ends, and if it is,
      both lines send the same file. */
  lemma BackslashOpensAnother(src: Files, hash: Option<Hash>)
    requires SLANTED in src
    ensures PathOf(SourceLineOf(src, SLANTED, hash)) == NESTED
    ensures NESTED in src ==> PathOf(SourceLineOf(src, NESTED, hash)) == NESTED
  {
    SlantedReadsNested();
  }

  /** Beside a file `a`, the request for `a\b` leads through that file, which ends it. */
  lemma FileInTheWay(base: string, cwd: Path, files: Files, dirs: set<Path>, denied: seq<Path>, allowed: seq<Path>)
    requires PlainBase(base) && Finds(base, cwd, dirs) && Normal(base, cwd) + ["a"] in files
    ensures Refused(JoinRemote(base, RelPath(SLANTED)), cwd, files, dirs, denied, allowed)
  {
    SlantedReadsNested();
    var root := Normal(base, cwd);
    assert NESTED[1..] == ["b"] && NESTED[0] == "a";
    assert Obstructed(["b"], root + ["a"], files.Keys, dirs);
    assert Obstructed(NESTED, root, files.Keys, dirs);
    JoinIsObstructed(base, "a/b", cwd, files.Keys, dirs);
  }

  // --- two backslashes ----------------------------------------------------------------------

  /** A file whose name has two backslashes in a row: an empty name between slashes. */
  const GAPPED: Path := ["a\\\\b"]

  lemma GappedRelPath()
    ensures RelPath(GAPPED) == "a//b" && ReadBack(GAPPED) == ["a", "", "b"] && !Tame(GAPPED)
  {
    assert Join(GAPPED, '/') == "a\\\\b";
    assert RelPath(GAPPED) == "a//b";
    SplitConcat("a", "/b", '/');
    SplitConcat("", "b", '/');
    assert "a" + ['/'] + "/b" == "a//b" && "" + ['/'] + "b" == "/b";
    SplitPlain("a", '/');
    SplitPlain("b", '/');
    SplitPlain("", '/');
    assert ReadBack(GAPPED) == ["a"] + ([""] + ["b"]);
    assert ReadBack(GAPPED)[1] == "";
  }

  /** It is asked to be deleted at the place of `a/b`, be that a file that both sides have. */
  lemma GapStrikesAnother(j: Job, mine: FileRec, dirs: set<Path>)
    requires j.src == map[NESTED := mine] && j.root + GAPPED in j.before && j.delete && j.found
    requires !j.skip.file("a//b") && !j.skip.file("a/b") && IsDirectory(j.root, dirs) && IsDirectory(j.root + ["a"], dirs)
    ensures DoomedPlace(j, dirs, j.root + NESTED) && SourcePlace(j, j.root + NESTED) && !NoneStruck(j, dirs)
  {
    GappedRelPath();
    SlantedReadsNested();
    GapIsPassedOver(j.root, dirs);
    assert [] + NESTED == NESTED && Wanted(j, NESTED);
    forall p | MustList(j.src, [], j.skip, p) ensures p == NESTED { assert [] + p == p; }
    assert "a//b"[2] != "a/b"[2];
    assert AskedFor(j, GAPPED);
  }

  lemma GapIsPassedOver(root: Path, dirs: set<Path>)
    requires IsDirectory(root, dirs) && IsDirectory(root + ["a"], dirs)
    ensures Resolve(["a", "", "b"], root) == root + NESTED && Reaches(["a", "", "b"], root, dirs)
  {
    WalkStep("a", ["", "b"], root, dirs);
    WalkStep("", ["b"], root + ["a"], dirs);
    WalkStep("b", [], root + ["a"], dirs);
    assert root + ["a"] + ["b"] == root + NESTED;
  }

  lemma WalkStep(comp: string, rest: seq<string>, at: Path, dirs: set<Path>)
    ensures Resolve([comp] + rest, at) == Resolve(rest, Enter(comp, at))
    ensures Reaches([comp] + rest, at, dirs) <==> IsDirectory(at, dirs) && Reaches(rest, Enter(comp, at), dirs)
  {
    assert ([comp] + rest)[1..] == rest;
  }

  // --- a name that climbs -------------------------------------------------------------------

  const CLIMBING: Path := ["..\\x"]

  lemma ClimbingRelPath()
    ensures RelPath(CLIMBING) == "../x" && ReadBack(CLIMBING) == ["..", "x"] && !Tame(CLIMBING)
  {
    assert Join(CLIMBING, '/') == "..\\x";
    assert RelPath(CLIMBING) == "../x";
    SplitConcat("..", "x", '/');
    assert ".." + ['/'] + "x" == "../x";
    SplitPlain("..", '/');
    SplitPlain("x", '/');
    assert ReadBack(CLIMBING)[0] == "..";
  }

  /** The file `x` beside the root. */
  function Beside(root: Path): Path
    requires root != []
  {
    root[..|root| - 1] + ["x"]
  }

  lemma ClimbsBeside(root: Path, dirs: set<Path>)
    requires root != []
    ensures Resolve(["..", "x"], root) == Beside(root) && (Below(Beside(root), root) ==> Beside(root) == root)
    ensures IsDirectory(root, dirs) && IsDirectory(root[..|root| - 1], dirs) ==> Reaches(["..", "x"], root, dirs)
  {
    WalkStep("..", ["x"], root, dirs);
    WalkStep("x", [], root[..|root| - 1], dirs);
  }

  /** With `--delete`, a file `..\x` that the source does not have is asked to be deleted as `x`
      beside the root: a file there is gone with it. */
  lemma ClimbingLeavesTheRoot(j: Job, dirs: set<Path>)
    requires j.root != [] && IsDirectory(j.root, dirs) && IsDirectory(j.root[..|j.root| - 1], dirs)
    requires j.root + CLIMBING in j.before && !j.skip.file("../x") && !HasRel(j.src, [], j.skip, "../x")
    requires j.delete && j.found
    ensures DoomedPlace(j, dirs, Beside(j.root)) && !TameExtras(j)
    ensures Beside(j.root) in j.before && Beside(j.root) != j.root && Beside(j.root) !in j.others ==> !NoneOutside(j, dirs)
  {
    ClimbingRelPath();
    ClimbsBeside(j.root, dirs);
    assert AskedFor(j, CLIMBING);
  }

  /** On the source such a file is opened, and sent, as `x` beside the root. */
  lemma ClimbingOpensOutside(src: Files, hash: Option<Hash>, base: string, cwd: Path)
    requires CLIMBING in src && PlainBase(base) && Normal(base, cwd) != []
    ensures var e := SourceLineOf(src, CLIMBING, hash);
            PathOf(e) == ["..", "x"] && Normal(JoinRemote(base, e.relPath), cwd) == Beside(Normal(base, cwd))
  {
    ClimbingRelPath();
    ClimbsBeside(Normal(base, cwd), {});
    JoinIsWalked(base, "../x", cwd);
  }
}
