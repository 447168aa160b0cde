/**
 What a finished sync means for the two trees: equal contents, equal path sets,
 nothing excluded touched, nothing left to do the next time, and nothing that late
 deliveries can still spoil.
 */
module SyncResults {
  import opened Wrappers
  import opened Text
  import opened Paths
  import opened Walk
  import opened Transfer
  import opened Sync
  import opened WalkManifest
  import opened SyncRun

  /** Checksums that, compared without regard to case, tell contents apart. */
  ghost predicate CollisionFree(hash: Hash) {
    forall a, b :: SameLetters(hash(a), hash(b)) ==> a == b
  }

  /** Every source file that is not excluded has the same content on the destination. */
  ghost predicate SameContents(j: Job, after: Files) {
    forall path :: Wanted(j, path) ==> j.root + path in after && after[j.root + path].content == j.src[path].content
  }

  /** The files that are not excluded are the same ones on both sides. */
  ghost predicate SamePaths(j: Job, after: Files) {
    forall path :: path != [] && !j.skip.file(RelPath(path)) ==> (j.root + path in after <==> path in j.src)
  }

  /** A place below the root that is not excluded. */
  predicate Inside(j: Job, q: Path) {
    Below(q, j.root) && !j.skip.file(RelPath(q[|j.root|..]))
  }

  /** No excluded file changed, and outside the root only what late slices of earlier
      transfers write. */
  ghost predicate RestUnchanged(j: Job, after: Files) {
    forall q :: q !in j.others && !Inside(j, q) ==> !Changed(j.before, after, q)
  }

  /** Deletion strikes no excluded file, and none outside the root. */
  ghost predicate NoneOutside(j: Job, dirs: set<Path>) {
    forall q :: DoomedPlace(j, dirs, q) && q in j.before && q !in j.others ==> Inside(j, q)
  }

  /** Whatever is gone was a file that is not excluded and that the source does not have. */
  ghost predicate OnlyExtrasGone(j: Job, after: Files) {
    forall q :: q in j.before && q !in after ==> ExtraPlace(j, q)
  }

  lemma ChecksumMirrorsContents(j: Job, after: Files, hash: Hash)
    requires Mirrored(j, after) && j.checksum && j.hash == Some(hash) && CollisionFree(hash)
    ensures SameContents(j, after)
  {
    forall path | Wanted(j, path) ensures j.root + path in after && after[j.root + path].content == j.src[path].content {
      assert UpToDate(j, after, path);
    }
  }

  /** By the quick check: every source file that is not excluded has its size on the destination, and
      what is there is its content, written in this run, or no older. */
  ghost predicate SameSizes(j: Job, after: Files) {
    forall path :: Wanted(j, path) ==>
      j.root + path in after && SizedLike(j.src[path], after[j.root + path], j.since)
  }

  predicate SizedLike(mine: FileRec, theirs: FileRec, since: nat) {
    |theirs.content| == |mine.content| &&
    ((theirs.content == mine.content && theirs.mtime >= since) || theirs.mtime >= mine.mtime)
  }

  lemma QuickCheckMirrorsSizes(j: Job, after: Files)
    requires Mirrored(j, after) && !j.checksum
    ensures SameSizes(j, after)
  {
    NeedsMeans(false);
    forall path | Wanted(j, path)
      ensures j.root + path in after && SizedLike(j.src[path], after[j.root + path], j.since)
    {
      assert UpToDate(j, after, path);
    }
  }

  lemma NoExtrasMeansSamePaths(j: Job, after: Files)
    requires Mirrored(j, after)
    ensures NoExtras(j, after) <==> SamePaths(j, after)
  {
    if NoExtras(j, after) {
      forall path | path != [] && !j.skip.file(RelPath(path)) ensures j.root + path in after <==> path in j.src {
        assert j.root + path in after ==> MustList(after, j.root, j.skip, path);
        assert path in j.src ==> UpToDate(j, after, path);
      }
    }
  }

  /** Excluded files and those outside the root are left alone, unless deletion strikes them; with
      tame extras it does not, and nothing but extras is ever gone. */
  ghost predicate Spares(j: Job, after: Files, dirs: set<Path>) {
    (NoneOutside(j, dirs) ==> RestUnchanged(j, after)) &&
    (TameExtras(j) ==> NoneOutside(j, dirs) && Harmless(j, dirs) && OnlyExtrasGone(j, after)) &&
    (!j.delete ==> j.before.Keys <= after.Keys)
  }

  lemma ContainedSparesTheRest(j: Job, after: Files, dirs: set<Path>)
    requires Contained(j, after, dirs) && [] !in j.src && Elsewhere(j.others, j.root)
    ensures Spares(j, after, dirs)
  {
    forall q | Changed(j.before, after, q) && q !in j.others && NoneOutside(j, dirs) ensures Inside(j, q) {
      BelowByAppending(j.root);
      if q in after {
        var path :| Wanted(j, path) && q == j.root + path;
        assert q[|j.root|..] == path;
      }
    }
    forall q | q in j.before && q !in after ensures DoomedPlace(j, dirs, q) {
      assert Changed(j.before, after, q);
    }
    if TameExtras(j) {
      TameExtrasAreSafe(j, dirs);
      forall q | DoomedPlace(j, dirs, q) && q in j.before ensures Inside(j, q) {
        var path :| Held(j, path) && path !in j.src && q == j.root + path;
        assert q[|j.root|..] == path;
      }
    }
  }

  /** Once the deletions are through, the rest is unchanged only if they struck nothing outside. */
  lemma RestUnchangedExactly(j: Job, w: World)
    requires Contained(j, w.files, w.dirs) && Done(j, w) && [] !in j.src && Elsewhere(j.others, j.root)
    ensures RestUnchanged(j, w.files) <==> NoneOutside(j, w.dirs)
  {
    ContainedSparesTheRest(j, w.files, w.dirs);
    forall q | DoomedPlace(j, w.dirs, q) && q in j.before ensures Changed(j.before, w.files, q) {}
  }

  // --- the next sync ------------------------------------------------------------------

  /** No destination file looks older than the source file it was made from. */
  ghost predicate NoneOlder(j: Job, files: Files) {
    forall path :: Wanted(j, path) ==> j.root + path in files && files[j.root + path].mtime >= j.src[path].mtime
  }

  /** The sync `next` of the same source comes after `j`. */
  ghost predicate Repeats(j: Job, next: Job) {
    next.src == j.src && next.skip == j.skip && next.root == j.root && next.checksum == j.checksum && next.hash == j.hash &&
    (j.checksum ==> j.hash.Some?)
  }

  /** A second run finds nothing to send exactly when it compares checksums or no
      file it looks at has a destination time before its source time. After a run
      with `delete` it never finds anything to delete. */
  lemma RepeatIsNoop(j: Job, next: Job)
    requires Mirrored(j, next.before) && Repeats(j, next)
    requires Prepared(next) && next.found && Answered(next) && Unmasked(next.before, next.root, next.src, next.skip)
    ensures ToSend(next.offered, next.seen, next.checksum) == [] <==> next.checksum || NoneOlder(next, next.before)
    ensures Extras(next.offered, next.seen) == [] <==> NoExtras(next, next.before)
  {
    ToSendNeeds(next.offered, next.seen, next.checksum);
    var again := ToSend(next.offered, next.seen, next.checksum);
    forall path | Wanted(next, path)
      ensures next.root + path in next.before && SourceLineOf(next.src, path, next.hash) in next.offered
      ensures SourceLineOf(next.src, path, next.hash) in again <==>
              !next.checksum && next.before[next.root + path].mtime < next.src[path].mtime
    {
      AgainExactly(j, next, path);
    }
    if again != [] {
      var e := again[0];
      assert e in again;
      var path :| MustList(next.src, [], next.skip, path) && LineFor(e, next.src, [], path, next.hash);
      assert [] + path == path && e == SourceLineOf(next.src, path, next.hash) && Wanted(next, path);
    }
    RepeatDeletesNothing(next);
  }

  lemma AgainExactly(j: Job, next: Job, path: Path)
    requires Mirrored(j, next.before) && Repeats(j, next) && Wanted(next, path)
    requires Prepared(next) && next.found && Answered(next) && Unmasked(next.before, next.root, next.src, next.skip)
    ensures next.root + path in next.before && SourceLineOf(next.src, path, next.hash) in next.offered
    ensures Needed(next, path) <==> !next.checksum && next.before[next.root + path].mtime < next.src[path].mtime
  {
    assert [] + path == path && Wanted(j, path);
    assert MustList(next.src, [], next.skip, path);
    OwnEntry(next.seen, next.before, next.root, next.skip, next.hash, path);
  }

  lemma RepeatDeletesNothing(next: Job)
    requires Prepared(next) && next.found && Answered(next) && Unmasked(next.before, next.root, next.src, next.skip)
    ensures Extras(next.offered, next.seen) == [] <==> NoExtras(next, next.before)
  {
    if NoExtras(next, next.before) {
      NothingIsDeleted(next);
    }
    forall path | Held(next, path) && RelPath(path) !in Extras(next.offered, next.seen) ensures path in next.src {
      ExtraLine(next, RelPath(path));
      var s :| MustList(next.src, [], next.skip, s) && RelPath(s) == RelPath(path);
      assert [] + s == s;
    }
  }

  /** With a destination clock that is not behind any source file, that is so. */
  lemma ForwardClockSettles(j: Job, after: Files)
    requires Mirrored(j, after) && !j.checksum && forall path :: path in j.src ==> j.src[path].mtime <= j.since
    ensures NoneOlder(j, after)
  {
    forall path | Wanted(j, path) ensures j.root + path in after && after[j.root + path].mtime >= j.src[path].mtime {
      assert UpToDate(j, after, path);
    }
  }

  // --- after the run ---------------------------------------------------------------------

  /** Below the root, the same files with the same contents; only times may differ. */
  ghost predicate SameBytes(f: Files, g: Files, root: Path) {
    forall q :: Below(q, root) ==> (q in f <==> q in g) && (q in f ==> f[q].content == g[q].content)
  }

  /** Once all transfers were acknowledged, no late or repeated slice changes a byte below the root. */
  lemma LateSlicesChangeNothing(j: Job, w: World, v: World, hash: Hash)
    requires w.Valid(hash) && v.Valid(hash) && AllStreamed(w, j) && Follows(w, v)
    ensures SameBytes(w.files, v.files, j.root)
  {
    forall q | q in w.goal && Below(q, j.root)
      ensures q in w.files && q in v.files && w.files[q].content == w.goal[q] == v.files[q].content
    {
      assert w.Arrived(q);
      var s :| s in w.accepted && s.eof && s.path == q;
      assert w.Finished(s, hash) && v.Finished(s, hash);
    }
  }

  // --- from tree to tree ------------------------------------------------------------------

  /** A whole `sync_dir`: walk the source tree, at `place` under the source's policy, then run. */
  method SyncDir(d: Destination, tree: Node, place: Path, denied: seq<Path>, allowed: seq<Path>, destPath: string, delete: bool,
                 checksum: bool, dryRun: bool, exclude: seq<string>, chunk: nat)
    returns (ok: bool, ghost j: Job)
    requires d.Valid() && Elsewhere(d.goal.Keys, Normal(destPath, d.cwd)) && PlainBase(destPath)
    requires Syncable(tree, Rules(exclude))
    modifies d`files, d`dirs, d`clock, d`sent, d`accepted, d`goal, d`began, d`log, d`losses
    ensures j == old(JobOf(d, tree, destPath, delete, checksum, exclude)).(offered := j.offered, seen := j.seen)
    ensures Contained(j, d.files, d.dirs) && ChangedAllowed(j.before, d.files, d.denied, d.allowed) && old(d.dirs) <= d.dirs
    ensures Spares(j, d.files, d.dirs)
    ensures dryRun || Harmless(j, d.dirs) ==> d.Valid()
    ensures dryRun || !tree.Dir? || !Allowed(place, denied, allowed) || NothingToDo(j) ==> d.files == j.before
    ensures ok ==> tree.Dir? && Allowed(place, denied, allowed) && Prepared(j) && Answered(j)
    ensures ok && !dryRun ==> Done(j, d.Now()) && Judged(j, d.Now())
    ensures !ok ==> !tree.Dir? || !Allowed(place, denied, allowed) || Hindered(j, d, old(d.losses), destPath)
    ensures ok ==> d.losses == old(d.losses) && (!dryRun ==> AllFound(j))
  {
    if tree.Dir? { NamedTree(tree.entries); }
    TreeHasNoRoot(tree);
    var walked := WalkDir(tree, place, denied, allowed, checksum, d.hash, exclude);
    if walked.None? {
      j := JobOf(d, tree, destPath, delete, checksum, exclude);
      NothingHappened(j, d.dirs, d.denied, d.allowed);
      ContainedSparesTheRest(j, d.files, d.dirs);
      ok := false;
      return;
    }
    ghost var hash := if checksum then Some(d.hash) else None;
    WalkIsManifest(tree.entries, walked.value, Rules(exclude), hash);
    ok, j := SyncFiles(d, TreeFiles(tree), walked.value, destPath, delete, checksum, dryRun, Rules(exclude), chunk);
  }

  /** A run, and what it means for both sides. */
  method SyncFiles(d: Destination, src: Files, srcManifest: seq<ManifestEntry>, destPath: string, delete: bool, checksum: bool,
                   dryRun: bool, skip: Exclusion, chunk: nat)
    returns (ok: bool, ghost j: Job)
    requires d.Valid() && Elsewhere(d.goal.Keys, Normal(destPath, d.cwd)) && PlainBase(destPath)
    requires Offered(src, srcManifest, skip, if checksum then Some(d.hash) else None)
    modifies d`files, d`dirs, d`clock, d`sent, d`accepted, d`goal, d`began, d`log, d`losses
    ensures j == old(JobNow(d, src, srcManifest, destPath, delete, checksum, skip)).(seen := j.seen)
    ensures Contained(j, d.files, d.dirs) && ChangedAllowed(j.before, d.files, d.denied, d.allowed) && old(d.dirs) <= d.dirs
    ensures Spares(j, d.files, d.dirs)
    ensures dryRun || NothingToDo(j) ==> d.files == j.before
    ensures dryRun || Harmless(j, d.dirs) ==> d.Valid()
    ensures ok && !dryRun ==> Done(j, d.Now()) && Judged(j, d.Now())
    ensures if ok then Answered(j) && d.losses == old(d.losses) && (!dryRun ==> AllFound(j)) else Hindered(j, d, old(d.losses), destPath)
  {
    ok, j := RunSync(d, src, srcManifest, destPath, delete, checksum, dryRun, skip, chunk);
    ContainedSparesTheRest(j, d.files, d.dirs);
    if ok && !dryRun { DoneIsJudged(j, d.Now()); }
  }

  /** The sync of a tree that starts now; lists and answers are still to come. */
  ghost function JobOf(d: Destination, tree: Node, destPath: string, delete: bool, checksum: bool, exclude: seq<string>): Job
    reads d
  {
    JobNow(d, TreeFiles(tree), [], destPath, delete, checksum, Rules(exclude))
  }

  /** Every source file up to date; without checksums of the same size; with checksums that tell contents apart the same contents;
      with `delete` the same paths, if the extras could be named. */
  ghost predicate InSync(j: Job, after: Files) {
    Mirrored(j, after) && (!j.checksum ==> SameSizes(j, after)) &&
    (j.checksum && j.hash.Some? && CollisionFree(j.hash.value) ==> SameContents(j, after)) &&
    (j.delete && Clearable(j) ==> SamePaths(j, after))
  }

  /** Unmasked and unstruck files are in sync, and the rest is as it was exactly when nothing
      outside is struck. */
  ghost predicate Judged(j: Job, w: World) {
    (Unmasked(j.before, j.root, j.src, j.skip) && NoneStruck(j, w.dirs) ==> InSync(j, w.files)) &&
    (RestUnchanged(j, w.files) <==> NoneOutside(j, w.dirs))
  }

  lemma DoneIsJudged(j: Job, w: World)
    requires Contained(j, w.files, w.dirs) && Answered(j) && Done(j, w) && [] !in j.src && Elsewhere(j.others, j.root)
    ensures Judged(j, w)
  {
    RestUnchangedExactly(j, w);
    if Unmasked(j.before, j.root, j.src, j.skip) && NoneStruck(j, w.dirs) {
      UnmaskedHidesNothing(j);
      NoExtrasMeansSamePaths(j, w.files);
      if !j.checksum { QuickCheckMirrorsSizes(j, w.files); }
      if j.checksum && j.hash.Some? && CollisionFree(j.hash.value) {
        ChecksumMirrorsContents(j, w.files, j.hash.value);
      }
    }
  }

  /** A tree whose files a sync can tell apart: between slashes and backslashes there are proper
      names, and no two files have the same relative path. */
  ghost predicate Syncable(tree: Node, skip: Exclusion) {
    tree.Dir? ==> ProperTree(tree.entries) && TameBelow(TreeFiles(tree), [], skip) && Apart(TreeFiles(tree), [], skip)
  }

  function TreeFiles(tree: Node): Files {
    match tree
    case Dir(entries) => FileMap(Walk.Files(entries, []))
    case _ => map[]
  }

  lemma TreeHasNoRoot(tree: Node)
    requires tree.Dir? ==> ProperTree(tree.entries)
    ensures [] !in TreeFiles(tree)
  {
    if tree.Dir? {
      FoundAreProper(tree.entries);
      RootIsNoFile(Walk.Files(tree.entries, []));
    }
  }

  /** Without backslashes in names nothing is in the way: no file is hidden or struck, and with
      `delete` all extras can be named. */
  lemma PlainNamesAreEasy(j: Job)
    requires PlainBelow(j.before, j.root, j.skip) && PlainBelow(j.src, [], j.skip)
    ensures TameBelow(j.src, [], j.skip) && Apart(j.src, [], j.skip)
    ensures Unmasked(j.before, j.root, j.src, j.skip) && TameExtras(j) && AllRemovable(j)
  {
    forall p | p != [] && PlainPath(p) ensures ReadBack(p) == p { RelPathSplits(p); }
    forall s | MustList(j.src, [], j.skip, s) ensures s in j.src { assert [] + s == s; }
  }

  /** Every directory that the path passes exists or is above its end: it climbs out of no missing one. */
  predicate Straight(path: string, cwd: Path, dirs: set<Path>) {
    Leads(path, cwd, dirs + Ancestors(Normal(path, cwd)) + {Normal(path, cwd)})
  }

  /** Such a root is found wherever there are files below it, */
  lemma StraightIsFound(path: string, cwd: Path, files: Files, dirs: set<Path>, below: Path)
    requires Straight(path, cwd, dirs) && SoundTree(files, dirs) && below != [] && Normal(path, cwd) + below in files
    ensures Finds(path, cwd, dirs)
  {
    var root := Normal(path, cwd);
    var q := root + below;
    forall k | 0 <= k <= |root| ensures root[..k] in Ancestors(q) { assert q[..k] == root[..k]; }
    assert root[..|root|] == root;
    assert dirs + Ancestors(root) + {root} == dirs;
  }

  /** so that extras are cleared exactly when they can be named. */
  lemma StraightIsClearable(j: Job, path: string, cwd: Path, dirs: set<Path>)
    requires Straight(path, cwd, dirs) && SoundTree(j.before, dirs)
    requires j.root == Normal(path, cwd) && (j.found <==> Finds(path, cwd, dirs))
    ensures Clearable(j) <==> AllRemovable(j)
  {
    forall below | MustList(j.before, j.root, j.skip, below) ensures j.found {
      StraightIsFound(path, cwd, j.before, dirs, below);
    }
  }

  // --- a sync and another one ---------------------------------------------------------------

  /** A file below the root after a run was there before, or is a source file. */
  lemma OldOrSent(j: Job, after: Files, dirs: set<Path>, path: Path)
    requires Contained(j, after, dirs) && Elsewhere(j.others, j.root)
    requires MustList(after, j.root, j.skip, path)
    ensures Held(j, path) || MustList(j.src, [], j.skip, path)
  {
    assert (j.root + path)[..|j.root|] == j.root;
    if j.root + path !in j.before {
      assert Changed(j.before, after, j.root + path);
      var p :| Wanted(j, p) && j.root + path == j.root + p;
      SameSuffix(j.root, path, p);
      assert [] + path == path;
    }
  }

  lemma StaysUnmasked(j: Job, after: Files, dirs: set<Path>)
    requires Contained(j, after, dirs) && Elsewhere(j.others, j.root)
    requires Apart(j.src, [], j.skip) && Unmasked(j.before, j.root, j.src, j.skip)
    ensures Unmasked(after, j.root, j.src, j.skip)
  {
    forall path | MustList(after, j.root, j.skip, path) ensures Held(j, path) || MustList(j.src, [], j.skip, path) {
      OldOrSent(j, after, dirs, path);
    }
  }

  /** Late slices neither add nor remove a file below the root, nor make one less up to date. */
  lemma LateSlicesKeepMirror(j: Job, w: World, v: World, hash: Hash)
    requires w.Valid(hash) && v.Valid(hash) && AllStreamed(w, j) && Follows(w, v) && Mirrored(j, w.files)
    ensures Mirrored(j, v.files)
    ensures forall path :: j.root + path in v.files <==> j.root + path in w.files
  {
    LateSlicesChangeNothing(j, w, v, hash);
    BelowByAppending(j.root);
    forall path | Wanted(j, path) ensures UpToDate(j, v.files, path) {
      var q := j.root + path;
      assert UpToDate(j, w.files, path);
      if q in w.goal {
        assert w.Arrived(q) && GoesTo(j, q, w.goal[q]);
        var p :| Wanted(j, p) && p != [] && q == j.root + p && w.goal[q] == j.src[p].content;
        SameSuffix(j.root, p, path);
        var s :| s in w.accepted && s.eof && s.path == q;
        assert v.Finished(s, hash) && v.InPlace(s);
      }
    }
  }

  /** A sync after which another has nothing to do, if it finds the root. */
  lemma NothingLeftToDo(j: Job, next: Job)
    requires Mirrored(j, next.before) && Repeats(j, next) && (j.checksum || NoneOlder(j, next.before))
    requires Unmasked(next.before, next.root, next.src, next.skip) && (next.delete ==> NoExtras(next, next.before))
    requires forall path :: Wanted(j, path) ==> next.found
    ensures NothingToDo(next)
  {
    forall path | Wanted(next, path)
      ensures next.found && next.root + path in next.before && !Differs(next, path)
    {
      assert Wanted(j, path) && UpToDate(j, next.before, path);
    }
  }

  /** In sync, and nothing in the way of another one. */
  ghost predicate AsLeft(j: Job, after: Files) {
    Mirrored(j, after) && Unmasked(after, j.root, j.src, j.skip) && (j.delete ==> NoExtras(j, after))
  }

  /** What a sync and all that is still under way after it leave. */
  lemma Settled(j: Job, w: World, v: World, hash: Hash)
    requires Contained(j, w.files, w.dirs) && Elsewhere(j.others, j.root) && Apart(j.src, [], j.skip)
    requires Unmasked(j.before, j.root, j.src, j.skip) && (j.delete ==> Clearable(j)) && NoneStruck(j, w.dirs)
    requires Done(j, w) && Judged(j, w) && w.Valid(hash) && v.Valid(hash) && Follows(w, v)
    ensures AsLeft(j, v.files)
  {
    StaysUnmasked(j, w.files, w.dirs);
    LateSlicesKeepMirror(j, w, v, hash);
    forall path ensures MustList(v.files, j.root, j.skip, path) <==> MustList(w.files, j.root, j.skip, path) {}
  }

  /** Extras that can be named are tame. */
  lemma ClearableIsTame(j: Job)
    requires (j.delete ==> Clearable(j)) && [] !in j.src
    ensures TameExtras(j)
  {
    forall path | AskedFor(j, path) ensures Tame(path) {
      AskedForIsExtra(j, path);
      RelPathSplits(path);
    }
  }

  /** All that is still under way after a sync, until nothing is. */
  method LetSettle(d: Destination, ghost j: Job)
    requires d.Valid() && Contained(j, d.files, d.dirs) && Elsewhere(j.others, j.root) && Apart(j.src, [], j.skip)
    requires Unmasked(j.before, j.root, j.src, j.skip) && (j.delete ==> Clearable(j)) && NoneStruck(j, d.dirs)
    requires Done(j, d.Now()) && Judged(j, d.Now())
    modifies d`files, d`dirs, d`clock, d`sent, d`accepted, d`goal, d`began
    ensures d.Valid() && old(d.dirs) <= d.dirs && d.goal == map[] && AsLeft(j, d.files)
  {
    ghost var w := d.Now();
    d.Interfere();
    Settled(j, w, d.Now(), d.hash);
    d.Settle();
  }

  /** A sync, and all that is still under way after it. */
  method SyncAndSettle(d: Destination, tree: Node, place: Path, denied: seq<Path>, allowed: seq<Path>, destPath: string, delete: bool,
                       checksum: bool, exclude: seq<string>, chunk: nat)
    returns (ok: bool, ghost j: Job)
    requires d.Valid() && Elsewhere(d.goal.Keys, Normal(destPath, d.cwd)) && PlainBase(destPath)
    requires Syncable(tree, Rules(exclude)) && Unmasked(d.files, Normal(destPath, d.cwd), TreeFiles(tree), Rules(exclude))
    requires delete ==> Clearable(JobOf(d, tree, destPath, delete, checksum, exclude))
    modifies d`files, d`dirs, d`clock, d`sent, d`accepted, d`goal, d`began, d`log, d`losses
    ensures d.Valid() && j == old(JobOf(d, tree, destPath, delete, checksum, exclude)).(offered := j.offered, seen := j.seen)
    ensures old(d.dirs) <= d.dirs && (ok ==> d.goal == map[] && AsLeft(j, d.files))
    ensures if ok then d.losses == old(d.losses) && tree.Dir? && Allowed(place, denied, allowed)
            else !tree.Dir? || !Allowed(place, denied, allowed) || Hindered(j, d, old(d.losses), destPath)
  {
    ok, j := SyncDir(d, tree, place, denied, allowed, destPath, delete, checksum, false, exclude, chunk);
    TreeHasNoRoot(tree);
    ClearableIsTame(j);
    if ok {
      LetSettle(d, j);
    }
  }

  lemma StraightMore(path: string, cwd: Path, dirs: set<Path>, more: set<Path>)
    requires Straight(path, cwd, dirs) && dirs <= more
    ensures Straight(path, cwd, more)
  {
    var root := Normal(path, cwd);
    LeadsMore(path, cwd, dirs + Ancestors(root) + {root}, more + Ancestors(root) + {root});
  }

  /** Sync, wait until nothing is under way any more, and sync again: if the first run succeeded
      and no destination file is older than its source, the second changes no file, whatever
      becomes of it. `j` and `next` are the two, `again` says whether the second succeeded. */
  method SyncTwice(d: Destination, tree: Node, place: Path, denied: seq<Path>, allowed: seq<Path>, destPath: string, delete: bool,
                   checksum: bool, exclude: seq<string>, chunk: nat)
    returns (ok: bool, again: bool, ghost j: Job, ghost next: Job)
    requires d.Valid() && Elsewhere(d.goal.Keys, Normal(destPath, d.cwd)) && PlainBase(destPath)
    requires Syncable(tree, Rules(exclude)) && Unmasked(d.files, Normal(destPath, d.cwd), TreeFiles(tree), Rules(exclude))
    requires delete ==> Clearable(JobOf(d, tree, destPath, delete, checksum, exclude))
    modifies d`files, d`dirs, d`clock, d`sent, d`accepted, d`goal, d`began, d`log, d`losses
    ensures d.Valid() && j == old(JobOf(d, tree, destPath, delete, checksum, exclude)).(offered := j.offered, seen := j.seen)
    ensures ok ==> Mirrored(j, next.before) && (!checksum ==> SameSizes(j, next.before)) && Repeats(j, next)
    ensures ok && (checksum || NoneOlder(j, next.before)) && old(Straight(destPath, d.cwd, d.dirs)) ==> d.files == next.before
    ensures ok ==> if again then Answered(next) && Done(next, d.Now()) else Hindered(next, d, old(d.losses), destPath)
    ensures !ok ==> !tree.Dir? || !Allowed(place, denied, allowed) || Hindered(j, d, old(d.losses), destPath)
  {
    ghost var d0 := d.dirs;
    ok, j := SyncAndSettle(d, tree, place, denied, allowed, destPath, delete, checksum, exclude, chunk);
    again, next := false, j;
    if !ok {
      return;
    }
    ghost var dirs := d.dirs;
    again, next := SyncDir(d, tree, place, denied, allowed, destPath, delete, checksum, false, exclude, chunk);
    TreeHasNoRoot(tree);
    ClearableIsTame(next);
    if !checksum { QuickCheckMirrorsSizes(j, next.before); }
    if (checksum || NoneOlder(j, next.before)) && Straight(destPath, d.cwd, d0) {
      StraightMore(destPath, d.cwd, d0, dirs);
      AgainNothing(j, next, destPath, d.cwd, dirs);
    }
  }

  lemma AgainNothing(j: Job, next: Job, destPath: string, cwd: Path, dirs: set<Path>)
    requires AsLeft(j, next.before) && Repeats(j, next) && next.delete == j.delete
    requires j.checksum || NoneOlder(j, next.before)
    requires Straight(destPath, cwd, dirs) && SoundTree(next.before, dirs) && [] !in j.src
    requires j.root == Normal(destPath, cwd) && (next.found <==> Finds(destPath, cwd, dirs))
    ensures NothingToDo(next)
  {
    forall path | Wanted(j, path) ensures next.found {
      assert UpToDate(j, next.before, path);
      StraightIsFound(destPath, cwd, next.before, dirs, path);
    }
    NothingLeftToDo(j, next);
  }
}
