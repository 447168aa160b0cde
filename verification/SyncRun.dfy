/**
 A whole folder sync (`run_sync` in crates/mcp-server/src/relay_controller.rs):
 ask the destination for its manifest, diff, stream every changed file, then
 delete the extras. The network of `Transfer` is at work throughout.
 */
module SyncRun {
  import opened Wrappers
  import opened Text
  import opened Paths
  import opened Walk
  import opened Transfer
  import opened Sync

  type Files = map<Path, FileRec>

  /** One sync. The files `src`, listed in `offered`, belong below `root` on a destination that
      holds the files `before` and has transfers to `others` behind it. At `since` it is asked for
      its manifest: `found` says whether its root is a directory, `seen` is the answer. */
  datatype Job = Job(src: Files, offered: seq<ManifestEntry>, skip: Exclusion, delete: bool, checksum: bool, hash: Option<Hash>,
                     root: Path, before: Files, others: set<Path>, since: nat, found: bool, seen: seq<ManifestEntry>)

  /** The sync that starts now; its answer is still to come. */
  ghost function JobNow(d: Destination, src: Files, offered: seq<ManifestEntry>, destPath: string, delete: bool, checksum: bool,
                        skip: Exclusion): Job
    reads d
  {
    Job(src, offered, skip, delete, checksum, if checksum then Some(d.hash) else None, Normal(destPath, d.cwd), d.files,
        d.goal.Keys, d.clock, Finds(destPath, d.cwd, d.dirs), [])
  }

  ghost function LineOf(files: Files, root: Path, path: Path, hash: Option<Hash>): ManifestEntry
    requires root + path in files
  {
    Line(Found(path, files[root + path].content, files[root + path].mtime), hash)
  }

  ghost function SourceLineOf(src: Files, path: Path, hash: Option<Hash>): ManifestEntry
    requires path in src
  {
    Line(Found(path, src[path].content, src[path].mtime), hash)
  }

  lemma SameSuffix(root: Path, p: Path, q: Path)
    requires root + p == root + q
    ensures p == q
  {
    assert p == (root + p)[|root|..] && q == (root + q)[|root|..];
  }

  // --- what a run guarantees ----------------------------------------------------------

  /** The source has the file, and it is not excluded. */
  ghost predicate Wanted(j: Job, path: Path) {
    path in j.src && !j.skip.file(RelPath(path))
  }

  /** The destination had a file that is not excluded there. */
  ghost predicate Held(j: Job, path: Path) {
    MustList(j.before, j.root, j.skip, path)
  }

  /** The destination's manifest makes the file look missing or outdated. */
  ghost predicate Needed(j: Job, path: Path)
    requires path in j.src
  {
    Needs(SourceLineOf(j.src, path, j.hash), LastFor(j.seen, RelPath(path)), j.checksum)
  }

  /** The destination's file itself is outdated. */
  ghost predicate Differs(j: Job, path: Path)
    requires path in j.src && j.root + path in j.before
  {
    Needs(SourceLineOf(j.src, path, j.hash), Some(LineOf(j.before, j.root, path, j.hash)), j.checksum)
  }

  /** The file was sent in this run, or what was there did not need sending. */
  ghost predicate UpToDate(j: Job, after: Files, path: Path)
    requires path in j.src
  {
    var q := j.root + path;
    q in after &&
    ((after[q].content == j.src[path].content && after[q].mtime >= j.since) ||
     (q in j.before && after[q] == j.before[q] && !Differs(j, path)))
  }

  /** Every source file that is not excluded is up to date on the destination. */
  ghost predicate Mirrored(j: Job, after: Files) {
    forall path :: Wanted(j, path) ==> UpToDate(j, after, path)
  }

  /** Whatever the destination's manifest makes look sent already was up to date to begin with. */
  ghost predicate NoneHidden(j: Job) {
    forall path :: Wanted(j, path) ==> Needed(j, path) || UpToDate(j, j.before, path)
  }

  /** Nothing that is not excluded lies below the root but what the source has. */
  ghost predicate NoExtras(j: Job, after: Files) {
    forall path :: MustList(after, j.root, j.skip, path) ==> path in j.src
  }

  /** An extra can be named for deletion: it has no backslash in its path, nor has the source a
      file with the same relative path. */
  ghost predicate AllRemovable(j: Job) {
    forall path :: Held(j, path) && path !in j.src ==> PlainPath(path) && !HasRel(j.src, [], j.skip, RelPath(path))
  }

  /** All extras can be named; without a root to be asked for there must be none. */
  ghost predicate Clearable(j: Job) {
    if j.found then AllRemovable(j) else NoExtras(j, j.before)
  }

  /** The relative path of this file is sent for deletion. */
  ghost predicate AskedFor(j: Job, path: Path) {
    j.delete && j.found && Held(j, path) && !HasRel(j.src, [], j.skip, RelPath(path))
  }

  /** Deletion is asked for at `q`: a relative path leads there from the root, over directories. */
  ghost predicate DoomedPlace(j: Job, dirs: set<Path>, q: Path) {
    exists path :: AskedFor(j, path) && Reaches(ReadBack(path), j.root, dirs) && q == Resolve(ReadBack(path), j.root)
  }

  ghost predicate SourcePlace(j: Job, q: Path) {
    exists path :: Wanted(j, path) && q == j.root + path
  }

  /** A destination file that is not excluded and that the source does not have. */
  ghost predicate ExtraPlace(j: Job, q: Path) {
    exists path :: Held(j, path) && path !in j.src && q == j.root + path
  }

  /** Deletion is asked for at no place of a source file, */
  ghost predicate NoneStruck(j: Job, dirs: set<Path>) {
    forall q :: DoomedPlace(j, dirs, q) ==> !SourcePlace(j, q)
  }

  /** nor at one of an earlier transfer. */
  ghost predicate Harmless(j: Job, dirs: set<Path>) {
    NoneStruck(j, dirs) && forall q :: DoomedPlace(j, dirs, q) ==> q !in j.others
  }

  /** What is asked to be deleted has proper names between slashes and backslashes. */
  ghost predicate TameExtras(j: Job) {
    forall path :: AskedFor(j, path) ==> Tame(path)
  }

  predicate Changed(before: Files, after: Files, q: Path) {
    if q in before then q !in after || after[q] != before[q] else q in after
  }

  /** Only places of source files are written, but for late slices of earlier transfers, and
      only files removed where deletion is asked for. */
  ghost predicate Contained(j: Job, after: Files, dirs: set<Path>) {
    forall q :: Changed(j.before, after, q) ==>
      if q in after then SourcePlace(j, q) || q in j.others else DoomedPlace(j, dirs, q)
  }

  /** Policy allows every place that changed. */
  ghost predicate ChangedAllowed(before: Files, after: Files, denied: seq<Path>, allowed: seq<Path>) {
    forall q :: Changed(before, after, q) ==> Allowed(q, denied, allowed)
  }

  /** A run would find every file as it should be, and nothing to delete. */
  ghost predicate NothingToDo(j: Job) {
    Unmasked(j.before, j.root, j.src, j.skip) && (j.delete ==> NoExtras(j, j.before)) &&
    forall path :: Wanted(j, path) ==> j.found && j.root + path in j.before && !Differs(j, path)
  }

  /** None of these places is below the root. */
  ghost predicate Elsewhere(places: set<Path>, root: Path) {
    forall q :: q in places ==> !Below(q, root)
  }

  // --- the destination's answers ---------------------------------------------------------

  /** The manifest request: lost, answered as missing unless the root is a directory,
      refused by policy, or answered with the files below the root. */
  method DirManifest(d: Destination, destPath: string, skip: Exclusion, withHash: bool)
    returns (reply: Option<(seq<ManifestEntry>, bool)>)
    modifies d`losses
    ensures old(d.losses) <= d.losses <= old(d.losses) + 1
    ensures reply.None? <==> d.losses > old(d.losses) ||
                             (Finds(destPath, d.cwd, d.dirs) && !Allowed(Normal(destPath, d.cwd), d.denied, d.allowed))
    ensures reply.Some? ==> (reply.value.1 <==> Finds(destPath, d.cwd, d.dirs))
    ensures reply.Some? ==>
              if reply.value.1 then
                Lists(reply.value.0, d.files, Normal(destPath, d.cwd), skip, if withHash then Some(d.hash) else None)
              else reply.value.0 == []
  {
    var lost: bool := *;
    if lost {
      d.losses := d.losses + 1;
      return None;
    }
    if !Finds(destPath, d.cwd, d.dirs) {
      return Some(([], false));
    }
    var root := Normalize(destPath, d.cwd);
    if !Allowed(root, d.denied, d.allowed) {
      return None;
    }
    ghost var hash := if withHash then Some(d.hash) else None;
    var entries: seq<ManifestEntry> := [];
    var todo := d.files.Keys;
    while todo != {}
      invariant todo <= d.files.Keys
      invariant ListsBut(entries, d.files, root, skip, hash, todo) && d.losses == old(d.losses)
      decreases todo
    {
      var q :| q in todo;
      ghost var before := todo;
      todo := todo - {q};
      if Below(q, root) && q != root {
        var path := q[|root|..];
        assert root + path == q;
        if !skip.file(RelPath(path)) {
          OneMoreLine(entries, LineOf(d.files, root, path, hash), d.files, root, skip, hash, before, path);
          entries := entries + [ManifestEntry(RelPath(path), |d.files[q].content|, d.files[q].mtime,
                                              if withHash then Some(d.hash(d.files[q].content)) else None)];
        } else {
          assert forall p :: (root + p)[|root|..] == p;
          NoLine(entries, d.files, root, skip, hash, before, q);
        }
      } else {
        BelowByAppending(root);
        NoLine(entries, d.files, root, skip, hash, before, q);
      }
    }
    assert Without(d.files, todo) == d.files;
    return Some((entries, true));
  }

  /** What the destination answers when it answers. */
  ghost predicate Answered(j: Job) {
    if j.found then Lists(j.seen, j.before, j.root, j.skip, j.hash) else j.seen == []
  }

  lemma BelowByAppending(root: Path)
    ensures forall p :: Below(root + p, root) && (root + p == root ==> p == [])
  {
    forall p ensures Below(root + p, root) && (root + p == root ==> p == []) {
      assert (root + p)[..|root|] == root;
    }
  }

  /** A manifest of all files below `root` except those in `todo`. */
  ghost predicate ListsBut(m: seq<ManifestEntry>, files: Files, root: Path, skip: Exclusion, hash: Option<Hash>, todo: set<Path>) {
    Lists(m, Without(files, todo), root, skip, hash)
  }

  function Without(files: Files, gone: set<Path>): Files {
    map q | q in files && q !in gone :: files[q]
  }

  lemma NoLine(m: seq<ManifestEntry>, files: Files, root: Path, skip: Exclusion, hash: Option<Hash>, todo: set<Path>, q: Path)
    requires ListsBut(m, files, root, skip, hash, todo) && q in todo
    requires forall path :: root + path == q ==> path == [] || skip.file(RelPath(path))
    ensures ListsBut(m, files, root, skip, hash, todo - {q})
  {
    var f0, f1 := Without(files, todo), Without(files, todo - {q});
    forall path ensures MustList(f0, root, skip, path) <==> MustList(f1, root, skip, path) {
      assert root + path == q ==> path == [] || skip.file(RelPath(path));
    }
    forall e | e in m ensures exists path :: MustList(f1, root, skip, path) && LineFor(e, f1, root, path, hash) {
      var path :| MustList(f0, root, skip, path) && LineFor(e, f0, root, path, hash);
      assert MustList(f1, root, skip, path) && LineFor(e, f1, root, path, hash);
    }
  }

  lemma OneMoreLine(m: seq<ManifestEntry>, line: ManifestEntry, files: Files, root: Path, skip: Exclusion, hash: Option<Hash>,
                    todo: set<Path>, path: Path)
    requires ListsBut(m, files, root, skip, hash, todo) && root + path in todo
    requires MustList(files, root, skip, path) && line == LineOf(files, root, path, hash)
    ensures ListsBut(m + [line], files, root, skip, hash, todo - {root + path})
  {
    var f0, f1, n := Without(files, todo), Without(files, todo - {root + path}), m + [line];
    assert MustList(f1, root, skip, path) && LineFor(line, f1, root, path, hash);
    forall e | e in n ensures exists p :: MustList(f1, root, skip, p) && LineFor(e, f1, root, p, hash) {
      if e in m {
        var p :| MustList(f0, root, skip, p) && LineFor(e, f0, root, p, hash);
        assert MustList(f1, root, skip, p) && LineFor(e, f1, root, p, hash);
      }
    }
    forall p | MustList(f1, root, skip, p) ensures LineOf(f1, root, p, hash) in n {
      if root + p == root + path {
        SameSuffix(root, p, path);
      } else {
        assert MustList(f0, root, skip, p) && LineOf(f0, root, p, hash) in m;
      }
    }
  }

  // --- the deletion request ------------------------------------------------------------

  /** The places that a list of paths leads to. */
  function Targets(paths: seq<string>, cwd: Path, dirs: set<Path>): set<Path> {
    set i | 0 <= i < |paths| && Leads(paths[i], cwd, dirs) :: Normal(paths[i], cwd)
  }

  /** The path ends the request: policy refuses it, or it leads through a file. */
  predicate Refused(path: string, cwd: Path, files: Files, dirs: set<Path>, denied: seq<Path>, allowed: seq<Path>) {
    !Allowed(Normal(path, cwd), denied, allowed) || Stuck(path, cwd, files.Keys, dirs)
  }

  /** What the first `n` paths leave of the files. */
  function LeftBy(paths: seq<string>, n: nat, files: Files, cwd: Path, dirs: set<Path>): Files
    requires n <= |paths|
  {
    files - Targets(paths[..n], cwd, dirs)
  }

  /** None of the first `n` paths ends the request. */
  ghost predicate Handled(paths: seq<string>, n: nat, files: Files, cwd: Path, dirs: set<Path>, denied: seq<Path>, allowed: seq<Path>)
    requires n <= |paths|
  {
    forall k :: 0 <= k < n ==> !Refused(paths[k], cwd, LeftBy(paths, k, files, cwd, dirs), dirs, denied, allowed)
  }

  /** One path of the request: only a file goes, a missing one and a directory are passed over. */
  method DeletePath(d: Destination, path: string) returns (ok: bool)
    modifies d`files
    ensures ok <==> !Refused(path, d.cwd, old(d.files), d.dirs, d.denied, d.allowed)
    ensures d.files == if ok && Leads(path, d.cwd, d.dirs) then old(d.files) - {Normal(path, d.cwd)} else old(d.files)
  {
    var q := Normalize(path, d.cwd);
    if !Allowed(q, d.denied, d.allowed) || Stuck(path, d.cwd, d.files.Keys, d.dirs) {
      return false;
    }
    if Leads(path, d.cwd, d.dirs) {
      d.files := d.files - {q};
    }
    return true;
  }

  /** `delete_paths` on the destination: the first path that is refused ends it. */
  method DeletePaths(d: Destination, paths: seq<string>) returns (ok: bool, ghost n: nat)
    modifies d`files
    ensures n <= |paths| && d.files == LeftBy(paths, n, old(d.files), d.cwd, d.dirs)
    ensures Handled(paths, n, old(d.files), d.cwd, d.dirs, d.denied, d.allowed)
    ensures if ok then n == |paths| else n < |paths| && Refused(paths[n], d.cwd, d.files, d.dirs, d.denied, d.allowed)
  {
    var i := 0;
    ghost var f0 := d.files;
    assert LeftBy(paths, 0, f0, d.cwd, d.dirs) == f0;
    while i < |paths|
      invariant 0 <= i <= |paths| && d.files == LeftBy(paths, i, f0, d.cwd, d.dirs)
      invariant Handled(paths, i, f0, d.cwd, d.dirs, d.denied, d.allowed)
    {
      ok := DeletePath(d, paths[i]);
      if !ok {
        return false, i;
      }
      TargetsGrow(paths, d.cwd, d.dirs, i);
      i := i + 1;
    }
    return true, i;
  }

  lemma TargetsGrow(paths: seq<string>, cwd: Path, dirs: set<Path>, i: nat)
    requires i <= |paths|
    ensures Targets(paths[..i], cwd, dirs) <= Targets(paths, cwd, dirs)
    ensures i < |paths| ==>
              Targets(paths[..i + 1], cwd, dirs) ==
              Targets(paths[..i], cwd, dirs) + if Leads(paths[i], cwd, dirs) then {Normal(paths[i], cwd)} else {}
  {
    forall j | 0 <= j < i ensures paths[..i][j] == paths[j] {}
    if i < |paths| {
      var more := paths[..i + 1];
      assert forall j :: 0 <= j < i ==> more[j] == paths[..i][j];
      assert more[i] == paths[i];
    }
  }

  // --- the transfers ----------------------------------------------------------------------

  /** Every transfer below the root has arrived. */
  ghost predicate Streamed(d: Destination, j: Job)
    reads d
  {
    d.Valid() && j.since <= d.clock && AllStreamed(d.Now(), j)
  }

  ghost predicate AllStreamed(w: World, j: Job) {
    w.began.Keys == w.goal.Keys &&
    forall q :: q in w.goal && Below(q, j.root) ==> w.Arrived(q) && w.began[q] >= j.since && GoesTo(j, q, w.goal[q])
  }

  /** `q` is where a source file with this content belongs. */
  ghost predicate GoesTo(j: Job, q: Path, content: Bytes) {
    exists path :: Wanted(j, path) && path != [] && q == j.root + path && content == j.src[path].content
  }

  /** The source's manifest, with each file's relative path its own. */
  ghost predicate Offered(src: Files, srcManifest: seq<ManifestEntry>, skip: Exclusion, hash: Option<Hash>) {
    Lists(srcManifest, src, [], skip, hash) && DistinctRels(srcManifest) &&
    TameBelow(src, [], skip) && Apart(src, [], skip) && [] !in src
  }

  ghost predicate Prepared(j: Job) {
    Offered(j.src, j.offered, j.skip, j.hash)
  }

  /** The file a line leads to. */
  function PathOf(e: ManifestEntry): Path {
    Split(e.relPath, '/')
  }

  /** Where the first `n` files of a list belong. */
  function Places(list: seq<ManifestEntry>, n: nat, root: Path): set<Path>
    requires n <= |list|
  {
    set k | 0 <= k < n :: root + PathOf(list[k])
  }

  /** A line leads to the file it was made from, or to none: a name with a backslash reads
      back as a path that the source does not have. */
  lemma SourceLine(j: Job, e: ManifestEntry)
    requires Prepared(j) && e in j.offered
    ensures var path := PathOf(e);
            path != [] && PlainPath(path) && RelPath(path) == e.relPath && !j.skip.file(e.relPath) &&
            (path in j.src ==> Wanted(j, path) && e == SourceLineOf(j.src, path, j.hash))
  {
    var p :| MustList(j.src, [], j.skip, p) && LineFor(e, j.src, [], p, j.hash);
    ReadBackIsPlain(p);
    assert [] + PathOf(e) == PathOf(e) && [] + p == p;
    assert PathOf(e) in j.src ==> MustList(j.src, [], j.skip, PathOf(e));
  }

  /** What is to be synced is on the list. */
  lemma WantedIsOffered(j: Job, path: Path)
    requires Prepared(j) && Wanted(j, path)
    ensures path != [] && SourceLineOf(j.src, path, j.hash) in j.offered && HasRel(j.src, [], j.skip, RelPath(path))
  {
    assert [] + path == path;
    assert MustList(j.src, [], j.skip, path);
  }

  /** Send one file of the plan. */
  method SendFile(d: Destination, src: Files, ghost j: Job, e: ManifestEntry, destPath: string, chunk: nat, ghost path: Path)
    returns (ok: bool)
    requires Streamed(d, j) && PlainBase(destPath) && j.root == Normal(destPath, d.cwd) && j.src == src
    requires Wanted(j, path) && path != [] && PlainPath(path) && j.root + path !in d.goal
    requires e == SourceLineOf(src, path, j.hash)
    modifies d`files, d`dirs, d`clock, d`sent, d`accepted, d`goal, d`began, d`log, d`losses
    ensures d.Valid() && d.goal.Keys == old(d.goal.Keys) + {j.root + path}
    ensures Wrote(old(d.Now()), d.Now(), j)
    ensures ok ==> Streamed(d, j)
    ensures d.losses >= old(d.losses) && (ok <==> d.losses == old(d.losses))
  {
    RelPathSplits(path);
    JoinIsWalked(destPath, e.relPath, d.cwd);
    ResolveAppends(path, j.root);
    var source := PathOf(e);
    var key := Normalize(JoinRemote(destPath, e.relPath), d.cwd);
    ghost var w := d.Now();
    var content := src[source].content;
    assert content[..Min(e.size, |content|)] == content;
    ok := StreamFile(d, key, content, chunk, e.size);
    if ok {
    }
  }

  /** Nothing but writes of transfers happened. */
  ghost predicate Wrote(w: World, v: World, j: Job) {
    w.dirs <= v.dirs && v.denied == w.denied && v.allowed == w.allowed &&
    OnlyWrote(w.files, v.files, v.goal.Keys, j.since) && WroteAllowed(w.files, v.files, v.denied, v.allowed)
  }

  lemma {:induction false} ToSendDistinct(src: seq<ManifestEntry>, dest: seq<ManifestEntry>, checksum: bool)
    requires DistinctRels(src)
    ensures DistinctRels(ToSend(src, dest, checksum))
  {
    if src != [] {
      var init := src[..|src| - 1];
      assert DistinctRels(init);
      ToSendDistinct(init, dest, checksum);
      ToSendNeeds(init, dest, checksum);
      forall e | e in ToSend(init, dest, checksum) ensures e.relPath != src[|src| - 1].relPath {
        var i :| 0 <= i < |init| && init[i] == e;
        assert src[i] == e && src[i].relPath != src[|src| - 1].relPath;
      }
      var t0, t := ToSend(init, dest, checksum), ToSend(src, dest, checksum);
      forall i, j | 0 <= i < j < |t| ensures t[i].relPath != t[j].relPath {
        assert t[i] == t0[i] && t0[i] in t0;
        assert t[j] == if j < |t0| then t0[j] else src[|src| - 1];
      }
    }
  }

  /** A part of what is offered, each line once. */
  ghost predicate Chosen(j: Job, list: seq<ManifestEntry>) {
    Prepared(j) && DistinctRels(list) && (forall e :: e in list ==> e in j.offered) && Elsewhere(j.others, j.root)
  }

  /** A file's place is not among those of the files before it, nor elsewhere. */
  lemma PlaceIsNew(j: Job, list: seq<ManifestEntry>, n: nat)
    requires Chosen(j, list) && n < |list|
    ensures j.root + PathOf(list[n]) !in Places(list, n, j.root) + j.others
  {
    BelowByAppending(j.root);
    forall k | 0 <= k < n ensures j.root + PathOf(list[k]) != j.root + PathOf(list[n]) {
      SourceLine(j, list[k]);
      SourceLine(j, list[n]);
      if j.root + PathOf(list[k]) == j.root + PathOf(list[n]) {
        SameSuffix(j.root, PathOf(list[k]), PathOf(list[n]));
      }
    }
  }

  /** The first `n` lines of a list led to source files. */
  predicate AllOpened(src: Files, list: seq<ManifestEntry>, n: nat)
    requires n <= |list|
  {
    forall k :: 0 <= k < n ==> PathOf(list[k]) in src
  }

  /** The first `n` files of a list were opened and sent, and nothing else happened. */
  ghost predicate SentSoFar(w: World, j: Job, list: seq<ManifestEntry>, n: nat) {
    n <= |list| && w.goal.Keys == Places(list, n, j.root) + j.others && AllOpened(j.src, list, n) &&
    (n == 0 ==> w.files == j.before) &&
    OnlyWrote(j.before, w.files, w.goal.Keys, j.since) && WroteAllowed(j.before, w.files, w.denied, w.allowed)
  }

  lemma OneMoreSent(w: World, v: World, j: Job, list: seq<ManifestEntry>, n: nat)
    requires SentSoFar(w, j, list, n) && n < |list| && PathOf(list[n]) in j.src
    requires v.goal.Keys == w.goal.Keys + {j.root + PathOf(list[n])} && Wrote(w, v, j)
    ensures SentSoFar(v, j, list, n + 1)
  {
    assert Places(list, n + 1, j.root) == Places(list, n, j.root) + {j.root + PathOf(list[n])};
  }

  /** The body of that loop. A line that leads to no file ends it. */
  method SendNth(d: Destination, src: Files, ghost j: Job, list: seq<ManifestEntry>, i: nat, destPath: string, chunk: nat)
    returns (ok: bool, ghost n: nat)
    requires PlainBase(destPath) && j.root == Normal(destPath, d.cwd) && j.src == src
    requires Chosen(j, list) && i < |list| && SentSoFar(d.Now(), j, list, i) && Streamed(d, j)
    modifies d`files, d`dirs, d`clock, d`sent, d`accepted, d`goal, d`began, d`log, d`losses
    ensures d.Valid() && SentSoFar(d.Now(), j, list, n) && old(d.dirs) <= d.dirs
    ensures ok ==> n == i + 1 && Streamed(d, j)
    ensures d.losses >= old(d.losses) && (ok <==> PathOf(list[i]) in src && d.losses == old(d.losses))
  {
    if PathOf(list[i]) !in src {
      return false, i;
    }
    SourceLine(j, list[i]);
    PlaceIsNew(j, list, i);
    ghost var w := d.Now();
    ok := SendFile(d, src, j, list[i], destPath, chunk, PathOf(list[i]));
    OneMoreSent(w, d.Now(), j, list, i);
    n := i + 1;
  }

  /** The loop over the plan's transfers. */
  method SendAll(d: Destination, src: Files, ghost j: Job, list: seq<ManifestEntry>, destPath: string, chunk: nat)
    returns (ok: bool, ghost n: nat)
    requires d.Valid() && PlainBase(destPath) && j.root == Normal(destPath, d.cwd) && j.src == src
    requires Chosen(j, list) && j.before == d.files && j.others == d.goal.Keys && j.since == d.clock
    modifies d`files, d`dirs, d`clock, d`sent, d`accepted, d`goal, d`began, d`log, d`losses
    ensures d.Valid() && SentSoFar(d.Now(), j, list, n) && old(d.dirs) <= d.dirs
    ensures ok ==> n == |list| && Streamed(d, j)
    ensures d.losses >= old(d.losses) && (ok <==> AllOpened(src, list, |list|) && d.losses == old(d.losses))
  {
    var i := 0;
    ok, n := true, 0;
    while i < |list|
      invariant ok && n == i <= |list| && SentSoFar(d.Now(), j, list, i) && Streamed(d, j) && old(d.dirs) <= d.dirs
      invariant d.losses >= old(d.losses) && d.losses == old(d.losses)
    {
      ok, n := SendNth(d, src, j, list, i, destPath, chunk);
      if !ok {
        return;
      }
      i := i + 1;
    }
  }

  /** The place of a file is among those sent only if its line is in the list. */
  lemma PlaceIsSent(j: Job, list: seq<ManifestEntry>, n: nat, path: Path)
    requires Chosen(j, list) && n <= |list| && AllOpened(j.src, list, n)
    ensures j.root + path in Places(list, n, j.root) ==> Wanted(j, path) && SourceLineOf(j.src, path, j.hash) in list
  {
    if j.root + path in Places(list, n, j.root) {
      var k :| 0 <= k < n && j.root + PathOf(list[k]) == j.root + path;
      SameSuffix(j.root, PathOf(list[k]), path);
      SourceLine(j, list[k]);
    }
  }

  lemma PlacesAreSources(j: Job, list: seq<ManifestEntry>, n: nat, q: Path)
    requires Chosen(j, list) && n <= |list| && AllOpened(j.src, list, n) && q in Places(list, n, j.root)
    ensures SourcePlace(j, q)
  {
    var k :| 0 <= k < n && j.root + PathOf(list[k]) == q;
    SourceLine(j, list[k]);
  }

  // --- where deletion strikes ----------------------------------------------------------------

  function RemotePaths(destPath: string, rels: seq<string>): seq<string> {
    seq(|rels|, i requires 0 <= i < |rels| => JoinRemote(destPath, rels[i]))
  }

  /** A relative path leads to the file's own names below the base, cut at backslashes, exactly
      when these are proper. */
  lemma RemotePlaceExactly(base: string, path: Path, cwd: Path)
    requires PlainBase(base)
    ensures Normal(JoinRemote(base, RelPath(path)), cwd) == Normal(base, cwd) + ReadBack(path) <==> Tame(path)
  {
    JoinStaysByProperNames(base, RelPath(path), cwd);
  }

  /** What deletion strikes, once it is through. */
  ghost predicate Struck(j: Job, dirs: set<Path>, gone: set<Path>) {
    forall q :: q in gone <==> DoomedPlace(j, dirs, q)
  }

  lemma ExtraLine(j: Job, rel: string)
    requires Prepared(j) && j.found && Answered(j)
    ensures rel in Extras(j.offered, j.seen) <==> HasRel(j.before, j.root, j.skip, rel) && !HasRel(j.src, [], j.skip, rel)
  {
    ExtrasMeans(j.offered, j.seen);
    NamesMeans(j.offered, j.src, [], j.skip, j.hash, rel);
    NamesMeans(j.seen, j.before, j.root, j.skip, j.hash, rel);
  }

  /** The destination asks for its relative paths from its root on. */
  lemma RemotePathLeads(j: Job, destPath: string, cwd: Path, dirs: set<Path>, path: Path)
    requires PlainBase(destPath) && j.root == Normal(destPath, cwd) && Leads(destPath, cwd, dirs)
    ensures var remote := JoinRemote(destPath, RelPath(path));
            Normal(remote, cwd) == Resolve(ReadBack(path), j.root) &&
            (Leads(remote, cwd, dirs) <==> Reaches(ReadBack(path), j.root, dirs))
  {
    JoinIsWalked(destPath, RelPath(path), cwd);
    JoinReaches(destPath, RelPath(path), cwd, dirs);
  }

  lemma TargetIsDoomed(j: Job, destPath: string, cwd: Path, dirs: set<Path>, rel: string)
    requires Prepared(j) && j.delete && j.found && Answered(j) && rel in Extras(j.offered, j.seen)
    requires PlainBase(destPath) && j.root == Normal(destPath, cwd) && Leads(destPath, cwd, dirs)
    requires Leads(JoinRemote(destPath, rel), cwd, dirs)
    ensures DoomedPlace(j, dirs, Normal(JoinRemote(destPath, rel), cwd))
  {
    ExtraLine(j, rel);
    var path :| MustList(j.before, j.root, j.skip, path) && RelPath(path) == rel;
    RemotePathLeads(j, destPath, cwd, dirs, path);
    assert AskedFor(j, path);
  }

  /** What the deletion request leads to: exactly the doomed places, whatever the names. */
  lemma TargetsAreDoomed(j: Job, destPath: string, cwd: Path, dirs: set<Path>, paths: seq<string>)
    requires Prepared(j) && j.delete && j.found && Answered(j)
    requires PlainBase(destPath) && j.root == Normal(destPath, cwd) && Leads(destPath, cwd, dirs)
    requires paths == RemotePaths(destPath, Extras(j.offered, j.seen))
    ensures Struck(j, dirs, Targets(paths, cwd, dirs))
  {
    var extras := Extras(j.offered, j.seen);
    forall q | q in Targets(paths, cwd, dirs) ensures DoomedPlace(j, dirs, q) {
      var i :| 0 <= i < |paths| && Leads(paths[i], cwd, dirs) && Normal(paths[i], cwd) == q;
      TargetIsDoomed(j, destPath, cwd, dirs, extras[i]);
    }
    forall q | DoomedPlace(j, dirs, q) ensures q in Targets(paths, cwd, dirs) {
      var path :| AskedFor(j, path) && Reaches(ReadBack(path), j.root, dirs) && q == Resolve(ReadBack(path), j.root);
      ExtraLine(j, RelPath(path));
      RemotePathLeads(j, destPath, cwd, dirs, path);
      var i :| 0 <= i < |extras| && extras[i] == RelPath(path);
      assert paths[i] == JoinRemote(destPath, RelPath(path));
    }
  }

  /** With tame extras, deletion strikes below the root, no source file, and nothing but extras. */
  lemma TameExtrasAreSafe(j: Job, dirs: set<Path>)
    requires TameExtras(j) && [] !in j.src && Elsewhere(j.others, j.root)
    ensures Harmless(j, dirs)
    ensures forall q :: DoomedPlace(j, dirs, q) ==> Below(q, j.root) && (q in j.before ==> ExtraPlace(j, q))
  {
    forall q | DoomedPlace(j, dirs, q)
      ensures !SourcePlace(j, q) && Below(q, j.root) && (q in j.before ==> ExtraPlace(j, q))
    {
      var path :| AskedFor(j, path) && Reaches(ReadBack(path), j.root, dirs) && q == Resolve(ReadBack(path), j.root);
      TameIsExtra(j, path);
    }
  }

  lemma TameIsExtra(j: Job, path: Path)
    requires AskedFor(j, path) && Tame(path) && [] !in j.src
    ensures var q := Resolve(ReadBack(path), j.root);
            q == j.root + ReadBack(path) && !SourcePlace(j, q) && Below(q, j.root) && (q in j.before ==> ExtraPlace(j, q))
  {
    var names := ReadBack(path);
    ReadBackIsPlain(path);
    ResolveAppends(names, j.root);
    BelowByAppending(j.root);
    assert [] + names == names;
    assert names in j.src ==> MustList(j.src, [], j.skip, names);
    forall p | j.root + p == j.root + names ensures p == names { SameSuffix(j.root, p, names); }
    if j.root + names in j.before { assert Held(j, names); }
  }

  // --- why the run mirrors -----------------------------------------------------------------

  /** The facts a run is judged by: `sent` are the files after the transfers. */
  ghost predicate Ran(j: Job, sent: Files, list: seq<ManifestEntry>, n: nat) {
    Chosen(j, list) && Answered(j) && n <= |list| && AllOpened(j.src, list, n) &&
    OnlyWrote(j.before, sent, Places(list, n, j.root) + j.others, j.since)
  }

  /** Transfers and deletions stay within their places. */
  lemma RunIsContained(j: Job, sent: Files, dirs: set<Path>, gone: set<Path>, list: seq<ManifestEntry>, n: nat)
    requires Ran(j, sent, list, n) && forall q :: q in gone ==> DoomedPlace(j, dirs, q)
    ensures Contained(j, sent - gone, dirs)
  {
    var after := sent - gone;
    forall q | Changed(j.before, after, q)
      ensures if q in after then SourcePlace(j, q) || q in j.others else DoomedPlace(j, dirs, q)
    {
      if q !in gone && q !in j.others {
        assert q in sent && q in Places(list, n, j.root);
        PlacesAreSources(j, list, n, q);
      }
    }
  }

  /** All transfers have arrived: what was needed, in `w`. */
  ghost predicate AllSent(j: Job, w: World, list: seq<ManifestEntry>) {
    list == ToSend(j.offered, j.seen, j.checksum) && Ran(j, w.files, list, |list|) &&
    w.goal.Keys == Places(list, |list|, j.root) + j.others && AllStreamed(w, j)
  }

  /** A run that is through mirrors exactly when its answer hid nothing and its deletions spare
      the source's files. */
  lemma RunMirrors(j: Job, w: World, list: seq<ManifestEntry>, gone: set<Path>, hash: Hash)
    requires AllSent(j, w, list) && w.Valid(hash) && Struck(j, w.dirs, gone)
    ensures Mirrored(j, w.files - gone) <==> NoneHidden(j) && NoneStruck(j, w.dirs)
  {
    var after := w.files - gone;
    forall path | Wanted(j, path) && j.root + path !in gone
      ensures UpToDate(j, after, path) <==> Needed(j, path) || UpToDate(j, j.before, path)
    {
      MirroredAt(j, w, list, gone, hash, path);
    }
    if Mirrored(j, after) {
      forall q | DoomedPlace(j, w.dirs, q) ensures !SourcePlace(j, q) {
        assert q !in after;
      }
    }
    forall path | Wanted(j, path) && (NoneStruck(j, w.dirs) || Mirrored(j, after)) ensures j.root + path !in gone {
      assert SourcePlace(j, j.root + path);
    }
  }

  lemma MirroredAt(j: Job, w: World, list: seq<ManifestEntry>, gone: set<Path>, hash: Hash, path: Path)
    requires AllSent(j, w, list) && w.Valid(hash) && Wanted(j, path) && j.root + path !in gone
    ensures UpToDate(j, w.files - gone, path) <==> Needed(j, path) || UpToDate(j, j.before, path)
  {
    ToSendNeeds(j.offered, j.seen, j.checksum);
    WantedIsOffered(j, path);
    if SourceLineOf(j.src, path, j.hash) in list {
      SentIsUpToDate(j, w, list, gone, hash, path);
    } else {
      UnsentIsAsBefore(j, w, list, path);
    }
  }

  /** A source file whose line was needed was opened, so it has no backslash, and has arrived. */
  lemma SentIsUpToDate(j: Job, w: World, list: seq<ManifestEntry>, gone: set<Path>, hash: Hash, path: Path)
    requires AllSent(j, w, list) && w.Valid(hash) && Wanted(j, path) && j.root + path !in gone
    requires SourceLineOf(j.src, path, j.hash) in list
    ensures UpToDate(j, w.files - gone, path)
  {
    var line, q := SourceLineOf(j.src, path, j.hash), j.root + path;
    SourceLine(j, line);
    var k :| 0 <= k < |list| && list[k] == line;
    OneRelPath(j, path, PathOf(line));
    BelowByAppending(j.root);
    assert q in w.goal;
    assert w.Arrived(q) && GoesTo(j, q, w.goal[q]);
    var p :| Wanted(j, p) && p != [] && q == j.root + p && w.goal[q] == j.src[p].content;
    SameSuffix(j.root, p, path);
    var s :| s in w.accepted && s.eof && s.path == q;
    assert w.Finished(s, hash) && w.InPlace(s);
  }

  lemma OneRelPath(j: Job, p: Path, q: Path)
    requires Prepared(j) && Wanted(j, p) && Wanted(j, q) && RelPath(p) == RelPath(q)
    ensures p == q
  {
    assert [] + p == p && [] + q == q;
    assert MustList(j.src, [], j.skip, p) && MustList(j.src, [], j.skip, q);
  }

  /** One whose line was not needed has the place it had, with what was there. */
  lemma UnsentIsAsBefore(j: Job, w: World, list: seq<ManifestEntry>, path: Path)
    requires AllSent(j, w, list) && Wanted(j, path) && SourceLineOf(j.src, path, j.hash) !in list
    ensures var q := j.root + path; (q in w.files <==> q in j.before) && (q in j.before ==> w.files[q] == j.before[q])
  {
    BelowByAppending(j.root);
    PlaceIsSent(j, list, |list|, path);
  }

  // --- why nothing is left over --------------------------------------------------------------

  /** A run that is through leaves nothing that the source does not have, if and only if all
      extras could be named. */
  lemma RunLeavesNoExtras(j: Job, w: World, list: seq<ManifestEntry>, gone: set<Path>, hash: Hash)
    requires AllSent(j, w, list) && w.Valid(hash) && j.delete && Struck(j, w.dirs, gone)
    ensures NoExtras(j, w.files - gone) <==> Clearable(j)
  {
    var after := w.files - gone;
    forall path | MustList(after, j.root, j.skip, path) && path !in j.src ensures Held(j, path) {}
    if j.found && AllRemovable(j) {
      forall path | Held(j, path) && path !in j.src ensures j.root + path in gone {
        RemovableIsStruck(j, w, path);
      }
    }
    if j.found && NoExtras(j, after) {
      forall path | Held(j, path) && path !in j.src ensures j.root + path in gone {
        assert MustList(after, j.root, j.skip, path) || j.root + path in gone;
      }
      AllGoneRemovable(j, w.dirs, gone);
    }
    if !j.found {
      assert forall q :: q !in gone;
      forall path | Held(j, path) ensures MustList(after, j.root, j.skip, path) {}
    }
  }

  /** A file that can be named is reached by its name. */
  lemma RemovableIsStruck(j: Job, w: World, path: Path)
    requires j.delete && j.found && Held(j, path) && PlainPath(path) && !HasRel(j.src, [], j.skip, RelPath(path))
    requires SoundTree(w.files, w.dirs) && j.root + path in w.files
    ensures DoomedPlace(j, w.dirs, j.root + path)
  {
    RelPathSplits(path);
    ResolveAppends(path, j.root);
    forall k | 0 <= k < |path| ensures IsDirectory(j.root + path[..k], w.dirs) {
      assert (j.root + path)[..|j.root| + k] == j.root + path[..k];
      assert j.root + path[..k] in Ancestors(j.root + path);
    }
    ReachesProper(path, j.root, w.dirs);
    assert AskedFor(j, path);
  }

  /** A walk keeps the names it starts from, up to a point, and adds plain ones. */
  lemma {:induction false} ResolvePlain(comps: seq<string>, at: Path)
    requires forall i :: 0 <= i < |comps| ==> '/' !in comps[i] && '\\' !in comps[i]
    ensures var end := Resolve(comps, at);
            forall i :: 0 <= i < |end| ==> (i < |at| && end[i] == at[i]) || PlainName(end[i])
  {
    if comps != [] {
      ResolvePlain(comps[1..], Enter(comps[0], at));
    }
  }

  /** No backslash below the root is ever asked for. */
  lemma DoomedIsPlain(j: Job, dirs: set<Path>, path: Path)
    requires DoomedPlace(j, dirs, j.root + path)
    ensures PlainPath(path)
  {
    var p :| AskedFor(j, p) && Reaches(ReadBack(p), j.root, dirs) && j.root + path == Resolve(ReadBack(p), j.root);
    PartsWithout(RelPath(p), '\\');
    SplitHasNoSeparator(RelPath(p), '/');
    ResolvePlain(ReadBack(p), j.root);
    forall i | 0 <= i < |path| ensures PlainName(path[i]) {
      assert (j.root + path)[|j.root| + i] == path[i];
    }
  }

  /** If all extras were struck, by whatever names, each could be named itself: those with other
      than proper names are never struck. */
  lemma AllGoneRemovable(j: Job, dirs: set<Path>, gone: set<Path>)
    requires Struck(j, dirs, gone) && forall path :: Held(j, path) && path !in j.src ==> j.root + path in gone
    requires [] !in j.src
    ensures AllRemovable(j)
  {
    forall path | Held(j, path) && path !in j.src ensures PlainPath(path) && !HasRel(j.src, [], j.skip, RelPath(path)) {
      DoomedIsPlain(j, dirs, path);
      var p :| AskedFor(j, p) && Reaches(ReadBack(p), j.root, dirs) && j.root + path == Resolve(ReadBack(p), j.root);
      AskedForIsExtra(j, p);
      DoomedIsPlain(j, dirs, p);
      RelPathSplits(p);
      ResolveAppends(p, j.root);
      SameSuffix(j.root, path, p);
    }
  }

  lemma AskedForIsExtra(j: Job, path: Path)
    requires AskedFor(j, path) && [] !in j.src
    ensures Held(j, path) && path !in j.src
  {
    assert [] + path == path;
    assert path in j.src ==> MustList(j.src, [], j.skip, path);
  }

  // --- the run ------------------------------------------------------------------------------

  /** One sync of the files `src` into `destPath`. Nothing else writes below the root meanwhile,
      and no slice of an earlier transfer there is under way. The destination's file names may be
      any; those of the source may have backslashes, with proper names around them. */
  method RunSync(d: Destination, src: Files, srcManifest: seq<ManifestEntry>, destPath: string, delete: bool, checksum: bool,
                 dryRun: bool, skip: Exclusion, chunk: nat)
    returns (ok: bool, ghost j: Job)
    requires d.Valid() && Elsewhere(d.goal.Keys, Normal(destPath, d.cwd)) && PlainBase(destPath)
    requires Offered(src, srcManifest, skip, if checksum then Some(d.hash) else None)
    modifies d`files, d`dirs, d`clock, d`sent, d`accepted, d`goal, d`began, d`log, d`losses
    ensures j == old(JobNow(d, src, srcManifest, destPath, delete, checksum, skip)).(seen := j.seen)
    ensures Contained(j, d.files, d.dirs) && ChangedAllowed(j.before, d.files, d.denied, d.allowed) && old(d.dirs) <= d.dirs
    ensures dryRun || NothingToDo(j) ==> d.files == j.before
    ensures dryRun || Harmless(j, d.dirs) ==> d.Valid()
    ensures ok ==> Answered(j)
    ensures ok && !dryRun ==> Done(j, d.Now())
    ensures d.losses >= old(d.losses) && (!ok ==> Hindered(j, d, old(d.losses), destPath))
    ensures ok ==> d.losses == old(d.losses) && (j.found ==> Allowed(j.root, d.denied, d.allowed)) && (!dryRun ==> AllFound(j))
  {
    var plan;
    plan, j := MakePlan(d, src, srcManifest, destPath, delete, checksum, skip);
    if plan.None? || dryRun {
      NothingHappened(j, d.dirs, d.denied, d.allowed);
      ok := plan.Some?;
      return;
    }
    ok := CarryOut(d, src, j, plan.value, destPath, delete, chunk);
  }

  /** Ask for the destination's manifest and compare. */
  method MakePlan(d: Destination, src: Files, srcManifest: seq<ManifestEntry>, destPath: string, delete: bool, checksum: bool,
                  skip: Exclusion)
    returns (plan: Option<Plan>, ghost j: Job)
    requires Offered(src, srcManifest, skip, if checksum then Some(d.hash) else None)
    modifies d`losses
    ensures j == JobNow(d, src, srcManifest, destPath, delete, checksum, skip).(seen := j.seen)
    ensures d.losses >= old(d.losses)
    ensures plan.None? <==> d.losses > old(d.losses) || (j.found && !Allowed(j.root, d.denied, d.allowed))
    ensures plan.Some? ==> Prepared(j) && Answered(j) && Planned(j, plan.value)
    ensures plan.Some? && NothingToDo(j) ==> plan.value.toTransfer == [] && plan.value.toDelete == []
  {
    j := JobNow(d, src, srcManifest, destPath, delete, checksum, skip);
    var reply := DirManifest(d, destPath, skip, checksum);
    if reply.None? {
      return None, j;
    }
    var destManifest, rootExists := reply.value.0, reply.value.1;
    j := j.(seen := destManifest);
    var p := DiffManifests(srcManifest, destManifest, rootExists, delete, checksum);
    NothingIsPlanned(j);
    plan := Some(p);
  }

  lemma NothingHappened(j: Job, dirs: set<Path>, denied: seq<Path>, allowed: seq<Path>)
    ensures Contained(j, j.before, dirs) && ChangedAllowed(j.before, j.before, denied, allowed)
  {}

  /** Every line that is to be sent leads to a source file. */
  ghost predicate AllFound(j: Job) {
    AllOpened(j.src, ToSend(j.offered, j.seen, j.checksum), |ToSend(j.offered, j.seen, j.checksum)|)
  }

  /** What makes a run fail: something was refused or not answered after the first `n`, or policy forbids
      the root, or a source file is not found by its line, or a deletion is not possible. */
  ghost predicate Hindered(j: Job, d: Destination, n: nat, destPath: string)
    reads d
  {
    d.losses > n || (j.found && !Allowed(j.root, d.denied, d.allowed)) || !AllFound(j) ||
    (j.delete && j.found && SomeRefused(RemotePaths(destPath, Extras(j.offered, j.seen)), d))
  }

  /** What a run that is through leaves behind. */
  ghost predicate Done(j: Job, w: World) {
    AllStreamed(w, j) &&
    (Mirrored(j, w.files) <==> NoneHidden(j) && NoneStruck(j, w.dirs)) &&
    (j.delete ==> (NoExtras(j, w.files) <==> Clearable(j))) &&
    forall q :: DoomedPlace(j, w.dirs, q) ==> q !in w.files
  }

  lemma NothingIsPlanned(j: Job)
    requires Prepared(j) && Answered(j)
    ensures NothingToDo(j) ==> ToSend(j.offered, j.seen, j.checksum) == []
    ensures NothingToDo(j) && j.delete && j.found ==> Extras(j.offered, j.seen) == []
  {
    if NothingToDo(j) {
      NothingIsSent(j);
      if j.delete && j.found {
        NothingIsDeleted(j);
      }
    }
  }

  lemma NothingIsDeleted(j: Job)
    requires Prepared(j) && j.found && Answered(j) && NoExtras(j, j.before)
    ensures Extras(j.offered, j.seen) == []
  {
    var extras := Extras(j.offered, j.seen);
    forall path | Held(j, path) ensures HasRel(j.src, [], j.skip, RelPath(path)) {
      WantedIsOffered(j, path);
    }
    if extras != [] {
      assert extras[0] in extras;
      ExtraLine(j, extras[0]);
    }
  }

  lemma NothingIsSent(j: Job)
    requires Prepared(j) && Answered(j) && NothingToDo(j)
    ensures ToSend(j.offered, j.seen, j.checksum) == []
  {
    ToSendNeeds(j.offered, j.seen, j.checksum);
    forall e | e in j.offered ensures !Needs(e, LastFor(j.seen, e.relPath), j.checksum) {
      var path :| MustList(j.src, [], j.skip, path) && LineFor(e, j.src, [], path, j.hash);
      assert [] + path == path && Wanted(j, path);
      OwnEntry(j.seen, j.before, j.root, j.skip, j.hash, path);
    }
    if ToSend(j.offered, j.seen, j.checksum) != [] {
      assert ToSend(j.offered, j.seen, j.checksum)[0] in ToSend(j.offered, j.seen, j.checksum);
    }
  }

  /** Unmasked files are not hidden: then a run that is through mirrors, if it strikes none. */
  lemma UnmaskedHidesNothing(j: Job)
    requires Answered(j) && Unmasked(j.before, j.root, j.src, j.skip) && [] !in j.src
    ensures NoneHidden(j)
  {
    forall path | Wanted(j, path) ensures Needed(j, path) || UpToDate(j, j.before, path) {
      assert [] + path == path;
      assert MustList(j.src, [], j.skip, path);
      if j.found { OwnEntry(j.seen, j.before, j.root, j.skip, j.hash, path); }
    }
  }

  /** Both loops of the run: the transfers, then the deletions. */
  method CarryOut(d: Destination, src: Files, ghost j: Job, plan: Plan, destPath: string, delete: bool, chunk: nat)
    returns (ok: bool)
    requires d.Valid() && PlainBase(destPath) && j.src == src && j.delete == delete && Prepared(j) && Answered(j)
    requires j.root == Normal(destPath, d.cwd) && (j.found ==> Leads(destPath, d.cwd, d.dirs)) && Elsewhere(j.others, j.root)
    requires j.before == d.files && j.others == d.goal.Keys && j.since == d.clock
    requires Planned(j, plan)
    modifies d`files, d`dirs, d`clock, d`sent, d`accepted, d`goal, d`began, d`log, d`losses
    ensures Contained(j, d.files, d.dirs) && ChangedAllowed(j.before, d.files, d.denied, d.allowed) && old(d.dirs) <= d.dirs
    ensures Harmless(j, d.dirs) ==> d.Valid()
    ensures plan.toTransfer == [] && plan.toDelete == [] ==> d.files == j.before
    ensures ok ==> Done(j, d.Now())
    ensures if ok then d.losses == old(d.losses) && AllFound(j) else Hindered(j, d, old(d.losses), destPath)
    ensures d.losses >= old(d.losses)
  {
    PlanIsChosen(j, plan.toTransfer);
    ghost var n;
    ok, n := SendAll(d, src, j, plan.toTransfer, destPath, chunk);
    if !ok {
      RunIsContained(j, d.files, d.dirs, {}, plan.toTransfer, n);
      assert d.files - {} == d.files;
      return;
    }
    if j.found { LeadsMore(destPath, d.cwd, old(d.dirs), d.dirs); }
    ok := DeleteExtras(d, j, plan, destPath, delete);
  }

  /** After the transfers. */
  method DeleteExtras(d: Destination, ghost j: Job, plan: Plan, destPath: string, delete: bool) returns (ok: bool)
    requires d.Valid() && PlainBase(destPath) && j.delete == delete && Planned(j, plan)
    requires j.root == Normal(destPath, d.cwd) && (j.found ==> Leads(destPath, d.cwd, d.dirs))
    requires AllSent(j, d.Now(), plan.toTransfer) && SentSoFar(d.Now(), j, plan.toTransfer, |plan.toTransfer|)
    modifies d`files, d`losses
    ensures Contained(j, d.files, d.dirs) && ChangedAllowed(j.before, d.files, d.denied, d.allowed)
    ensures Harmless(j, d.dirs) ==> d.Valid()
    ensures plan.toTransfer == [] && plan.toDelete == [] ==> d.files == j.before
    ensures ok ==> Done(j, d.Now())
    ensures if ok then d.losses == old(d.losses)
            else d.losses > old(d.losses) || (j.delete && j.found && SomeRefused(RemotePaths(destPath, plan.toDelete), d))
    ensures d.losses >= old(d.losses)
  {
    ghost var w, gone := d.Now(), {};
    DoomedByPlan(j, plan, destPath, d.cwd, d.dirs);
    ok, gone := Finish(d, plan, destPath, delete);
    RunMeans(j, w, plan.toTransfer, gone, d.hash, ok);
    assert d.Now() == w.(files := w.files - gone);
  }

  /** The diff of both manifests. */
  ghost predicate Planned(j: Job, plan: Plan) {
    plan.toTransfer == ToSend(j.offered, j.seen, j.checksum) &&
    plan.toDelete == if j.delete && j.found then Extras(j.offered, j.seen) else []
  }

  lemma PlanIsChosen(j: Job, list: seq<ManifestEntry>)
    requires Prepared(j) && list == ToSend(j.offered, j.seen, j.checksum) && Elsewhere(j.others, j.root)
    ensures Chosen(j, list)
  {
    ToSendNeeds(j.offered, j.seen, j.checksum);
    ToSendDistinct(j.offered, j.seen, j.checksum);
  }

  ghost predicate AllAllowed(places: set<Path>, denied: seq<Path>, allowed: seq<Path>) {
    forall q :: q in places ==> Allowed(q, denied, allowed)
  }

  /** The deletion request: lost, or handled up to some point; its answer may be lost. */
  method RequestDeletion(d: Destination, paths: seq<string>) returns (ok: bool, ghost gone: set<Path>)
    modifies d`files, d`losses
    ensures d.files == old(d.files) - gone && AllAllowed(gone, d.denied, d.allowed)
    ensures gone <= Targets(paths, d.cwd, d.dirs) && (ok ==> gone == Targets(paths, d.cwd, d.dirs))
    ensures old(d.losses) <= d.losses <= old(d.losses) + 1
    ensures if ok then d.losses == old(d.losses) else d.losses > old(d.losses) || SomeRefused(paths, d)
  {
    var lost: bool := *;
    if lost {
      d.losses := d.losses + 1;
      assert d.files - {} == d.files;
      return false, {};
    }
    ghost var n;
    ok, n := DeletePaths(d, paths);
    TargetsGrow(paths, d.cwd, d.dirs, n);
    gone := Targets(paths[..n], d.cwd, d.dirs);
    assert paths[..|paths|] == paths;
    var answered: bool := *;
    if !answered {
      d.losses := d.losses + 1;
      ok := false;
    }
  }

  /** One of the paths ends the request, with the files that are there now. */
  ghost predicate SomeRefused(paths: seq<string>, d: Destination)
    reads d
  {
    exists i :: 0 <= i < |paths| && Refused(paths[i], d.cwd, d.files, d.dirs, d.denied, d.allowed)
  }

  /** The places a plan deletes. */
  function Doomed(plan: Plan, destPath: string, delete: bool, cwd: Path, dirs: set<Path>): set<Path> {
    if delete then Targets(RemotePaths(destPath, plan.toDelete), cwd, dirs) else {}
  }

  /** The last step: ask for the extras to be deleted, if there are any. */
  method Finish(d: Destination, plan: Plan, destPath: string, delete: bool) returns (ok: bool, ghost gone: set<Path>)
    modifies d`files, d`losses
    ensures d.files == old(d.files) - gone && AllAllowed(gone, d.denied, d.allowed)
    ensures plan.toDelete == [] ==> gone == {}
    ensures var doomed := Doomed(plan, destPath, delete, d.cwd, d.dirs); gone <= doomed && (ok ==> gone == doomed)
    ensures d.losses >= old(d.losses) && (ok ==> d.losses == old(d.losses))
    ensures !ok ==> d.losses > old(d.losses) || (delete && plan.toDelete != [] && SomeRefused(RemotePaths(destPath, plan.toDelete), d))
  {
    if delete && plan.toDelete != [] {
      ok, gone := RequestDeletion(d, RemotePaths(destPath, plan.toDelete));
    } else {
      ok, gone := true, {};
      assert d.files - {} == d.files;
      assert RemotePaths(destPath, []) == [];
    }
  }

  lemma DoomedByPlan(j: Job, plan: Plan, destPath: string, cwd: Path, dirs: set<Path>)
    requires Prepared(j) && Answered(j) && Planned(j, plan) && PlainBase(destPath) && j.root == Normal(destPath, cwd)
    requires j.found ==> Leads(destPath, cwd, dirs)
    ensures Struck(j, dirs, Doomed(plan, destPath, j.delete, cwd, dirs))
  {
    if j.delete && j.found {
      TargetsAreDoomed(j, destPath, cwd, dirs, RemotePaths(destPath, plan.toDelete));
    }
  }

  /** What the transfers and the deletions add up to. */
  lemma RunMeans(j: Job, w: World, list: seq<ManifestEntry>, gone: set<Path>, hash: Hash, ok: bool)
    requires AllSent(j, w, list) && w.Valid(hash) && SentSoFar(w, j, list, |list|) && AllAllowed(gone, w.denied, w.allowed)
    requires forall q :: q in gone ==> DoomedPlace(j, w.dirs, q)
    requires ok ==> Struck(j, w.dirs, gone)
    ensures Contained(j, w.files - gone, w.dirs) && ChangedAllowed(j.before, w.files - gone, w.denied, w.allowed)
    ensures Harmless(j, w.dirs) ==> w.(files := w.files - gone).Valid(hash)
    ensures ok ==> Done(j, w.(files := w.files - gone))
  {
    RunIsContained(j, w.files, w.dirs, gone, list, |list|);
    if Harmless(j, w.dirs) {
      HarmlessSparesGoals(j, w, list, gone);
    }
    if ok {
      RunMirrors(j, w, list, gone, hash);
      if j.delete {
        RunLeavesNoExtras(j, w, list, gone, hash);
      }
    }
  }

  lemma HarmlessSparesGoals(j: Job, w: World, list: seq<ManifestEntry>, gone: set<Path>)
    requires AllSent(j, w, list) && Harmless(j, w.dirs) && forall q :: q in gone ==> DoomedPlace(j, w.dirs, q)
    ensures gone !! w.goal.Keys
  {
    forall q | q in Places(list, |list|, j.root) ensures SourcePlace(j, q) {
      PlacesAreSources(j, list, |list|, q);
    }
  }
}
