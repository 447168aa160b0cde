/**
 Folder sync: the manifest diff (crates/mcp-server/src/sync.rs) and the run that
 carries it out (`run_sync` in crates/mcp-server/src/relay_controller.rs).
 */
module Sync {
  import opened Wrappers
  import opened Text
  import opened Paths
  import opened Walk
  import opened Transfer

  datatype Plan = Plan(toTransfer: seq<ManifestEntry>, toDelete: seq<string>)

  // --- the diff -------------------------------------------------------------------

  /** The destination's entry for a relative path; a map keeps the last of several. */
  function LastFor(dest: seq<ManifestEntry>, rel: string): Option<ManifestEntry> {
    if dest == [] then None
    else if dest[|dest| - 1].relPath == rel then Some(dest[|dest| - 1])
    else LastFor(dest[..|dest| - 1], rel)
  }

  /** Whether a source file has to be sent, given what the destination has. */
  predicate Needs(s: ManifestEntry, d: Option<ManifestEntry>, checksum: bool) {
    match d
    case None => true
    case Some(e) =>
      if checksum then
        s.sha256.None? || e.sha256.None? || !SameLetters(s.sha256.value, e.sha256.value)
      else s.size != e.size || s.mtime > e.mtime
  }

  function ToSend(src: seq<ManifestEntry>, dest: seq<ManifestEntry>, checksum: bool): seq<ManifestEntry> {
    if src == [] then []
    else
      ToSend(src[..|src| - 1], dest, checksum)
      + if Needs(src[|src| - 1], LastFor(dest, src[|src| - 1].relPath), checksum) then [src[|src| - 1]] else []
  }

  predicate Names(m: seq<ManifestEntry>, rel: string) {
    exists e :: e in m && e.relPath == rel
  }

  function Extras(src: seq<ManifestEntry>, dest: seq<ManifestEntry>): seq<string> {
    if dest == [] then []
    else
      Extras(src, dest[..|dest| - 1])
      + if Names(src, dest[|dest| - 1].relPath) then [] else [dest[|dest| - 1].relPath]
  }

  method DiffManifests(src: seq<ManifestEntry>, dest: seq<ManifestEntry>, rootExists: bool, delete: bool, checksum: bool)
    returns (plan: Plan)
    ensures plan.toTransfer == ToSend(src, dest, checksum)
    ensures plan.toDelete == if delete && rootExists then Extras(src, dest) else []
  {
    var destBy: map<string, ManifestEntry> := map[];
    var i := 0;
    while i < |dest|
      invariant 0 <= i <= |dest|
      invariant forall rel :: rel in destBy <==> LastFor(dest[..i], rel).Some?
      invariant forall rel :: rel in destBy ==> LastFor(dest[..i], rel) == Some(destBy[rel])
    {
      assert dest[..i + 1][..i] == dest[..i];
      destBy := destBy[dest[i].relPath := dest[i]];
      i := i + 1;
    }
    assert dest[..i] == dest;
    var toTransfer: seq<ManifestEntry> := [];
    i := 0;
    while i < |src|
      invariant 0 <= i <= |src|
      invariant toTransfer == ToSend(src[..i], dest, checksum)
    {
      assert src[..i + 1][..i] == src[..i];
      var s := src[i];
      if Needs(s, if s.relPath in destBy then Some(destBy[s.relPath]) else None, checksum) {
        toTransfer := toTransfer + [s];
      }
      i := i + 1;
    }
    assert src[..i] == src;
    var toDelete: seq<string> := [];
    if delete && rootExists {
      var srcSet := set e | e in src :: e.relPath;
      i := 0;
      while i < |dest|
        invariant 0 <= i <= |dest|
        invariant toDelete == Extras(src, dest[..i])
      {
        assert dest[..i + 1][..i] == dest[..i];
        if dest[i].relPath !in srcSet {
          toDelete := toDelete + [dest[i].relPath];
        }
        i := i + 1;
      }
      assert dest[..i] == dest;
    }
    plan := Plan(toTransfer, toDelete);
  }

  /** `d` passes for a copy of `s`: by checksum, both there and the same but for the case of letters;
      else by its size and a time that is not before that of `s`. */
  predicate PassesFor(d: ManifestEntry, s: ManifestEntry, checksum: bool) {
    if checksum then d.sha256.Some? && s.sha256.Some? && EqualButCase(d.sha256.value, s.sha256.value)
    else d.size == s.size && d.mtime >= s.mtime
  }

  lemma {:induction false} ToSendNeeds(src: seq<ManifestEntry>, dest: seq<ManifestEntry>, checksum: bool)
    ensures forall e :: e in ToSend(src, dest, checksum) <==> e in src && Needs(e, LastFor(dest, e.relPath), checksum)
  {
    if src != [] {
      ToSendNeeds(src[..|src| - 1], dest, checksum);
      assert src == src[..|src| - 1] + [src[|src| - 1]];
    }
  }

  /** What is sent: the lines for which the destination's last entry is missing or does not pass. */
  lemma ToSendMeans(src: seq<ManifestEntry>, dest: seq<ManifestEntry>, checksum: bool)
    ensures forall e :: e in ToSend(src, dest, checksum) <==>
              e in src && !(LastFor(dest, e.relPath).Some? && PassesFor(LastFor(dest, e.relPath).value, e, checksum))
  {
    ToSendNeeds(src, dest, checksum);
    NeedsMeans(checksum);
  }

  lemma NeedsMeans(checksum: bool)
    ensures forall s, d :: Needs(s, d, checksum) <==> !(d.Some? && PassesFor(d.value, s, checksum))
  {
    forall s: ManifestEntry, d: Option<ManifestEntry>
      ensures Needs(s, d, checksum) <==> !(d.Some? && PassesFor(d.value, s, checksum))
    {
      if d.Some? && s.sha256.Some? && d.value.sha256.Some? {
        SameLettersMeans(s.sha256.value, d.value.sha256.value);
        SameLettersMeans(d.value.sha256.value, s.sha256.value);
      }
    }
  }

  lemma {:induction false} ExtrasMeans(src: seq<ManifestEntry>, dest: seq<ManifestEntry>)
    ensures forall rel :: rel in Extras(src, dest) <==> Names(dest, rel) && !Names(src, rel)
  {
    if dest != [] {
      var init, last := dest[..|dest| - 1], dest[|dest| - 1];
      ExtrasMeans(src, init);
      assert dest == init + [last];
      forall rel ensures Names(dest, rel) <==> Names(init, rel) || last.relPath == rel {
        if Names(init, rel) {
          var e :| e in init && e.relPath == rel;
          assert e in dest;
        }
        if last.relPath == rel { assert last in dest; }
      }
    }
  }

  /** No source path is ever deleted; in particular nothing is both sent and deleted. */
  lemma PlanIsConsistent(src: seq<ManifestEntry>, dest: seq<ManifestEntry>, e: ManifestEntry)
    requires e in src
    ensures e.relPath !in Extras(src, dest)
  {
    ExtrasMeans(src, dest);
  }

  // --- manifests ----------------------------------------------------------------------

  /** A name that manifests carry unchanged. */
  predicate PlainName(name: string) {
    ProperName(name) && '\\' !in name
  }

  predicate PlainPath(path: Path) {
    forall i :: 0 <= i < |path| ==> PlainName(path[i])
  }

  lemma {:induction false} RelPathIsJoin(path: Path)
    requires PlainPath(path)
    ensures RelPath(path) == Join(path, '/')
  {
    JoinHasNoBackslash(path);
  }

  lemma {:induction false} JoinHasNoBackslash(path: Path)
    requires PlainPath(path)
    ensures '\\' !in Join(path, '/')
  {
    if |path| > 1 { JoinHasNoBackslash(path[1..]); }
  }

  /** What a manifest path reads back as: the names again, cut at backslashes too. */
  function ReadBack(path: Path): Path {
    Split(RelPath(path), '/')
  }

  /** A manifest path leads back to the file it was made from. */
  lemma RelPathSplits(path: Path)
    requires path != [] && PlainPath(path)
    ensures ReadBack(path) == path
  {
    RelPathIsJoin(path);
    SplitJoin(path, '/');
  }

  lemma {:induction false} PartsWithout(s: string, c: char)
    requires c !in s
    ensures forall i :: 0 <= i < |Split(s, '/')| ==> c !in Split(s, '/')[i]
  {
    if s != "" { PartsWithout(s[1..], c); }
  }

  /** It does so exactly when no name has a backslash: manifests write those as `/`. */
  lemma RelPathLeadsBackExactly(path: Path)
    requires path != [] && Proper(path)
    ensures ReadBack(path) == path <==> PlainPath(path)
  {
    PartsWithout(RelPath(path), '\\');
    if PlainPath(path) { RelPathSplits(path); }
  }

  /** Between slashes and backslashes there are only proper names. */
  predicate Tame(path: Path) {
    Proper(ReadBack(path))
  }

  /** What a tame path reads back as has no backslash any more, and the same relative path. */
  lemma ReadBackIsPlain(path: Path)
    requires Tame(path)
    ensures ReadBack(path) != [] && PlainPath(ReadBack(path)) && RelPath(ReadBack(path)) == RelPath(path)
  {
    PartsWithout(RelPath(path), '\\');
    RelPathIsJoin(ReadBack(path));
    JoinSplit(RelPath(path), '/');
  }

  /** `e` is the manifest line of the file at `path` below `root`. */
  ghost predicate LineFor(e: ManifestEntry, files: map<Path, FileRec>, root: Path, path: Path, hash: Option<Hash>) {
    root + path in files && e == Line(Found(path, files[root + path].content, files[root + path].mtime), hash)
  }

  /** A file a manifest has to list. */
  ghost predicate MustList(files: map<Path, FileRec>, root: Path, skip: Exclusion, path: Path) {
    path != [] && root + path in files && !skip.file(RelPath(path))
  }

  /** `m` lists exactly the files below `root` that are not excluded. */
  ghost predicate Lists(m: seq<ManifestEntry>, files: map<Path, FileRec>, root: Path, skip: Exclusion, hash: Option<Hash>) {
    (forall e :: e in m ==> exists path :: MustList(files, root, skip, path) && LineFor(e, files, root, path, hash)) &&
    forall path :: MustList(files, root, skip, path) ==>
      Line(Found(path, files[root + path].content, files[root + path].mtime), hash) in m
  }

  predicate DistinctRels(m: seq<ManifestEntry>) {
    forall i, j :: 0 <= i < j < |m| ==> m[i].relPath != m[j].relPath
  }

  /** No listed file has a backslash in its name. */
  ghost predicate PlainBelow(files: map<Path, FileRec>, root: Path, skip: Exclusion) {
    forall path :: MustList(files, root, skip, path) ==> PlainPath(path)
  }

  /** If one has, it has proper names around it. */
  ghost predicate TameBelow(files: map<Path, FileRec>, root: Path, skip: Exclusion) {
    forall path :: MustList(files, root, skip, path) ==> Tame(path)
  }

  /** No two listed files have the same relative path. */
  ghost predicate Apart(files: map<Path, FileRec>, root: Path, skip: Exclusion) {
    forall p, q :: MustList(files, root, skip, p) && MustList(files, root, skip, q) && RelPath(p) == RelPath(q) ==> p == q
  }

  /** No listed destination file has the relative path of a source file, but the one at its place. */
  ghost predicate Unmasked(files: map<Path, FileRec>, root: Path, src: map<Path, FileRec>, skip: Exclusion) {
    forall p, s :: MustList(files, root, skip, p) && MustList(src, [], skip, s) && RelPath(p) == RelPath(s) ==> p == s
  }

  ghost predicate HasRel(files: map<Path, FileRec>, root: Path, skip: Exclusion, rel: string) {
    exists path :: MustList(files, root, skip, path) && RelPath(path) == rel
  }

  lemma NamesMeans(m: seq<ManifestEntry>, files: map<Path, FileRec>, root: Path, skip: Exclusion, hash: Option<Hash>, rel: string)
    requires Lists(m, files, root, skip, hash)
    ensures Names(m, rel) <==> HasRel(files, root, skip, rel)
  {
    if Names(m, rel) {
      var e :| e in m && e.relPath == rel;
      var path :| MustList(files, root, skip, path) && LineFor(e, files, root, path, hash);
    }
    if HasRel(files, root, skip, rel) {
      var path :| MustList(files, root, skip, path) && RelPath(path) == rel;
      assert Line(Found(path, files[root + path].content, files[root + path].mtime), hash) in m;
    }
  }

  /** Where no other listed file has its relative path, a file's entry is the one found by it. */
  lemma OwnEntry(m: seq<ManifestEntry>, files: map<Path, FileRec>, root: Path, skip: Exclusion, hash: Option<Hash>, path: Path)
    requires Lists(m, files, root, skip, hash) && path != [] && !skip.file(RelPath(path))
    requires forall p :: MustList(files, root, skip, p) && RelPath(p) == RelPath(path) ==> p == path
    ensures LastFor(m, RelPath(path)) ==
            if root + path in files then Some(Line(Found(path, files[root + path].content, files[root + path].mtime), hash)) else None
  {
    var rel := RelPath(path);
    LastForMeans(m, rel);
    NamesMeans(m, files, root, skip, hash, rel);
    assert root + path in files ==> MustList(files, root, skip, path);
    if LastFor(m, rel).Some? {
      var e := LastFor(m, rel).value;
      var p :| MustList(files, root, skip, p) && LineFor(e, files, root, p, hash);
    }
  }

  lemma {:induction false} LastForMeans(m: seq<ManifestEntry>, rel: string)
    ensures LastFor(m, rel).Some? <==> Names(m, rel)
    ensures LastFor(m, rel).Some? ==> LastFor(m, rel).value in m && LastFor(m, rel).value.relPath == rel
  {
    if m != [] {
      var init, last := m[..|m| - 1], m[|m| - 1];
      LastForMeans(init, rel);
      assert m == init + [last];
      if last.relPath == rel { assert last in m; }
      if Names(init, rel) {
        var e :| e in init && e.relPath == rel;
        assert e in m;
      }
    }
  }
}
