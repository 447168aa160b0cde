/**
 A walked tree as a manifest: for a tree of proper, distinct names the walk's list is
 exactly a manifest of the tree's files.
 */
module WalkManifest {
  import opened Wrappers
  import opened Paths
  import opened Walk
  import opened Transfer
  import opened Sync

  /** Names as a file system guarantees them. */
  ghost predicate ProperTree(entries: seq<Entry>)
    decreases entries
  {
    (forall i :: 0 <= i < |entries| ==>
       ProperName(entries[i].name) && (entries[i].node.Dir? ==> ProperTree(entries[i].node.entries))) &&
    (forall i, j :: 0 <= i < j < |entries| ==> entries[i].name != entries[j].name)
  }

  predicate Distinct(files: seq<Found>) {
    forall i, j :: 0 <= i < j < |files| ==> files[i].path != files[j].path
  }

  function FileMap(files: seq<Found>): map<Path, FileRec> {
    if files == [] then map[]
    else FileMap(files[1..])[files[0].path := FileRec(files[0].content, files[0].mtime)]
  }

  lemma {:induction false} NamedTree(entries: seq<Entry>)
    requires ProperTree(entries)
    ensures Named(entries)
    decreases entries
  {
    forall i | 0 <= i < |entries| && entries[i].node.Dir? ensures Named(entries[i].node.entries) {
      NamedTree(entries[i].node.entries);
    }
  }

  /** Each file of a tree has its own path, of proper names. */
  lemma {:induction false} FilesAreProper(entries: seq<Entry>, prefix: Path)
    requires ProperTree(entries)
    ensures Distinct(Files(entries, prefix))
    ensures forall i :: 0 <= i < |Files(entries, prefix)| ==> BelowProperly(Files(entries, prefix)[i].path, prefix, entries)
    decreases entries
  {
    var all := Files(entries, prefix);
    if entries != [] {
      var entry := entries[0];
      var path := prefix + [entry.name];
      var head, rest := FilesOf(entry.node, path), Files(entries[1..], prefix);
      FilesAreProper(entries[1..], prefix);
      if entry.node.Dir? {
        FilesAreProper(entry.node.entries, path);
        assert head == Files(entry.node.entries, path);
      } else if entry.node.File? {
        assert head == [Found(path, entry.node.content, entry.node.mtime)];
      }
      forall i | 0 <= i < |head| ensures Under(head[i].path, prefix, entry.name) {
        if entry.node.Dir? {
          assert BelowProperly(head[i].path, path, entry.node.entries);
          assert head[i].path[..|path|] == path;
          assert head[i].path[|prefix|..] == [entry.name] + head[i].path[|path|..];
        } else {
          assert path[|prefix|..] == [entry.name];
        }
      }
      forall i | 0 <= i < |rest| ensures BelowProperly(rest[i].path, prefix, entries) && rest[i].path[|prefix|] != entry.name {
        assert BelowProperly(rest[i].path, prefix, entries[1..]);
        var k :| 0 <= k < |entries[1..]| && Under(rest[i].path, prefix, entries[1..][k].name);
        assert entries[k + 1].name == entries[1..][k].name;
      }
      assert all == head + rest;
      forall i, j | 0 <= i < j < |all| ensures all[i].path != all[j].path {
        if i < |head| && j >= |head| {
          assert Under(head[i].path, prefix, entry.name);
          assert rest[j - |head|].path[|prefix|] != entry.name;
        }
      }
    }
  }

  /** `path` starts with `prefix` and then `name`, and goes on properly. */
  predicate Under(path: Path, prefix: Path, name: string) {
    |prefix| < |path| && path[..|prefix|] == prefix && path[|prefix|] == name && Proper(path[|prefix|..])
  }

  ghost predicate BelowProperly(path: Path, prefix: Path, entries: seq<Entry>) {
    exists k :: 0 <= k < |entries| && Under(path, prefix, entries[k].name)
  }

  predicate HasPath(files: seq<Found>, p: Path) {
    exists i :: 0 <= i < |files| && files[i].path == p
  }

  lemma {:induction false} FileMapPaths(files: seq<Found>)
    ensures forall p :: p in FileMap(files) ==> HasPath(files, p)
  {
    if files != [] {
      FileMapPaths(files[1..]);
      assert files[0].path == files[0].path;
      forall p | HasPath(files[1..], p) ensures HasPath(files, p) {
        var i :| 0 <= i < |files[1..]| && files[1..][i].path == p;
        assert files[i + 1].path == p;
      }
    }
  }

  lemma DistinctTail(files: seq<Found>)
    requires files != [] && Distinct(files)
    ensures Distinct(files[1..]) && forall f :: f in files[1..] ==> f.path != files[0].path
  {
    forall i, j | 0 <= i < j < |files[1..]| ensures files[1..][i].path != files[1..][j].path {
      assert files[i + 1].path != files[j + 1].path;
    }
    forall f | f in files[1..] ensures f.path != files[0].path {
      var i :| 0 <= i < |files[1..]| && files[1..][i] == f;
      assert files[i + 1] == f;
    }
  }

  lemma {:induction false} FileMapRecords(files: seq<Found>)
    requires Distinct(files)
    ensures forall f :: f in files ==> f.path in FileMap(files) && FileMap(files)[f.path] == FileRec(f.content, f.mtime)
  {
    if files != [] {
      DistinctTail(files);
      FileMapRecords(files[1..]);
      assert files == [files[0]] + files[1..];
    }
  }

  lemma FileMapMeans(files: seq<Found>)
    requires Distinct(files)
    ensures forall f :: f in files ==> f.path in FileMap(files) && FileMap(files)[f.path] == FileRec(f.content, f.mtime)
    ensures forall p :: p in FileMap(files) ==> HasPath(files, p)
  {
    FileMapPaths(files);
    FileMapRecords(files);
  }

  lemma {:induction false} KeptMeans(files: seq<Found>, skip: Exclusion, hash: Option<Hash>)
    ensures forall e :: e in Kept(files, skip, hash) <==>
              exists f :: f in files && !skip.file(RelPath(f.path)) && e == Line(f, hash)
  {
    if files != [] {
      KeptMeans(files[1..], skip, hash);
      assert files == [files[0]] + files[1..];
    }
  }

  /** Where kept files do not share relative paths, kept lines do not. */
  lemma {:induction false} KeptDistinct(files: seq<Found>, skip: Exclusion, hash: Option<Hash>)
    requires Distinct(files)
    requires forall f, g :: f in files && g in files && !skip.file(RelPath(f.path)) && RelPath(f.path) == RelPath(g.path) ==>
               f.path == g.path
    ensures DistinctRels(Kept(files, skip, hash))
  {
    if files != [] {
      var rest := files[1..];
      DistinctTail(files);
      KeptDistinct(rest, skip, hash);
      KeptMeans(rest, skip, hash);
      if !skip.file(RelPath(files[0].path)) {
        forall e | e in Kept(rest, skip, hash) ensures e.relPath != RelPath(files[0].path) {
          var f :| f in rest && !skip.file(RelPath(f.path)) && e == Line(f, hash);
          assert f in files && files[0] in files;
        }
      }
    }
  }

  lemma {:induction false} OnceEach(m: seq<ManifestEntry>, e: ManifestEntry)
    requires forall i, j :: 0 <= i < j < |m| ==> m[i] != m[j]
    ensures multiset(m)[e] <= 1
  {
    if m != [] {
      assert m == [m[0]] + m[1..];
      OnceEach(m[1..], e);
      if e == m[0] { assert e !in m[1..]; }
    }
  }

  lemma TwiceCounts(m: seq<ManifestEntry>, i: nat, j: nat)
    requires i < j < |m| && m[i] == m[j]
    ensures multiset(m)[m[i]] >= 2
  {
    assert m == m[..j] + [m[j]] + m[j + 1..];
    assert m[i] in m[..j];
  }

  /** Any reordering of lines with distinct paths still has distinct paths. */
  lemma ReorderedDistinct(m: seq<ManifestEntry>, k: seq<ManifestEntry>)
    requires multiset(m) == multiset(k)
    requires DistinctRels(k)
    ensures DistinctRels(m)
  {
    forall i, j | 0 <= i < j < |m| ensures m[i].relPath != m[j].relPath {
      assert m[i] in multiset(m) && m[j] in multiset(m);
      assert m[i] in k && m[j] in k;
      if m[i] == m[j] {
        TwiceCounts(m, i, j);
        OnceEach(k, m[i]);
      } else {
        var a :| 0 <= a < |k| && k[a] == m[i];
        var b :| 0 <= b < |k| && k[b] == m[j];
      }
    }
  }

  lemma FoundAreProper(entries: seq<Entry>)
    requires ProperTree(entries)
    ensures Distinct(Files(entries, []))
    ensures forall f :: f in Files(entries, []) ==> f.path != [] && Proper(f.path)
  {
    var found := Files(entries, []);
    FilesAreProper(entries, []);
    forall f | f in found ensures f.path != [] && Proper(f.path) {
      var i :| 0 <= i < |found| && found[i] == f;
      assert BelowProperly(found[i].path, [], entries);
      assert found[i].path[0..] == found[i].path;
    }
  }

  lemma LinesComeFromFiles(found: seq<Found>, m: seq<ManifestEntry>, e: ManifestEntry, skip: Exclusion, hash: Option<Hash>)
    requires Distinct(found) && (forall f :: f in found ==> f.path != [])
    requires multiset(m) == multiset(Kept(found, skip, hash)) && e in m
    ensures exists path :: MustList(FileMap(found), [], skip, path) && LineFor(e, FileMap(found), [], path, hash)
  {
    FileMapMeans(found);
    KeptMeans(found, skip, hash);
    assert e in multiset(m) && e in Kept(found, skip, hash);
    var f :| f in found && !skip.file(RelPath(f.path)) && e == Line(f, hash);
    assert [] + f.path == f.path;
    var i :| 0 <= i < |found| && found[i] == f;
    assert MustList(FileMap(found), [], skip, f.path) && LineFor(e, FileMap(found), [], f.path, hash);
  }

  lemma FilesHaveLines(found: seq<Found>, m: seq<ManifestEntry>, path: Path, skip: Exclusion, hash: Option<Hash>)
    requires Distinct(found)
    requires multiset(m) == multiset(Kept(found, skip, hash)) && MustList(FileMap(found), [], skip, path)
    ensures Line(Found(path, FileMap(found)[[] + path].content, FileMap(found)[[] + path].mtime), hash) in m
  {
    FileMapMeans(found);
    KeptMeans(found, skip, hash);
    assert [] + path == path;
    var i :| 0 <= i < |found| && found[i].path == path;
    assert Line(found[i], hash) in Kept(found, skip, hash);
    assert Line(found[i], hash) in multiset(m);
  }

  lemma FoundApart(found: seq<Found>, skip: Exclusion)
    requires Distinct(found) && (forall f :: f in found ==> f.path != []) && Apart(FileMap(found), [], skip)
    ensures forall f, g :: f in found && g in found && !skip.file(RelPath(f.path)) && RelPath(f.path) == RelPath(g.path) ==>
              f.path == g.path
  {
    FileMapMeans(found);
    forall f | f in found && !skip.file(RelPath(f.path)) ensures MustList(FileMap(found), [], skip, f.path) {
      assert [] + f.path == f.path;
    }
  }

  lemma LinesDistinct(found: seq<Found>, m: seq<ManifestEntry>, skip: Exclusion, hash: Option<Hash>)
    requires Distinct(found) && (forall f :: f in found ==> f.path != []) && multiset(m) == multiset(Kept(found, skip, hash))
    ensures Apart(FileMap(found), [], skip) ==> DistinctRels(m)
  {
    if Apart(FileMap(found), [], skip) {
      FoundApart(found, skip);
      KeptDistinct(found, skip, hash);
      ReorderedDistinct(m, Kept(found, skip, hash));
    }
  }

  lemma LinesAreManifest(found: seq<Found>, m: seq<ManifestEntry>, skip: Exclusion, hash: Option<Hash>)
    requires Distinct(found) && (forall f :: f in found ==> f.path != []) && multiset(m) == multiset(Kept(found, skip, hash))
    ensures Lists(m, FileMap(found), [], skip, hash)
  {
    var files := FileMap(found);
    forall e | e in m ensures exists path :: MustList(files, [], skip, path) && LineFor(e, files, [], path, hash) {
      LinesComeFromFiles(found, m, e, skip, hash);
    }
    forall path | MustList(files, [], skip, path)
      ensures Line(Found(path, files[[] + path].content, files[[] + path].mtime), hash) in m
    {
      FilesHaveLines(found, m, path, skip, hash);
    }
  }

  lemma RootIsNoFile(found: seq<Found>)
    requires Distinct(found) && forall f :: f in found ==> f.path != []
    ensures [] !in FileMap(found)
  {
    FileMapMeans(found);
    forall i | 0 <= i < |found| ensures found[i].path != [] {
      assert found[i] in found;
    }
  }

  /** The walk's output is a manifest of exactly the tree's files, and has their relative
      paths once each unless two files share one. */
  lemma WalkIsManifest(entries: seq<Entry>, m: seq<ManifestEntry>, skip: Exclusion, hash: Option<Hash>)
    requires ProperTree(entries)
    requires multiset(m) == Walk.Listing(entries, [], skip, hash)
    ensures Lists(m, FileMap(Files(entries, [])), [], skip, hash) && [] !in FileMap(Files(entries, []))
    ensures Apart(FileMap(Files(entries, [])), [], skip) ==> DistinctRels(m)
  {
    var found := Files(entries, []);
    FoundAreProper(entries);
    LinesAreManifest(found, m, skip, hash);
    LinesDistinct(found, m, skip, hash);
    RootIsNoFile(found);
  }
}
