/**
 The directory walk of folder sync (`walk_dir` in crates/mcp-server/src/files.rs):
 a stack of directories, excluded ones pruned before they are entered. It lists
 exactly the regular files that are not excluded, each once.
 */
module Walk {
  import opened Wrappers
  import opened Text
  import opened Exclude
  import opened Paths

  type Bytes = seq<bv8>

  datatype Node =
    | File(content: Bytes, mtime: nat)
    | Symlink
    | Special
    | Dir(entries: seq<Entry>)

  datatype Entry = Entry(name: string, node: Node)

  /** One line of a manifest. */
  datatype ManifestEntry = ManifestEntry(relPath: string, size: nat, mtime: nat, sha256: Option<string>)

  /** A regular file and where it lies below the root. */
  datatype Found = Found(path: Path, content: Bytes, mtime: nat)

  type Hash = Bytes -> string

  /** The relative path as manifests write it: `/` between names, and any
      backslash in a name turned into `/` as well. */
  function RelPath(path: Path): string {
    Slashed(Join(path, '/'))
  }

  function Slashed(s: string): string {
    seq(|s|, i requires 0 <= i < |s| => if s[i] == '\\' then '/' else s[i])
  }

  function Line(f: Found, hash: Option<Hash>): ManifestEntry {
    ManifestEntry(RelPath(f.path), |f.content|, f.mtime, if hash.None? then None else Some(hash.value(f.content)))
  }

  /** Which paths to leave out: files one by one, directories with all below them. */
  datatype Exclusion = Exclusion(file: string -> bool, dir: string -> bool)

  /** A pruned directory holds no file that would have been listed. */
  ghost predicate PrunesOnly(skip: Exclusion) {
    forall d, rest :: skip.dir(d) ==> skip.file(d + "/" + rest)
  }

  function Rules(patterns: seq<string>): Exclusion {
    Exclusion(rel => IsExcluded(rel, patterns), rel => DirExcluded(rel, patterns))
  }

  lemma RulesPruneOnly(patterns: seq<string>)
    ensures PrunesOnly(Rules(patterns))
  {
    forall d, rest | Rules(patterns).dir(d) ensures Rules(patterns).file(d + "/" + rest) {
      PrunedMeansExcluded(d, rest, patterns);
    }
  }

  // --- what should be listed --------------------------------------------------------

  /** Every regular file below `prefix`, excluded or not. */
  function Files(entries: seq<Entry>, prefix: Path): seq<Found>
    decreases entries
  {
    if entries == [] then []
    else FilesOf(entries[0].node, prefix + [entries[0].name]) + Files(entries[1..], prefix)
  }

  function FilesOf(node: Node, path: Path): seq<Found>
    decreases node
  {
    match node
    case File(content, mtime) => [Found(path, content, mtime)]
    case Dir(entries) => Files(entries, path)
    case _ => []
  }

  function Kept(files: seq<Found>, skip: Exclusion, hash: Option<Hash>): seq<ManifestEntry> {
    if files == [] then []
    else (if skip.file(RelPath(files[0].path)) then [] else [Line(files[0], hash)])
         + Kept(files[1..], skip, hash)
  }

  ghost function Listing(entries: seq<Entry>, prefix: Path, skip: Exclusion, hash: Option<Hash>): multiset<ManifestEntry> {
    multiset(Kept(Files(entries, prefix), skip, hash))
  }

  // --- the walk -----------------------------------------------------------------------

  /** A directory waiting on the stack. */
  datatype Pending = Pending(path: Path, entries: seq<Entry>)

  predicate Named(entries: seq<Entry>)
    decreases entries
  {
    forall i :: 0 <= i < |entries| ==>
      entries[i].name != "" && (entries[i].node.Dir? ==> Named(entries[i].node.entries))
  }

  function Weight(entries: seq<Entry>): nat
    decreases entries
  {
    if entries == [] then 1
    else (if entries[0].node.Dir? then Weight(entries[0].node.entries) else 0) + Weight(entries[1..])
  }

  function StackWeight(stack: seq<Pending>): nat {
    if stack == [] then 0 else StackWeight(stack[..|stack| - 1]) + Weight(stack[|stack| - 1].entries)
  }

  ghost function StackListing(stack: seq<Pending>, skip: Exclusion, hash: Option<Hash>): multiset<ManifestEntry> {
    if stack == [] then multiset{}
    else
      StackListing(stack[..|stack| - 1], skip, hash)
      + Listing(stack[|stack| - 1].entries, stack[|stack| - 1].path, skip, hash)
  }

  lemma {:induction false} KeptConcat(a: seq<Found>, b: seq<Found>, skip: Exclusion, hash: Option<Hash>)
    ensures Kept(a + b, skip, hash) == Kept(a, skip, hash) + Kept(b, skip, hash)
  {
    if a == [] {
      assert a + b == b;
    } else {
      assert (a + b)[1..] == a[1..] + b;
      KeptConcat(a[1..], b, skip, hash);
    }
  }

  lemma {:induction false} FilesBelow(entries: seq<Entry>, prefix: Path)
    ensures forall i :: 0 <= i < |Files(entries, prefix)| ==>
              |prefix| < |Files(entries, prefix)[i].path| && Files(entries, prefix)[i].path[..|prefix|] == prefix
    decreases entries
  {
    if entries != [] {
      var path := prefix + [entries[0].name];
      var head, rest := FilesOf(entries[0].node, path), Files(entries[1..], prefix);
      if entries[0].node.Dir? { FilesBelow(entries[0].node.entries, path); }
      FilesBelow(entries[1..], prefix);
      assert entries[0].node.File? ==> head[0].path == path;
      assert entries[0].node.Dir? ==> head == Files(entries[0].node.entries, path);
      forall i | 0 <= i < |head| ensures |prefix| < |head[i].path| && head[i].path[..|prefix|] == prefix {
        assert |path| <= |head[i].path| && head[i].path[..|path|] == path;
        assert head[i].path[..|path|][..|prefix|] == prefix;
      }
    }
  }

  lemma {:induction false} JoinConcat(a: Path, b: Path)
    requires a != [] && b != []
    ensures Join(a + b, '/') == Join(a, '/') + "/" + Join(b, '/')
  {
    assert (a + b)[1..] == a[1..] + b;
    if |a| > 1 { JoinConcat(a[1..], b); }
  }

  /** Nothing below an excluded directory is kept. */
  lemma PrunedKeepsNothing(entries: seq<Entry>, path: Path, skip: Exclusion, hash: Option<Hash>)
    requires path != [] && PrunesOnly(skip) && skip.dir(RelPath(path))
    ensures Kept(Files(entries, path), skip, hash) == []
  {
    var files := Files(entries, path);
    FilesBelow(entries, path);
    forall i | 0 <= i < |files| ensures skip.file(RelPath(files[i].path)) {
      var rest := files[i].path[|path|..];
      assert files[i].path == path + rest;
      JoinConcat(path, rest);
      assert RelPath(files[i].path) == RelPath(path) + "/" + RelPath(rest);
    }
    AllExcludedKeepsNothing(files, skip, hash);
  }

  lemma {:induction false} AllExcludedKeepsNothing(files: seq<Found>, skip: Exclusion, hash: Option<Hash>)
    requires forall i :: 0 <= i < |files| ==> skip.file(RelPath(files[i].path))
    ensures Kept(files, skip, hash) == []
  {
    if files != [] { AllExcludedKeepsNothing(files[1..], skip, hash); }
  }

  /** What the walk has listed and still has to list. */
  ghost function Owed(found: seq<ManifestEntry>, stack: seq<Pending>, entries: seq<Entry>, prefix: Path,
                      skip: Exclusion, hash: Option<Hash>): multiset<ManifestEntry>
  {
    multiset(found) + StackListing(stack, skip, hash) + Listing(entries, prefix, skip, hash)
  }

  /** How one directory entry moves the walk's state. */
  function Listed(found: seq<ManifestEntry>, entry: Entry, prefix: Path, skip: Exclusion, hash: Option<Hash>): seq<ManifestEntry> {
    var path := prefix + [entry.name];
    if entry.node.File? && !skip.file(RelPath(path))
    then found + [Line(Found(path, entry.node.content, entry.node.mtime), hash)]
    else found
  }

  function Pushed(stack: seq<Pending>, entry: Entry, prefix: Path, skip: Exclusion): seq<Pending> {
    var path := prefix + [entry.name];
    if entry.node.Dir? && !skip.dir(RelPath(path))
    then stack + [Pending(path, entry.node.entries)]
    else stack
  }

  /** What one directory entry contributes by itself. */
  ghost function Share(entry: Entry, prefix: Path, skip: Exclusion, hash: Option<Hash>): multiset<ManifestEntry> {
    multiset(Kept(FilesOf(entry.node, prefix + [entry.name]), skip, hash))
  }

  lemma ListingStep(entries: seq<Entry>, i: nat, prefix: Path, skip: Exclusion, hash: Option<Hash>)
    requires i < |entries|
    ensures Listing(entries[i..], prefix, skip, hash)
         == Share(entries[i], prefix, skip, hash) + Listing(entries[i + 1..], prefix, skip, hash)
  {
    assert entries[i..][1..] == entries[i + 1..];
    KeptConcat(FilesOf(entries[i].node, prefix + [entries[i].name]), Files(entries[i + 1..], prefix), skip, hash);
  }

  lemma StackPush(stack: seq<Pending>, dir: Pending, skip: Exclusion, hash: Option<Hash>)
    ensures StackListing(stack + [dir], skip, hash)
         == StackListing(stack, skip, hash) + Listing(dir.entries, dir.path, skip, hash)
    ensures StackWeight(stack + [dir]) == StackWeight(stack) + Weight(dir.entries)
  {
    assert (stack + [dir])[..|stack|] == stack;
  }

  /** An entry's share is listed at once, put on the stack, or empty. */
  lemma ShareIsTaken(found: seq<ManifestEntry>, stack: seq<Pending>, entry: Entry, prefix: Path,
                     skip: Exclusion, hash: Option<Hash>)
    requires PrunesOnly(skip)
    ensures multiset(Listed(found, entry, prefix, skip, hash)) + StackListing(Pushed(stack, entry, prefix, skip), skip, hash)
         == multiset(found) + StackListing(stack, skip, hash) + Share(entry, prefix, skip, hash)
  {
    DirShare(stack, entry, prefix, skip, hash);
    FileShare(found, entry, prefix, skip, hash);
  }

  lemma DirShare(stack: seq<Pending>, entry: Entry, prefix: Path, skip: Exclusion, hash: Option<Hash>)
    requires PrunesOnly(skip)
    ensures StackListing(Pushed(stack, entry, prefix, skip), skip, hash)
         == StackListing(stack, skip, hash) + if entry.node.File? then multiset{} else Share(entry, prefix, skip, hash)
  {
    var path := prefix + [entry.name];
    var share := Share(entry, prefix, skip, hash);
    if !entry.node.Dir? {
      assert Pushed(stack, entry, prefix, skip) == stack;
      assert !entry.node.File? ==> share == multiset{};
    } else if skip.dir(RelPath(path)) {
      assert Pushed(stack, entry, prefix, skip) == stack;
      PrunedKeepsNothing(entry.node.entries, path, skip, hash);
      assert share == multiset{};
    } else {
      var below := Pending(path, entry.node.entries);
      assert share == Listing(below.entries, path, skip, hash);
      StackPush(stack, below, skip, hash);
      assert Pushed(stack, entry, prefix, skip) == stack + [below];
    }
  }

  lemma FileShare(found: seq<ManifestEntry>, entry: Entry, prefix: Path, skip: Exclusion, hash: Option<Hash>)
    ensures multiset(Listed(found, entry, prefix, skip, hash))
         == multiset(found) + if entry.node.File? then Share(entry, prefix, skip, hash) else multiset{}
  {
    if entry.node.File? {
      var f := Found(prefix + [entry.name], entry.node.content, entry.node.mtime);
      assert FilesOf(entry.node, f.path) == [f] && [f][1..] == [];
      assert Kept([], skip, hash) == [];
      assert Kept([f], skip, hash) == if skip.file(RelPath(f.path)) then [] else [Line(f, hash)];
      Append(found, Line(f, hash));
    }
  }

  lemma Append(found: seq<ManifestEntry>, line: ManifestEntry)
    ensures multiset(found + [line]) == multiset(found) + multiset{line}
  {}

  lemma EntryOwes(found: seq<ManifestEntry>, stack: seq<Pending>, entries: seq<Entry>, i: nat, prefix: Path,
                  skip: Exclusion, hash: Option<Hash>)
    requires i < |entries| && PrunesOnly(skip)
    ensures Owed(Listed(found, entries[i], prefix, skip, hash), Pushed(stack, entries[i], prefix, skip),
                 entries[i + 1..], prefix, skip, hash)
         == Owed(found, stack, entries[i..], prefix, skip, hash)
    ensures StackWeight(Pushed(stack, entries[i], prefix, skip)) + Weight(entries[i + 1..])
         <= StackWeight(stack) + Weight(entries[i..])
  {
    ListingStep(entries, i, prefix, skip, hash);
    ShareIsTaken(found, stack, entries[i], prefix, skip, hash);
    assert entries[i..][1..] == entries[i + 1..];
    if entries[i].node.Dir? {
      StackPush(stack, Pending(prefix + [entries[i].name], entries[i].node.entries), skip, hash);
    }
  }

  lemma NothingOwed(found: seq<ManifestEntry>, stack: seq<Pending>, prefix: Path, skip: Exclusion, hash: Option<Hash>)
    ensures Owed(found, stack, [], prefix, skip, hash) == multiset(found) + StackListing(stack, skip, hash)
  {}

  /** All entries of a directory in turn. */
  function Visited(entries: seq<Entry>, prefix: Path, skip: Exclusion, hash: Option<Hash>,
                   found: seq<ManifestEntry>, stack: seq<Pending>): (seq<ManifestEntry>, seq<Pending>)
  {
    if entries == [] then (found, stack)
    else Visited(entries[1..], prefix, skip, hash,
                 Listed(found, entries[0], prefix, skip, hash), Pushed(stack, entries[0], prefix, skip))
  }

  lemma {:induction false} VisitedOwes(entries: seq<Entry>, prefix: Path, skip: Exclusion, hash: Option<Hash>,
                                       found: seq<ManifestEntry>, stack: seq<Pending>)
    requires PrunesOnly(skip) && Named(entries) && forall p :: p in stack ==> Named(p.entries)
    ensures var v := Visited(entries, prefix, skip, hash, found, stack);
            multiset(v.0) + StackListing(v.1, skip, hash) == Owed(found, stack, entries, prefix, skip, hash) &&
            StackWeight(v.1) < StackWeight(stack) + Weight(entries) &&
            forall p :: p in v.1 ==> Named(p.entries)
  {
    if entries == [] {
      NothingOwed(found, stack, prefix, skip, hash);
    } else {
      EntryOwes(found, stack, entries, 0, prefix, skip, hash);
      assert entries[0..] == entries;
      VisitedOwes(entries[1..], prefix, skip, hash,
                  Listed(found, entries[0], prefix, skip, hash), Pushed(stack, entries[0], prefix, skip));
    }
  }

  /** Taking a directory off the stack and reading it owes nothing more, and leaves less to do. */
  lemma PopOwes(found: seq<ManifestEntry>, stack: seq<Pending>, skip: Exclusion, hash: Option<Hash>)
    requires stack != [] && PrunesOnly(skip) && forall p :: p in stack ==> Named(p.entries)
    ensures var dir := stack[|stack| - 1];
            var v := Visited(dir.entries, dir.path, skip, hash, found, stack[..|stack| - 1]);
            multiset(v.0) + StackListing(v.1, skip, hash) == multiset(found) + StackListing(stack, skip, hash) &&
            StackWeight(v.1) < StackWeight(stack) && forall p :: p in v.1 ==> Named(p.entries)
  {
    var rest, dir := stack[..|stack| - 1], stack[|stack| - 1];
    StackPush(rest, dir, skip, hash);
    assert rest + [dir] == stack;
    VisitedOwes(dir.entries, dir.path, skip, hash, found, rest);
  }

  /** The inner loop: one directory's entries. */
  method ReadDir(dir: Pending, withHash: bool, hash: Hash, skip: Exclusion,
                 found0: seq<ManifestEntry>, stack0: seq<Pending>)
    returns (found: seq<ManifestEntry>, stack: seq<Pending>)
    ensures (found, stack) == Visited(dir.entries, dir.path, skip, if withHash then Some(hash) else None, found0, stack0)
  {
    ghost var h := if withHash then Some(hash) else None;
    found, stack := found0, stack0;
    var i := 0;
    while i < |dir.entries|
      invariant 0 <= i <= |dir.entries|
      invariant Visited(dir.entries[i..], dir.path, skip, h, found, stack)
             == Visited(dir.entries, dir.path, skip, h, found0, stack0)
    {
      assert dir.entries[i..][1..] == dir.entries[i + 1..];
      var entry := dir.entries[i];
      var path := dir.path + [entry.name];
      ghost var listed, pushed := Listed(found, entry, dir.path, skip, h), Pushed(stack, entry, dir.path, skip);
      match entry.node {
        case Dir(entries) =>
          if !skip.dir(RelPath(path)) {
            stack := stack + [Pending(path, entries)];
          }
        case File(content, mtime) =>
          if !skip.file(RelPath(path)) {
            found := found + [ManifestEntry(RelPath(path), |content|, mtime, if withHash then Some(hash(content)) else None)];
          }
        case _ =>
      }
      assert found == listed && stack == pushed;
      i := i + 1;
    }
  }

  /** The outer loop: directories off the stack. */
  method WalkStack(entries: seq<Entry>, withHash: bool, hash: Hash, skip: Exclusion) returns (found: seq<ManifestEntry>)
    requires PrunesOnly(skip) && Named(entries)
    ensures multiset(found) == Listing(entries, [], skip, if withHash then Some(hash) else None)
  {
    ghost var h := if withHash then Some(hash) else None;
    found := [];
    var stack := [Pending([], entries)];
    StackPush([], stack[0], skip, h);
    assert [] + stack == stack;
    while stack != []
      invariant multiset(found) + StackListing(stack, skip, h) == Listing(entries, [], skip, h)
      invariant forall p :: p in stack ==> Named(p.entries)
      decreases StackWeight(stack)
    {
      var dir := stack[|stack| - 1];
      PopOwes(found, stack, skip, h);
      found, stack := ReadDir(dir, withHash, hash, skip, found, stack[..|stack| - 1]);
    }
  }

  /** `root` is what the path names and `place` where it is. A place that policy refuses is an
      error, and so is anything but a directory. */
  method WalkDir(root: Node, place: Path, denied: seq<Path>, allowed: seq<Path>, withHash: bool, hash: Hash, exclude: seq<string>)
    returns (out: Option<seq<ManifestEntry>>)
    requires root.Dir? ==> Named(root.entries)
    ensures out.None? <==> !Allowed(place, denied, allowed) || !root.Dir?
    ensures out.Some? ==>
              multiset(out.value) == Listing(root.entries, [], Rules(exclude), if withHash then Some(hash) else None)
  {
    if !Allowed(place, denied, allowed) || !root.Dir? {
      return None;
    }
    RulesPruneOnly(exclude);
    var found := WalkStack(root.entries, withHash, hash, Rules(exclude));
    return Some(found);
  }
}
