/**
 One file sent to a peer (crates/mcp-server/src/transfer.rs): the sender keeps a
 window of slices in flight, the receiver writes each at its offset, in whatever
 order and however often the network delivers them.

 The network and the scheduler are the method `Interfere`: between any two steps of
 the sender, any slices ever sent may be delivered again, any number of times.
 */
module Transfer {
  import opened Wrappers
  import opened Text
  import opened Paths
  import opened Walk

  const TRANSFER_WINDOW: nat := 32
  const U64_MAX: nat := 0xFFFF_FFFF_FFFF_FFFF

  datatype FileRec = FileRec(content: Bytes, mtime: nat)

  datatype Slice = Slice(path: Path, offset: nat, data: Bytes, eof: bool, sha: Option<string>) {
    function End(): nat { offset + |data| }
  }

  datatype Event = Sent(slice: Slice) | Acked(slice: Slice)

  // --- one write ----------------------------------------------------------------

  function Zeros(n: nat): Bytes {
    seq(n, i => 0)
  }

  /** Seek and write: a gap fills with zeros, writing nothing changes nothing. */
  function WriteAt(file: Bytes, offset: nat, data: Bytes): Bytes {
    if data == [] then file
    else
      var f := if |file| < offset then file + Zeros(offset - |file|) else file;
      f[..offset] + data + if offset + |data| < |f| then f[offset + |data|..] else []
  }

  function SetLen(file: Bytes, n: nat): Bytes {
    if n <= |file| then file[..n] else file + Zeros(n - |file|)
  }

  function AfterWrite(file: Bytes, s: Slice): Bytes {
    var w := WriteAt(file, s.offset, s.data);
    if s.eof then SetLen(w, s.End()) else w
  }

  /** `s` is a piece of `whole`; the eof piece is the last one. */
  predicate Piece(s: Slice, whole: Bytes) {
    s.End() <= |whole| && s.data == whole[s.offset..s.End()] && (s.eof ==> s.End() == |whole|)
  }

  /** The file holds the bytes of `s` in place. */
  predicate Holds(file: Bytes, s: Slice) {
    s.data == [] || (s.End() <= |file| && file[s.offset..s.End()] == s.data)
  }

  lemma WrittenByte(file: Bytes, s: Slice, i: nat)
    requires i < |file| || s.offset <= i < s.End()
    ensures i < |WriteAt(file, s.offset, s.data)|
    ensures WriteAt(file, s.offset, s.data)[i] == if s.offset <= i < s.End() then s.data[i - s.offset] else file[i]
  {}

  /** A write in bytes: its data in place, before and behind it what was there, zeros in a gap; with
      nothing to write nothing happens. The last slice then sets the length, again with zeros. */
  lemma AfterWriteMeans(file: Bytes, s: Slice)
    ensures var long := if s.data == [] || |file| > s.End() then |file| else s.End();
            var out := AfterWrite(file, s);
            |out| == (if s.eof then s.End() else long) &&
            forall i :: 0 <= i < |out| ==>
              out[i] == if s.offset <= i < s.End() then s.data[i - s.offset] else if i < |file| then file[i] else 0
  {}

  /** A further piece of the same whole leaves what is already there in place. */
  lemma WriteKeeps(file: Bytes, s: Slice, r: Slice, whole: Bytes)
    requires Piece(s, whole) && Piece(r, whole) && Holds(file, r)
    ensures Holds(AfterWrite(file, s), r)
  {
    var w := WriteAt(file, s.offset, s.data);
    if r.data != [] {
      forall i | r.offset <= i < r.End() ensures i < |w| && w[i] == whole[i] {
        WrittenByte(file, s, i);
        assert file[i] == file[r.offset..r.End()][i - r.offset] == whole[i];
      }
      assert r.End() - 1 < |w|;
      assert AfterWrite(file, s)[r.offset..r.End()] == whole[r.offset..r.End()];
    }
  }

  lemma WriteHolds(file: Bytes, s: Slice)
    ensures Holds(AfterWrite(file, s), s)
  {
    var w := WriteAt(file, s.offset, s.data);
    if s.data != [] {
      assert w[s.offset..s.End()] == s.data;
      var v := AfterWrite(file, s);
      assert v[s.offset..s.End()] == s.data;
    }
  }

  /** Redelivery into the finished file changes nothing. */
  lemma WriteIntoWhole(whole: Bytes, s: Slice)
    requires Piece(s, whole)
    ensures AfterWrite(whole, s) == whole
  {
    var w := WriteAt(whole, s.offset, s.data);
    if s.data != [] {
      assert w == whole[..s.offset] + whole[s.offset..s.End()] + whole[s.End()..];
      assert whole[..s.offset] + whole[s.offset..s.End()] == whole[..s.End()];
      assert w == whole;
    }
  }

  predicate HasByte(s: Slice, path: Path, i: int) {
    s.path == path && s.offset <= i < s.End()
  }

  /** Once everything before the last piece is in place, that piece completes the
      file: whatever it held before, longer or shorter. */
  lemma LastPieceCompletes(file: Bytes, s: Slice, whole: Bytes)
    requires s.eof && Piece(s, whole)
    requires s.offset <= |file| && file[..s.offset] == whole[..s.offset]
    ensures AfterWrite(file, s) == whole
  {
    var w := WriteAt(file, s.offset, s.data);
    if s.data != [] {
      assert w[..s.End()] == file[..s.offset] + s.data;
    }
    assert whole == whole[..s.offset] + whole[s.offset..s.End()];
  }

  // --- the window -------------------------------------------------------------------

  /** Slices sent and not yet answered, by the trace. */
  function InFlight(log: seq<Event>): int {
    if log == [] then 0
    else InFlight(log[..|log| - 1]) + if log[|log| - 1].Sent? then 1 else -1
  }

  /** At every moment at most the window is in flight, and the eof slice goes out
      with nothing else in flight. */
  ghost predicate WindowKept(log: seq<Event>) {
    forall k :: 0 <= k < |log| && log[k].Sent? ==>
      InFlight(log[..k]) < 32 && (log[k].slice.eof ==> InFlight(log[..k]) == 0)
  }

  lemma LogGrows(log: seq<Event>, e: Event)
    requires WindowKept(log)
    requires e.Sent? ==> InFlight(log) < TRANSFER_WINDOW && (e.slice.eof ==> InFlight(log) == 0)
    ensures WindowKept(log + [e])
    ensures InFlight(log + [e]) == InFlight(log) + if e.Sent? then 1 else -1
  {
    var l := log + [e];
    assert l[..|log|] == log;
    forall k | 0 <= k < |l| && l[k].Sent?
      ensures InFlight(l[..k]) < TRANSFER_WINDOW && (l[k].slice.eof ==> InFlight(l[..k]) == 0)
    {
      if k < |log| { assert l[..k] == log[..k]; }
    }
  }

  /** Every byte below `k` lies in a slice of `slices` for `path`. */
  ghost predicate Covered(slices: set<Slice>, path: Path, k: nat) {
    forall i :: 0 <= i < k ==> CoveredAt(slices, path, i)
  }

  ghost predicate CoveredAt(slices: set<Slice>, path: Path, i: int) {
    exists s :: s in slices && HasByte(s, path, i)
  }

  /** What the accepted slices cover is in place in the file. */
  lemma CoveredIsWritten(file: Bytes, slices: set<Slice>, path: Path, k: nat, whole: Bytes)
    requires k <= |whole| && Covered(slices, path, k)
    requires forall s :: s in slices && s.path == path ==> Piece(s, whole) && Holds(file, s)
    ensures k <= |file| && file[..k] == whole[..k]
  {
    if k > 0 {
      assert CoveredAt(slices, path, k - 1);
    }
    forall i | 0 <= i < k ensures i < |file| && file[i] == whole[i] {
      assert CoveredAt(slices, path, i);
      var s :| s in slices && HasByte(s, path, i);
      assert file[i] == file[s.offset..s.End()][i - s.offset] == s.data[i - s.offset] == whole[i];
    }
  }

  // --- the state of a transfer --------------------------------------------------------

  function Ancestors(path: Path): set<Path> {
    set k | 0 <= k < |path| :: path[..k]
  }

  /** No file can be written here: a directory is in the way, or a file above. */
  predicate Blocked(files: map<Path, FileRec>, dirs: set<Path>, path: Path) {
    path == [] || path in dirs || exists a :: a in Ancestors(path) && a in files
  }

  /** Files lie in directories, never under other files. */
  ghost predicate SoundTree(files: map<Path, FileRec>, dirs: set<Path>) {
    forall p :: p in files ==> p != [] && p !in dirs && Ancestors(p) <= dirs
  }

  /** From `f0` to `f1` only paths in `touched` changed, none disappeared, and what
      changed was written no earlier than `since`. */
  ghost predicate OnlyWrote(f0: map<Path, FileRec>, f1: map<Path, FileRec>, touched: set<Path>, since: nat) {
    (forall p :: p in f0 ==> p in f1) &&
    forall p :: p in f1 ==> (p in f0 && f1[p] == f0[p]) || (p in touched && f1[p].mtime >= since)
  }

  /** Whatever was written lies where policy allows it. */
  ghost predicate WroteAllowed(f0: map<Path, FileRec>, f1: map<Path, FileRec>, denied: seq<Path>, allowed: seq<Path>) {
    forall p :: p in f1 ==> (p in f0 && f1[p] == f0[p]) || Allowed(p, denied, allowed)
  }

  /** Destination and network together. `sent` are the slices handed to the network,
      each deliverable from then on, repeatedly; `accepted` those delivered at least
      once and answered with success; `goal` what each file sent is meant to become,
      `began` when its transfer started. */
  datatype World = World(files: map<Path, FileRec>, dirs: set<Path>, clock: nat, sent: set<Slice>, accepted: set<Slice>,
                         denied: seq<Path>, allowed: seq<Path>, ghost goal: map<Path, Bytes>, ghost began: map<Path, nat>)
  {
    function Before(p: Path): Bytes {
      if p in files then files[p].content else []
    }

    ghost predicate Intended(s: Slice) {
      s.path in goal && Piece(s, goal[s.path])
    }

    ghost predicate InPlace(s: Slice) {
      s.path in files && Holds(files[s.path].content, s) && s.path in began && files[s.path].mtime >= began[s.path]
    }

    /** The file is what it was meant to be and its checksum was found equal. */
    ghost predicate Finished(s: Slice, hash: Hash) {
      s.path in goal && s.path in files && files[s.path].content == goal[s.path] &&
      (s.sha.Some? ==> SameLetters(hash(goal[s.path]), s.sha.value))
    }

    ghost predicate Valid(hash: Hash) {
      SoundTree(files, dirs) && accepted <= sent && began.Keys == goal.Keys &&
      (forall p :: p in began ==> began[p] <= clock) &&
      (forall s :: s in sent ==> Intended(s)) &&
      (forall s :: s in accepted ==> InPlace(s)) &&
      (forall s :: s in sent && s.eof ==> Covered(accepted, s.path, s.offset)) &&
      (forall s :: s in accepted && s.eof ==> Finished(s, hash))
    }

    /** The transfer to `p` was acknowledged to the end. */
    ghost predicate Arrived(p: Path) {
      exists s :: s in accepted && s.eof && s.path == p
    }
  }

  /** What any step may do to the rest of the world. */
  ghost predicate Follows(w: World, v: World) {
    v.goal == w.goal && v.began == w.began && w.sent <= v.sent && w.accepted <= v.accepted && w.clock <= v.clock &&
    w.dirs <= v.dirs &&
    v.denied == w.denied && v.allowed == w.allowed &&
    OnlyWrote(w.files, v.files, w.goal.Keys, w.clock) && WroteAllowed(w.files, v.files, w.denied, w.allowed)
  }

  lemma FollowsTransitively(u: World, v: World, w: World)
    requires Follows(u, v) && Follows(v, w)
    ensures Follows(u, w)
  {}

  lemma CoveredMore(some: set<Slice>, more: set<Slice>, path: Path, k: nat)
    requires Covered(some, path, k)
    requires forall s :: s in some && s.path == path ==> s in more
    ensures Covered(more, path, k)
  {
    forall i | 0 <= i < k ensures CoveredAt(more, path, i) {
      assert CoveredAt(some, path, i);
    }
  }

  // --- one delivery -----------------------------------------------------------------------

  /** The world after the receiver wrote `s`. */
  ghost function Written(w: World, s: Slice, ok: bool): World {
    w.(files := w.files[s.path := FileRec(AfterWrite(w.Before(s.path), s), w.clock)],
       dirs := w.dirs + Ancestors(s.path),
       accepted := if ok then w.accepted + {s} else w.accepted)
  }

  /** When the eof slice arrives, everything before it is already in the file. */
  lemma EofCompletes(w: World, s: Slice, hash: Hash)
    requires w.Valid(hash) && s in w.sent && s.eof
    ensures AfterWrite(w.Before(s.path), s) == w.goal[s.path]
  {
    assert w.Intended(s);
    if s.offset > 0 {
      assert CoveredAt(w.accepted, s.path, 0);
      forall r | r in w.accepted && r.path == s.path ensures Piece(r, w.goal[s.path]) && Holds(w.Before(s.path), r) {
        assert w.Intended(r) && w.InPlace(r);
      }
      CoveredIsWritten(w.Before(s.path), w.accepted, s.path, s.offset, w.goal[s.path]);
    }
    LastPieceCompletes(w.Before(s.path), s, w.goal[s.path]);
  }

  lemma WrittenInPlace(w: World, s: Slice, ok: bool, r: Slice, hash: Hash)
    requires w.Valid(hash) && s in w.sent && r in Written(w, s, ok).accepted
    ensures Written(w, s, ok).InPlace(r)
  {
    assert w.Intended(s) && w.Intended(r);
    if r.path == s.path {
      if r in w.accepted {
        assert w.InPlace(r);
        WriteKeeps(w.Before(s.path), s, r, w.goal[s.path]);
      } else {
        WriteHolds(w.Before(s.path), s);
      }
    } else {
      assert w.InPlace(r);
    }
  }

  lemma WrittenFinished(w: World, s: Slice, ok: bool, r: Slice, hash: Hash)
    requires w.Valid(hash) && s in w.sent && r in Written(w, s, ok).accepted && r.eof
    requires ok && s.eof && s.sha.Some? ==> SameLetters(hash(AfterWrite(w.Before(s.path), s)), s.sha.value)
    ensures Written(w, s, ok).Finished(r, hash)
  {
    assert w.Intended(s) && w.Intended(r);
    if r in w.accepted {
      assert w.Finished(r, hash);
      if r.path == s.path { WriteIntoWhole(w.goal[s.path], s); }
    } else {
      EofCompletes(w, s, hash);
    }
  }

  lemma WrittenValid(w: World, s: Slice, ok: bool, hash: Hash)
    requires w.Valid(hash) && s in w.sent && !Blocked(w.files, w.dirs, s.path) && Allowed(s.path, w.denied, w.allowed)
    requires ok && s.eof && s.sha.Some? ==> SameLetters(hash(AfterWrite(w.Before(s.path), s)), s.sha.value)
    ensures Written(w, s, ok).Valid(hash) && Follows(w, Written(w, s, ok))
  {
    var v := Written(w, s, ok);
    assert w.Intended(s);
    forall r | r in v.accepted ensures v.InPlace(r) { WrittenInPlace(w, s, ok, r, hash); }
    forall r | r in v.accepted && r.eof ensures v.Finished(r, hash) { WrittenFinished(w, s, ok, r, hash); }
    forall r | r in v.sent ensures v.Intended(r) { assert w.Intended(r); }
    forall r | r in v.sent && r.eof ensures Covered(v.accepted, r.path, r.offset) {
      CoveredMore(w.accepted, v.accepted, r.path, r.offset);
    }
  }

  // --- the receiving host -----------------------------------------------------------------

  /** Nothing is in the way of a file: its path is not the root nor a directory, and leads through no file. */
  ghost predicate Free(files: map<Path, FileRec>, dirs: set<Path>, path: Path) {
    path != [] && path !in dirs && forall above :: above in files ==> !(above < path)
  }

  class Destination {
    var files: map<Path, FileRec>
    var dirs: set<Path>
    var clock: nat
    const cwd: Path
    const denied: seq<Path>
    const allowed: seq<Path>
    const hash: Hash
    var sent: set<Slice>
    var accepted: set<Slice>
    ghost var goal: map<Path, Bytes>
    ghost var began: map<Path, nat>
    ghost var log: seq<Event>
    ghost var losses: nat // requests that were refused or not answered so far

    ghost function Now(): World
      reads this
    {
      World(files, dirs, clock, sent, accepted, denied, allowed, goal, began)
    }

    ghost predicate Valid()
      reads this
    {
      Now().Valid(hash)
    }

    predicate Willing(s: Slice)
      reads this
    {
      Allowed(s.path, denied, allowed) && s.End() <= U64_MAX && !Blocked(files, dirs, s.path)
    }

    /** A slice is taken in exactly if policy allows its path, its end does not overflow and nothing is in the way. */
    lemma WillingMeans(s: Slice)
      ensures Willing(s) <==>
              Allowed(s.path, denied, allowed) && s.offset + |s.data| < 0x1_0000_0000_0000_0000 && Free(files, dirs, s.path)
    {
      forall above: Path ensures above in Ancestors(s.path) <==> above < s.path {
        if above < s.path { assert s.path[..|above|] == above; }
      }
    }

    /** The receiver's write of one slice. A failed checksum leaves the bytes in place. */
    method ReceiveChunkRaw(s: Slice) returns (ok: bool)
      modifies this`files, this`dirs
      ensures !old(Willing(s)) ==> !ok && Now() == old(Now())
      ensures old(Willing(s)) ==> Now() == Written(old(Now()), s, false)
      ensures old(Willing(s)) ==>
                (ok <==> (s.eof && s.sha.Some? ==> SameLetters(hash(AfterWrite(old(Now()).Before(s.path), s)), s.sha.value)))
    {
      if !Allowed(s.path, denied, allowed) || s.End() > U64_MAX || Blocked(files, dirs, s.path) {
        return false;
      }
      dirs := dirs + Ancestors(s.path);
      var file := if s.path in files then files[s.path].content else [];
      file := WriteAt(file, s.offset, s.data);
      if s.eof {
        file := SetLen(file, s.End());
      }
      files := files[s.path := FileRec(file, clock)];
      ok := !(s.eof && s.sha.Some?) || SameLetters(hash(file), s.sha.value);
    }

    /** One delivery of a sent slice. */
    method Deliver(s: Slice)
      requires Valid() && s in sent
      modifies this`files, this`dirs, this`accepted
      ensures Valid() && Follows(old(Now()), Now()) && sent == old(sent)
    {
      ghost var w := Now();
      var ok := ReceiveChunkRaw(s);
      if ok {
        accepted := accepted + {s};
      }
      if old(Willing(s)) {
        WrittenValid(w, s, ok, hash);
        assert Now() == Written(w, s, ok);
      }
    }

    /** Whatever network and clocks do between two steps of the sender. */
    method Interfere()
      requires Valid()
      modifies this`files, this`dirs, this`accepted, this`clock
      ensures Valid() && Follows(old(Now()), Now()) && sent == old(sent)
    {
      ghost var w := Now();
      var n: nat :| true;
      while n > 0
        invariant Valid() && Follows(w, Now()) && sent == old(sent)
      {
        var tick: nat :| true;
        clock := clock + tick;
        if sent != {} {
          ghost var v := Now();
          var s :| s in sent;
          Deliver(s);
          FollowsTransitively(w, v, Now());
        }
        n := n - 1;
      }
    }

    /** Nothing is under way any more: the transfers so far are over. */
    method Settle()
      requires Valid()
      modifies this`sent, this`accepted, this`goal, this`began
      ensures Valid() && goal == map[]
    {
      sent, accepted, goal, began := {}, {}, map[], map[];
    }

    /** Hand a slice to the network. The eof slice comes after all others are acked. */
    method Send(s: Slice)
      requires Valid() && Now().Intended(s) && (s.eof ==> Covered(accepted, s.path, s.offset))
      modifies this`sent, this`log
      ensures Valid() && Now() == old(Now()).(sent := old(sent) + {s}) && log == old(log) + [Sent(s)]
    {
      ghost var w := Now();
      sent := sent + {s};
      log := log + [Sent(s)];
      forall r | r in sent ensures Now().Intended(r) {
        assert r != s ==> w.Intended(r);
      }
      forall r | r in accepted ensures Now().InPlace(r) {
        assert w.InPlace(r);
      }
      forall r | r in accepted && r.eof ensures Now().Finished(r, hash) {
        assert w.Finished(r, hash);
      }
    }

    /** Wait for the answer to `s`. It can only be positive once `s` was delivered;
        it may be negative at any time (an error, or no answer in time). */
    method Await(s: Slice) returns (ok: bool)
      requires Valid() && s in sent
      modifies this`files, this`dirs, this`accepted, this`clock, this`log, this`losses
      ensures Valid() && Follows(old(Now()), Now()) && sent == old(sent)
      ensures ok ==> s in accepted
      ensures log == old(log) + [Acked(s)] && losses == old(losses) + if ok then 0 else 1
    {
      Interfere();
      ok := *;
      ok := ok && s in accepted;
      log := log + [Acked(s)];
      losses := losses + if ok then 0 else 1;
    }
  }

  // --- the sending host -------------------------------------------------------------------

  /** `read_chunk_raw`: fails past the end of the file, else clamps to it. */
  function ReadChunk(src: Bytes, offset: nat, want: nat): Option<Bytes> {
    if offset > |src| then None
    else Some(src[offset..if offset + want <= |src| then offset + want else |src|])
  }

  function Min(a: nat, b: nat): nat {
    if a <= b then a else b
  }

  ghost function Slices(inflight: seq<Slice>): set<Slice> {
    set s | s in inflight
  }

  /** The sender's invariant: everything before `offset` is in flight or accepted. */
  ghost predicate Streaming(w: World, path: Path, whole: Bytes, inflight: seq<Slice>, offset: nat) {
    path in w.goal && w.goal[path] == whole && path in w.began &&
    Slices(inflight) <= w.sent && Covered(Slices(inflight) + w.accepted, path, Min(offset, |whole|))
  }

  /** So many bytes are a number of whole chunks. */
  predicate WholeChunks(n: nat, chunk: nat)
    requires chunk > 0
  {
    n == 0 || (chunk <= n && WholeChunks(n - chunk, chunk))
  }

  /** A slice as it is to be cut from a file of `size` bytes: after whole chunks the next one, or, if
      it is the last, what is left; only an empty file has an empty one. */
  predicate CutFrom(s: Slice, whole: Bytes, chunk: nat, size: nat)
    requires chunk > 0
  {
    WholeChunks(s.offset, chunk) && (s.offset < size || s.offset == size == 0) && (s.eof <==> s.offset + chunk >= size) &&
    s.offset <= |whole| && s.data == whole[s.offset..Min(s.offset + chunk, |whole|)]
  }

  predicate AllCut(sent: set<Slice>, path: Path, whole: Bytes, chunk: nat, size: nat)
    requires chunk > 0
  {
    forall s :: s in sent && s.path == path ==> CutFrom(s, whole, chunk, size)
  }

  /** Where the sender is: all slices so far are cut as they should be, and the next one starts here. */
  predicate Cutting(sent: set<Slice>, path: Path, whole: Bytes, chunk: nat, size: nat, offset: nat)
    requires chunk > 0
  {
    AllCut(sent, path, whole, chunk, size) && WholeChunks(offset, chunk) && (offset < size || offset == size == 0)
  }

  lemma CutNext(sent: set<Slice>, s: Slice, path: Path, whole: Bytes, chunk: nat, size: nat)
    requires chunk > 0 && Cutting(sent, path, whole, chunk, size, s.offset)
    requires s.offset <= |whole| && s.data == whole[s.offset..Min(s.offset + chunk, |whole|)]
    requires s.eof <==> s.offset + chunk >= size
    ensures AllCut(sent + {s}, path, whole, chunk, size)
    ensures !s.eof ==> Cutting(sent + {s}, path, whole, chunk, size, s.offset + chunk)
  {
    assert CutFrom(s, whole, chunk, size);
  }

  /** The trace since `start`: the window was kept and `n` slices are in flight. */
  ghost predicate Traced(log: seq<Event>, before: seq<Event>, n: nat) {
    |before| <= |log| && log[..|before|] == before && WindowKept(log[|before|..]) && InFlight(log[|before|..]) == n
  }

  lemma TracedStep(log: seq<Event>, before: seq<Event>, n: nat, e: Event)
    requires Traced(log, before, n)
    requires if e.Sent? then n < TRANSFER_WINDOW && (e.slice.eof ==> n == 0) else n > 0
    ensures Traced(log + [e], before, if e.Sent? then n + 1 else n - 1)
  {
    LogGrows(log[|before|..], e);
    assert (log + [e])[|before|..] == log[|before|..] + [e];
    assert (log + [e])[..|before|] == log[..|before|];
  }

  lemma StreamingSent(w: World, path: Path, whole: Bytes, inflight: seq<Slice>, s: Slice, want: nat)
    requires Streaming(w, path, whole, inflight, s.offset) && s.path == path && s.End() == Min(s.offset + want, |whole|)
    ensures Streaming(w.(sent := w.sent + {s}), path, whole, inflight + [s], s.offset + want)
  {
    var before, after := Slices(inflight) + w.accepted, Slices(inflight + [s]) + w.accepted;
    assert Slices(inflight + [s]) == Slices(inflight) + {s};
    forall i | 0 <= i < Min(s.offset + want, |whole|) ensures CoveredAt(after, path, i) {
      if i < s.offset {
        assert CoveredAt(before, path, i);
      } else {
        assert HasByte(s, path, i);
      }
    }
  }

  lemma StreamingAcked(w: World, v: World, path: Path, whole: Bytes, inflight: seq<Slice>, k: nat, offset: nat)
    requires Streaming(w, path, whole, inflight, offset) && Follows(w, v) && k < |inflight| && inflight[k] in v.accepted
    ensures Streaming(v, path, whole, inflight[..k] + inflight[k + 1..], offset)
  {
    var left := inflight[..k] + inflight[k + 1..];
    forall r | r in inflight && r != inflight[k] ensures r in left {
      var j :| 0 <= j < |inflight| && inflight[j] == r;
      assert r == left[if j < k then j else j - 1];
    }
    forall r | r in left ensures r in inflight {
      var j :| 0 <= j < |left| && left[j] == r;
      assert r == inflight[if j < k then j else j + 1];
    }
    CoveredMore(Slices(inflight) + w.accepted, Slices(left) + v.accepted, path, Min(offset, |whole|));
  }

  /** One `FuturesUnordered::next`: whichever slice in flight is answered first. */
  method AwaitAny(d: Destination, path: Path, ghost whole: Bytes, inflight: seq<Slice>, ghost offset: nat, ghost start: World,
                  ghost before: seq<Event>)
    returns (left: seq<Slice>, ok: bool)
    requires d.Valid() && Follows(start, d.Now()) && inflight != []
    requires Streaming(d.Now(), path, whole, inflight, offset) && Traced(d.log, before, |inflight|)
    modifies d`files, d`dirs, d`accepted, d`clock, d`log, d`losses
    ensures d.Valid() && Follows(start, d.Now())
    ensures |left| == |inflight| - 1 && Traced(d.log, before, |left|)
    ensures d.losses == old(d.losses) + if ok then 0 else 1
    ensures ok ==> Streaming(d.Now(), path, whole, left, offset)
    ensures ok && |inflight| == 1 ==> inflight[0] in d.accepted
  {
    var k: nat :| k < |inflight|;
    left := inflight[..k] + inflight[k + 1..];
    ghost var w, log := d.Now(), d.log;
    assert inflight[k] in Slices(inflight);
    ok := d.Await(inflight[k]);
    FollowsTransitively(start, w, d.Now());
    TracedStep(log, before, |inflight|, Acked(inflight[k]));
    if ok {
      StreamingAcked(w, d.Now(), path, whole, inflight, k, offset);
    }
  }

  /** Read the slice at `offset` and put it in flight. */
  method SendNext(d: Destination, path: Path, src: Bytes, ghost whole: Bytes, inflight: seq<Slice>, offset: nat, want: nat,
                  eof: bool, sha: Option<string>, ghost before: seq<Event>)
    returns (left: seq<Slice>, ok: bool)
    requires d.Valid() && Streaming(d.Now(), path, whole, inflight, offset) && Traced(d.log, before, |inflight|)
    requires |inflight| < TRANSFER_WINDOW && whole <= src
    requires if eof then inflight == [] && Min(offset + want, |src|) == |whole| else Min(offset + want, |src|) <= |whole|
    requires |whole| < |src| ==> offset + want <= |whole|
    modifies d`sent, d`log
    ensures d.Valid() && Follows(old(d.Now()), d.Now()) && d.accepted == old(d.accepted)
    ensures ok <==> offset <= |src|
    ensures ok ==> Streaming(d.Now(), path, whole, left, offset + want) && Traced(d.log, before, |left|)
    ensures ok ==> |left| == |inflight| + 1 && left[..|inflight|] == inflight
    ensures ok ==> var s := left[|inflight|]; s.path == path && s.eof == eof && s.sha == sha && d.sent == old(d.sent) + {s}
    ensures ok ==> var s := left[|inflight|]; s.offset == offset <= |whole| && s.data == whole[offset..Min(offset + want, |whole|)]
    ensures !ok ==> left == inflight && Traced(d.log, before, |inflight|) && d.sent == old(d.sent)
  {
    var data := ReadChunk(src, offset, want);
    if data.None? {
      return inflight, false;
    }
    var s := Slice(path, offset, data.value, eof, sha);
    left := inflight + [s];
    ok := true;
    assert s.End() == Min(offset + want, |src|) && s.data == whole[offset..s.End()];
    ghost var w, log := d.Now(), d.log;
    if eof {
      CoveredMore(Slices(inflight) + w.accepted, w.accepted, path, offset);
    }
    d.Send(s);
    TracedStep(log, before, |inflight|, Sent(s));
    StreamingSent(w, path, whole, inflight, s, want);
  }

  /** One slice of the first loop: not the last, so a whole chunk. */
  method SendChunk(d: Destination, path: Path, src: Bytes, ghost whole: Bytes, inflight: seq<Slice>, offset: nat, want: nat,
                   ghost chunk: nat, ghost size: nat, ghost start: World, ghost before: seq<Event>)
    returns (left: seq<Slice>, ok: bool)
    requires d.Valid() && Follows(start, d.Now()) && Streaming(d.Now(), path, whole, inflight, offset) && Traced(d.log, before, |inflight|)
    requires |inflight| < TRANSFER_WINDOW && whole == src[..Min(size, |src|)] && chunk > 0
    requires Cutting(d.sent, path, whole, chunk, size, offset) && want == chunk && offset + chunk < size
    modifies d`sent, d`log
    ensures d.Valid() && Follows(start, d.Now()) && AllCut(d.sent, path, whole, chunk, size)
    ensures ok <==> offset <= |src|
    ensures ok ==> Streaming(d.Now(), path, whole, left, offset + want) && Cutting(d.sent, path, whole, chunk, size, offset + want)
    ensures |left| == |inflight| + (if ok then 1 else 0) && Traced(d.log, before, |left|)
  {
    left, ok := SendNext(d, path, src, whole, inflight, offset, want, false, None, before);
    FollowsTransitively(start, old(d.Now()), d.Now());
    if ok {
      CutNext(old(d.sent), left[|inflight|], path, whole, chunk, size);
    }
  }

  /** One round of the first loop: with a full window, an answer is awaited. */
  method PumpNext(d: Destination, path: Path, src: Bytes, ghost whole: Bytes, inflight: seq<Slice>, offset: nat, want: nat,
                  ghost chunk: nat, ghost size: nat, ghost start: World, ghost before: seq<Event>)
    returns (left: seq<Slice>, ok: bool)
    requires d.Valid() && Follows(start, d.Now()) && Streaming(d.Now(), path, whole, inflight, offset) && Traced(d.log, before, |inflight|)
    requires |inflight| < TRANSFER_WINDOW && whole == src[..Min(size, |src|)] && chunk > 0
    requires Cutting(d.sent, path, whole, chunk, size, offset) && want == chunk && offset + chunk < size
    modifies d`files, d`dirs, d`clock, d`sent, d`accepted, d`log, d`losses
    ensures d.Valid() && Follows(start, d.Now()) && AllCut(d.sent, path, whole, chunk, size) && Traced(d.log, before, |left|)
    ensures if ok then d.losses == old(d.losses) else |src| < size || d.losses > old(d.losses)
    ensures d.losses >= old(d.losses)
    ensures ok ==> |left| < TRANSFER_WINDOW && Streaming(d.Now(), path, whole, left, offset + want)
    ensures ok ==> Cutting(d.sent, path, whole, chunk, size, offset + want)
  {
    left, ok := SendChunk(d, path, src, whole, inflight, offset, want, chunk, size, start, before);
    if ok && |left| >= TRANSFER_WINDOW {
      left, ok := AwaitAny(d, path, whole, left, offset + want, start, before);
    }
  }

  /** The first loop: every slice but the last, at most a window in flight. */
  method Pump(d: Destination, path: Path, src: Bytes, ghost whole: Bytes, chunk: nat, size: nat, ghost start: World,
              ghost before: seq<Event>)
    returns (inflight: seq<Slice>, offset: nat, ok: bool)
    requires chunk > 0 && whole == src[..Min(size, |src|)]
    requires d.Valid() && Follows(start, d.Now())
    requires Streaming(d.Now(), path, whole, [], 0) && Traced(d.log, before, 0) && AllCut(d.sent, path, whole, chunk, size)
    modifies d`files, d`dirs, d`clock, d`sent, d`accepted, d`log, d`losses
    ensures d.Valid() && Follows(start, d.Now()) && |before| <= |d.log| && d.log[..|before|] == before && WindowKept(d.log[|before|..])
    ensures AllCut(d.sent, path, whole, chunk, size)
    ensures ok ==> Cutting(d.sent, path, whole, chunk, size, offset) && offset + chunk >= size
    ensures ok ==> offset <= size && Streaming(d.Now(), path, whole, inflight, offset) && Traced(d.log, before, |inflight|)
    ensures if ok then d.losses == old(d.losses) else |src| < size || d.losses > old(d.losses)
    ensures d.losses >= old(d.losses)
  {
    inflight, offset, ok := [], 0, true;
    while offset < size
      invariant ok && offset <= size && |inflight| < TRANSFER_WINDOW && d.losses == old(d.losses)
      invariant d.Valid() && Follows(start, d.Now())
      invariant Streaming(d.Now(), path, whole, inflight, offset) && Traced(d.log, before, |inflight|)
      invariant Cutting(d.sent, path, whole, chunk, size, offset)
    {
      var want := Min(chunk, size - offset);
      if offset + want >= size {
        break;
      }
      inflight, ok := PumpNext(d, path, src, whole, inflight, offset, want, chunk, size, start, before);
      if !ok { return; }
      offset := offset + want;
    }
  }

  /** The second loop: every slice in flight is answered before the last one goes out. */
  method Drain(d: Destination, path: Path, ghost whole: Bytes, inflight0: seq<Slice>, ghost offset: nat, ghost start: World,
               ghost before: seq<Event>)
    returns (ok: bool)
    requires d.Valid() && Follows(start, d.Now())
    requires Streaming(d.Now(), path, whole, inflight0, offset) && Traced(d.log, before, |inflight0|)
    modifies d`files, d`dirs, d`clock, d`accepted, d`log, d`losses
    ensures d.Valid() && Follows(start, d.Now()) && |before| <= |d.log| && d.log[..|before|] == before && WindowKept(d.log[|before|..])
    ensures ok ==> Streaming(d.Now(), path, whole, [], offset) && Traced(d.log, before, 0)
    ensures d.losses == old(d.losses) + if ok then 0 else 1
  {
    var inflight := inflight0;
    ok := true;
    while inflight != []
      invariant ok && d.Valid() && Follows(start, d.Now()) && d.losses == old(d.losses)
      invariant Streaming(d.Now(), path, whole, inflight, offset) && Traced(d.log, before, |inflight|)
      decreases |inflight|
    {
      inflight, ok := AwaitAny(d, path, whole, inflight, offset, start, before);
      if !ok { return; }
    }
  }

  /** Stream `src` to `path`. `size` is the length the caller saw earlier; at most
      that much is sent. It fails only if the file got shorter or an answer is negative or missing. On
      success the destination holds what was sent, it hashes
      like the source, and no late or repeated delivery changes it any more. */
  method StreamFile(d: Destination, path: Path, src: Bytes, chunkSize: nat, size: nat) returns (ok: bool)
    requires d.Valid() && path !in d.goal
    modifies d`files, d`dirs, d`clock, d`sent, d`accepted, d`goal, d`began, d`log, d`losses
    ensures d.Valid()
    ensures d.goal == old(d.goal)[path := src[..Min(size, |src|)]]
    ensures d.began == old(d.began)[path := old(d.clock)]
    ensures Follows(old(d.Now()).(goal := d.goal, began := d.began), d.Now())
    ensures ok ==> path in d.files && d.files[path].content == src[..Min(size, |src|)]
    ensures ok ==> d.Now().Arrived(path) && SameLetters(d.hash(src[..Min(size, |src|)]), d.hash(src))
    ensures old(d.log) <= d.log && WindowKept(d.log[|old(d.log)|..])
    ensures AllCut(d.sent, path, src[..Min(size, |src|)], if chunkSize == 0 then 1 else chunkSize, size)
    ensures if ok then d.losses == old(d.losses) else |src| < size || d.losses > old(d.losses)
    ensures d.losses >= old(d.losses)
  {
    var sha := d.hash(src);
    var chunk := if chunkSize == 0 then 1 else chunkSize;
    ghost var whole, before := src[..Min(size, |src|)], d.log;
    OpenStream(d.Now(), path, whole, d.hash);
    d.goal := d.goal[path := whole];
    d.began := d.began[path := d.clock];
    ghost var start := d.Now();
    assert before[|before|..] == [];
    forall s | s in d.sent ensures s.path != path { assert old(d.Now()).Intended(s); }

    var inflight: seq<Slice>, offset: nat;
    inflight, offset, ok := Pump(d, path, src, whole, chunk, size, start, before);
    if !ok { return; }
    ok := Drain(d, path, whole, inflight, offset, start, before);
    if !ok { return; }
    ok := SendLast(d, path, src, whole, offset, size, sha, chunk, start, before);
  }

  /** The last slice, which carries the hash of the source. */
  method SendLast(d: Destination, path: Path, src: Bytes, ghost whole: Bytes, offset: nat, size: nat, sha: string,
                  ghost chunk: nat, ghost start: World, ghost before: seq<Event>)
    returns (ok: bool)
    requires chunk > 0 && Cutting(d.sent, path, whole, chunk, size, offset) && offset + chunk >= size
    requires whole == src[..Min(size, |src|)] && offset <= size
    requires d.Valid() && Follows(start, d.Now()) && Streaming(d.Now(), path, whole, [], offset) && Traced(d.log, before, 0)
    modifies d`files, d`dirs, d`clock, d`sent, d`accepted, d`log, d`losses
    ensures d.Valid() && Follows(start, d.Now()) && |before| <= |d.log| && d.log[..|before|] == before && WindowKept(d.log[|before|..])
    ensures ok ==> path in d.files && d.files[path].content == whole && d.Now().Arrived(path) && SameLetters(d.hash(whole), sha)
    ensures AllCut(d.sent, path, whole, chunk, size)
    ensures if ok then d.losses == old(d.losses) else |src| < size || d.losses > old(d.losses)
    ensures d.losses >= old(d.losses)
  {
    var inflight;
    inflight, ok := SendNext(d, path, src, whole, [], offset, size - offset, true, Some(sha), before);
    FollowsTransitively(start, old(d.Now()), d.Now());
    if !ok { return; }
    ghost var last := inflight[0];
    CutNext(old(d.sent), last, path, whole, chunk, size);
    inflight, ok := AwaitAny(d, path, whole, inflight, size, start, before);
    assert ok ==> last in d.accepted && d.Now().Finished(last, d.hash);
  }

  lemma OpenStream(w: World, path: Path, whole: Bytes, hash: Hash)
    requires w.Valid(hash) && path !in w.goal
    ensures var v := w.(goal := w.goal[path := whole], began := w.began[path := w.clock]);
            v.Valid(hash) && Follows(v, v) && Streaming(v, path, whole, [], 0)
  {
    var v := w.(goal := w.goal[path := whole], began := w.began[path := w.clock]);
    forall s | s in v.sent ensures v.Intended(s) { assert w.Intended(s); }
    forall s | s in v.accepted ensures v.InPlace(s) { assert w.InPlace(s) && w.Intended(s); }
    forall s | s in v.accepted && s.eof ensures v.Finished(s, hash) { assert w.Finished(s, hash) && w.Intended(s); }
  }
}
