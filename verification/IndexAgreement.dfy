/**
 When the incremental index agrees with one built from nothing: exactly when, for a
 single refresh, and on whole series of refreshes that may be cut by their budget,
 fail to commit, or lose the manifest after a commit.
 */
module IndexAgreement {
  import opened Wrappers
  import opened SessionIndex

  const NOTHING := Index(map[], map[])

  /** The documents a session should have; none if its transcript cannot be fetched. */
  function Wanted(m: Meta, source: Source): seq<Doc> {
    if source(m).Some? then Documents(m, source(m).value) else []
  }

  /** A build from nothing, without a deadline. */
  function Rebuilt(scanned: seq<Meta>, source: Source): Index {
    Refreshed(NOTHING, scanned, source, |scanned|)
  }

  ghost predicate SameDocs(a: Index, b: Index) {
    forall key :: DocsOf(a, key) == DocsOf(b, key)
  }

  // --- one refresh, key by key ----------------------------------------------------------

  /** Nothing about `key` changed. */
  predicate SameAt(a: Index, b: Index, key: string) {
    DocsOf(b, key) == DocsOf(a, key) && (key in b.manifest <==> key in a.manifest) &&
    (key in a.manifest ==> b.manifest[key] == a.manifest[key])
  }

  /** `m` was recorded, and its documents replaced if its transcript was there. */
  predicate TookAt(a: Index, b: Index, m: Meta, source: Source) {
    Key(m) in b.manifest && b.manifest[Key(m)] == m.updated &&
    DocsOf(b, Key(m)) == if source(m).Some? then Documents(m, source(m).value) else DocsOf(a, Key(m))
  }

  lemma {:induction false} OthersUntaken(ix: Index, ms: seq<Meta>, source: Source, key: string)
    requires forall m :: m in ms ==> Key(m) != key
    ensures SameAt(ix, TakenAll(ix, ms, source), key)
  {
    if ms != [] {
      var init := ms[..|ms| - 1];
      assert ms == init + [ms[|ms| - 1]] && ms[|ms| - 1] in ms;
      OthersUntaken(ix, init, source, key);
    }
  }

  lemma {:induction false} EachTaken(ix: Index, ms: seq<Meta>, source: Source, m: Meta)
    requires DistinctKeys(ms) && m in ms
    ensures TookAt(ix, TakenAll(ix, ms, source), m, source)
  {
    var init, last := ms[..|ms| - 1], ms[|ms| - 1];
    DistinctInit(ms);
    assert ms == init + [last];
    if m in init {
      EachTaken(ix, init, source, m);
    } else {
      OthersUntaken(ix, init, source, Key(m));
    }
  }

  /** What a refresh does to a session it scans, given whether its turn came. */
  lemma ScannedAt(ix: Index, scanned: seq<Meta>, source: Source, budget: nat, m: Meta)
    requires DistinctKeys(scanned) && m in scanned
    ensures var after := Refreshed(ix, scanned, source, budget);
            if m in Upto(ChangedOf(ix.manifest, scanned), budget)
            then IsChanged(ix.manifest, m) && TookAt(ix, after, m, source)
            else SameAt(ix, after, Key(m))
  {
    var taken, swept := Upto(ChangedOf(ix.manifest, scanned), budget), Swept(ix, scanned);
    ChangedMeans(ix.manifest, scanned);
    ChangedDistinct(ix.manifest, scanned, budget);
    assert forall n :: n in taken ==> n in ChangedOf(ix.manifest, scanned);
    if m in taken {
      EachTaken(swept, taken, source, m);
    } else {
      forall n | n in taken ensures Key(n) != Key(m) {}
      OthersUntaken(swept, taken, source, Key(m));
    }
  }

  /** A key the scan does not see loses its documents if the manifest knows it. */
  lemma UnscannedAt(ix: Index, scanned: seq<Meta>, source: Source, budget: nat, key: string)
    requires DistinctKeys(scanned) && key !in Keys(scanned)
    ensures var after := Refreshed(ix, scanned, source, budget);
            DocsOf(after, key) == (if key in ix.manifest then [] else DocsOf(ix, key)) &&
            (key in after.manifest <==> key in ix.manifest) && (key in ix.manifest ==> after.manifest[key] == ix.manifest[key])
  {
    var taken := Upto(ChangedOf(ix.manifest, scanned), budget);
    ChangedMeans(ix.manifest, scanned);
    forall n | n in taken ensures Key(n) != key {
      assert n in ChangedOf(ix.manifest, scanned) && Key(n) in Keys(scanned);
    }
    OthersUntaken(Swept(ix, scanned), taken, source, key);
  }

  lemma RebuiltAt(scanned: seq<Meta>, source: Source)
    requires DistinctKeys(scanned)
    ensures forall m :: m in scanned ==> DocsOf(Rebuilt(scanned, source), Key(m)) == Wanted(m, source)
    ensures forall key :: key !in Keys(scanned) ==> DocsOf(Rebuilt(scanned, source), key) == []
  {
    ChangedMeans(map[], scanned);
    ChangedLength(map[], scanned);
    forall m | m in scanned ensures DocsOf(Rebuilt(scanned, source), Key(m)) == Wanted(m, source) {
      ScannedAt(NOTHING, scanned, source, |scanned|, m);
    }
    forall key | key !in Keys(scanned) ensures DocsOf(Rebuilt(scanned, source), key) == [] {
      UnscannedAt(NOTHING, scanned, source, |scanned|, key);
    }
  }

  lemma {:induction false} ChangedLength(manifest: map<string, nat>, scanned: seq<Meta>)
    ensures |ChangedOf(manifest, scanned)| <= |scanned|
  {
    if scanned != [] { ChangedLength(manifest, scanned[..|scanned| - 1]); }
  }

  // --- exactly when one refresh is enough --------------------------------------------------

  /** An unchanged session is indexed as it is; one that changed and now fails has no documents. */
  predicate ReadyAt(ix: Index, source: Source, m: Meta) {
    if !IsChanged(ix.manifest, m) then DocsOf(ix, Key(m)) == Wanted(m, source)
    else source(m).None? ==> DocsOf(ix, Key(m)) == []
  }

  /** So it is for all sessions, and whatever the scan does not see is in the manifest. */
  ghost predicate Ready(ix: Index, scanned: seq<Meta>, source: Source) {
    (forall m :: m in scanned ==> ReadyAt(ix, source, m)) && Orphanless(ix, scanned)
  }

  /** No document belongs to a session that neither scan nor manifest know. */
  ghost predicate Orphanless(ix: Index, scanned: seq<Meta>) {
    forall key :: DocsOf(ix, key) != [] ==> key in Keys(scanned) || key in ix.manifest
  }

  lemma ScannedAgrees(ix: Index, scanned: seq<Meta>, source: Source, budget: nat, m: Meta)
    requires DistinctKeys(scanned) && |ChangedOf(ix.manifest, scanned)| <= budget && m in scanned
    ensures DocsOf(Refreshed(ix, scanned, source, budget), Key(m)) == DocsOf(Rebuilt(scanned, source), Key(m)) <==> ReadyAt(ix, source, m)
  {
    RebuiltAt(scanned, source);
    ChangedMeans(ix.manifest, scanned);
    ScannedAt(ix, scanned, source, budget, m);
  }

  lemma UnscannedAgrees(ix: Index, scanned: seq<Meta>, source: Source, budget: nat, key: string)
    requires DistinctKeys(scanned) && key !in Keys(scanned)
    ensures DocsOf(Refreshed(ix, scanned, source, budget), key) == DocsOf(Rebuilt(scanned, source), key) <==>
            (DocsOf(ix, key) != [] ==> key in ix.manifest)
  {
    RebuiltAt(scanned, source);
    UnscannedAt(ix, scanned, source, budget, key);
  }

  /** A refresh that is not cut agrees with a rebuild if and only if the index was ready. */
  lemma AgreesExactlyWhenReady(ix: Index, scanned: seq<Meta>, source: Source, budget: nat)
    requires DistinctKeys(scanned) && |ChangedOf(ix.manifest, scanned)| <= budget
    ensures SameDocs(Refreshed(ix, scanned, source, budget), Rebuilt(scanned, source)) <==> Ready(ix, scanned, source)
  {
    var after, anew := Refreshed(ix, scanned, source, budget), Rebuilt(scanned, source);
    forall m | m in scanned ensures DocsOf(after, Key(m)) == DocsOf(anew, Key(m)) <==> ReadyAt(ix, source, m) {
      ScannedAgrees(ix, scanned, source, budget, m);
    }
    forall key | key !in Keys(scanned) ensures DocsOf(after, key) == DocsOf(anew, key) <==> (DocsOf(ix, key) != [] ==> key in ix.manifest) {
      UnscannedAgrees(ix, scanned, source, budget, key);
    }
    if Ready(ix, scanned, source) {
      forall key ensures DocsOf(after, key) == DocsOf(anew, key) {
        if key in Keys(scanned) {
          var m :| m in scanned && Key(m) == key;
          assert ReadyAt(ix, source, m);
        }
      }
    }
  }

  // --- vanished sessions ---------------------------------------------------------------------

  /** Every document belongs to a session the manifest knows. */
  ghost predicate Owned(ix: Index) {
    forall key :: DocsOf(ix, key) != [] ==> key in ix.manifest
  }

  /** Every session that gets documents in a pass is recorded already. */
  ghost predicate NoneNew(ix: Index, scanned: seq<Meta>, source: Source, budget: nat) {
    forall m :: m in Upto(ChangedOf(ix.manifest, scanned), budget) && Wanted(m, source) != [] ==> Key(m) in ix.manifest
  }

  /** Before the manifest is saved, documents belong to recorded or taken sessions; saved or not. */
  lemma OwnedAt(ix: Index, scanned: seq<Meta>, source: Source, budget: nat, key: string)
    requires DistinctKeys(scanned) && Owned(ix)
    ensures var after := Refreshed(ix, scanned, source, budget);
            DocsOf(after, key) != [] ==> key in after.manifest && (NoneNew(ix, scanned, source, budget) ==> key in ix.manifest)
  {
    if key in Keys(scanned) {
      var m :| m in scanned && Key(m) == key;
      ScannedAt(ix, scanned, source, budget, m);
    } else {
      UnscannedAt(ix, scanned, source, budget, key);
    }
  }

  lemma NewIsUnowned(ix: Index, scanned: seq<Meta>, source: Source, budget: nat)
    requires DistinctKeys(scanned) && !NoneNew(ix, scanned, source, budget)
    ensures !Owned(Kept(ix, Refreshed(ix, scanned, source, budget), true, false))
  {
    var taken := Upto(ChangedOf(ix.manifest, scanned), budget);
    var m :| m in taken && Wanted(m, source) != [] && Key(m) !in ix.manifest;
    ChangedMeans(ix.manifest, scanned);
    assert m in ChangedOf(ix.manifest, scanned);
    ScannedAt(ix, scanned, source, budget, m);
  }

  /** Ownership survives a pass if and only if it is not committed, or the manifest is saved,
      or no session without a record got documents. */
  lemma OwnedKept(ix: Index, scanned: seq<Meta>, source: Source, budget: nat, committed: bool, saved: bool)
    requires DistinctKeys(scanned) && Owned(ix)
    ensures Owned(Kept(ix, Refreshed(ix, scanned, source, budget), committed, saved)) <==>
            !committed || saved || NoneNew(ix, scanned, source, budget)
  {
    var after := Refreshed(ix, scanned, source, budget);
    if committed && !saved && !NoneNew(ix, scanned, source, budget) {
      NewIsUnowned(ix, scanned, source, budget);
    } else {
      var kept := Kept(ix, after, committed, saved);
      forall key | DocsOf(kept, key) != [] ensures key in kept.manifest {
        OwnedAt(ix, scanned, source, budget, key);
      }
    }
  }

  /** A committed pass leaves no document of a vanished session, if and only if none was an
      orphan; with owned documents that is always so. */
  lemma VanishedAreCleared(ix: Index, scanned: seq<Meta>, source: Source, budget: nat, saved: bool)
    requires DistinctKeys(scanned)
    ensures (forall key :: key !in Keys(scanned) ==> DocsOf(Kept(ix, Refreshed(ix, scanned, source, budget), true, saved), key) == [])
       <==> Orphanless(ix, scanned)
    ensures Owned(ix) ==> Orphanless(ix, scanned)
  {
    var after := Kept(ix, Refreshed(ix, scanned, source, budget), true, saved);
    forall key | key !in Keys(scanned) ensures DocsOf(after, key) == [] <==> DocsOf(ix, key) == [] || key in ix.manifest {
      UnscannedAt(ix, scanned, source, budget, key);
    }
  }

  // --- series of refreshes ---------------------------------------------------------------------

  datatype Pass = Pass(scanned: seq<Meta>, source: Source, budget: nat, committed: bool, saved: bool)

  /** What a transcript is, by session and `updated`: the same value means the same documents. */
  type Truth = (string, nat) -> seq<Doc>

  /** `gone`: recorded, swept, and not taken in since; `adrift`: taken in by a pass that lost
      its manifest, and not recorded since. */
  datatype Past = Past(ix: Index, gone: set<string>, adrift: set<string>)

  const BEGINNING := Past(NOTHING, {}, {})

  /** The keys whose turn comes in a pass. */
  function TakenKeys(ix: Index, pass: Pass): set<string> {
    Keys(Upto(ChangedOf(ix.manifest, pass.scanned), pass.budget))
  }

  function Passed(p: Past, pass: Pass): Past {
    var ix := Kept(p.ix, Refreshed(p.ix, pass.scanned, pass.source, pass.budget), pass.committed, pass.saved);
    var taken := TakenKeys(p.ix, pass);
    if !pass.committed then Past(ix, p.gone, p.adrift)
    else Past(ix, p.gone + (p.ix.manifest.Keys - Keys(pass.scanned)) - taken,
              if pass.saved then p.adrift - taken else p.adrift + taken)
  }

  /** What a pass must find for the index to follow it: a transcript is what `updated` says
      it is; a session that is swept or adrift does not show just the value the manifest still
      has for it; a fetch fails only for sessions without documents; no document is an orphan. */
  ghost predicate Followable(p: Past, pass: Pass, truth: Truth) {
    DistinctKeys(pass.scanned) && Orphanless(p.ix, pass.scanned) &&
    forall m :: m in pass.scanned ==> FollowableAt(p, pass.source, truth, m)
  }

  ghost predicate FollowableAt(p: Past, source: Source, truth: Truth, m: Meta) {
    (Key(m) in p.gone + p.adrift ==> IsChanged(p.ix.manifest, m)) &&
    Wanted(m, source) == truth(Key(m), m.updated) &&
    (source(m).None? ==> DocsOf(p.ix, Key(m)) == [])
  }

  /** What the manifest says is up to date, is. */
  ghost predicate Faithful(p: Past, truth: Truth) {
    forall key :: key in p.ix.manifest ==> FaithfulAt(p, truth, key)
  }

  ghost predicate FaithfulAt(p: Past, truth: Truth, key: string)
    requires key in p.ix.manifest
  {
    key !in p.gone + p.adrift ==> DocsOf(p.ix, key) == truth(key, p.ix.manifest[key])
  }

  /** Whether a scanned session's turn comes, by session and by key. */
  lemma TurnByKey(ix: Index, pass: Pass, m: Meta)
    requires DistinctKeys(pass.scanned) && m in pass.scanned
    ensures m in Upto(ChangedOf(ix.manifest, pass.scanned), pass.budget) <==> Key(m) in TakenKeys(ix, pass)
    ensures TakenKeys(ix, pass) <= Keys(pass.scanned)
  {
    var taken := Upto(ChangedOf(ix.manifest, pass.scanned), pass.budget);
    ChangedMeans(ix.manifest, pass.scanned);
    assert forall n :: n in taken ==> n in ChangedOf(ix.manifest, pass.scanned);
    if Key(m) in TakenKeys(ix, pass) {
      var n :| n in taken && Key(n) == Key(m);
    }
  }

  lemma TakenAreScanned(ix: Index, pass: Pass)
    ensures TakenKeys(ix, pass) <= Keys(pass.scanned)
  {
    ChangedMeans(ix.manifest, pass.scanned);
    forall n | n in Upto(ChangedOf(ix.manifest, pass.scanned), pass.budget) ensures n in pass.scanned {
      assert n in ChangedOf(ix.manifest, pass.scanned);
    }
  }

  lemma FaithfulScanned(p: Past, pass: Pass, truth: Truth, m: Meta)
    requires Faithful(p, truth) && Followable(p, pass, truth) && m in pass.scanned
    requires Key(m) in Passed(p, pass).ix.manifest
    ensures FaithfulAt(Passed(p, pass), truth, Key(m))
  {
    TurnByKey(p.ix, pass, m);
    ScannedAt(p.ix, pass.scanned, pass.source, pass.budget, m);
    assert FollowableAt(p, pass.source, truth, m);
    assert Key(m) in Keys(pass.scanned);
    if Key(m) in p.ix.manifest { assert FaithfulAt(p, truth, Key(m)); }
  }

  lemma FaithfulUnscanned(p: Past, pass: Pass, truth: Truth, key: string)
    requires Faithful(p, truth) && Followable(p, pass, truth) && key !in Keys(pass.scanned)
    requires key in Passed(p, pass).ix.manifest
    ensures FaithfulAt(Passed(p, pass), truth, key)
  {
    TakenAreScanned(p.ix, pass);
    UnscannedAt(p.ix, pass.scanned, pass.source, pass.budget, key);
    assert FaithfulAt(p, truth, key);
  }

  /** Every pass, cut or not, committed or not, saved or not, keeps the manifest honest. */
  lemma FaithfulKept(p: Past, pass: Pass, truth: Truth)
    requires Faithful(p, truth) && Followable(p, pass, truth)
    ensures Faithful(Passed(p, pass), truth)
  {
    var q := Passed(p, pass);
    forall key | key in q.ix.manifest ensures FaithfulAt(q, truth, key) {
      if key in Keys(pass.scanned) {
        var m :| m in pass.scanned && Key(m) == key;
        FaithfulScanned(p, pass, truth, m);
      } else {
        FaithfulUnscanned(p, pass, truth, key);
      }
    }
  }

  ghost predicate FollowableRun(p: Past, passes: seq<Pass>, truth: Truth)
    decreases |passes|
  {
    passes == [] || (Followable(p, passes[0], truth) && FollowableRun(Passed(p, passes[0]), passes[1..], truth))
  }

  function RunOf(p: Past, passes: seq<Pass>): Past
    decreases |passes|
  {
    if passes == [] then p else RunOf(Passed(p, passes[0]), passes[1..])
  }

  lemma {:induction false} RunFaithful(p: Past, passes: seq<Pass>, truth: Truth)
    requires Faithful(p, truth) && FollowableRun(p, passes, truth)
    ensures Faithful(RunOf(p, passes), truth)
    decreases |passes|
  {
    if passes != [] {
      FaithfulKept(p, passes[0], truth);
      RunFaithful(Passed(p, passes[0]), passes[1..], truth);
    }
  }

  /** Passes that lose no ownership: none that commits loses the manifest over new sessions. */
  ghost predicate OwningRun(p: Past, passes: seq<Pass>)
    decreases |passes|
  {
    passes == [] ||
    (DistinctKeys(passes[0].scanned) &&
     (!passes[0].committed || passes[0].saved || NoneNew(p.ix, passes[0].scanned, passes[0].source, passes[0].budget)) &&
     OwningRun(Passed(p, passes[0]), passes[1..]))
  }

  lemma {:induction false} RunOwned(p: Past, passes: seq<Pass>)
    requires Owned(p.ix) && OwningRun(p, passes)
    ensures Owned(RunOf(p, passes).ix)
    decreases |passes|
  {
    if passes != [] {
      var pass := passes[0];
      OwnedKept(p.ix, pass.scanned, pass.source, pass.budget, pass.committed, pass.saved);
      RunOwned(Passed(p, pass), passes[1..]);
    }
  }

  lemma {:induction false} SavedRunsOwn(p: Past, passes: seq<Pass>)
    requires forall i :: 0 <= i < |passes| ==> DistinctKeys(passes[i].scanned) && (passes[i].committed ==> passes[i].saved)
    ensures OwningRun(p, passes)
    decreases |passes|
  {
    if passes != [] {
      forall i | 0 <= i < |passes[1..]| ensures passes[1..][i] == passes[i + 1] {}
      SavedRunsOwn(Passed(p, passes[0]), passes[1..]);
    }
  }

  /** From the beginning on, as long as no committed pass loses its manifest, every document
      belongs to a recorded session, and a committed pass clears all that vanished. */
  lemma SavedSeriesOwns(passes: seq<Pass>, last: Pass)
    requires forall i :: 0 <= i < |passes| ==> DistinctKeys(passes[i].scanned) && (passes[i].committed ==> passes[i].saved)
    requires DistinctKeys(last.scanned) && last.committed
    ensures Owned(RunOf(BEGINNING, passes).ix)
    ensures forall key :: key !in Keys(last.scanned) ==> DocsOf(Passed(RunOf(BEGINNING, passes), last).ix, key) == []
  {
    SavedRunsOwn(BEGINNING, passes);
    RunOwned(BEGINNING, passes);
    VanishedAreCleared(RunOf(BEGINNING, passes).ix, last.scanned, last.source, last.budget, last.saved);
  }

  /** After any series of passes, one that is committed and not cut leaves exactly the
      documents of a build from nothing - even if it then loses the manifest. */
  lemma SeriesAgreesWithRebuild(passes: seq<Pass>, last: Pass, truth: Truth)
    requires var p := RunOf(BEGINNING, passes);
             FollowableRun(BEGINNING, passes, truth) && Followable(p, last, truth) &&
             last.committed && |ChangedOf(p.ix.manifest, last.scanned)| <= last.budget
    ensures var p := RunOf(BEGINNING, passes);
            SameDocs(Passed(p, last).ix, Rebuilt(last.scanned, last.source))
  {
    var p := RunOf(BEGINNING, passes);
    RunFaithful(BEGINNING, passes, truth);
    forall m | m in last.scanned ensures ReadyAt(p.ix, last.source, m) {
      assert FollowableAt(p, last.source, truth, m);
      if !IsChanged(p.ix.manifest, m) { assert FaithfulAt(p, truth, Key(m)); }
    }
    AgreesExactlyWhenReady(p.ix, last.scanned, last.source, last.budget);
    var after := Refreshed(p.ix, last.scanned, last.source, last.budget);
    forall key ensures DocsOf(Passed(p, last).ix, key) == DocsOf(after, key) {}
  }

  // --- series judged by their inputs alone -------------------------------------------------------

  /** What was scanned so far: last, and ever; which sessions were ever missing after that; and
      whether a commit ever lost its manifest. */
  datatype History = History(last: map<string, nat>, shown: set<(string, nat)>, missed: set<string>, lost: bool)

  const UNSEEN := History(map[], {}, {}, false)

  function LastOf(scanned: seq<Meta>): map<string, nat> {
    if scanned == [] then map[]
    else LastOf(scanned[..|scanned| - 1])[Key(scanned[|scanned| - 1]) := scanned[|scanned| - 1].updated]
  }

  function Recalled(h: History, pass: Pass): History {
    History(LastOf(pass.scanned), h.shown + (set m | m in pass.scanned :: (Key(m), m.updated)),
            h.missed + ((set q | q in h.shown :: q.0) - Keys(pass.scanned)), h.lost || (pass.committed && !pass.saved))
  }

  /** A pass over a well-behaved history of sessions, whatever the index makes of it: the same
      `updated` always means the same transcript; a fetch fails only for sessions that never had
      anything to index; a session that was missing once, or any once a manifest was lost, never
      shows a value of `updated` it has left behind; and once a manifest was lost, sessions stay.
      Sessions may vanish, and any pass may be cut or fail. */
  ghost predicate Calm(h: History, pass: Pass, truth: Truth) {
    DistinctKeys(pass.scanned) && (h.lost ==> h.last.Keys <= Keys(pass.scanned)) &&
    forall m :: m in pass.scanned ==> CalmAt(h, pass.source, truth, m)
  }

  ghost predicate CalmAt(h: History, source: Source, truth: Truth, m: Meta) {
    Wanted(m, source) == truth(Key(m), m.updated) &&
    (source(m).None? ==> forall u :: (Key(m), u) in h.shown ==> truth(Key(m), u) == []) &&
    (Key(m) in h.missed || h.lost ==>
       (Key(m) in h.last && h.last[Key(m)] == m.updated) || (Key(m), m.updated) !in h.shown)
  }

  ghost predicate CalmRun(h: History, passes: seq<Pass>, truth: Truth)
    decreases |passes|
  {
    passes == [] || (Calm(h, passes[0], truth) && CalmRun(Recalled(h, passes[0]), passes[1..], truth))
  }

  function HistoryOf(h: History, passes: seq<Pass>): History
    decreases |passes|
  {
    if passes == [] then h else HistoryOf(Recalled(h, passes[0]), passes[1..])
  }

  lemma {:induction false} LastOfAt(scanned: seq<Meta>)
    requires DistinctKeys(scanned)
    ensures LastOf(scanned).Keys == Keys(scanned) && forall m :: m in scanned ==> LastOf(scanned)[Key(m)] == m.updated
  {
    if scanned != [] {
      var init, last := scanned[..|scanned| - 1], scanned[|scanned| - 1];
      DistinctInit(scanned);
      LastOfAt(init);
      assert scanned == init + [last];
    }
  }

  /** What an index reached over such a history looks like, for one session. */
  ghost predicate ReachedAt(h: History, p: Past, truth: Truth, key: string) {
    (DocsOf(p.ix, key) != [] ==> WasShown(h, truth, key, DocsOf(p.ix, key))) &&
    (key in p.ix.manifest ==> (key, p.ix.manifest[key]) in h.shown) &&
    (key in p.gone + p.adrift && key in h.last && key in p.ix.manifest ==> h.last[key] != p.ix.manifest[key]) &&
    (DocsOf(p.ix, key) != [] && key !in p.ix.manifest ==> h.lost && key in h.last) &&
    (key in p.gone ==> key in h.missed) && (key in p.adrift ==> h.lost)
  }

  ghost predicate WasShown(h: History, truth: Truth, key: string, docs: seq<Doc>) {
    exists u :: (key, u) in h.shown && truth(key, u) == docs
  }

  ghost predicate Reached(h: History, p: Past, truth: Truth) {
    forall key :: ReachedAt(h, p, truth, key)
  }

  lemma CalmIsFollowable(h: History, p: Past, pass: Pass, truth: Truth)
    requires Reached(h, p, truth) && Calm(h, pass, truth)
    ensures Followable(p, pass, truth)
  {
    forall key | DocsOf(p.ix, key) != [] ensures key in Keys(pass.scanned) || key in p.ix.manifest {
      assert ReachedAt(h, p, truth, key);
    }
    forall m | m in pass.scanned ensures FollowableAt(p, pass.source, truth, m) {
      assert CalmAt(h, pass.source, truth, m) && ReachedAt(h, p, truth, Key(m));
    }
  }

  lemma ReachedScanned(h: History, p: Past, pass: Pass, truth: Truth, m: Meta)
    requires Reached(h, p, truth) && Calm(h, pass, truth) && m in pass.scanned
    ensures ReachedAt(Recalled(h, pass), Passed(p, pass), truth, Key(m))
  {
    var g, q := Recalled(h, pass), Passed(p, pass);
    TurnByKey(p.ix, pass, m);
    ScannedAt(p.ix, pass.scanned, pass.source, pass.budget, m);
    LastOfAt(pass.scanned);
    assert CalmAt(h, pass.source, truth, m) && ReachedAt(h, p, truth, Key(m));
    assert (Key(m), m.updated) in g.shown;
    if DocsOf(q.ix, Key(m)) != [] {
      if DocsOf(q.ix, Key(m)) == DocsOf(p.ix, Key(m)) {
        var u :| (Key(m), u) in h.shown && truth(Key(m), u) == DocsOf(p.ix, Key(m));
        assert (Key(m), u) in g.shown;
      } else {
        assert truth(Key(m), m.updated) == DocsOf(q.ix, Key(m));
      }
    }
  }

  lemma ReachedUnscanned(h: History, p: Past, pass: Pass, truth: Truth, key: string)
    requires Reached(h, p, truth) && Calm(h, pass, truth) && key !in Keys(pass.scanned)
    ensures ReachedAt(Recalled(h, pass), Passed(p, pass), truth, key)
  {
    var g, q := Recalled(h, pass), Passed(p, pass);
    UnscannedAt(p.ix, pass.scanned, pass.source, pass.budget, key);
    LastOfAt(pass.scanned);
    assert ReachedAt(h, p, truth, key);
    if key in p.ix.manifest { assert (key, p.ix.manifest[key]).0 == key; }
    if DocsOf(q.ix, key) != [] {
      var u :| (key, u) in h.shown && truth(key, u) == DocsOf(p.ix, key);
      assert (key, u) in g.shown;
    }
  }

  lemma ReachedKept(h: History, p: Past, pass: Pass, truth: Truth)
    requires Reached(h, p, truth) && Calm(h, pass, truth)
    ensures Reached(Recalled(h, pass), Passed(p, pass), truth)
  {
    forall key ensures ReachedAt(Recalled(h, pass), Passed(p, pass), truth, key) {
      if key in Keys(pass.scanned) {
        var m :| m in pass.scanned && Key(m) == key;
        ReachedScanned(h, p, pass, truth, m);
      } else {
        ReachedUnscanned(h, p, pass, truth, key);
      }
    }
  }

  lemma {:induction false} CalmRunsAreFollowable(h: History, p: Past, passes: seq<Pass>, truth: Truth)
    requires Reached(h, p, truth) && CalmRun(h, passes, truth)
    ensures FollowableRun(p, passes, truth) && Reached(HistoryOf(h, passes), RunOf(p, passes), truth)
    decreases |passes|
  {
    if passes != [] {
      CalmIsFollowable(h, p, passes[0], truth);
      ReachedKept(h, p, passes[0], truth);
      CalmRunsAreFollowable(Recalled(h, passes[0]), Passed(p, passes[0]), passes[1..], truth);
    }
  }

  /** Over such a history - and it can be told from scans and transcripts alone - any series
      of passes that ends in a committed one with time for everything leaves exactly the
      documents of a build from nothing. */
  lemma CalmSeriesAgreesWithRebuild(passes: seq<Pass>, last: Pass, truth: Truth)
    requires CalmRun(UNSEEN, passes, truth) && Calm(HistoryOf(UNSEEN, passes), last, truth)
    requires last.committed && |last.scanned| <= last.budget
    ensures SameDocs(Passed(RunOf(BEGINNING, passes), last).ix, Rebuilt(last.scanned, last.source))
  {
    var p := RunOf(BEGINNING, passes);
    assert forall key :: ReachedAt(UNSEEN, BEGINNING, truth, key);
    CalmRunsAreFollowable(UNSEEN, BEGINNING, passes, truth);
    CalmIsFollowable(HistoryOf(UNSEEN, passes), p, last, truth);
    ChangedLength(p.ix.manifest, last.scanned);
    SeriesAgreesWithRebuild(passes, last, truth);
  }

  /** Exactly the messages that are not blank are found, each described as it is, in the sessions of
      a scan that can be fetched, and nothing in any other. */
  ghost predicate IndexesMessages(ix: Index, scanned: seq<Meta>, source: Source) {
    (forall m :: m in scanned ==>
       match source(m)
       case Some(messages) => Indexes(DocsOf(ix, Key(m)), m, messages)
       case None => DocsOf(ix, Key(m)) == []) &&
    forall key :: key !in Keys(scanned) ==> DocsOf(ix, key) == []
  }

  lemma RebuildIndexesMessages(scanned: seq<Meta>, source: Source)
    requires DistinctKeys(scanned)
    ensures IndexesMessages(Rebuilt(scanned, source), scanned, source)
  {
    RebuiltAt(scanned, source);
    forall m | m in scanned && source(m).Some? ensures Indexes(Wanted(m, source), m, source(m).value) {
      EachMessageOnce(m, source(m).value);
    }
  }

  /** That is what such a series leaves. */
  lemma CalmSeriesIndexesMessages(passes: seq<Pass>, last: Pass, truth: Truth)
    requires CalmRun(UNSEEN, passes, truth) && Calm(HistoryOf(UNSEEN, passes), last, truth)
    requires last.committed && |last.scanned| <= last.budget
    ensures IndexesMessages(Passed(RunOf(BEGINNING, passes), last).ix, last.scanned, last.source)
  {
    CalmSeriesAgreesWithRebuild(passes, last, truth);
    RebuildIndexesMessages(last.scanned, last.source);
    var ix, anew := Passed(RunOf(BEGINNING, passes), last).ix, Rebuilt(last.scanned, last.source);
    assert forall key :: DocsOf(ix, key) == DocsOf(anew, key);
  }

  // --- where a refresh and a rebuild differ ------------------------------------------------------

  /** The first pass over a single session. */
  lemma FirstTaken(m: Meta, source: Source)
    ensures DistinctKeys([m]) && m in [m]
    ensures var built := Refreshed(NOTHING, [m], source, 1);
            DocsOf(built, Key(m)) == Wanted(m, source) && built.manifest == map[Key(m) := m.updated]
    ensures DocsOf(Rebuilt([m], source), Key(m)) == Wanted(m, source)
  {
    OneChanged(m);
    OneTaken(NOTHING, m, source);
    assert Swept(NOTHING, [m]) == NOTHING;
    assert m in [m];
  }

  lemma OneChanged(m: Meta)
    ensures ChangedOf(map[], [m]) == [m]
  {
    assert [m][..0] == [];
  }

  lemma OneTaken(ix: Index, m: Meta, source: Source)
    ensures TakenAll(ix, [m], source) == Taken(ix, m, source)
  {
    assert [m][..0] == [];
  }

  /** A swept session that comes back unchanged stays without documents. */
  lemma ReturningSessionIsMissed(m: Meta, messages: seq<Message>, source: Source)
    requires source(m) == Some(messages) && Documents(m, messages) != []
    ensures var built := Refreshed(NOTHING, [m], source, 1);
            var swept := Refreshed(built, [], source, 0);
            DocsOf(Refreshed(swept, [m], source, 1), Key(m)) == [] &&
            DocsOf(Rebuilt([m], source), Key(m)) == Documents(m, messages)
  {
    var built := Refreshed(NOTHING, [m], source, 1);
    var swept := Refreshed(built, [], source, 0);
    FirstTaken(m, source);
    UnscannedAt(built, [], source, 0, Key(m));
    ScannedAt(swept, [m], source, 1, m);
    ChangedMeans(swept.manifest, [m]);
  }

  /** A session that changed and cannot be fetched keeps the documents it had. */
  lemma FailedFetchKeepsOld(m: Meta, messages: seq<Message>, source: Source, n: Meta, later: Source)
    requires source(m) == Some(messages) && Documents(m, messages) != []
    requires Key(n) == Key(m) && n.updated != m.updated && later(n) == None
    ensures var built := Refreshed(NOTHING, [m], source, 1);
            DocsOf(Refreshed(built, [n], later, 1), Key(m)) == Documents(m, messages) && DocsOf(Rebuilt([n], later), Key(m)) == []
  {
    var built := Refreshed(NOTHING, [m], source, 1);
    FirstTaken(m, source);
    FirstTaken(n, later);
    ChangedMeans(built.manifest, [n]);
    ChangedLength(built.manifest, [n]);
    ScannedAt(built, [n], later, 1, n);
  }

  /** A session taken in by a pass that commits and then loses the manifest belongs to nobody:
      when it vanishes, its documents stay. */
  lemma LostManifestOrphans(m: Meta, messages: seq<Message>, source: Source)
    requires source(m) == Some(messages) && Documents(m, messages) != []
    ensures var orphaned := Kept(NOTHING, Refreshed(NOTHING, [m], source, 1), true, false);
            Owned(NOTHING) && !Owned(orphaned) &&
            DocsOf(Refreshed(orphaned, [], source, 0), Key(m)) == Documents(m, messages) && DocsOf(Rebuilt([], source), Key(m)) == []
  {
    var orphaned := Kept(NOTHING, Refreshed(NOTHING, [m], source, 1), true, false);
    FirstTaken(m, source);
    assert DocsOf(orphaned, Key(m)) != [] && Key(m) !in orphaned.manifest;
    UnscannedAt(orphaned, [], source, 0, Key(m));
    RebuiltAt([], source);
  }
}
