/**
 The incremental search index over chat history (crates/mcp-server/src/session_index.rs).
 Each refresh scans the sessions, fetches those whose `updated` differs from the recorded
 one, as many as its time budget allows, and replaces their documents.
 */
module SessionIndex {
  import opened Wrappers
  import opened Text

  datatype Meta = Meta(provider: string, id: string, title: string, cwd: Option<string>, updated: nat)

  datatype Message = Message(role: string, text: string, ts: Option<nat>)

  datatype Doc = Doc(provider: string, session: string, title: string, role: string, cwd: Option<string>, text: string,
                     seqNo: nat, ts: nat, updated: nat)

  datatype Fetched = Fetched(meta: Meta, messages: seq<Message>)

  /** What a transcript fetch answers; `None` when it fails. */
  type Source = Meta -> Option<seq<Message>>

  function Key(m: Meta): string {
    m.provider + "\U{1F}" + m.id
  }

  predicate Searchable(m: Message) {
    Trim(m.text) != ""
  }

  /** One document per message that is not blank, numbered by its place in the transcript. */
  function Documents(m: Meta, messages: seq<Message>): seq<Doc> {
    if messages == [] then []
    else
      var n := |messages| - 1;
      var last := messages[n];
      Documents(m, messages[..n])
      + if !Searchable(last) then []
        else [Doc(m.provider, m.id, m.title, last.role, m.cwd, last.text, n, if last.ts.Some? then last.ts.value else 0, m.updated)]
  }

  /** The document says of its session and of its message what these say. */
  predicate Describes(d: Doc, m: Meta, messages: seq<Message>) {
    d.provider == m.provider && d.session == m.id && d.title == m.title && d.cwd == m.cwd && d.updated == m.updated &&
    d.seqNo < |messages| && d.role == messages[d.seqNo].role && d.text == messages[d.seqNo].text &&
    d.ts == match messages[d.seqNo].ts { case Some(ts) => ts case None => 0 }
  }

  /** In transcript order, each document at the place of its message. */
  predicate Numbered(docs: seq<Doc>, m: Meta, messages: seq<Message>) {
    (forall i, j :: 0 <= i < j < |docs| ==> docs[i].seqNo < docs[j].seqNo) &&
    forall i :: 0 <= i < |docs| ==> Describes(docs[i], m, messages)
  }

  predicate Found(docs: seq<Doc>, k: nat) {
    exists i :: 0 <= i < |docs| && docs[i].seqNo == k
  }

  /** Exactly one document for each message that is not blank. */
  ghost predicate Indexes(docs: seq<Doc>, m: Meta, messages: seq<Message>) {
    Numbered(docs, m, messages) && forall k :: 0 <= k < |messages| ==> (Found(docs, k) <==> !AllBlank(messages[k].text))
  }

  /** Each message that is not blank has exactly one document, which describes it. */
  lemma {:induction false} EachMessageOnce(m: Meta, messages: seq<Message>)
    ensures Indexes(Documents(m, messages), m, messages)
  {
    if messages != [] {
      var n := |messages| - 1;
      EachMessageOnce(m, messages[..n]);
      TrimMeans(messages[n].text);
      OneMoreMessage(Documents(m, messages[..n]), Documents(m, messages), m, messages, n);
    }
  }

  lemma OneMoreMessage(init: seq<Doc>, docs: seq<Doc>, m: Meta, messages: seq<Message>, n: nat)
    requires n == |messages| - 1 && Indexes(init, m, messages[..n])
    requires if AllBlank(messages[n].text) then docs == init
             else |docs| == |init| + 1 && docs[..|init|] == init && docs[|init|].seqNo == n && Describes(docs[|init|], m, messages)
    ensures Indexes(docs, m, messages)
  {
    forall i | 0 <= i < |init| ensures docs[i] == init[i] && init[i].seqNo < n && Describes(init[i], m, messages) {
      assert docs[..|init|][i] == docs[i];
      assert Describes(init[i], m, messages[..n]);
      assert messages[..n][init[i].seqNo] == messages[init[i].seqNo];
    }
    forall k | 0 <= k <= n ensures Found(docs, k) <==> !AllBlank(messages[k].text) {
      FoundGrows(init, docs, n, k);
      if k < n { assert messages[..n][k] == messages[k]; }
    }
  }

  lemma FoundGrows(init: seq<Doc>, docs: seq<Doc>, n: nat, k: nat)
    requires forall i :: 0 <= i < |init| ==> init[i].seqNo < n
    requires docs == init || (|docs| == |init| + 1 && docs[..|init|] == init && docs[|init|].seqNo == n)
    ensures Found(docs, k) <==> Found(init, k) || (docs != init && k == n)
  {
    forall i | 0 <= i < |init| ensures docs[i] == init[i] {
      assert docs[..|init|][i] == docs[i];
    }
    if Found(init, k) {
      var i :| 0 <= i < |init| && init[i].seqNo == k;
      assert docs[i].seqNo == k;
    }
  }

  /** Sessions of providers without the separator in their name are told apart by provider and id. */
  lemma KeysTellApart(a: Meta, b: Meta)
    requires '\U{1F}' !in a.provider && '\U{1F}' !in b.provider
    ensures Key(a) == Key(b) <==> a.provider == b.provider && a.id == b.id
  {
    if Key(a) == Key(b) {
      SplitConcat(a.provider, a.id, '\U{1F}');
      SplitConcat(b.provider, b.id, '\U{1F}');
      SplitPlain(a.provider, '\U{1F}');
      SplitPlain(b.provider, '\U{1F}');
      assert Key(a) == a.provider + ['\U{1F}'] + a.id && Key(b) == b.provider + ['\U{1F}'] + b.id;
      assert Split(Key(a), '\U{1F}')[0] == a.provider && Split(Key(b), '\U{1F}')[0] == b.provider;
      assert a.id == Key(a)[|a.provider| + 1..] && b.id == Key(b)[|b.provider| + 1..];
    }
  }

  // --- one refresh, as a function -----------------------------------------------------

  datatype Index = Index(docs: map<string, seq<Doc>>, manifest: map<string, nat>)

  function DocsOf(ix: Index, key: string): seq<Doc> {
    if key in ix.docs then ix.docs[key] else []
  }

  function Keys(metas: seq<Meta>): set<string> {
    set m | m in metas :: Key(m)
  }

  predicate IsChanged(manifest: map<string, nat>, m: Meta) {
    !(Key(m) in manifest && manifest[Key(m)] == m.updated)
  }

  function ChangedOf(manifest: map<string, nat>, scanned: seq<Meta>): seq<Meta> {
    if scanned == [] then []
    else
      ChangedOf(manifest, scanned[..|scanned| - 1])
      + if IsChanged(manifest, scanned[|scanned| - 1]) then [scanned[|scanned| - 1]] else []
  }

  /** Replace the documents of one session. */
  function Reindex(docs: map<string, seq<Doc>>, s: Fetched): map<string, seq<Doc>> {
    docs[Key(s.meta) := Documents(s.meta, s.messages)]
  }

  /** What one session that was looked at does to index and manifest. */
  function Taken(ix: Index, m: Meta, source: Source): Index {
    var r := source(m);
    Index(if r.Some? then Reindex(ix.docs, Fetched(m, r.value)) else ix.docs, ix.manifest[Key(m) := m.updated])
  }

  function TakenAll(ix: Index, ms: seq<Meta>, source: Source): Index {
    if ms == [] then ix else Taken(TakenAll(ix, ms[..|ms| - 1], source), ms[|ms| - 1], source)
  }

  /** Documents of recorded sessions that the scan does not see are deleted. */
  function Swept(ix: Index, scanned: seq<Meta>): Index {
    ix.(docs := map key | key in ix.docs && !(key in ix.manifest && key !in Keys(scanned)) :: ix.docs[key])
  }

  function Upto(ms: seq<Meta>, budget: nat): seq<Meta> {
    if budget < |ms| then ms[..budget] else ms
  }

  /** A refresh in which the deadline passes after `budget` fetches. */
  function Refreshed(ix: Index, scanned: seq<Meta>, source: Source, budget: nat): Index {
    TakenAll(Swept(ix, scanned), Upto(ChangedOf(ix.manifest, scanned), budget), source)
  }

  /** What survives of it: nothing if the commit failed, and the documents alone if the
      manifest could not be saved. */
  function Kept(ix: Index, after: Index, committed: bool, saved: bool): Index {
    if !committed then ix else if saved then after else after.(manifest := ix.manifest)
  }

  // --- the code ------------------------------------------------------------------------

  class SessionStore {
    var docs: map<string, seq<Doc>>
    var manifest: map<string, nat>
    var stale: bool
    var cached: Option<seq<Meta>>

    ghost function Now(): Index
      reads this
    {
      Index(docs, manifest)
    }

    constructor ()
      ensures Now() == Index(map[], map[])
    {
      docs, manifest, stale, cached := map[], map[], true, None;
    }

    /** `budget` is the number of fetches made when the deadline passes. */
    method CollectChanged(scanned: seq<Meta>, source: Source, budget: nat)
      returns (out: seq<Fetched>, failed: seq<Meta>, exhausted: bool)
      ensures var taken := Upto(ChangedOf(manifest, scanned), budget);
              out == FetchedOf(taken, source) && failed == FailedOf(taken, source)
      ensures exhausted <==> |ChangedOf(manifest, scanned)| > budget
    {
      out, failed := [], [];
      var i := 0;
      while i < |scanned|
        invariant 0 <= i <= |scanned| && Collected(ChangedOf(manifest, scanned[..i]), source, out, failed, budget)
      {
        ChangedStep(manifest, scanned, i);
        var m := scanned[i];
        ghost var before := ChangedOf(manifest, scanned[..i]);
        if Key(m) in manifest && manifest[Key(m)] == m.updated {
          i := i + 1;
          continue;
        }
        if |out| + |failed| >= budget {
          ChangedIsPrefix(manifest, scanned, i + 1);
          CutThere(before, m, ChangedOf(manifest, scanned), budget);
          return out, failed, true;
        }
        FetchedStep(before, m, source);
        match source(m) {
          case Some(messages) => out := out + [Fetched(m, messages)];
          case None => failed := failed + [m];
        }
        i := i + 1;
      }
      assert scanned[..i] == scanned;
      exhausted := false;
    }

    /** Delete, replace, record, commit, save; the last two may fail. */
    method ApplySessions(scanned: seq<Meta>, sessions: seq<Fetched>, failed: seq<Meta>, committed: bool, saved: bool,
                         ghost taken: seq<Meta>, ghost source: Source)
      returns (ok: bool)
      requires sessions == FetchedOf(taken, source) && failed == FailedOf(taken, source) && DistinctKeys(taken)
      modifies this`docs, this`manifest
      ensures Now() == Kept(old(Now()), TakenAll(Swept(old(Now()), scanned), taken, source), committed, saved)
      ensures ok == committed
    {
      var newDocs := DeleteVanished(docs, manifest, scanned);
      var newManifest: map<string, nat>;
      newDocs, newManifest := ReindexSessions(newDocs, manifest, sessions);
      newManifest := RecordFailed(newManifest, failed);
      TakenApart(Swept(Now(), scanned), taken, source);
      if !committed {
        return false;
      }
      docs := newDocs;
      if saved {
        manifest := newManifest;
      }
      ok := true;
    }

    method MarkStale()
      modifies this`stale
      ensures stale
    {
      stale := true;
    }

    /** Dropping the cached session list also marks the index stale. */
    method InvalidateCache()
      modifies this`stale, this`cached
      ensures stale && cached == None
    {
      cached := None;
      MarkStale();
    }

    /** The cached list as long as it has not expired, or else `scan`, which is cached then. */
    method ListSessions(scan: seq<Meta>, expired: bool) returns (list: seq<Meta>)
      modifies this`cached
      ensures list == if old(cached).Some? && !expired then old(cached).value else scan
      ensures cached == Some(list)
    {
      if cached.Some? && !expired {
        return cached.value;
      }
      cached := Some(scan);
      return scan;
    }

    /** One refresh. It works on a scan of its own, whatever list was cached. It marks the index
        stale itself, by dropping that list before it scans, and takes the mark back only once
        everything was taken in, committed and reloaded. */
    method Refresh(scanned: seq<Meta>, source: Source, budget: nat, committed: bool, saved: bool, reloaded: bool) returns (ok: bool)
      requires DistinctKeys(scanned)
      modifies this
      ensures Now() == Kept(old(Now()), Refreshed(old(Now()), scanned, source, budget), committed, saved)
      ensures ok == (committed && reloaded) && cached == Some(scanned)
      ensures stale <==> !ok || |ChangedOf(old(manifest), scanned)| > budget
    {
      InvalidateCache();
      var expired: bool := *;
      var list := ListSessions(scanned, expired);
      var sessions, failed, exhausted := CollectChanged(list, source, budget);
      ChangedDistinct(manifest, scanned, budget);
      ok := ApplySessions(list, sessions, failed, committed, saved, Upto(ChangedOf(manifest, scanned), budget), source);
      if !ok || !reloaded {
        return false;
      }
      if !exhausted {
        stale := false;
      }
    }

    /** What a search does first. A refresh that was cut or failed is taken up by the next
        search, whether or not one is due. */
    method RefreshIfStale(due: bool, scanned: seq<Meta>, source: Source, budget: nat, committed: bool, saved: bool, reloaded: bool)
      requires DistinctKeys(scanned)
      modifies this
      ensures !old(stale) && !due ==> Now() == old(Now()) && !stale
      ensures old(stale) || due ==>
                Now() == Kept(old(Now()), Refreshed(old(Now()), scanned, source, budget), committed, saved) &&
                (stale <==> !(committed && reloaded) || |ChangedOf(old(manifest), scanned)| > budget)
    {
      if stale || due {
        var ok := Refresh(scanned, source, budget, committed, saved, reloaded);
      }
    }
  }

  /** The changed sessions so far are all fetched, within the budget. */
  ghost predicate Collected(changed: seq<Meta>, source: Source, out: seq<Fetched>, failed: seq<Meta>, budget: nat) {
    out == FetchedOf(changed, source) && failed == FailedOf(changed, source) && |out| + |failed| == |changed| <= budget
  }

  lemma CutThere(before: seq<Meta>, m: Meta, all: seq<Meta>, budget: nat)
    requires before + [m] <= all && |before| == budget
    ensures Upto(all, budget) == before
  {
    assert all[..|before|] == (before + [m])[..|before|];
  }

  method DeleteVanished(docs: map<string, seq<Doc>>, manifest: map<string, nat>, scanned: seq<Meta>)
    returns (left: map<string, seq<Doc>>)
    ensures left == Swept(Index(docs, manifest), scanned).docs
  {
    left := docs;
    var scannedKeys := Keys(scanned);
    var todo := manifest.Keys;
    while todo != {}
      invariant todo <= manifest.Keys
      invariant left == map key | key in docs && !(key in manifest && key !in todo && key !in scannedKeys) :: docs[key]
      decreases todo
    {
      var key :| key in todo;
      if key !in scannedKeys {
        left := left - {key};
      }
      todo := todo - {key};
    }
  }

  method ReindexSessions(docs: map<string, seq<Doc>>, manifest: map<string, nat>, sessions: seq<Fetched>)
    returns (newDocs: map<string, seq<Doc>>, newManifest: map<string, nat>)
    ensures newDocs == ReindexAll(docs, sessions) && newManifest == RecordAll(manifest, MetasOf(sessions))
  {
    newDocs, newManifest := docs, manifest;
    var i := 0;
    while i < |sessions|
      invariant 0 <= i <= |sessions|
      invariant newDocs == ReindexAll(docs, sessions[..i])
      invariant newManifest == RecordAll(manifest, MetasOf(sessions[..i]))
    {
      ReindexStep(docs, manifest, sessions, i);
      var s := sessions[i];
      newDocs := newDocs[Key(s.meta) := Documents(s.meta, s.messages)];
      newManifest := newManifest[Key(s.meta) := s.meta.updated];
      i := i + 1;
    }
    assert sessions[..i] == sessions;
  }

  lemma ReindexStep(docs: map<string, seq<Doc>>, manifest: map<string, nat>, sessions: seq<Fetched>, i: nat)
    requires i < |sessions|
    ensures ReindexAll(docs, sessions[..i + 1]) == Reindex(ReindexAll(docs, sessions[..i]), sessions[i])
    ensures RecordAll(manifest, MetasOf(sessions[..i + 1]))
         == RecordAll(manifest, MetasOf(sessions[..i]))[Key(sessions[i].meta) := sessions[i].meta.updated]
  {
    assert sessions[..i + 1][..i] == sessions[..i];
    assert MetasOf(sessions[..i + 1])[..i] == MetasOf(sessions[..i]);
  }

  method RecordFailed(manifest: map<string, nat>, failed: seq<Meta>) returns (newManifest: map<string, nat>)
    ensures newManifest == RecordAll(manifest, failed)
  {
    newManifest := manifest;
    var i := 0;
    while i < |failed|
      invariant 0 <= i <= |failed| && newManifest == RecordAll(manifest, failed[..i])
    {
      assert failed[..i + 1][..i] == failed[..i];
      newManifest := newManifest[Key(failed[i]) := failed[i].updated];
      i := i + 1;
    }
    assert failed[..i] == failed;
  }

  function FetchedOf(ms: seq<Meta>, source: Source): seq<Fetched> {
    if ms == [] then []
    else
      FetchedOf(ms[..|ms| - 1], source)
      + if source(ms[|ms| - 1]).Some? then [Fetched(ms[|ms| - 1], source(ms[|ms| - 1]).value)] else []
  }

  function FailedOf(ms: seq<Meta>, source: Source): seq<Meta> {
    if ms == [] then []
    else FailedOf(ms[..|ms| - 1], source) + if source(ms[|ms| - 1]).Some? then [] else [ms[|ms| - 1]]
  }

  predicate DistinctKeys(ms: seq<Meta>) {
    forall i, j :: 0 <= i < j < |ms| ==> Key(ms[i]) != Key(ms[j])
  }

  function ReindexAll(docs: map<string, seq<Doc>>, sessions: seq<Fetched>): map<string, seq<Doc>> {
    if sessions == [] then docs else Reindex(ReindexAll(docs, sessions[..|sessions| - 1]), sessions[|sessions| - 1])
  }

  function RecordAll(manifest: map<string, nat>, ms: seq<Meta>): map<string, nat> {
    if ms == [] then manifest
    else RecordAll(manifest, ms[..|ms| - 1])[Key(ms[|ms| - 1]) := ms[|ms| - 1].updated]
  }

  function MetasOf(sessions: seq<Fetched>): seq<Meta> {
    seq(|sessions|, i requires 0 <= i < |sessions| => sessions[i].meta)
  }

  lemma ChangedStep(manifest: map<string, nat>, scanned: seq<Meta>, i: nat)
    requires i < |scanned|
    ensures ChangedOf(manifest, scanned[..i + 1])
         == if IsChanged(manifest, scanned[i]) then ChangedOf(manifest, scanned[..i]) + [scanned[i]] else ChangedOf(manifest, scanned[..i])
  {
    assert scanned[..i + 1][..i] == scanned[..i];
  }

  lemma FetchedStep(ms: seq<Meta>, m: Meta, source: Source)
    ensures FetchedOf(ms + [m], source)
         == if source(m).Some? then FetchedOf(ms, source) + [Fetched(m, source(m).value)] else FetchedOf(ms, source)
    ensures FailedOf(ms + [m], source)
         == if source(m).Some? then FailedOf(ms, source) else FailedOf(ms, source) + [m]
  {
    assert (ms + [m])[..|ms|] == ms;
  }

  lemma {:induction false} ChangedIsPrefix(manifest: map<string, nat>, scanned: seq<Meta>, i: nat)
    requires i <= |scanned|
    ensures ChangedOf(manifest, scanned[..i]) <= ChangedOf(manifest, scanned)
    decreases |scanned|
  {
    if i < |scanned| {
      var init := scanned[..|scanned| - 1];
      assert init[..i] == scanned[..i];
      ChangedIsPrefix(manifest, init, i);
    } else {
      assert scanned[..i] == scanned;
    }
  }

  lemma {:induction false} ChangedMeans(manifest: map<string, nat>, scanned: seq<Meta>)
    ensures forall m :: m in ChangedOf(manifest, scanned) <==> m in scanned && IsChanged(manifest, m)
  {
    if scanned != [] {
      var init, last := scanned[..|scanned| - 1], scanned[|scanned| - 1];
      ChangedMeans(manifest, init);
      assert scanned == init + [last];
    }
  }

  lemma {:induction false} ChangedApart(manifest: map<string, nat>, scanned: seq<Meta>)
    requires DistinctKeys(scanned)
    ensures DistinctKeys(ChangedOf(manifest, scanned))
  {
    if scanned != [] {
      DistinctInit(scanned);
      ChangedApart(manifest, scanned[..|scanned| - 1]);
      ChangedMeans(manifest, scanned[..|scanned| - 1]);
    }
  }

  lemma ChangedDistinct(manifest: map<string, nat>, scanned: seq<Meta>, budget: nat)
    requires DistinctKeys(scanned)
    ensures DistinctKeys(Upto(ChangedOf(manifest, scanned), budget))
  {
    ChangedApart(manifest, scanned);
  }

  // --- the batches amount to taking sessions one by one ----------------------------------

  lemma DistinctInit(ms: seq<Meta>)
    requires ms != [] && DistinctKeys(ms)
    ensures DistinctKeys(ms[..|ms| - 1]) && forall m :: m in ms[..|ms| - 1] ==> Key(m) != Key(ms[|ms| - 1])
  {
    var init := ms[..|ms| - 1];
    forall m | m in init ensures Key(m) != Key(ms[|ms| - 1]) {
      var i :| 0 <= i < |init| && init[i] == m;
      assert ms[i] == m;
    }
  }

  /** `after` is `ix` with batch `f` reindexed and both batches recorded. */
  ghost predicate InBatches(ix: Index, after: Index, f: seq<Fetched>, g: seq<Meta>) {
    after.docs == ReindexAll(ix.docs, f) && after.manifest == RecordAll(RecordAll(ix.manifest, MetasOf(f)), g)
  }

  lemma {:induction false} TakenApart(ix: Index, ms: seq<Meta>, source: Source)
    requires DistinctKeys(ms)
    ensures InBatches(ix, TakenAll(ix, ms, source), FetchedOf(ms, source), FailedOf(ms, source))
  {
    if ms != [] {
      var init, last := ms[..|ms| - 1], ms[|ms| - 1];
      DistinctInit(ms);
      TakenApart(ix, init, source);
      SplitKeys(init, source);
      assert ms == init + [last];
      FetchedStep(init, last, source);
      OneMoreTaken(ix, TakenAll(ix, init, source), FetchedOf(init, source), FailedOf(init, source), last, source);
    } else {
      assert MetasOf([]) == [];
    }
  }

  lemma OneMoreTaken(ix: Index, after: Index, f: seq<Fetched>, g: seq<Meta>, m: Meta, source: Source)
    requires InBatches(ix, after, f, g) && Key(m) !in Keys(g)
    ensures source(m).Some? ==> InBatches(ix, Taken(after, m, source), f + [Fetched(m, source(m).value)], g)
    ensures source(m).None? ==> InBatches(ix, Taken(after, m, source), f, g + [m])
  {
    TakenStep(ix.docs, ix.manifest, f, g, m, source(m));
    TakenStep(ix.docs, RecordAll(ix.manifest, MetasOf(f)), f, g, m, source(m));
  }

  lemma TakenStep(docs: map<string, seq<Doc>>, manifest: map<string, nat>, f: seq<Fetched>, g: seq<Meta>, m: Meta, r: Option<seq<Message>>)
    requires Key(m) !in Keys(g)
    ensures r.Some? ==>
              ReindexAll(docs, f + [Fetched(m, r.value)]) == Reindex(ReindexAll(docs, f), Fetched(m, r.value)) &&
              RecordAll(RecordAll(manifest, MetasOf(f + [Fetched(m, r.value)])), g)
              == RecordAll(RecordAll(manifest, MetasOf(f)), g)[Key(m) := m.updated]
    ensures RecordAll(manifest, g + [m]) == RecordAll(manifest, g)[Key(m) := m.updated]
  {
    if r.Some? {
      var more := f + [Fetched(m, r.value)];
      assert more[..|f|] == f;
      assert MetasOf(more)[..|f|] == MetasOf(f);
      RecordCommutes(RecordAll(manifest, MetasOf(f)), m, g);
    }
    assert (g + [m])[..|g|] == g;
  }

  lemma {:induction false} SplitKeys(ms: seq<Meta>, source: Source)
    ensures forall m :: m in FailedOf(ms, source) ==> m in ms
  {
    if ms != [] {
      SplitKeys(ms[..|ms| - 1], source);
      assert ms == ms[..|ms| - 1] + [ms[|ms| - 1]];
    }
  }

  lemma {:induction false} RecordCommutes(manifest: map<string, nat>, m: Meta, g: seq<Meta>)
    requires Key(m) !in Keys(g)
    ensures RecordAll(manifest[Key(m) := m.updated], g) == RecordAll(manifest, g)[Key(m) := m.updated]
  {
    if g != [] {
      var init, last := g[..|g| - 1], g[|g| - 1];
      assert g == init + [last] && last in g;
      RecordCommutes(manifest, m, init);
    }
  }
}
