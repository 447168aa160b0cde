/**
 Which sockets a command goes to, and how a room is listed (crates/relay/src/routing.rs
 and the same logic in worker/src/room.ts). A machine has one agent id but may hold
 several sockets; it is listed once and contacted once.
 */
module Routing {
  import opened Text

  datatype AgentInfo = AgentInfo(id: string, accepts: bool, autonomous: bool, connectedAt: nat,
                                 tags: seq<string>, os: string, family: string, session: string, connections: nat)

  datatype Target = Agent(id: string) | All | Tagged(tags: seq<string>) | Platform(family: string)

  datatype Candidate<T> = Candidate(info: AgentInfo, item: T)

  // --- rank ------------------------------------------------------------------------

  function Score(a: AgentInfo): nat {
    (if a.accepts then 1 else 0) + (if a.autonomous then 2 else 0)
  }

  /** More capable, or as capable and fresher. */
  predicate Outranks(a: AgentInfo, b: AgentInfo) {
    Score(a) > Score(b) || (Score(a) == Score(b) && a.connectedAt > b.connectedAt)
  }

  predicate SameRank(a: AgentInfo, b: AgentInfo) {
    Score(a) == Score(b) && a.connectedAt == b.connectedAt
  }

  /** Whether a socket belongs to a broadcast: send-only peers never do. */
  predicate Wanted(a: AgentInfo, target: Target) {
    match target
    case Agent(id) => a.id == id
    case All => a.accepts
    case Tagged(tags) => a.accepts && exists t :: t in a.tags && t in tags
    case Platform(family) => a.accepts && (SameLetters(family, a.family) || SameLetters(family, a.os))
  }

  // --- one socket per machine ---------------------------------------------------------

  /** Where `id` is in a list of one entry per id. */
  function Index<T>(list: seq<Candidate<T>>, id: string): (k: nat)
    ensures k <= |list|
    ensures k < |list| ==> list[k].info.id == id
    ensures k == |list| ==> forall i :: 0 <= i < |list| ==> list[i].info.id != id
  {
    if list == [] then 0
    else if list[0].info.id == id then 0
    else 1 + Index(list[1..], id)
  }

  /** The better of the entry so far and a further candidate; a tie keeps the first. */
  function Keep<T>(list: seq<Candidate<T>>, c: Candidate<T>): seq<Candidate<T>> {
    var k := Index(list, c.info.id);
    if k == |list| then list + [c]
    else if Outranks(c.info, list[k].info) then list[k := c]
    else list
  }

  function Picks<T>(cands: seq<Candidate<T>>, target: Target): seq<Candidate<T>> {
    if cands == [] then []
    else
      var before := Picks(cands[..|cands| - 1], target);
      var last := cands[|cands| - 1];
      if Wanted(last.info, target) then Keep(before, last) else before
  }

  /** The first of the best sockets of one id. */
  function FirstBest<T>(cands: seq<Candidate<T>>, id: string): seq<Candidate<T>> {
    Picks(cands, Agent(id))
  }

  /** The last of the best sockets of one id. */
  function LastBest<T>(cands: seq<Candidate<T>>, id: string): seq<Candidate<T>> {
    if cands == [] then []
    else
      var before := LastBest(cands[..|cands| - 1], id);
      var last := cands[|cands| - 1];
      if last.info.id == id && (before == [] || !Outranks(before[0].info, last.info)) then [last] else before
  }

  /** The worker's selection, ids in the order they were first seen. */
  method SelectTargets<T>(cands: seq<Candidate<T>>, target: Target) returns (items: seq<Candidate<T>>)
    ensures items == Picks(cands, target)
  {
    if target.Agent? {
      items := SelectOne(cands, target.id);
      return;
    }
    var byId: map<string, Candidate<T>>, order: seq<string> := map[], [];
    var i := 0;
    while i < |cands|
      invariant 0 <= i <= |cands|
      invariant Stored(byId, order, Picks(cands[..i], target))
    {
      PicksStep(cands, i, target);
      var c := cands[i];
      ghost var list := Picks(cands[..i], target);
      if Wanted(c.info, target) {
        if c.info.id !in byId {
          StoredNew(byId, order, list, c);
          byId, order := byId[c.info.id := c], order + [c.info.id];
        } else {
          StoredAgain(byId, order, list, c);
          if Outranks(c.info, byId[c.info.id].info) {
            byId := byId[c.info.id := c];
          }
        }
      }
      i := i + 1;
    }
    assert cands[..i] == cands;
    items := InOrder(byId, order);
  }

  /** The values of a map with insertion order. */
  function InOrder<T>(byId: map<string, T>, order: seq<string>): seq<T>
    requires forall k :: 0 <= k < |order| ==> order[k] in byId
  {
    seq(|order|, k requires 0 <= k < |order| => byId[order[k]])
  }

  ghost predicate Stored<T>(byId: map<string, Candidate<T>>, order: seq<string>, list: seq<Candidate<T>>) {
    Apart(list) && (forall id :: id in byId <==> id in order) && InOrder(byId, order) == list &&
    forall k :: 0 <= k < |order| ==> order[k] == list[k].info.id
  }

  /** No two entries for one id. */
  predicate Apart<T>(list: seq<Candidate<T>>) {
    forall i, j :: 0 <= i < j < |list| ==> list[i].info.id != list[j].info.id
  }

  lemma PicksStep<T>(cands: seq<Candidate<T>>, i: nat, target: Target)
    requires i < |cands|
    ensures Picks(cands[..i + 1], target) ==
            if Wanted(cands[i].info, target) then Keep(Picks(cands[..i], target), cands[i]) else Picks(cands[..i], target)
  {
    assert cands[..i + 1][..i] == cands[..i];
  }

  lemma StoredNew<T>(byId: map<string, Candidate<T>>, order: seq<string>, list: seq<Candidate<T>>, c: Candidate<T>)
    requires Stored(byId, order, list) && c.info.id !in byId
    ensures Stored(byId[c.info.id := c], order + [c.info.id], Keep(list, c))
  {}

  lemma StoredAgain<T>(byId: map<string, Candidate<T>>, order: seq<string>, list: seq<Candidate<T>>, c: Candidate<T>)
    requires Stored(byId, order, list) && c.info.id in byId
    ensures Stored(if Outranks(c.info, byId[c.info.id].info) then byId[c.info.id := c] else byId, order, Keep(list, c))
  {}

  /** The worker's choice among the sockets of one id: a reduce over the matches. */
  method SelectOne<T>(cands: seq<Candidate<T>>, id: string) returns (items: seq<Candidate<T>>)
    ensures items == FirstBest(cands, id)
  {
    items := [];
    var i := 0;
    while i < |cands|
      invariant 0 <= i <= |cands| && items == Picks(cands[..i], Agent(id))
      invariant |items| <= 1 && forall c :: c in items ==> c.info.id == id
    {
      assert cands[..i + 1][..i] == cands[..i];
      var c := cands[i];
      if c.info.id == id && (items == [] || Outranks(c.info, items[0].info)) {
        items := [c];
      }
      i := i + 1;
    }
    assert cands[..i] == cands;
  }

  // --- what a selection is -------------------------------------------------------------

  /** `c` is wanted and no wanted candidate of its id outranks it. */
  ghost predicate Top<T(!new)>(c: Candidate<T>, cands: seq<Candidate<T>>, target: Target) {
    c in cands && Wanted(c.info, target) &&
    forall d :: d in cands && Wanted(d.info, target) && d.info.id == c.info.id ==> !Outranks(d.info, c.info)
  }

  /** `id` has a wanted candidate. */
  ghost predicate Reachable<T(!new)>(id: string, cands: seq<Candidate<T>>, target: Target) {
    exists c :: c in cands && Wanted(c.info, target) && c.info.id == id
  }

  predicate Contacts<T>(items: seq<Candidate<T>>, id: string) {
    exists k :: 0 <= k < |items| && items[k].info.id == id
  }

  /** Exactly the ids with a wanted socket, each once, each on a top-ranked one. */
  ghost predicate Selection<T(!new)>(items: seq<Candidate<T>>, cands: seq<Candidate<T>>, target: Target) {
    Apart(items) && (forall c :: c in items ==> Top(c, cands, target)) &&
    forall id :: Contacts(items, id) <==> Reachable(id, cands, target)
  }

  lemma KeepSelects<T(!new)>(items: seq<Candidate<T>>, cands: seq<Candidate<T>>, d: Candidate<T>, target: Target)
    requires Selection(items, cands, target) && Wanted(d.info, target)
    ensures Selection(Keep(items, d), cands + [d], target)
  {
    var k, more := Index(items, d.info.id), Keep(items, d);
    forall id ensures Contacts(more, id) <==> Reachable(id, cands + [d], target) {
      if Contacts(items, id) {
        var i :| 0 <= i < |items| && items[i].info.id == id;
        assert more[i].info.id == id;
      }
      if id == d.info.id { assert more[k].info.id == id; }
    }
    assert k == |items| ==> !Contacts(items, d.info.id);
    assert k < |items| ==> items[k] in items;
    forall c | c in more ensures Top(c, cands + [d], target) {
      var i :| 0 <= i < |more| && more[i] == c;
      if i < |items| && items[i] == c {
        assert c in items && (i != k ==> c.info.id != d.info.id);
      } else {
        assert c == d;
      }
    }
  }

  /** The selection contacts exactly the right machines, once each, on the best socket. */
  lemma {:induction false} PicksSelect<T(!new)>(cands: seq<Candidate<T>>, target: Target)
    ensures Selection(Picks(cands, target), cands, target)
  {
    if cands != [] {
      var init, last := cands[..|cands| - 1], cands[|cands| - 1];
      assert cands == init + [last];
      PicksSelect(init, target);
      if Wanted(last.info, target) {
        KeepSelects(Picks(init, target), init, last, target);
      } else {
        var items := Picks(init, target);
        forall id ensures Contacts(items, id) <==> Reachable(id, cands, target) {}
        forall c | c in items ensures Top(c, cands, target) {}
      }
    }
  }

  /** The relay keeps the last of equals for a single id; it too is a selection. */
  lemma {:induction false} LastBestSelects<T(!new)>(cands: seq<Candidate<T>>, id: string)
    ensures Selection(LastBest(cands, id), cands, Agent(id)) && |LastBest(cands, id)| <= 1
  {
    if cands != [] {
      var init, last := cands[..|cands| - 1], cands[|cands| - 1];
      assert cands == init + [last];
      LastBestSelects(init, id);
      var before, items := LastBest(init, id), LastBest(cands, id);
      assert before != [] ==> before[0] in before;
      forall i ensures Contacts(items, i) <==> Reachable(i, cands, Agent(id)) {
        assert before != [] ==> before[0].info.id == id;
        assert last.info.id == id ==> items != [] && items[0].info.id == id;
        assert Contacts(before, i) <==> before != [] && i == id;
        assert Contacts(items, i) <==> items != [] && i == id;
      }
      forall c | c in items ensures Top(c, cands, Agent(id)) {
        if c == last && items == [last] {
          forall e | e in init && e.info.id == id ensures !Outranks(e.info, last.info) {
            assert Reachable(id, init, Agent(id));
            assert before != [] && Top(before[0], init, Agent(id));
          }
        }
      }
    }
  }

  /** Who is meant: a machine by its id; for the others only who accepts commands, with any tag in
      common, or with that name of an operating system or of a family of them in any case. */
  ghost predicate Meant(a: AgentInfo, target: Target) {
    match target
    case Agent(id) => id == a.id
    case All => a.accepts
    case Tagged(tags) => a.accepts && (set t | t in a.tags) * (set t | t in tags) != {}
    case Platform(family) => a.accepts && exists name :: name in {a.os, a.family} && EqualButCase(family, name)
  }

  /** Autonomous before accepting, accepting before neither, and then the fresher. */
  predicate Better(a: AgentInfo, b: AgentInfo) {
    if a.autonomous != b.autonomous then a.autonomous
    else if a.accepts != b.accepts then a.accepts
    else a.connectedAt > b.connectedAt
  }

  lemma WantedIsMeant(a: AgentInfo, target: Target)
    ensures Wanted(a, target) <==> Meant(a, target)
  {
    match target {
      case Tagged(tags) =>
        var both := (set t | t in a.tags) * (set t | t in tags);
        if both != {} { var t :| t in both; }
        if t :| t in a.tags && t in tags { assert t in both; }
      case Platform(family) =>
        SameLettersMeans(family, a.os);
        SameLettersMeans(family, a.family);
        assert a.os in {a.os, a.family} && a.family in {a.os, a.family};
      case _ =>
    }
  }

  /** A selection contacts the machines that have a socket that is meant, each on one than which
      none of its meant sockets is better. */
  lemma SelectionMeans<T(!new)>(items: seq<Candidate<T>>, cands: seq<Candidate<T>>, target: Target)
    requires Selection(items, cands, target)
    ensures forall id :: Contacts(items, id) <==> exists c :: c in cands && c.info.id == id && Meant(c.info, target)
    ensures forall c :: c in items ==> c in cands && Meant(c.info, target)
    ensures forall c, d :: c in items && d in cands && d.info.id == c.info.id && Meant(d.info, target) ==> !Better(d.info, c.info)
  {
    forall a ensures Wanted(a, target) <==> Meant(a, target) { WantedIsMeant(a, target); }
    forall id ensures Reachable(id, cands, target) <==> exists c :: c in cands && c.info.id == id && Meant(c.info, target) {}
    forall c | c in items ensures Top(c, cands, target) {}
  }

  // --- two relays, two orders, one choice ----------------------------------------------

  /** Any two selections from the same candidates, in whatever order and whichever way
      ties fall, contact the same machines on equally ranked sockets. */
  lemma SelectionsAgree<T(!new)>(one: seq<Candidate<T>>, two: seq<Candidate<T>>, cands: seq<Candidate<T>>,
                                 reordered: seq<Candidate<T>>, target: Target)
    requires multiset(cands) == multiset(reordered)
    requires Selection(one, cands, target) && Selection(two, reordered, target)
    ensures forall id :: Contacts(one, id) <==> Contacts(two, id)
    ensures forall a, b :: a in one && b in two && a.info.id == b.info.id ==> SameRank(a.info, b.info)
  {
    assert forall c :: c in cands <==> c in multiset(cands);
    assert forall c :: c in reordered <==> c in multiset(reordered);
    forall id ensures Contacts(one, id) <==> Contacts(two, id) {
      assert Reachable(id, cands, target) <==> Reachable(id, reordered, target);
    }
    forall a, b | a in one && b in two && a.info.id == b.info.id ensures SameRank(a.info, b.info) {
      assert Top(a, cands, target) && Top(b, reordered, target);
    }
  }

  /** A command to one machine and a command to all reach it on equally ranked sockets
      exactly when the machine's best socket accepts commands. An autonomous send-only
      socket outranks an accepting one, and then they differ. */
  lemma OneAndAllAgree<T(!new)>(one: seq<Candidate<T>>, all: seq<Candidate<T>>, cands: seq<Candidate<T>>, c: Candidate<T>)
    requires Selection(one, cands, Agent(c.info.id)) && Selection(all, cands, All) && c in one
    ensures c.info.accepts <==> exists d :: d in all && d.info.id == c.info.id && SameRank(c.info, d.info)
    ensures c.info.accepts && (forall d :: d in cands && d.info.id == c.info.id && SameRank(c.info, d.info) ==> d == c) ==> c in all
  {
    assert Top(c, cands, Agent(c.info.id));
    if c.info.accepts {
      assert Reachable(c.info.id, cands, All);
      var k :| 0 <= k < |all| && all[k].info.id == c.info.id;
      var d := all[k];
      assert d in all && Top(d, cands, All);
      assert SameRank(c.info, d.info);
    }
    forall d | d in all && d.info.id == c.info.id && SameRank(c.info, d.info) ensures c.info.accepts {
      assert Top(d, cands, All);
    }
  }

  function Socket(accepts: bool, autonomous: bool): AgentInfo {
    AgentInfo("m", accepts, autonomous, 0, [], "", "", "", 0)
  }

  /** The case where they differ: an autonomous send-only socket beside an accepting one. */
  lemma OneAndAllDiffer()
    ensures var a, b := Candidate(Socket(false, true), 0), Candidate(Socket(true, false), 1);
            Picks([a, b], Agent("m")) == [a] && Picks([a, b], All) == [b]
  {
    var a, b := Candidate(Socket(false, true), 0), Candidate(Socket(true, false), 1);
    PicksStep([a, b], 0, Agent("m"));
    PicksStep([a, b], 1, Agent("m"));
    PicksStep([a, b], 0, All);
    PicksStep([a, b], 1, All);
    assert [a, b][..0] == [] && [a, b][..1] == [a] && [a, b][..2] == [a, b];
    assert Index([a], "m") == 0;
  }

  // --- listing a room -------------------------------------------------------------------

  function At(list: seq<AgentInfo>, id: string): (k: nat)
    ensures k <= |list|
    ensures k < |list| ==> list[k].id == id
    ensures forall i :: 0 <= i < k ==> list[i].id != id
  {
    if list == [] then 0
    else if list[0].id == id then 0
    else 1 + At(list[1..], id)
  }

  /** The representative of one more socket of the same machine: the stored one unless
      the new socket scores more than the stored, merged flags. */
  function Merge(rep: AgentInfo, info: AgentInfo): AgentInfo {
    (if Score(info) > Score(rep) then info else rep).(accepts := rep.accepts || info.accepts,
                                                      autonomous := rep.autonomous || info.autonomous,
                                                      connections := rep.connections + 1)
  }

  function Dedup(infos: seq<AgentInfo>): seq<AgentInfo> {
    if infos == [] then []
    else Enlist(Dedup(infos[..|infos| - 1]), infos[|infos| - 1])
  }

  /** Sockets of one id. */
  function Sockets(infos: seq<AgentInfo>, id: string): seq<AgentInfo> {
    if infos == [] then []
    else Sockets(infos[..|infos| - 1], id) + if infos[|infos| - 1].id == id then [infos[|infos| - 1]] else []
  }

  predicate AnyAccepts(infos: seq<AgentInfo>) {
    exists a :: a in infos && a.accepts
  }

  predicate AnyAutonomous(infos: seq<AgentInfo>) {
    exists a :: a in infos && a.autonomous
  }

  /** Everything but flags and count. */
  function Metadata(a: AgentInfo): AgentInfo {
    a.(accepts := false, autonomous := false, connections := 0)
  }

  /** One machine's line in the listing. */
  ghost predicate Represents(rep: AgentInfo, infos: seq<AgentInfo>) {
    infos != [] && rep.connections == |infos| && rep.accepts == AnyAccepts(infos) && rep.autonomous == AnyAutonomous(infos) &&
    exists a :: a in infos && Metadata(rep) == Metadata(a)
  }

  predicate ApartInfos(list: seq<AgentInfo>) {
    forall i, j :: 0 <= i < j < |list| ==> list[i].id != list[j].id
  }

  ghost predicate Listing(list: seq<AgentInfo>, infos: seq<AgentInfo>) {
    ApartInfos(list) && (forall k :: 0 <= k < |list| ==> Represents(list[k], Sockets(infos, list[k].id))) &&
    forall id :: Sockets(infos, id) != [] <==> At(list, id) < |list|
  }

  /** How one more socket changes the list. */
  function Enlist(list: seq<AgentInfo>, info: AgentInfo): seq<AgentInfo> {
    var k := At(list, info.id);
    if k == |list| then list + [info.(connections := 1)] else list[k := Merge(list[k], info)]
  }

  lemma EnlistedIds(list: seq<AgentInfo>, info: AgentInfo)
    requires ApartInfos(list)
    ensures ApartInfos(Enlist(list, info))
    ensures forall id :: At(Enlist(list, info), id) < |Enlist(list, info)| <==> At(list, id) < |list| || id == info.id
  {
    var more, k := Enlist(list, info), At(list, info.id);
    forall id ensures At(more, id) < |more| <==> At(list, id) < |list| || id == info.id {
      assert more[k].id == info.id;
      assert At(list, id) < |list| ==> more[At(list, id)].id == id;
      assert At(more, id) < |list| && At(more, id) != k ==> list[At(more, id)].id == id;
    }
  }

  lemma FirstRepresents(info: AgentInfo)
    ensures Represents(info.(connections := 1), [info])
  {
    assert info in [info];
  }

  lemma EnlistRepresents(list: seq<AgentInfo>, infos: seq<AgentInfo>, info: AgentInfo, i: nat)
    requires Listing(list, infos) && i < |Enlist(list, info)|
    ensures var rep := Enlist(list, info)[i]; Represents(rep, Sockets(infos + [info], rep.id))
  {
    var k := At(list, info.id);
    if i != k {
      assert list[i].id != info.id;
    } else if k == |list| {
      assert Sockets(infos, info.id) == [];
      FirstRepresents(info);
    }
  }

  /** Each machine is listed once, with the flags any of its sockets has, the number of
      its sockets, and the metadata of one of them. */
  lemma {:induction false} DedupLists(infos: seq<AgentInfo>)
    ensures Listing(Dedup(infos), infos)
  {
    if infos != [] {
      var init, last := infos[..|infos| - 1], infos[|infos| - 1];
      assert infos == init + [last];
      DedupLists(init);
      var before, list := Dedup(init), Dedup(infos);
      EnlistedIds(before, last);
      forall i | 0 <= i < |list| ensures Represents(list[i], Sockets(infos, list[i].id)) {
        EnlistRepresents(before, init, last, i);
      }
    }
  }

  /** Two maps and the order of insertion, then the counts filled in. */
  method DedupAgents(infos: seq<AgentInfo>) returns (list: seq<AgentInfo>)
    ensures list == Dedup(infos)
  {
    var byId: map<string, AgentInfo>, counts: map<string, nat>, order: seq<string> := map[], map[], [];
    var i := 0;
    while i < |infos|
      invariant 0 <= i <= |infos| && Tallied(byId, counts, order, Dedup(infos[..i]))
    {
      DedupStep(infos, i);
      byId, counts, order := TallySocket(byId, counts, order, infos[i], Dedup(infos[..i]));
      i := i + 1;
    }
    assert infos[..i] == infos;
    list := WithCounts(InOrder(byId, order), InOrder(counts, order));
  }

  /** The body of that loop. */
  method TallySocket(byId0: map<string, AgentInfo>, counts0: map<string, nat>, order0: seq<string>, info: AgentInfo,
                     ghost list: seq<AgentInfo>)
    returns (byId: map<string, AgentInfo>, counts: map<string, nat>, order: seq<string>)
    requires Tallied(byId0, counts0, order0, list)
    ensures Tallied(byId, counts, order, Enlist(list, info))
  {
    if info.id in byId0 {
      var rep, n := Merged(byId0[info.id], info), counts0[info.id] + 1;
      TalliedAgain(byId0, counts0, order0, list, info, rep, n);
      byId, counts, order := byId0[info.id := rep], counts0[info.id := n], order0;
    } else {
      byId, counts, order := byId0[info.id := info], counts0[info.id := 1], order0 + [info.id];
    }
  }

  lemma DedupStep(infos: seq<AgentInfo>, i: nat)
    requires i < |infos|
    ensures Dedup(infos[..i + 1]) == Enlist(Dedup(infos[..i]), infos[i])
  {
    assert infos[..i + 1][..i] == infos[..i];
  }

  function WithCounts(reps: seq<AgentInfo>, counts: seq<nat>): seq<AgentInfo>
    requires |reps| == |counts|
  {
    seq(|reps|, k requires 0 <= k < |reps| => reps[k].(connections := counts[k]))
  }

  ghost predicate Tallied(byId: map<string, AgentInfo>, counts: map<string, nat>, order: seq<string>, list: seq<AgentInfo>) {
    ApartInfos(list) && byId.Keys == counts.Keys && (forall id :: id in byId <==> id in order) &&
    WithCounts(InOrder(byId, order), InOrder(counts, order)) == list &&
    forall k :: 0 <= k < |order| ==> order[k] == list[k].id
  }

  /** The stored entry of a machine after one more socket, counts apart. */
  function Merged(rep: AgentInfo, info: AgentInfo): AgentInfo {
    (if Score(rep) >= Score(info) then rep else info).(accepts := rep.accepts || info.accepts,
                                                       autonomous := rep.autonomous || info.autonomous)
  }

  lemma TalliedPut(byId: map<string, AgentInfo>, counts: map<string, nat>, order: seq<string>, list: seq<AgentInfo>, k: nat,
                   rep: AgentInfo, n: nat)
    requires Tallied(byId, counts, order, list) && k < |list| && rep.id == list[k].id
    ensures Tallied(byId[order[k] := rep], counts[order[k] := n], order, list[k := rep.(connections := n)])
  {}

  lemma TalliedAgain(byId: map<string, AgentInfo>, counts: map<string, nat>, order: seq<string>, list: seq<AgentInfo>, info: AgentInfo,
                     rep: AgentInfo, n: nat)
    requires Tallied(byId, counts, order, list) && info.id in byId
    requires rep == Merged(byId[info.id], info) && n == counts[info.id] + 1
    ensures Tallied(byId[info.id := rep], counts[info.id := n], order, Enlist(list, info))
  {
    SameEnlisted(list, byId[info.id], counts[info.id], info);
    TalliedPut(byId, counts, order, list, At(list, info.id), rep, n);
  }

  lemma SameMerge(stored: AgentInfo, count: nat, info: AgentInfo)
    requires stored.id == info.id
    ensures Merged(stored, info).id == info.id
    ensures Merged(stored, info).(connections := count + 1) == Merge(stored.(connections := count), info)
  {}

  lemma SameEnlisted(list: seq<AgentInfo>, stored: AgentInfo, count: nat, info: AgentInfo)
    requires At(list, info.id) < |list| && list[At(list, info.id)] == stored.(connections := count)
    ensures Merged(stored, info).id == info.id
    ensures list[At(list, info.id) := Merged(stored, info).(connections := count + 1)] == Enlist(list, info)
  {
    SameMerge(stored, count, info);
  }

  // --- what a listing promises --------------------------------------------------------------

  function Infos<T>(cands: seq<Candidate<T>>): seq<AgentInfo> {
    if cands == [] then [] else Infos(cands[..|cands| - 1]) + [cands[|cands| - 1].info]
  }

  ghost predicate HasInfo<T(!new)>(cands: seq<Candidate<T>>, a: AgentInfo) {
    exists c :: c in cands && c.info == a
  }

  lemma {:induction false} SocketsAreCandidates<T(!new)>(cands: seq<Candidate<T>>, id: string)
    ensures forall a :: a in Sockets(Infos(cands), id) <==> a.id == id && HasInfo(cands, a)
  {
    if cands != [] {
      var init, last := cands[..|cands| - 1], cands[|cands| - 1];
      SocketsAreCandidates(init, id);
      assert cands == init + [last];
      assert Infos(cands)[..|init|] == Infos(init) by { InfosLength(init); }
      InfosLength(cands);
      forall a ensures HasInfo(cands, a) <==> HasInfo(init, a) || a == last.info {
        if HasInfo(init, a) {
          var c :| c in init && c.info == a;
          assert c in cands;
        }
        assert last in cands;
      }
    }
  }

  lemma {:induction false} InfosLength<T>(cands: seq<Candidate<T>>)
    ensures |Infos(cands)| == |cands|
  {
    if cands != [] { InfosLength(cands[..|cands| - 1]); }
  }

  lemma AutonomousSocket<T(!new)>(cands: seq<Candidate<T>>, k: nat) returns (d: Candidate<T>)
    requires k < |Dedup(Infos(cands))| && Dedup(Infos(cands))[k].autonomous
    ensures d in cands && d.info.id == Dedup(Infos(cands))[k].id && d.info.autonomous
  {
    var id := Dedup(Infos(cands))[k].id;
    DedupLists(Infos(cands));
    SocketsAreCandidates(cands, id);
    assert Represents(Dedup(Infos(cands))[k], Sockets(Infos(cands), id));
    var a :| a in Sockets(Infos(cands), id) && a.autonomous;
    d :| d in cands && d.info == a;
  }

  /** A machine listed as autonomous gets its commands on an autonomous socket. */
  lemma AutonomousIsServed<T(!new)>(cands: seq<Candidate<T>>, items: seq<Candidate<T>>, k: nat)
    requires k < |Dedup(Infos(cands))| && Dedup(Infos(cands))[k].autonomous
    requires Selection(items, cands, Agent(Dedup(Infos(cands))[k].id))
    ensures items != [] && forall c :: c in items ==> c.info.autonomous
  {
    var rep := Dedup(Infos(cands))[k];
    var d := AutonomousSocket(cands, k);
    assert Reachable(rep.id, cands, Agent(rep.id));
    assert Contacts(items, rep.id);
    forall c | c in items ensures c.info.autonomous {
      assert Top(c, cands, Agent(rep.id));
    }
  }

  // --- whose metadata is listed ---------------------------------------------------------------

  predicate Full(a: AgentInfo) {
    a.accepts && a.autonomous
  }

  function FlagScore(infos: seq<AgentInfo>): nat {
    (if AnyAccepts(infos) then 1 else 0) + (if AnyAutonomous(infos) then 2 else 0)
  }

  /** The socket of one machine whose metadata ends up in the listing. */
  function Source(infos: seq<AgentInfo>): AgentInfo
    requires infos != []
  {
    var init, last := infos[..|infos| - 1], infos[|infos| - 1];
    if init == [] || Score(last) > FlagScore(init) then last else Source(init)
  }

  predicate FullInTime(infos: seq<AgentInfo>) {
    exists k :: 0 <= k < |infos| && InTime(infos, k)
  }

  /** This socket has both flags, and the ones before it not even together. */
  predicate InTime(infos: seq<AgentInfo>, k: nat)
    requires k < |infos|
  {
    Full(infos[k]) && FlagScore(infos[..k]) < 3
  }

  lemma InTimeGrows(init: seq<AgentInfo>, last: AgentInfo)
    ensures FullInTime(init + [last]) <==> FullInTime(init) || (Full(last) && FlagScore(init) < 3)
  {
    var infos := init + [last];
    assert infos[..|init|] == init;
    assert InTime(infos, |init|) <==> Full(last) && FlagScore(init) < 3;
    forall k | 0 <= k < |init| ensures InTime(infos, k) <==> InTime(init, k) { assert infos[..k] == init[..k]; }
  }

  lemma {:induction false} SourceScore(infos: seq<AgentInfo>)
    requires infos != []
    ensures FullInTime(infos) ==> Score(Source(infos)) == 3 && FlagScore(infos) == 3
    ensures !FullInTime(infos) ==> Score(Source(infos)) == if AnyAutonomous(infos) then 2 else if AnyAccepts(infos) then 1 else 0
  {
    var init, last := infos[..|infos| - 1], infos[|infos| - 1];
    assert infos == init + [last];
    InTimeGrows(init, last);
    if init != [] { SourceScore(init); }
  }

  /** The listed metadata is that of a most capable socket exactly when no socket has
      both flags, or one that has comes before others have shown both between them. */
  lemma SourceIsMostCapable(infos: seq<AgentInfo>)
    requires infos != []
    ensures (forall a :: a in infos ==> Score(a) <= Score(Source(infos))) <==>
            (forall a :: a in infos ==> !Full(a)) || FullInTime(infos)
  {
    SourceScore(infos);
    forall a | a in infos ensures a.accepts ==> AnyAccepts(infos) {}
    forall a | a in infos ensures a.autonomous ==> AnyAutonomous(infos) {}
  }

  /** The case where it is not: both capabilities were shown before a socket had both. */
  lemma MoreCapableIsPassedOver()
    ensures var infos := [Socket(true, false), Socket(false, true), Socket(true, true)];
            Source(infos) == Socket(false, true) && Score(Source(infos)) < Score(Socket(true, true))
  {
    var a, b, c := Socket(true, false), Socket(false, true), Socket(true, true);
    var infos := [a, b, c];
    assert infos[..2] == [a, b] && [a, b][..1] == [a] && [a][..0] == [];
    assert a in [a, b] && b in [a, b];
    assert FlagScore([a, b]) == 3;
    assert a in [a];
    assert FlagScore([a]) == 1;
  }

  /** The listed line carries the metadata of that socket. */
  lemma {:induction false} ListedFromSource(infos: seq<AgentInfo>, id: string)
    requires Sockets(infos, id) != []
    ensures At(Dedup(infos), id) < |Dedup(infos)|
    ensures Metadata(Dedup(infos)[At(Dedup(infos), id)]) == Metadata(Source(Sockets(infos, id)))
  {
    var init, last := infos[..|infos| - 1], infos[|infos| - 1];
    var before, mine := Dedup(init), Sockets(init, id);
    DedupLists(init);
    DedupLists(infos);
    EnlistedIds(before, last);
    if mine != [] {
      ListedFromSource(init, id);
    }
    if last.id == id {
      assert Sockets(infos, id)[..|mine|] == mine;
      ListedLast(before, last, mine);
    } else {
      assert Sockets(infos, id) == mine;
      ListedOther(before, last, id);
    }
  }

  lemma ListedLast(before: seq<AgentInfo>, last: AgentInfo, mine: seq<AgentInfo>)
    requires mine != [] <==> At(before, last.id) < |before|
    requires mine != [] ==> var rep := before[At(before, last.id)]; Represents(rep, mine) && Metadata(rep) == Metadata(Source(mine))
    ensures var list := Enlist(before, last); var k := At(list, last.id);
            k < |list| && Metadata(list[k]) == Metadata(Source(mine + [last]))
  {
    var list, j := Enlist(before, last), At(before, last.id);
    assert (mine + [last])[..|mine|] == mine;
    assert list[j].id == last.id;
    if mine != [] {
      assert FlagScore(mine) == Score(before[j]);
      assert list[j] == Merge(before[j], last);
    }
  }

  lemma ListedOther(before: seq<AgentInfo>, last: AgentInfo, id: string)
    requires last.id != id && ApartInfos(before) && At(before, id) < |before|
    ensures var list := Enlist(before, last); At(list, id) == At(before, id) && list[At(before, id)] == before[At(before, id)]
  {}
}
