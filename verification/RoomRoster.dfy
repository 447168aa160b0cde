/**
 Roster agreement: in every reachable state of a room, what a connected client makes of
 the frames sent to it is exactly who else is there.

 A socket the room has asked to close stays listed, with its identity, until the runtime
 reports it closed. Until then its id may or may not still be shown; with no such socket
 the agreement is exact.
 */
module RoomRoster {
  import opened Wrappers
  import opened Routing
  import opened Peers
  import opened RoomState

  function AllIds(r: Room): set<string> {
    set k | k in r.conns && r.conns[k].agent.Some? :: r.conns[k].agent.value.id
  }

  /** Ids held by a socket that is not closing. */
  function LiveIds(r: Room): set<string> {
    set k | k in r.conns && r.conns[k].agent.Some? && !r.conns[k].closing :: r.conns[k].agent.value.id
  }

  function Own(c: Conn): set<string> {
    if c.agent.Some? then {c.agent.value.id} else {}
  }

  /** The ids a client shows after all frames sent to it. */
  function Shown(c: Conn): set<string> {
    Ids(View([], c.wire))
  }

  /** The client's view against the ids that must and may be there; its own id is ignored. */
  predicate AgreesWith(c: Conn, live: set<string>, all: set<string>) {
    live - Own(c) <= Shown(c) && Shown(c) - Own(c) <= all
  }

  /** A client that was sent a full list once: every identified one, and observers that asked. */
  predicate Informed(c: Conn) {
    !c.closing && HasList(c.wire)
  }

  ghost predicate Roster(r: Room) {
    forall k :: k in r.conns && Informed(r.conns[k]) ==> AgreesWith(r.conns[k], LiveIds(r), AllIds(r))
  }

  ghost predicate Briefed(r: Room) {
    forall k :: k in r.conns && r.conns[k].agent.Some? && !r.conns[k].closing ==> HasList(r.conns[k].wire)
  }

  ghost predicate Good(r: Room) {
    Seated(r) && Roster(r) && Briefed(r)
  }

  // --- lists ------------------------------------------------------------------------

  lemma EnlistIds(list: seq<AgentInfo>, a: AgentInfo)
    ensures Ids(Enlist(list, a)) == Ids(list) + {a.id}
  {
    var k, more := At(list, a.id), Enlist(list, a);
    forall i | 0 <= i < |list| ensures more[i].id == list[i].id {}
    assert more[k].id == a.id;
    assert Ids(more) <= Ids(list) + {a.id};
    forall id | id in Ids(list) ensures id in Ids(more) {
      var i :| 0 <= i < |list| && list[i].id == id;
      assert more[i].id == id;
    }
  }

  lemma {:induction false} DedupIds(infos: seq<AgentInfo>)
    ensures Ids(Dedup(infos)) == Ids(infos)
  {
    if infos != [] {
      var init, last := infos[..|infos| - 1], infos[|infos| - 1];
      DedupIds(init);
      EnlistIds(Dedup(init), last);
      IdsGrow(init, last);
      assert init + [last] == infos;
    }
  }

  lemma {:induction false} OthersIds(infos: seq<AgentInfo>, id: string)
    ensures Ids(Others(infos, id)) == Ids(infos) - {id}
  {
    if infos != [] {
      var init, last := infos[..|infos| - 1], infos[|infos| - 1];
      OthersIds(init, id);
      IdsGrow(init, last);
      IdsGrow(Others(init, id), last);
      assert init + [last] == infos;
      assert Others(init, id) + [] == Others(init, id);
    }
  }

  lemma {:induction false} SocketsShareId(infos: seq<AgentInfo>, id: string)
    ensures Ids(Sockets(infos, id)) <= {id}
  {
    if infos != [] {
      var init, last := infos[..|infos| - 1], infos[|infos| - 1];
      SocketsShareId(init, id);
      IdsGrow(Sockets(init, id), last);
      assert Sockets(init, id) + [] == Sockets(init, id);
    }
  }

  lemma {:induction false} CandIds(cands: seq<Candidate<Sock>>)
    ensures Ids(Infos(cands)) == set c | c in cands :: c.info.id
  {
    if cands != [] {
      var init, last := cands[..|cands| - 1], cands[|cands| - 1];
      CandIds(init);
      IdsGrow(Infos(init), last.info);
      assert cands == init + [last];
    }
  }

  lemma AgentsIds(r: Room)
    requires Seated(r)
    ensures Ids(Agents(r)) == AllIds(r)
  {
    var cands := Cands(r.order, r.conns);
    CandIds(cands);
    CandsSeated(r.order, r.conns);
    forall id | id in AllIds(r) ensures id in Ids(Agents(r)) {
      var k :| k in r.conns && r.conns[k].agent.Some? && r.conns[k].agent.value.id == id;
      assert Candidate(r.conns[k].agent.value, k) in cands;
    }
  }

  lemma MergedId(infos: seq<AgentInfo>, a: AgentInfo)
    ensures MergedInfo(infos, a).id == a.id
  {
    var own := Dedup(Sockets(infos, a.id));
    DedupIds(Sockets(infos, a.id));
    SocketsShareId(infos, a.id);
    if own != [] {
      assert own[0].id in Ids(own);
    }
  }

  // --- one client, one frame ------------------------------------------------------------

  /** Frames that say nothing about who is there. */
  predicate Chatter(f: Frame) {
    !f.AgentList? && !f.AgentJoined? && !f.AgentLeft?
  }

  lemma HeardShows(c: Conn, f: Frame)
    requires !c.closing
    ensures Chatter(f) ==> Shown(Heard(c, f)) == Shown(c)
    ensures f.AgentList? ==> Shown(Heard(c, f)) == Ids(f.agents)
    ensures f.AgentJoined? ==> Shown(Heard(c, f)) == Shown(c) + {f.agent.id}
    ensures f.AgentLeft? ==> Shown(Heard(c, f)) == Shown(c) - {f.id}
    ensures HasList(Heard(c, f).wire) <==> HasList(c.wire) || f.AgentList?
  {
    ViewStep([], c.wire, f);
    match f {
      case AgentJoined(a) => UpsertIds(View([], c.wire), a);
      case AgentLeft(id) => WithoutIds(View([], c.wire), id);
      case _ =>
    }
  }

  /** An announcement about `id`, as one socket gets it. */
  function Announced(c: Conn, f: Frame, id: string): Conn {
    if IsMcp(c) || IsAgentBut(c, id) then Heard(c, f) else c
  }

  lemma AnnounceReaches(r: Room, f: Frame, id: string)
    ensures Announce(r, f, id).order == r.order && Announce(r, f, id).pending == r.pending
    ensures Announce(r, f, id).conns.Keys == r.conns.Keys && Announce(r, f, id).serverToken == r.serverToken
    ensures forall k :: k in r.conns ==> Announce(r, f, id).conns[k] == Announced(r.conns[k], f, id)
  {
    var s := ToMcp(r, f);
    forall k | k in r.conns ensures Announce(r, f, id).conns[k] == Announced(r.conns[k], f, id) {
      assert s.conns[k].agent == r.conns[k].agent;
      assert IsAgentBut(s.conns[k], id) ==> s.conns[k] == r.conns[k];
    }
  }

  lemma JoinKeeps(c: Conn, a: AgentInfo, live: set<string>, all: set<string>, live': set<string>, all': set<string>)
    requires Informed(c) ==> AgreesWith(c, live, all)
    requires live' <= live + {a.id} && all <= all' && a.id in all'
    ensures var d := Announced(c, AgentJoined(a), a.id);
            (Informed(d) <==> Informed(c)) && (Informed(d) ==> AgreesWith(d, live', all'))
  {
    if !c.closing { HeardShows(c, AgentJoined(a)); }
  }

  lemma LeaveKeeps(c: Conn, id: string, live: set<string>, all: set<string>, live': set<string>, all': set<string>)
    requires Informed(c) ==> AgreesWith(c, live, all)
    requires live' <= live - {id} && all - {id} <= all'
    ensures var d := Announced(c, AgentLeft(id), id);
            (Informed(d) <==> Informed(c)) && (Informed(d) ==> AgreesWith(d, live', all'))
  {
    if !c.closing { HeardShows(c, AgentLeft(id)); }
  }

  // --- steps that change nobody's presence ------------------------------------------------

  /** Same sockets, same identities, and every client shows what it showed. */
  ghost predicate Quiet(r: Room, s: Room) {
    s.conns.Keys == r.conns.Keys && s.order == r.order &&
    forall k :: k in r.conns ==> QuietAt(r.conns[k], s.conns[k])
  }

  predicate QuietAt(c: Conn, d: Conn) {
    Own(d) == Own(c) && d.agent.Some? == c.agent.Some? && d.closing == c.closing && Shown(d) == Shown(c) &&
    (HasList(d.wire) <==> HasList(c.wire))
  }

  lemma QuietKeeps(r: Room, s: Room)
    requires Good(r) && Quiet(r, s)
    ensures Good(s)
  {
    forall k | k in s.conns && Informed(s.conns[k]) ensures AgreesWith(s.conns[k], LiveIds(s), AllIds(s)) {
      assert QuietAt(r.conns[k], s.conns[k]) && Informed(r.conns[k]);
    }
    forall k | k in s.conns && s.conns[k].agent.Some? && !s.conns[k].closing ensures HasList(s.conns[k].wire) {
      assert QuietAt(r.conns[k], s.conns[k]);
    }
  }

  lemma HeardQuiet(c: Conn, f: Frame)
    requires Chatter(f)
    ensures QuietAt(c, Heard(c, f))
  {
    if !c.closing { HeardShows(c, f); }
  }

  lemma SendQuiet(r: Room, k: Sock, f: Frame)
    requires k in r.conns && Chatter(f)
    ensures Quiet(r, Send(r, k, f))
  {
    HeardQuiet(r.conns[k], f);
  }

  lemma ToMcpQuiet(r: Room, f: Frame)
    requires Chatter(f)
    ensures Quiet(r, ToMcp(r, f))
  {
    forall k | k in r.conns ensures QuietAt(r.conns[k], ToMcp(r, f).conns[k]) {
      HeardQuiet(r.conns[k], f);
    }
  }

  lemma {:induction false} ToTargetsQuiet(r: Room, targets: seq<Candidate<Sock>>, f: Frame)
    requires (forall c :: c in targets ==> c.item in r.conns) && Chatter(f)
    ensures Quiet(r, ToTargets(r, targets, f))
    decreases |targets|
  {
    if targets != [] {
      SendQuiet(r, targets[0].item, f);
      ToTargetsQuiet(Send(r, targets[0].item, f), targets[1..], f);
    }
  }

  // --- arrivals ------------------------------------------------------------------------------

  /** `s` is `r` with socket `k` identified as `id`; an id it had before is the same or has another socket. */
  ghost predicate Identified(r: Room, s: Room, k: Sock, id: string) {
    s.order == r.order && k in r.conns && (Own(r.conns[k]) <= {id} || HeldElsewhere(r, k, r.conns[k].agent.value.id)) &&
    s.conns.Keys == r.conns.Keys && (forall j :: j in r.conns && j != k ==> s.conns[j] == r.conns[j]) &&
    s.conns[k].agent.Some? && s.conns[k].agent.value.id == id && s.conns[k].closing == r.conns[k].closing
  }

  /** Everybody agrees but perhaps for `a`, which is there: then all hear of it. */
  lemma JoinAnnounced(s: Room, a: AgentInfo)
    requires Seated(s) && Briefed(s) && a.id in AllIds(s)
    requires forall k :: k in s.conns && Informed(s.conns[k]) ==> AgreesWith(s.conns[k], LiveIds(s) - {a.id}, AllIds(s))
    ensures Good(Announce(s, AgentJoined(a), a.id))
  {
    AnnounceReaches(s, AgentJoined(a), a.id);
    JoinHeard(s, Announce(s, AgentJoined(a), a.id), a);
  }

  lemma JoinHeard(s: Room, t: Room, a: AgentInfo)
    requires Briefed(s) && Seated(t) && a.id in AllIds(s) && t.conns.Keys == s.conns.Keys
    requires forall k :: k in s.conns ==> t.conns[k] == Announced(s.conns[k], AgentJoined(a), a.id)
    requires forall k :: k in s.conns && Informed(s.conns[k]) ==> AgreesWith(s.conns[k], LiveIds(s) - {a.id}, AllIds(s))
    ensures Good(t)
  {
    SameIdentities(s, t);
    forall k | k in t.conns && Informed(t.conns[k]) ensures AgreesWith(t.conns[k], LiveIds(t), AllIds(t)) {
      JoinKeeps(s.conns[k], a, LiveIds(s) - {a.id}, AllIds(s), LiveIds(t), AllIds(t));
    }
    forall k | k in t.conns && t.conns[k].agent.Some? && !t.conns[k].closing ensures HasList(t.conns[k].wire) {}
  }

  /** The newcomer has its list; everybody hears of the newcomer. */
  lemma ArrivalKeeps(r: Room, s: Room, k: Sock, a: AgentInfo)
    requires Good(r) && Identified(r, s, k, a.id)
    requires Informed(s.conns[k]) ==> AgreesWith(s.conns[k], LiveIds(s), AllIds(s))
    requires !s.conns[k].closing ==> HasList(s.conns[k].wire)
    ensures Good(Announce(s, AgentJoined(a), a.id))
  {
    forall j | j in s.conns && Informed(s.conns[j]) ensures AgreesWith(s.conns[j], LiveIds(s) - {a.id}, AllIds(s)) {
      if j != k { assert Informed(r.conns[j]) && AgreesWith(r.conns[j], LiveIds(r), AllIds(r)); }
    }
    JoinAnnounced(s, a);
  }

  lemma SameIdentities(s: Room, t: Room)
    requires t.conns.Keys == s.conns.Keys
    requires forall k :: k in s.conns ==> t.conns[k].agent == s.conns[k].agent && t.conns[k].closing == s.conns[k].closing
    ensures AllIds(t) == AllIds(s) && LiveIds(t) == LiveIds(s)
  {}

  lemma EnterWires(r: Room, k: Sock, agent: Option<AgentInfo>, session: string, now: nat)
    requires k in r.conns
    ensures var s := Enter(r, k, agent, session, now);
            s.order == r.order && s.conns.Keys == r.conns.Keys && (forall j :: j in r.conns && j != k ==> s.conns[j] == r.conns[j]) &&
            s.conns[k].closing == r.conns[k].closing && s.conns[k].session == Some(session) &&
            s.conns[k].agent == (if agent.Some? then Some(agent.value.(session := session)) else None) &&
            Shown(s.conns[k]) == Shown(r.conns[k]) && (HasList(s.conns[k].wire) <==> HasList(r.conns[k].wire))
  {
    var c := r.conns[k];
    if !c.closing {
      HeardShows(c, AuthOk(session));
      HeardShows(Heard(c, AuthOk(session)), YourEndpoint(c.ip));
    }
  }

  /** An authentication as `agent` loses nobody: the socket has no identity yet, or keeps its
      id, or takes another and a further socket holds the one it had. */
  ghost predicate Harmless(r: Room, k: Sock, agent: Option<AgentInfo>)
    requires k in r.conns
  {
    var held := r.conns[k].agent;
    held.None? || (agent.Some? && (agent.value.id == held.value.id || HeldElsewhere(r, k, held.value.id)))
  }

  lemma AuthKeeps(r: Room, k: Sock, token: string, agent: Option<AgentInfo>, session: string, now: nat)
    requires Good(r) && k in r.conns && (Admits(r, k, token) ==> Harmless(r, k, agent))
    ensures Good(Auth(r, k, token, agent, session, now))
  {
    if !Admits(r, k, token) {
      SendQuiet(r, k, AuthFailed);
      QuietKeeps(r, Send(r, k, AuthFailed));
      CloseKeeps(Send(r, k, AuthFailed), k);
    } else {
      EnterWires(r, k, agent, session, now);
      var s := Enter(r, k, agent, session, now);
      if agent.None? {
        assert Quiet(r, s);
        QuietKeeps(r, s);
      } else {
        NewcomerKeeps(r, s, k, agent.value.(session := session));
      }
    }
  }

  /** A socket that is sent all ids, but for its own, agrees. */
  lemma ListAgrees(r: Room, k: Sock, f: Frame)
    requires k in r.conns && f.AgentList? && AllIds(r) - Own(r.conns[k]) <= Ids(f.agents) <= AllIds(r)
    ensures var s := Send(r, k, f);
            AllIds(s) == AllIds(r) && LiveIds(s) == LiveIds(r) &&
            (!s.conns[k].closing ==> Informed(s.conns[k]) && AgreesWith(s.conns[k], LiveIds(s), AllIds(s)))
  {
    SameIdentities(r, Send(r, k, f));
    BelowAll(r, k);
    if !r.conns[k].closing { HeardShows(r.conns[k], f); }
  }

  lemma NewcomerKeeps(r: Room, s: Room, k: Sock, me: AgentInfo)
    requires Good(r) && Seated(s) && Identified(r, s, k, me.id)
    ensures Good(Introduce(s, k, me))
  {
    var infos := Agents(s);
    var f := AgentList(Dedup(Others(infos, me.id)));
    var t := Send(s, k, f);
    AgentsIds(s);
    OthersIds(infos, me.id);
    DedupIds(Others(infos, me.id));
    MergedId(infos, me);
    ListAgrees(s, k, f);
    ArrivalKeeps(r, t, k, MergedInfo(infos, me));
  }

  lemma ListedKeeps(r: Room, k: Sock)
    requires Good(r) && k in r.conns
    ensures Good(Listed(r, k))
  {
    if r.conns[k].session.None? {
      SendQuiet(r, k, Error);
      QuietKeeps(r, Send(r, k, Error));
    } else {
      var f := AgentList(Dedup(Agents(r)));
      AgentsIds(r);
      DedupIds(Agents(r));
      ListAgrees(r, k, f);
    }
  }

  lemma UpdatedKeeps(r: Room, k: Sock, agent: AgentInfo)
    requires Good(r) && k in r.conns
    ensures Good(Updated(r, k, agent))
  {
    var c := r.conns[k];
    if c.agent.Some? && c.agent.value.id == agent.id {
      var info := agent.(session := SessionOf(c), connectedAt := c.agent.value.connectedAt);
      var s := r.(conns := r.conns[k := c.(agent := Some(info))]);
      DescribedAnew(r, s, k, info);
      JoinAnnounced(s, info);
    }
  }

  /** A new description under the same id. */
  lemma DescribedAnew(r: Room, s: Room, k: Sock, info: AgentInfo)
    requires Good(r) && k in r.conns && r.conns[k].agent.Some? && r.conns[k].agent.value.id == info.id
    requires s == r.(conns := r.conns[k := r.conns[k].(agent := Some(info))])
    ensures Good(s) && info.id in AllIds(s)
    ensures forall j :: j in s.conns && Informed(s.conns[j]) ==> AgreesWith(s.conns[j], LiveIds(s) - {info.id}, AllIds(s))
  {
    assert Quiet(r, s);
    QuietKeeps(r, s);
    assert s.conns[k].agent.value.id == info.id;
  }

  // --- departures -----------------------------------------------------------------------------

  lemma CloseKeeps(r: Room, k: Sock)
    requires Good(r) && k in r.conns
    ensures Good(Close(r, k))
  {
    var s := Close(r, k);
    assert AllIds(s) == AllIds(r) by {
      forall j | j in r.conns ensures s.conns[j].agent == r.conns[j].agent {}
    }
    assert LiveIds(s) <= LiveIds(r);
  }

  /** Ids that stay: those of the other sockets. */
  function IdsBut(r: Room, k: Sock): set<string> {
    set j | j in r.conns && j != k && r.conns[j].agent.Some? :: r.conns[j].agent.value.id
  }

  function LiveIdsBut(r: Room, k: Sock): set<string> {
    set j | j in r.conns && j != k && r.conns[j].agent.Some? && !r.conns[j].closing :: r.conns[j].agent.value.id
  }

  lemma BelowAll(r: Room, k: Sock)
    requires k in r.conns
    ensures LiveIds(r) <= AllIds(r) && LiveIdsBut(r, k) <= IdsBut(r, k) <= AllIds(r)
    ensures LiveIdsBut(r, k) <= LiveIds(r) <= LiveIdsBut(r, k) + Own(r.conns[k]) && AllIds(r) == IdsBut(r, k) + Own(r.conns[k])
  {}

  /** Whether closing `k` is announced, and to one socket what it is. */
  ghost function LeaveHeard(r: Room, k: Sock, c: Conn): Conn
    requires k in r.conns
  {
    var agent := r.conns[k].agent;
    if agent.Some? && !HeldElsewhere(r, k, agent.value.id) then Announced(c, AgentLeft(agent.value.id), agent.value.id) else c
  }

  lemma DisconnectShape(r: Room, k: Sock)
    requires k in r.conns
    ensures var s := Disconnect(r, k);
            s.conns.Keys == r.conns.Keys && s.order == r.order && s.serverToken == r.serverToken &&
            s.pending == Dropped(r.pending, r.conns[k].session) &&
            forall j :: j in r.conns ==> s.conns[j] == LeaveHeard(r, k, r.conns[j]) && SameSeat(r.conns[j], s.conns[j])
  {
    var c := r.conns[k];
    if c.agent.Some? { AnnounceReaches(r, AgentLeft(c.agent.value.id), c.agent.value.id); }
  }

  /** Everything but the frames. */
  predicate SameSeat(c: Conn, d: Conn) {
    d.(wire := c.wire) == c
  }

  /** A departure is announced, so that everybody else agrees on the sockets that remain. */
  lemma DisconnectAgrees(r: Room, k: Sock, j: Sock)
    requires Good(r) && k in r.conns && j in r.conns && j != k
    ensures var d := LeaveHeard(r, k, r.conns[j]);
            (HasList(r.conns[j].wire) ==> HasList(d.wire)) &&
            (Informed(d) ==> AgreesWith(d, LiveIdsBut(r, k), IdsBut(r, k)))
  {
    var agent := r.conns[k].agent;
    BelowAll(r, k);
    if agent.Some? {
      var id := agent.value.id;
      if !HeldElsewhere(r, k, id) {
        LeaveKeeps(r.conns[j], id, LiveIds(r), AllIds(r), LiveIdsBut(r, k), IdsBut(r, k));
      }
    }
  }

  lemma CloseAskedKeeps(r: Room, k: Sock)
    requires Good(r) && k in r.conns
    ensures Good(Close(Disconnect(r, k), k))
  {
    var s := Disconnect(r, k);
    var t := Close(s, k);
    DisconnectShape(r, k);
    BelowAll(r, k);
    LeavingIds(r, s, t, k);
    forall j | j in t.conns && j != k
      ensures Informed(t.conns[j]) ==> AgreesWith(t.conns[j], LiveIds(t), AllIds(t))
      ensures t.conns[j].agent.Some? && !t.conns[j].closing ==> HasList(t.conns[j].wire)
    {
      DisconnectAgrees(r, k, j);
    }
  }

  lemma LeavingIds(r: Room, s: Room, t: Room, k: Sock)
    requires k in r.conns && s.conns.Keys == r.conns.Keys && (forall j :: j in r.conns ==> SameSeat(r.conns[j], s.conns[j]))
    requires t == Close(s, k)
    ensures AllIds(t) == AllIds(r) && LiveIds(t) == LiveIdsBut(r, k)
  {
    forall j | j in r.conns ensures t.conns[j].agent == r.conns[j].agent && (j != k ==> t.conns[j].closing == r.conns[j].closing) {
      assert SameSeat(r.conns[j], s.conns[j]);
    }
  }

  predicate OnceOnly(order: seq<Sock>) {
    forall i, j :: 0 <= i < j < |order| ==> order[i] != order[j]
  }

  lemma {:induction false} UnlistedSeats(order: seq<Sock>, k: Sock)
    requires OnceOnly(order)
    ensures OnceOnly(Unlisted(order, k))
    ensures forall j :: j in Unlisted(order, k) <==> j in order && j != k
  {
    if order != [] {
      var rest := order[1..];
      assert order == [order[0]] + rest;
      assert OnceOnly(rest) by {
        forall i, j | 0 <= i < j < |rest| ensures rest[i] != rest[j] { assert order[i + 1] != order[j + 1]; }
      }
      assert order[0] !in rest;
      if order[0] != k { UnlistedSeats(rest, k); }
    }
  }

  /** The socket is gone: those who remain agree on those who remain. */
  lemma GoneKeeps(r: Room, k: Sock)
    requires Good(r) && k in r.conns
    ensures Good(Remove(Disconnect(r, k), k))
  {
    DisconnectShape(r, k);
    UnlistedSeats(r.order, k);
    RestAgrees(r, Disconnect(r, k), Remove(Disconnect(r, k), k), k);
  }

  /** Once `k` is gone, or holds nothing and is on its way out, the rest agree on the rest. */
  lemma RestAgrees(r: Room, s: Room, t: Room, k: Sock)
    requires Good(r) && k in r.conns && s.conns.Keys == r.conns.Keys
    requires forall j :: j in r.conns ==> s.conns[j] == LeaveHeard(r, k, r.conns[j]) && SameSeat(r.conns[j], s.conns[j])
    requires t.conns.Keys <= r.conns.Keys && forall j :: j in r.conns && j != k ==> j in t.conns && t.conns[j] == s.conns[j]
    requires k in t.conns ==> t.conns[k].agent.None? && t.conns[k].closing
    ensures Roster(t) && Briefed(t)
  {
    forall j | j in t.conns && j != k
      ensures Informed(t.conns[j]) ==> AgreesWith(t.conns[j], LiveIds(t), AllIds(t))
      ensures t.conns[j].agent.Some? && !t.conns[j].closing ==> HasList(t.conns[j].wire)
    {
      DisconnectAgrees(r, k, j);
    }
  }

  lemma ReapOneKeeps(r: Room, k: Sock)
    requires Good(r) && k in r.conns
    ensures Good(ReapOne(r, k)) && ReapOne(r, k).conns.Keys == r.conns.Keys
  {
    DisconnectShape(r, k);
    RestAgrees(r, Disconnect(r, k), ReapOne(r, k), k);
  }

  lemma {:induction false} ReapAllKeeps(r: Room, stale: seq<Sock>)
    requires Good(r) && forall k :: k in stale ==> k in r.conns
    ensures Good(ReapAll(r, stale))
    decreases |stale|
  {
    if stale != [] {
      ReapOneKeeps(r, stale[0]);
      ReapAllKeeps(ReapOne(r, stale[0]), stale[1..]);
    }
  }

  // --- every run --------------------------------------------------------------------------------

  /** What clients owe each other for the roster's sake: nobody authenticates an identity away. */
  ghost predicate Steady(r: Room, h: Happening) {
    match h
    case Received(k, AuthMsg(token, agent), _, _) => k in r.conns && (Admits(r, k, token) ==> Harmless(r, k, agent))
    case _ => true
  }

  lemma TouchKeeps(r: Room, k: Sock, now: nat, agent: Option<AgentInfo>)
    requires Good(r) && k in r.conns
    ensures Good(Touch(r, k, now)) && (Harmless(r, k, agent) ==> Harmless(Touch(r, k, now), k, agent))
  {
    var t := Touch(r, k, now);
    assert Quiet(r, t);
    QuietKeeps(r, t);
    forall id | HeldElsewhere(r, k, id) ensures HeldElsewhere(t, k, id) {
      var j :| j in r.conns && j != k && r.conns[j].agent.Some? && r.conns[j].agent.value.id == id;
      assert t.conns[j] == r.conns[j];
    }
  }

  lemma HandledKeeps(r: Room, k: Sock, msg: Msg, drawn: string, now: nat)
    requires Good(r) && k in r.conns
    requires msg.AuthMsg? && Admits(r, k, msg.token) ==> Harmless(r, k, msg.agent)
    ensures Good(Handled(r, k, msg, drawn, now))
  {
    match msg {
      case AuthMsg(token, agent) => AuthKeeps(r, k, token, agent, drawn, now);
      case ListMsg => ListedKeeps(r, k);
      case CommandMsg(request, target, payload) => CommandedQuiet(r, k, request, target, payload);
        QuietKeeps(r, Commanded(r, k, request, target, payload));
      case ResultMsg(request, body) => RepliedQuiet(r, k, request, body);
        QuietKeeps(r, Replied(r, k, request, body));
      case NotifyMsg(event) => ToMcpQuiet(r, Peers.Event(NameOf(r.conns[k]), event));
        QuietKeeps(r, ToMcp(r, Peers.Event(NameOf(r.conns[k]), event)));
      case PingMsg => SendQuiet(r, k, Pong);
        QuietKeeps(r, Send(r, k, Pong));
      case CloseMsg => CloseAskedKeeps(r, k);
      case OfferMsg(toSession, signal) => OfferedQuiet(r, k, toSession, signal);
        QuietKeeps(r, Offered(r, k, toSession, signal));
      case AnswerMsg(signal) => ToMcpQuiet(r, Udp(SessionOf(r.conns[k]), signal));
        QuietKeeps(r, ToMcp(r, Udp(SessionOf(r.conns[k]), signal)));
      case UpdateMsg(agent) => UpdatedKeeps(r, k, agent);
      case BadMsg => SendQuiet(r, k, Error);
        QuietKeeps(r, Send(r, k, Error));
    }
  }

  lemma CommandedQuiet(r: Room, k: Sock, request: string, target: Target, payload: string)
    requires Seated(r) && k in r.conns
    ensures Quiet(r, Commanded(r, k, request, target, payload))
  {
    var cands := Cands(r.order, r.conns);
    var targets := Picks(cands, target);
    if r.conns[k].session.None? {
      SendQuiet(r, k, Error);
    } else if targets == [] {
      SendQuiet(r, k, NoTarget(request));
    } else {
      PicksAreCands(cands, target);
      CandsSeated(r.order, r.conns);
      var session := r.conns[k].session.value;
      var s := r.(pending := r.pending[request := session]);
      assert Quiet(r, s);
      ToTargetsQuiet(s, targets, Peers.Command(request, session, payload));
    }
  }

  lemma RepliedQuiet(r: Room, k: Sock, request: string, body: string)
    requires Seated(r) && k in r.conns
    ensures Quiet(r, Replied(r, k, request, body))
  {
    var f := Reply(request, NameOf(r.conns[k]), body);
    ToMcpQuiet(r, f);
    if request in r.pending {
      FoundSession(r.order, r.conns, r.pending[request]);
      var origin := FindSession(r.order, r.conns, r.pending[request]);
      if origin.Some? { SendQuiet(r, origin.value, f); }
    }
  }

  lemma OfferedQuiet(r: Room, k: Sock, toSession: string, signal: string)
    requires Seated(r) && k in r.conns
    ensures Quiet(r, Offered(r, k, toSession, signal))
  {
    FoundSession(r.order, r.conns, toSession);
    var to := FindSession(r.order, r.conns, toSession);
    if to.Some? { SendQuiet(r, to.value, Udp(SessionOf(r.conns[k]), signal)); }
  }

  /** Every event keeps the roster. */
  lemma NextKeeps(r: Room, h: Happening)
    requires Good(r) && Possible(r, h) && Steady(r, h)
    ensures Good(Next(r, h))
  {
    match h {
      case Accepted(k, token, ip, now) => AcceptedKeeps(r, h);
      case Received(k, msg, drawn, now) =>
        TouchKeeps(r, k, now, if msg.AuthMsg? then msg.agent else None);
        HandledKeeps(Touch(r, k, now), k, msg, drawn, now);
      case Closed(k) => GoneKeeps(r, k);
      case Broken(k) => CloseAskedKeeps(r, k);
      case Alarm(now) =>
        StaleSeated(r.order, r.conns, now);
        ReapAllKeeps(r, Stale(r.order, r.conns, now));
      case Hibernated => assert Quiet(r, Next(r, h));
        QuietKeeps(r, Next(r, h));
    }
  }

  lemma AcceptedKeeps(r: Room, h: Happening)
    requires Good(r) && h.Accepted? && h.sock !in r.conns
    ensures Good(Next(r, h))
  {
    var s := Next(r, h);
    assert s.conns[h.sock].wire == [];
    forall k | k in r.conns ensures s.conns[k] == r.conns[k] {}
    assert AllIds(s) == AllIds(r) && LiveIds(s) == LiveIds(r);
    forall k | k in s.conns && Informed(s.conns[k]) ensures AgreesWith(s.conns[k], LiveIds(s), AllIds(s)) {
      assert k in r.conns;
    }
  }
}
