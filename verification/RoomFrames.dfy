/**
 What every event of a room does, socket by socket: which frames each one gets, and what
 becomes of its seat. `RoomState` says it by sends and broadcasts over the whole room.
 */
module RoomFrames {
  import opened Wrappers
  import opened Routing
  import opened Peers
  import opened RoomState
  import opened RoomRoster

  /** An open socket got exactly these frames; one on its way out gets none. */
  predicate Gets(c: Conn, d: Conn, frames: seq<Frame>) {
    d == if c.closing then c else c.(wire := c.wire + frames)
  }

  /** Same sockets, same requests in flight. */
  ghost predicate SameRoom(r: Room, s: Room) {
    s.order == r.order && s.conns.Keys == r.conns.Keys && s.pending == r.pending && s.serverToken == r.serverToken
  }

  /** One frame for one socket, and nothing else. */
  ghost predicate ToOne(r: Room, s: Room, k: Sock, f: Frame) {
    SameRoom(r, s) && forall j :: j in r.conns ==> Gets(r.conns[j], s.conns[j], if j == k then [f] else [])
  }

  /** One frame for every socket that has no identity, and nothing else. */
  ghost predicate ToObservers(r: Room, s: Room, f: Frame) {
    SameRoom(r, s) && forall j :: j in r.conns ==> Gets(r.conns[j], s.conns[j], if r.conns[j].agent.None? then [f] else [])
  }

  /** Who hears about a machine: all but its own sockets; of a machine with no name, all. */
  predicate Hears(c: Conn, id: string) {
    c.agent.None? || id == "" || c.agent.value.id != id
  }

  /** One frame about a machine, and nothing else. */
  ghost predicate About(r: Room, s: Room, id: string, f: Frame) {
    SameRoom(r, s) && forall j :: j in r.conns ==> Gets(r.conns[j], s.conns[j], if Hears(r.conns[j], id) then [f] else [])
  }

  lemma SendIsToOne(r: Room, k: Sock, f: Frame)
    requires k in r.conns
    ensures ToOne(r, Send(r, k, f), k, f)
  {
    forall j | j in r.conns ensures Gets(r.conns[j], Send(r, k, f).conns[j], if j == k then [f] else []) {
      assert r.conns[j].wire + [] == r.conns[j].wire;
    }
  }

  lemma ToMcpIsToObservers(r: Room, f: Frame)
    ensures ToObservers(r, ToMcp(r, f), f)
  {
    forall j | j in r.conns ensures Gets(r.conns[j], ToMcp(r, f).conns[j], if r.conns[j].agent.None? then [f] else []) {
      assert r.conns[j].wire + [] == r.conns[j].wire;
    }
  }

  lemma AnnounceIsAbout(r: Room, id: string, f: Frame)
    ensures About(r, Announce(r, f, id), id, f)
  {
    AnnounceReaches(r, f, id);
    forall j | j in r.conns ensures Gets(r.conns[j], Announce(r, f, id).conns[j], if Hears(r.conns[j], id) then [f] else []) {
      assert r.conns[j].wire + [] == r.conns[j].wire;
    }
  }

  // --- frames that are passed on ------------------------------------------------------------

  /** A ping is answered; a frame that cannot be read is refused. */
  lemma PingIsAnswered(r: Room, k: Sock, drawn: string, now: nat)
    requires Seated(r) && k in r.conns
    ensures ToOne(r, Handled(r, k, PingMsg, drawn, now), k, Pong) && ToOne(r, Handled(r, k, BadMsg, drawn, now), k, Error)
  {
    SendIsToOne(r, k, Pong);
    SendIsToOne(r, k, Error);
  }

  /** Events and answers to offers go to the observers, under the sender's id or session. */
  lemma ObserversHear(r: Room, k: Sock, event: string, signal: string, drawn: string, now: nat)
    requires Seated(r) && k in r.conns
    ensures var c := r.conns[k];
            ToObservers(r, Handled(r, k, NotifyMsg(event), drawn, now),
                        Peers.Event(if c.agent.Some? then c.agent.value.id else "unknown", event)) &&
            ToObservers(r, Handled(r, k, AnswerMsg(signal), drawn, now), Udp(if c.session.Some? then c.session.value else "", signal))
  {
    ToMcpIsToObservers(r, Peers.Event(NameOf(r.conns[k]), event));
    ToMcpIsToObservers(r, Udp(SessionOf(r.conns[k]), signal));
  }

  ghost predicate HasSession(r: Room, j: Sock, session: string) {
    j in r.conns && r.conns[j].session == Some(session)
  }

  /** An offer goes to a socket of the session it is for, under the sender's session, or to nobody. */
  lemma OfferFindsItsSession(r: Room, k: Sock, toSession: string, signal: string, drawn: string, now: nat)
    requires Seated(r) && k in r.conns
    ensures var s, c := Handled(r, k, OfferMsg(toSession, signal), drawn, now), r.conns[k];
            if exists j :: HasSession(r, j, toSession)
            then exists j :: HasSession(r, j, toSession) && ToOne(r, s, j, Udp(if c.session.Some? then c.session.value else "", signal))
            else s == r
  {
    var to := FindSession(r.order, r.conns, toSession);
    FoundSession(r.order, r.conns, toSession);
    if to.Some? {
      assert HasSession(r, to.value, toSession);
      SendIsToOne(r, to.value, Udp(SessionOf(r.conns[k]), signal));
    }
  }

  /** A result goes to a socket of the session that waits for it, under the sender's id; if there
      is none any more, to the observers. */
  lemma ResultFindsItsSession(r: Room, k: Sock, request: string, body: string, drawn: string, now: nat)
    requires Seated(r) && k in r.conns
    ensures var s, c := Handled(r, k, ResultMsg(request, body), drawn, now), r.conns[k];
            var f := Reply(request, if c.agent.Some? then c.agent.value.id else "unknown", body);
            if request in r.pending && r.pending[request] != "" && exists j :: HasSession(r, j, r.pending[request])
            then exists j :: HasSession(r, j, r.pending[request]) && ToOne(r, s, j, f)
            else ToObservers(r, s, f)
  {
    var f := Reply(request, NameOf(r.conns[k]), body);
    ToMcpIsToObservers(r, f);
    if request in r.pending && r.pending[request] != "" {
      var to := FindSession(r.order, r.conns, r.pending[request]);
      FoundSession(r.order, r.conns, r.pending[request]);
      if to.Some? {
        assert HasSession(r, to.value, r.pending[request]);
        SendIsToOne(r, to.value, f);
      }
    }
  }

  // --- who is listed -------------------------------------------------------------------------

  /** `j` is listed before `k`. */
  ghost predicate Before(order: seq<Sock>, j: Sock, k: Sock) {
    exists a, b :: 0 <= a < b < |order| && order[a] == j && order[b] == k
  }

  /** The identified sockets come in the order of the room, so each once. */
  lemma {:induction false} CandsInOrder(order: seq<Sock>, conns: map<Sock, Conn>, i: nat, j: nat)
    requires (forall k :: k in order ==> k in conns) && i < j < |Cands(order, conns)|
    ensures Before(order, Cands(order, conns)[i].item, Cands(order, conns)[j].item)
  {
    var init, last := order[..|order| - 1], order[|order| - 1];
    var before, cands := Cands(init, conns), Cands(order, conns);
    assert cands[i] == before[i];
    if j < |before| {
      CandsInOrder(init, conns, i, j);
      var a, b :| 0 <= a < b < |init| && init[a] == before[i].item && init[b] == before[j].item;
      assert order[a] == init[a] && order[b] == init[b];
    } else {
      CandsSeated(init, conns);
      assert before[i] in before;
      var a :| 0 <= a < |init| && init[a] == before[i].item;
      assert order[a] == init[a] && order[|init|] == last && cands[j].item == last;
    }
  }

  /** What is left of a list without one machine: the other machines' sockets as they are. */
  lemma {:induction false} OthersAreTheRest(infos: seq<AgentInfo>, id: string, other: string)
    ensures Sockets(Others(infos, id), other) == if other == id then [] else Sockets(infos, other)
  {
    if infos != [] {
      var init, last := infos[..|infos| - 1], infos[|infos| - 1];
      OthersAreTheRest(init, id, other);
      assert Others(init, id) + [] == Others(init, id) && Sockets(init, other) + [] == Sockets(init, other);
      assert last.id != id ==> (Others(init, id) + [last])[..|Others(init, id)|] == Others(init, id);
    }
  }

  /** A list is answered with one line per machine, to an authenticated socket only. */
  lemma ListIsAnswered(r: Room, k: Sock, drawn: string, now: nat)
    requires Seated(r) && k in r.conns
    ensures var s := Handled(r, k, ListMsg, drawn, now);
            if r.conns[k].session.None? then ToOne(r, s, k, Error)
            else exists list :: Listing(list, Agents(r)) && ToOne(r, s, k, AgentList(list))
  {
    SendIsToOne(r, k, Error);
    SendIsToOne(r, k, AgentList(Dedup(Agents(r))));
    DedupLists(Agents(r));
  }

  // --- seats ------------------------------------------------------------------------------------

  /** A new socket has no session and no identity yet, and counts as heard from. */
  lemma ArrivalTakesSeat(r: Room, k: Sock, token: string, ip: string, now: nat)
    requires Seated(r) && k !in r.conns
    ensures Next(r, Accepted(k, token, ip, now)) ==
            Room(r.order + [k], r.conns[k := Conn(None, None, token, ip, Some(now), false, [])], r.pending, r.serverToken)
  {}

  /** A frame counts as a sign of life before it is looked at. */
  lemma FrameIsASign(r: Room, k: Sock, msg: Msg, drawn: string, now: nat)
    requires Seated(r) && Possible(r, Received(k, msg, drawn, now))
    ensures var t := r.(conns := r.conns[k := r.conns[k].(lastSeen := Some(now))]);
            Seated(t) && Next(r, Received(k, msg, drawn, now)) == Handled(t, k, msg, drawn, now)
  {}

  /** The new description of an update: the socket keeps its session and seniority. */
  function Redescribed(c: Conn, agent: AgentInfo): AgentInfo
    requires c.agent.Some?
  {
    AgentInfo(agent.id, agent.accepts, agent.autonomous, c.agent.value.connectedAt, agent.tags, agent.os, agent.family,
              if c.session.Some? then c.session.value else "", agent.connections)
  }

  /** An update under the socket's own id describes it anew, and others hear of that description;
      any other update does nothing. */
  lemma UpdateIsAnnounced(r: Room, k: Sock, agent: AgentInfo, drawn: string, now: nat)
    requires Seated(r) && k in r.conns
    ensures var s, c := Handled(r, k, UpdateMsg(agent), drawn, now), r.conns[k];
            if c.agent.Some? && c.agent.value.id == agent.id
            then About(r.(conns := r.conns[k := c.(agent := Some(Redescribed(c, agent)))]), s, agent.id, AgentJoined(Redescribed(c, agent)))
            else s == r
  {
    var c := r.conns[k];
    if c.agent.Some? && c.agent.value.id == agent.id {
      var info := Redescribed(c, agent);
      AnnounceIsAbout(r.(conns := r.conns[k := c.(agent := Some(info))]), agent.id, AgentJoined(info));
    }
  }

  /** A socket takes up its session, and its identity under that session if it has one. */
  ghost predicate Enters(r: Room, e: Room, k: Sock, agent: Option<AgentInfo>, session: string, now: nat)
    requires k in r.conns
  {
    var c := r.conns[k];
    var told := [AuthOk(session)] + if c.ip != "" then [YourEndpoint(c.ip)] else [];
    SameRoom(r, e) && (forall j :: j in r.conns && j != k ==> e.conns[j] == r.conns[j]) &&
    Gets(c.(session := Some(session), lastSeen := Some(now),
            agent := if agent.Some? then Some(agent.value.(session := session)) else None), e.conns[k], told)
  }

  lemma EnterMeans(r: Room, k: Sock, agent: Option<AgentInfo>, session: string, now: nat)
    requires k in r.conns
    ensures Enters(r, Enter(r, k, agent, session, now), k, agent, session, now)
  {
    var c := r.conns[k];
    assert c.wire + [AuthOk(session)] + [YourEndpoint(c.ip)] == c.wire + ([AuthOk(session)] + [YourEndpoint(c.ip)]);
    assert c.wire + ([AuthOk(session)] + []) == c.wire + [AuthOk(session)];
  }

  /** The tokens match: the server's if it has one, and the one the socket came with. */
  predicate TokensMatch(r: Room, k: Sock, token: string)
    requires k in r.conns
  {
    token == r.conns[k].token && r.serverToken in ["", token]
  }

  /** An authentication with the wrong token is refused, and the socket asked to close. */
  lemma AuthIsRefused(r: Room, k: Sock, token: string, agent: Option<AgentInfo>, session: string, now: nat)
    requires Seated(r) && k in r.conns && !TokensMatch(r, k, token)
    ensures exists t :: ToOne(r, t, k, AuthFailed) &&
                        Handled(r, k, AuthMsg(token, agent), session, now) == t.(conns := t.conns[k := t.conns[k].(closing := true)])
  {
    SendIsToOne(r, k, AuthFailed);
  }

  /** With the right ones it is answered by the session and the endpoint, in `e`; then an identity
      is introduced. */
  lemma AuthIsAnswered(r: Room, k: Sock, token: string, agent: Option<AgentInfo>, session: string, now: nat) returns (e: Room)
    requires Seated(r) && k in r.conns && TokensMatch(r, k, token)
    ensures Seated(e) && Enters(r, e, k, agent, session, now)
    ensures var s := Handled(r, k, AuthMsg(token, agent), session, now);
            if agent.None? then s == e else IsIntroduced(e, s, k, agent.value.id)
  {
    e := Enter(r, k, agent, session, now);
    EnterMeans(r, k, agent, session, now);
    AuthAdmits(r, k, token, agent, session, now);
    if agent.Some? { IntroduceMeans(e, k, agent.value.(session := session)); }
  }

  lemma AuthAdmits(r: Room, k: Sock, token: string, agent: Option<AgentInfo>, session: string, now: nat)
    requires Seated(r) && k in r.conns && TokensMatch(r, k, token)
    ensures var e := Enter(r, k, agent, session, now);
            Seated(e) && Handled(r, k, AuthMsg(token, agent), session, now) ==
                         if agent.None? then e else Introduce(e, k, agent.value.(session := session))
  {}

  /** The newcomer is sent the lines of all other machines; all others then hear the line of its own. */
  ghost predicate Introduces(e: Room, s: Room, k: Sock, id: string, list: seq<AgentInfo>, line: AgentInfo)
    requires Seated(e) && k in e.conns
  {
    Listing(list, Others(Agents(e), id)) && line.id == id && Represents(line, Sockets(Agents(e), id)) &&
    exists t :: ToOne(e, t, k, AgentList(list)) && About(t, s, id, AgentJoined(line))
  }

  ghost predicate IsIntroduced(e: Room, s: Room, k: Sock, id: string)
    requires Seated(e) && k in e.conns
  {
    exists list, line :: Introduces(e, s, k, id, list, line)
  }

  lemma IntroduceMeans(e: Room, k: Sock, me: AgentInfo)
    requires Seated(e) && k in e.conns && e.conns[k].agent == Some(me)
    ensures IsIntroduced(e, Introduce(e, k, me), k, me.id)
  {
    var infos := Agents(e);
    var list, line := Dedup(Others(infos, me.id)), MergedInfo(infos, me);
    var t := Send(e, k, AgentList(list));
    DedupLists(Others(infos, me.id));
    OwnLine(e, k, me);
    SendIsToOne(e, k, AgentList(list));
    AnnounceIsAbout(t, me.id, AgentJoined(line));
    assert Introduces(e, Introduce(e, k, me), k, me.id, list, line);
  }

  /** The line about a machine that is there is the one it is listed with. */
  lemma OwnLine(e: Room, k: Sock, me: AgentInfo)
    requires Seated(e) && k in e.conns && e.conns[k].agent == Some(me)
    ensures MergedInfo(Agents(e), me).id == me.id && Represents(MergedInfo(Agents(e), me), Sockets(Agents(e), me.id))
  {
    var infos, cands := Agents(e), Cands(e.order, e.conns);
    var mine := Sockets(infos, me.id);
    CandsSeated(e.order, e.conns);
    assert Candidate(me, k) in cands;
    assert HasInfo(cands, me);
    SocketsAreCandidates(cands, me.id);
    MergedId(infos, me);
    assert me in mine;
    DedupLists(mine);
    SocketsTwice(infos, me.id);
    DedupIds(mine);
    assert me.id in Ids(mine) by { var i :| 0 <= i < |mine| && mine[i] == me; assert mine[i].id == me.id; }
  }

  lemma {:induction false} SocketsTwice(infos: seq<AgentInfo>, id: string)
    ensures Sockets(Sockets(infos, id), id) == Sockets(infos, id)
  {
    if infos != [] {
      var init, last := infos[..|infos| - 1], infos[|infos| - 1];
      SocketsTwice(init, id);
      assert Sockets(init, id) + [] == Sockets(init, id);
      if last.id == id { assert (Sockets(init, id) + [last])[..|Sockets(init, id)|] == Sockets(init, id); }
    }
  }

  // --- departures ------------------------------------------------------------------------------

  /** No other socket of the machine is there. */
  ghost predicate LastOfItsMachine(r: Room, k: Sock) {
    k in r.conns && r.conns[k].agent.Some? &&
    forall j :: j in r.conns && j != k && r.conns[j].agent.Some? ==> r.conns[j].agent.value.id != r.conns[k].agent.value.id
  }

  /** A departure is announced if it is the last of its machine; requests of its session are dropped. */
  ghost predicate Leaves(r: Room, s: Room, k: Sock)
    requires k in r.conns
  {
    var c := r.conns[k];
    s.pending == (map rid | rid in r.pending && c.session != Some(r.pending[rid]) :: r.pending[rid]) &&
    if LastOfItsMachine(r, k) then About(r, s.(pending := r.pending), c.agent.value.id, AgentLeft(c.agent.value.id))
    else s.(pending := r.pending) == r
  }

  lemma DisconnectMeans(r: Room, k: Sock)
    requires k in r.conns
    ensures Leaves(r, Disconnect(r, k), k)
  {
    var c := r.conns[k];
    if c.agent.Some? { AnnounceIsAbout(r, c.agent.value.id, AgentLeft(c.agent.value.id)); }
  }

  /** A farewell, and a socket reported broken: the departure, and the socket takes nothing more. */
  lemma FarewellLeaves(r: Room, k: Sock, drawn: string, now: nat)
    requires Seated(r) && k in r.conns
    ensures exists t :: Leaves(r, t, k) && k in t.conns &&
                        Handled(r, k, CloseMsg, drawn, now) == Next(r, Broken(k)) == t.(conns := t.conns[k := t.conns[k].(closing := true)])
  {
    DisconnectMeans(r, k);
    DisconnectShape(r, k);
    var t := Disconnect(r, k);
    assert Leaves(r, t, k) && k in t.conns;
  }

  /** A socket reported closed: the departure, and then it is listed no more, the others as before. */
  lemma ClosedIsForgotten(r: Room, k: Sock)
    requires Seated(r) && k in r.conns
    ensures exists t, i :: Leaves(r, t, k) && 0 <= i < |r.order| && r.order[i] == k &&
                           Next(r, Closed(k)) == t.(order := r.order[..i] + r.order[i + 1..], conns := t.conns - {k})
  {
    DisconnectMeans(r, k);
    DisconnectShape(r, k);
    var i := UnlistedAt(r.order, k);
    var t := Disconnect(r, k);
    assert Leaves(r, t, k) && r.order[i] == k;
  }

  lemma {:induction false} UnlistedAt(order: seq<Sock>, k: Sock) returns (i: nat)
    requires k in order
    ensures i < |order| && order[i] == k && Unlisted(order, k) == order[..i] + order[i + 1..]
  {
    if order[0] == k {
      i := 0;
    } else {
      var n := UnlistedAt(order[1..], k);
      i := n + 1;
      assert order[..i] == [order[0]] + order[1..][..n] && order[i + 1..] == order[1..][n + 1..];
    }
  }

  /** Sleep loses the requests in flight and nothing else. */
  lemma SleepForgetsRequests(r: Room)
    requires Seated(r)
    ensures Next(r, Hibernated) == Room(r.order, r.conns, map[], r.serverToken)
  {}
}
