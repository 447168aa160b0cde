/**
 The room as its source writes it (class `Room` in worker/src/room.ts): loops over the
 sockets, attachments patched in place, a map of requests in flight. Each method is
 proved to be the step of `RoomState` that carries its name.
 */
module RoomObject {
  import opened Wrappers
  import opened Routing
  import opened Peers
  import opened RoomState
  import opened RoomRoster

  /** The sockets of `done` that `gets` picks have the frame, the others do not. */
  ghost predicate HeardBy(before: map<Sock, Conn>, after: map<Sock, Conn>, done: seq<Sock>, gets: Conn -> bool, f: Frame) {
    after.Keys == before.Keys &&
    forall k :: k in before ==> after[k] == if k in done && gets(before[k]) then Heard(before[k], f) else before[k]
  }

  lemma HeardStep(before: map<Sock, Conn>, after: map<Sock, Conn>, order: seq<Sock>, i: nat, gets: Conn -> bool, f: Frame)
    requires OnceOnly(order) && i < |order| && order[i] in before && HeardBy(before, after, order[..i], gets, f)
    ensures after[order[i]] == before[order[i]]
    ensures var next := if gets(before[order[i]]) then after[order[i] := Heard(before[order[i]], f)] else after;
            HeardBy(before, next, order[..i + 1], gets, f)
  {
    OneFurther(order, i);
  }

  lemma McpHeard(r: Room, after: map<Sock, Conn>, gets: Conn -> bool, f: Frame)
    requires Seated(r) && HeardBy(r.conns, after, r.order, gets, f) && forall c :: gets(c) == IsMcp(c)
    ensures r.(conns := after) == ToMcp(r, f)
  {
    assert after == ToMcp(r, f).conns;
  }

  lemma AgentsHeard(r: Room, after: map<Sock, Conn>, gets: Conn -> bool, f: Frame, except: string)
    requires Seated(r) && HeardBy(r.conns, after, r.order, gets, f) && forall c :: gets(c) == IsAgentBut(c, except)
    ensures r.(conns := after) == ToAgents(r, f, except)
  {
    assert after == ToAgents(r, f, except).conns;
  }

  lemma OneFurther(order: seq<Sock>, i: nat)
    requires i < |order| && OnceOnly(order)
    ensures order[i] !in order[..i] && forall k :: k in order[..i + 1] <==> k in order[..i] || k == order[i]
  {
    assert order[..i + 1] == order[..i] + [order[i]];
  }

  class RelayRoom {
    var order: seq<Sock>
    var conns: map<Sock, Conn>
    var pending: map<string, string>
    const serverToken: string

    ghost function Now(): Room
      reads this
    {
      Room(order, conns, pending, serverToken)
    }

    ghost predicate Valid()
      reads this
    {
      Seated(Now())
    }

    constructor (token: string)
      ensures Valid() && Now() == Room([], map[], map[], token)
    {
      order, conns, pending, serverToken := [], map[], map[], token;
    }

    /** Sending on a socket that is closing fails, and the failure is swallowed. */
    method SendTo(k: Sock, f: Frame)
      requires k in conns
      modifies this`conns
      ensures Now() == Send(old(Now()), k, f)
    {
      conns := conns[k := Heard(conns[k], f)];
    }

    method BroadcastToMcp(f: Frame)
      requires Valid()
      modifies this`conns
      ensures Now() == ToMcp(old(Now()), f)
    {
      ghost var gets := c => IsMcp(c);
      var i := 0;
      while i < |order|
        invariant 0 <= i <= |order| && HeardBy(old(conns), conns, order[..i], gets, f)
      {
        HeardStep(old(conns), conns, order, i, gets, f);
        if IsMcp(conns[order[i]]) {
          SendTo(order[i], f);
        }
        i := i + 1;
      }
      assert order[..i] == order;
      McpHeard(old(Now()), conns, gets, f);
    }

    method BroadcastToAgents(f: Frame, except: string)
      requires Valid()
      modifies this`conns
      ensures Now() == ToAgents(old(Now()), f, except)
    {
      ghost var gets := c => IsAgentBut(c, except);
      var i := 0;
      while i < |order|
        invariant 0 <= i <= |order| && HeardBy(old(conns), conns, order[..i], gets, f)
      {
        HeardStep(old(conns), conns, order, i, gets, f);
        if IsAgentBut(conns[order[i]], except) {
          SendTo(order[i], f);
        }
        i := i + 1;
      }
      assert order[..i] == order;
      AgentsHeard(old(Now()), conns, gets, f, except);
    }

    method AnnounceToAll(f: Frame, id: string)
      requires Valid()
      modifies this`conns
      ensures Valid() && Now() == Announce(old(Now()), f, id)
    {
      BroadcastToMcp(f);
      BroadcastToAgents(f, id);
    }

    method StillPresent(k: Sock, id: string) returns (held: bool)
      requires Valid() && k in conns
      ensures held <==> HeldElsewhere(Now(), k, id)
    {
      var i := 0;
      held := false;
      while i < |order| && !held
        invariant 0 <= i <= |order| && (held ==> HeldElsewhere(Now(), k, id))
        invariant !held ==> forall j :: j in order[..i] && j != k && conns[j].agent.Some? ==> conns[j].agent.value.id != id
      {
        var j := order[i];
        held := j != k && conns[j].agent.Some? && conns[j].agent.value.id == id;
        i := i + 1;
      }
      assert !held ==> order[..i] == order;
    }

    /** Drop the requests in flight of one session, one entry at a time. */
    method DropRequests(session: string)
      modifies this`pending
      ensures pending == Dropped(old(pending), Some(session))
    {
      var todo := pending.Keys;
      while todo != {}
        invariant todo <= old(pending).Keys
        invariant pending == map rid | rid in old(pending) && (rid in todo || old(pending)[rid] != session) :: old(pending)[rid]
        decreases todo
      {
        var rid :| rid in todo;
        if pending[rid] == session {
          pending := pending - {rid};
        }
        todo := todo - {rid};
      }
    }

    method HandleDisconnect(k: Sock)
      requires Valid() && k in conns
      modifies this`conns, this`pending
      ensures Valid() && k in conns && Now() == Disconnect(old(Now()), k)
    {
      var c := conns[k];
      if c.agent.Some? {
        var id := c.agent.value.id;
        var held := StillPresent(k, id);
        if !held {
          AnnounceToAll(AgentLeft(id), id);
        }
      }
      assert k in conns;
      if c.session.Some? {
        DropRequests(c.session.value);
      } else {
        assert Dropped(pending, None) == pending;
      }
    }

    method FindSocketBySession(session: string) returns (found: Option<Sock>)
      requires Valid()
      ensures found == FindSession(order, conns, session)
    {
      var i := 0;
      found := None;
      while i < |order|
        invariant 0 <= i <= |order| && FindSession(order, conns, session) == FindSession(order[i..], conns, session)
      {
        if conns[order[i]].session == Some(session) {
          return Some(order[i]);
        }
        assert order[i..][1..] == order[i + 1..];
        i := i + 1;
      }
    }

    method RouteToOrigin(k: Sock, request: string, body: string)
      requires Valid() && k in conns
      modifies this`conns
      ensures Now() == Replied(old(Now()), k, request, body)
    {
      var f := Reply(request, NameOf(conns[k]), body);
      if request in pending && pending[request] != "" {
        var to := FindSocketBySession(pending[request]);
        FoundSession(order, conns, pending[request]);
        if to.Some? {
          SendTo(to.value, f);
          return;
        }
      }
      BroadcastToMcp(f);
    }

    method AgentInfos() returns (infos: seq<AgentInfo>)
      requires Valid()
      ensures infos == Agents(Now())
    {
      infos := Infos(Cands(order, conns));
    }

    method HandleAuth(k: Sock, token: string, agent: Option<AgentInfo>, session: string, now: nat)
      requires Valid() && k in conns
      modifies this`conns
      ensures Valid() && Now() == Auth(old(Now()), k, token, agent, session, now)
    {
      var c := conns[k];
      if (serverToken != "" && token != serverToken) || token != c.token {
        SendTo(k, AuthFailed);
        conns := conns[k := conns[k].(closing := true)];
        return;
      }
      var named := if agent.Some? then Some(agent.value.(session := session)) else None;
      conns := conns[k := c.(session := Some(session), agent := named, lastSeen := Some(now))];
      SendTo(k, AuthOk(session));
      if c.ip != "" {
        SendTo(k, YourEndpoint(c.ip));
      }
      if named.Some? {
        IntroducePeer(k, named.value);
      }
    }

    method IntroducePeer(k: Sock, me: AgentInfo)
      requires Valid() && k in conns
      modifies this`conns
      ensures Valid() && Now() == Introduce(old(Now()), k, me)
    {
      var infos := AgentInfos();
      var peers := DedupAgents(Others(infos, me.id));
      SendTo(k, AgentList(peers));
      var own := DedupAgents(Sockets(infos, me.id));
      var merged := if own == [] then me else own[0];
      AnnounceToAll(AgentJoined(merged), me.id);
    }

    method IssueCommand(k: Sock, request: string, target: Target, payload: string)
      requires Valid() && k in conns
      modifies this`conns, this`pending
      ensures Now() == Commanded(old(Now()), k, request, target, payload)
    {
      if conns[k].session.None? {
        SendTo(k, Error);
        return;
      }
      var cands := Cands(order, conns);
      var targets := SelectTargets(cands, target);
      if targets == [] {
        SendTo(k, NoTarget(request));
        return;
      }
      PicksAreCands(cands, target);
      CandsSeated(order, conns);
      var session := conns[k].session.value;
      pending := pending[request := session];
      SendToAll(targets, Peers.Command(request, session, payload));
    }

    method SendToAll(targets: seq<Candidate<Sock>>, f: Frame)
      requires forall c :: c in targets ==> c.item in conns
      modifies this`conns
      ensures Now() == ToTargets(old(Now()), targets, f)
    {
      var i := 0;
      while i < |targets|
        invariant 0 <= i <= |targets| && conns.Keys == old(conns).Keys
        invariant ToTargets(Now(), targets[i..], f) == ToTargets(old(Now()), targets, f)
      {
        assert targets[i..][1..] == targets[i + 1..];
        SendTo(targets[i].item, f);
        i := i + 1;
      }
    }

    method ListAgents(k: Sock)
      requires Valid() && k in conns
      modifies this`conns
      ensures Now() == Listed(old(Now()), k)
    {
      if conns[k].session.None? {
        SendTo(k, Error);
      } else {
        var infos := AgentInfos();
        var list := DedupAgents(infos);
        SendTo(k, AgentList(list));
      }
    }

    method UpdateAgent(k: Sock, agent: AgentInfo)
      requires Valid() && k in conns
      modifies this`conns
      ensures Now() == Updated(old(Now()), k, agent)
    {
      var c := conns[k];
      if c.agent.None? || c.agent.value.id != agent.id {
        return;
      }
      var info := agent.(session := SessionOf(c), connectedAt := c.agent.value.connectedAt);
      conns := conns[k := c.(agent := Some(info))];
      AnnounceToAll(AgentJoined(info), agent.id);
    }

    method ForwardOffer(k: Sock, toSession: string, signal: string)
      requires Valid() && k in conns
      modifies this`conns
      ensures Now() == Offered(old(Now()), k, toSession, signal)
    {
      var to := FindSocketBySession(toSession);
      FoundSession(order, conns, toSession);
      if to.Some? {
        SendTo(to.value, Udp(SessionOf(conns[k]), signal));
      }
    }

    method HandleMessage(k: Sock, msg: Msg, drawn: string, now: nat)
      requires Valid() && k in conns
      modifies this`conns, this`pending
      ensures Now() == Handled(old(Now()), k, msg, drawn, now)
    {
      match msg {
        case AuthMsg(token, agent) => HandleAuth(k, token, agent, drawn, now);
        case ListMsg => ListAgents(k);
        case CommandMsg(request, target, payload) => IssueCommand(k, request, target, payload);
        case ResultMsg(request, body) => RouteToOrigin(k, request, body);
        case NotifyMsg(event) => BroadcastToMcp(Peers.Event(NameOf(conns[k]), event));
        case PingMsg => SendTo(k, Pong);
        case CloseMsg =>
          HandleDisconnect(k);
          conns := conns[k := conns[k].(closing := true)];
        case OfferMsg(toSession, signal) => ForwardOffer(k, toSession, signal);
        case AnswerMsg(signal) => BroadcastToMcp(Udp(SessionOf(conns[k]), signal));
        case UpdateMsg(agent) => UpdateAgent(k, agent);
        case BadMsg => SendTo(k, Error);
      }
    }

    /** Any frame proves the socket alive before it is looked at. */
    method WebSocketMessage(k: Sock, msg: Msg, drawn: string, now: nat)
      requires Valid() && k in conns
      modifies this`conns, this`pending
      ensures Now() == Handled(Touch(old(Now()), k, now), k, msg, drawn, now)
    {
      conns := conns[k := conns[k].(lastSeen := Some(now))];
      HandleMessage(k, msg, drawn, now);
    }

    /** The runtime reports a socket closed, and forgets it. */
    method WebSocketClose(k: Sock)
      requires Valid() && k in conns
      modifies this
      ensures Now() == Remove(Disconnect(old(Now()), k), k)
    {
      HandleDisconnect(k);
      order, conns := Unlisted(order, k), conns - {k};
    }

    /** The runtime reports a socket broken, and still lists it until it reports it closed. */
    method WebSocketError(k: Sock)
      requires Valid() && k in conns
      modifies this`conns, this`pending
      ensures Now() == Next(old(Now()), Broken(k))
    {
      HandleDisconnect(k);
      conns := conns[k := conns[k].(closing := true)];
    }

    method HandleWebSocket(k: Sock, token: string, ip: string, now: nat)
      requires Valid() && k !in conns
      modifies this`order, this`conns
      ensures Now() == Next(old(Now()), Accepted(k, token, ip, now))
    {
      order, conns := order + [k], conns[k := Conn(None, None, token, ip, Some(now), false, [])];
    }

    /** The pass of the reaper over the sockets that are stale when it starts. */
    method AlarmPass(now: nat)
      requires Valid()
      modifies this`conns, this`pending
      ensures Now() == Reap(old(Now()), now)
    {
      StaleSeated(order, conns, now);
      var stale := SelectStale(order, conns, now);
      var i := 0;
      while i < |stale|
        invariant 0 <= i <= |stale| && Valid() && conns.Keys == old(conns).Keys
        invariant ReapAll(Now(), stale[i..]) == ReapAll(old(Now()), stale)
      {
        assert stale[i..][1..] == stale[i + 1..];
        ReapSocket(stale[i]);
        i := i + 1;
      }
    }

    method ReapSocket(k: Sock)
      requires Valid() && k in conns
      modifies this`conns, this`pending
      ensures Now() == ReapOne(old(Now()), k) && Valid() && conns.Keys == old(conns).Keys
    {
      DisconnectShape(Now(), k);
      HandleDisconnect(k);
      conns := conns[k := conns[k].(agent := None, session := None)];
      conns := conns[k := conns[k].(closing := true)];
    }
  }

  /** `selectStale`: a filter over a snapshot. */
  method SelectStale(order: seq<Sock>, conns: map<Sock, Conn>, now: nat) returns (stale: seq<Sock>)
    requires forall k :: k in order ==> k in conns
    ensures stale == Stale(order, conns, now)
  {
    stale := [];
    var i := |order|;
    while i > 0
      invariant 0 <= i <= |order| && stale == Stale(order[i..], conns, now)
    {
      i := i - 1;
      assert order[i..][1..] == order[i + 1..];
      if IsStale(conns[order[i]], now) {
        stale := [order[i]] + stale;
      }
    }
  }
}
