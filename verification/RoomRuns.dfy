/**
 Whole runs of a room, from an empty room on, whatever the clients, the network and the
 runtime do. As long as nobody authenticates an identity away, the roster agrees; as long as
 nobody authenticates while waiting for results, every request in flight belongs to the socket
 that issued it last, and its result goes to that socket and to no other. And exactly what
 goes wrong otherwise.
 */
module RoomRuns {
  import opened Wrappers
  import opened Routing
  import opened Peers
  import opened RoomState
  import opened RoomRoster

  ghost predicate DistinctSessions(r: Room) {
    (forall k :: k in r.conns ==> r.conns[k].session != Some("")) &&
    forall j, k :: j in r.conns && k in r.conns && j != k && r.conns[j].session.Some? ==> r.conns[j].session != r.conns[k].session
  }

  /** `issuer` maps each request in flight to the socket whose session is waiting for it. */
  ghost predicate Home(r: Room, issuer: map<string, Sock>) {
    forall rid :: rid in r.pending ==>
      rid in issuer && issuer[rid] in r.conns && r.conns[issuer[rid]].session == Some(r.pending[rid])
  }

  ghost predicate Sound(r: Room, issuer: map<string, Sock>) {
    Seated(r) && DistinctSessions(r) && Home(r, issuer)
  }

  /** Who issued each request last, after one more event. */
  function Issuers(r: Room, h: Happening, issuer: map<string, Sock>): map<string, Sock>
    requires Seated(r) && Possible(r, h)
  {
    match h
    case Received(k, CommandMsg(request, target, _), _, _) =>
      if r.conns[k].session.Some? && Picks(Cands(r.order, r.conns), target) != [] then issuer[request := k] else issuer
    case _ => issuer
  }

  // --- seats ------------------------------------------------------------------------

  /** Nothing but frames and requests in flight changed. */
  ghost predicate SameSeats(r: Room, s: Room) {
    s.conns.Keys == r.conns.Keys && forall k :: k in r.conns ==> SameSeat(r.conns[k], s.conns[k])
  }

  ghost predicate SameSessions(r: Room, s: Room) {
    s.conns.Keys == r.conns.Keys && forall k :: k in r.conns ==> s.conns[k].session == r.conns[k].session
  }

  lemma {:induction false} ToTargetsSeats(r: Room, targets: seq<Candidate<Sock>>, f: Frame)
    requires forall c :: c in targets ==> c.item in r.conns
    ensures SameSeats(r, ToTargets(r, targets, f)) && ToTargets(r, targets, f).pending == r.pending
    decreases |targets|
  {
    if targets != [] { ToTargetsSeats(Send(r, targets[0].item, f), targets[1..], f); }
  }

  lemma SeatsAreSessions(r: Room, s: Room)
    requires SameSeats(r, s)
    ensures SameSessions(r, s) && forall k :: k in r.conns ==> s.conns[k].agent == r.conns[k].agent
  {
    forall k | k in r.conns ensures s.conns[k].session == r.conns[k].session && s.conns[k].agent == r.conns[k].agent {
      assert SameSeat(r.conns[k], s.conns[k]);
    }
  }

  /** A command that has a target is in flight from then on. */
  ghost predicate Issues(r: Room, k: Sock, msg: Msg)
    requires Seated(r) && k in r.conns
  {
    msg.CommandMsg? && r.conns[k].session.Some? && Picks(Cands(r.order, r.conns), msg.target) != []
  }

  lemma CommandedSeats(r: Room, k: Sock, msg: Msg)
    requires Seated(r) && k in r.conns && msg.CommandMsg?
    ensures var s := Commanded(r, k, msg.request, msg.target, msg.payload);
            SameSeats(r, s) && s.pending == if Issues(r, k, msg) then r.pending[msg.request := r.conns[k].session.value] else r.pending
  {
    var cands := Cands(r.order, r.conns);
    if Issues(r, k, msg) {
      PicksAreCands(cands, msg.target);
      CandsSeated(r.order, r.conns);
      var session := r.conns[k].session.value;
      ToTargetsSeats(r.(pending := r.pending[msg.request := session]), Picks(cands, msg.target),
                     Peers.Command(msg.request, session, msg.payload));
    }
  }

  lemma RepliedSeats(r: Room, k: Sock, request: string, body: string)
    requires Seated(r) && k in r.conns
    ensures SameSeats(r, Replied(r, k, request, body)) && Replied(r, k, request, body).pending == r.pending
  {
    if request in r.pending { FoundSession(r.order, r.conns, r.pending[request]); }
  }

  /** Apart from authentication and closing, a message leaves the sessions alone; only a
      command that has a target touches the requests in flight. */
  lemma OtherMessages(r: Room, k: Sock, msg: Msg, drawn: string, now: nat)
    requires Seated(r) && k in r.conns && !msg.AuthMsg? && !msg.CloseMsg?
    ensures SameSessions(r, Handled(r, k, msg, drawn, now))
    ensures Handled(r, k, msg, drawn, now).pending ==
            if Issues(r, k, msg) then r.pending[msg.request := r.conns[k].session.value] else r.pending
  {
    match msg {
      case CommandMsg(_, _, _) => CommandedSeats(r, k, msg);
        SeatsAreSessions(r, Commanded(r, k, msg.request, msg.target, msg.payload));
      case ResultMsg(request, body) => RepliedSeats(r, k, request, body);
        SeatsAreSessions(r, Replied(r, k, request, body));
      case OfferMsg(toSession, _) => FoundSession(r.order, r.conns, toSession);
      case NotifyMsg(event) =>
        SeatsAreSessions(r, ToMcp(r, Peers.Event(NameOf(r.conns[k]), event)));
      case AnswerMsg(signal) =>
        SeatsAreSessions(r, ToMcp(r, Udp(SessionOf(r.conns[k]), signal)));
      case UpdateMsg(agent) => UpdatedSessions(r, k, agent);
      case _ =>
    }
  }

  lemma UpdatedSessions(r: Room, k: Sock, agent: AgentInfo)
    requires k in r.conns
    ensures SameSessions(r, Updated(r, k, agent)) && Updated(r, k, agent).pending == r.pending
  {
    var c := r.conns[k];
    if c.agent.Some? && c.agent.value.id == agent.id {
      var info := agent.(session := SessionOf(c), connectedAt := c.agent.value.connectedAt);
      var s := r.(conns := r.conns[k := c.(agent := Some(info))]);
      AnnounceReaches(s, AgentJoined(info), agent.id);
      SeatsAreSessions(s, Updated(r, k, agent));
    }
  }

  /** Other sockets than `k` keep session and identity. */
  ghost predicate OthersKeep(r: Room, s: Room, k: Sock) {
    s.conns.Keys == r.conns.Keys &&
    forall j :: j in r.conns && j != k ==> s.conns[j].session == r.conns[j].session && s.conns[j].agent == r.conns[j].agent
  }

  /** `s` is `r` after `k` was introduced to everybody as `a`. */
  ghost predicate Introduced(r: Room, s: Room, k: Sock, a: AgentInfo) {
    SameSeats(r, s) && s.pending == r.pending && s.serverToken == r.serverToken &&
    forall j :: j in r.conns && j != k ==> s.conns[j] == Announced(r.conns[j], AgentJoined(a), a.id)
  }

  lemma IntroduceShape(r: Room, k: Sock, me: AgentInfo) returns (a: AgentInfo)
    requires Seated(r) && k in r.conns
    ensures a.id == me.id && Introduced(r, Introduce(r, k, me), k, a)
  {
    var infos := Agents(r);
    a := MergedInfo(infos, me);
    MergedId(infos, me);
    var f := AgentList(Dedup(Others(infos, me.id)));
    AnnounceAfterSend(r, k, f, AgentJoined(a), a.id);
  }

  lemma AnnounceAfterSend(r: Room, k: Sock, f: Frame, g: Frame, id: string)
    requires k in r.conns
    ensures var s := Announce(Send(r, k, f), g, id);
            SameSeats(r, s) && s.pending == r.pending && s.serverToken == r.serverToken &&
            forall j :: j in r.conns && j != k ==> s.conns[j] == Announced(r.conns[j], g, id)
  {
    var t := Send(r, k, f);
    AnnounceAlters(r, t, k, g, id);
  }

  lemma AnnounceAlters(r: Room, t: Room, k: Sock, g: Frame, id: string)
    requires SameSeats(r, t) && t.pending == r.pending && forall j :: j in r.conns && j != k ==> t.conns[j] == r.conns[j]
    ensures SameSeats(r, Announce(t, g, id)) && Announce(t, g, id).pending == r.pending
    ensures Announce(t, g, id).serverToken == t.serverToken
    ensures forall j :: j in r.conns && j != k ==> Announce(t, g, id).conns[j] == Announced(r.conns[j], g, id)
  {
    AnnounceReaches(t, g, id);
    forall j | j in r.conns ensures SameSeat(r.conns[j], Announce(t, g, id).conns[j]) {
      assert SameSeat(r.conns[j], t.conns[j]);
    }
  }

  /** `s` is `r` after `k` took up a session. */
  ghost predicate Entered(r: Room, s: Room, k: Sock, agent: Option<AgentInfo>, session: string) {
    k in r.conns && s.conns.Keys == r.conns.Keys && s.pending == r.pending && s.serverToken == r.serverToken &&
    s.conns[k].session == Some(session) && s.conns[k].token == r.conns[k].token && s.conns[k].closing == r.conns[k].closing &&
    s.conns[k].agent == (if agent.Some? then Some(agent.value.(session := session)) else None) &&
    forall j :: j in r.conns && j != k ==> s.conns[j] == r.conns[j]
  }

  /** An admitted authentication is an entry and, for a peer, an introduction. */
  lemma AuthShape(r: Room, k: Sock, token: string, agent: Option<AgentInfo>, session: string, now: nat)
    returns (e: Room, a: AgentInfo)
    requires Seated(r) && k in r.conns && Admits(r, k, token)
    ensures Entered(r, e, k, agent, session)
    ensures if agent.Some? then a.id == agent.value.id && Introduced(e, Auth(r, k, token, agent, session, now), k, a)
            else Auth(r, k, token, agent, session, now) == e
  {
    EnterWires(r, k, agent, session, now);
    e := Enter(r, k, agent, session, now);
    if agent.Some? {
      a := IntroduceShape(e, k, agent.value.(session := session));
    } else {
      a :| true;
    }
  }

  // --- sockets come and go, but each is listed once ---------------------------------------

  /** The same sockets, listed the same way. */
  ghost predicate SameOrder(r: Room, s: Room) {
    s.order == r.order && s.conns.Keys == r.conns.Keys
  }

  lemma {:induction false} ToTargetsOrder(r: Room, targets: seq<Candidate<Sock>>, f: Frame)
    requires forall c :: c in targets ==> c.item in r.conns
    ensures SameOrder(r, ToTargets(r, targets, f))
    decreases |targets|
  {
    if targets != [] { ToTargetsOrder(Send(r, targets[0].item, f), targets[1..], f); }
  }

  lemma CommandedOrder(r: Room, k: Sock, msg: Msg)
    requires Seated(r) && k in r.conns && msg.CommandMsg?
    ensures SameOrder(r, Commanded(r, k, msg.request, msg.target, msg.payload))
  {
    var cands := Cands(r.order, r.conns);
    if Issues(r, k, msg) {
      PicksAreCands(cands, msg.target);
      CandsSeated(r.order, r.conns);
      var session := r.conns[k].session.value;
      ToTargetsOrder(r.(pending := r.pending[msg.request := session]), Picks(cands, msg.target),
                     Peers.Command(msg.request, session, msg.payload));
    }
  }

  lemma HandledOrder(r: Room, k: Sock, msg: Msg, drawn: string, now: nat)
    requires Seated(r) && k in r.conns
    ensures SameOrder(r, Handled(r, k, msg, drawn, now))
  {
    match msg {
      case CommandMsg(_, _, _) => CommandedOrder(r, k, msg);
      case ResultMsg(request, body) => RepliedOrder(r, k, request, body);
      case CloseMsg => DisconnectShape(r, k);
      case OfferMsg(toSession, _) => FoundSession(r.order, r.conns, toSession);
      case _ =>
    }
  }

  lemma RepliedOrder(r: Room, k: Sock, request: string, body: string)
    requires Seated(r) && k in r.conns
    ensures SameOrder(r, Replied(r, k, request, body))
  {
    if request in r.pending { FoundSession(r.order, r.conns, r.pending[request]); }
  }

  lemma {:induction false} ReapAllOrder(r: Room, stale: seq<Sock>)
    requires forall k :: k in stale ==> k in r.conns
    ensures SameOrder(r, ReapAll(r, stale))
    decreases |stale|
  {
    if stale != [] {
      DisconnectShape(r, stale[0]);
      ReapAllOrder(ReapOne(r, stale[0]), stale[1..]);
    }
  }

  /** Whatever happens, the runtime goes on listing every socket once. */
  lemma NextSeated(r: Room, h: Happening)
    requires Seated(r) && Possible(r, h)
    ensures Seated(Next(r, h))
  {
    match h {
      case Received(k, msg, drawn, now) =>
        SeatedTouch(r, k, now);
        HandledOrder(Touch(r, k, now), k, msg, drawn, now);
      case Closed(k) =>
        DisconnectShape(r, k);
        UnlistedSeats(r.order, k);
      case Broken(k) => DisconnectShape(r, k);
      case Alarm(now) =>
        StaleSeated(r.order, r.conns, now);
        ReapAllOrder(r, Stale(r.order, r.conns, now));
      case _ =>
    }
  }

  // --- every event keeps the room sound --------------------------------------------------

  /** No request in flight waits for this socket's session. */
  ghost predicate NothingAwaited(r: Room, k: Sock)
    requires k in r.conns
  {
    forall rid :: rid in r.pending ==> r.conns[k].session != Some(r.pending[rid])
  }

  /** What clients owe themselves for their replies' sake: nobody authenticates while waiting. */
  ghost predicate Patient(r: Room, h: Happening) {
    match h
    case Received(k, AuthMsg(token, _), _, _) => k in r.conns && (Admits(r, k, token) ==> NothingAwaited(r, k))
    case _ => true
  }

  /** A socket lost its requests first, then its session and identity, or itself. */
  lemma SessionLost(r: Room, s: Room, k: Sock, issuer: map<string, Sock>)
    requires DistinctSessions(r) && Home(r, issuer) && k in r.conns
    requires s.pending == Dropped(r.pending, r.conns[k].session)
    requires s.conns.Keys <= r.conns.Keys && r.conns.Keys - {k} <= s.conns.Keys
    requires forall j :: j in s.conns && j != k ==> SameSeat(r.conns[j], s.conns[j])
    requires k in s.conns ==> SameSeat(r.conns[k].(closing := true), s.conns[k]) || (s.conns[k].session.None? && s.conns[k].agent.None?)
    ensures DistinctSessions(s) && Home(s, issuer)
  {
    forall j | j in s.conns && j != k
      ensures s.conns[j].session == r.conns[j].session && s.conns[j].agent == r.conns[j].agent
    {
      assert SameSeat(r.conns[j], s.conns[j]);
    }
  }

  lemma {:induction false} ReapAllSound(r: Room, stale: seq<Sock>, issuer: map<string, Sock>)
    requires DistinctSessions(r) && Home(r, issuer) && forall k :: k in stale ==> k in r.conns
    ensures var s := ReapAll(r, stale); DistinctSessions(s) && Home(s, issuer)
    decreases |stale|
  {
    if stale != [] {
      var k, s := stale[0], ReapOne(r, stale[0]);
      DisconnectShape(r, k);
      SessionLost(r, s, k, issuer);
      ReapAllSound(s, stale[1..], issuer);
    }
  }

  lemma AuthMessageSound(r: Room, k: Sock, token: string, agent: Option<AgentInfo>, session: string, now: nat, issuer: map<string, Sock>)
    requires Seated(r) && DistinctSessions(r) && Home(r, issuer) && k in r.conns && Unused(r, session)
    requires Admits(r, k, token) ==> NothingAwaited(r, k)
    ensures var s := Auth(r, k, token, agent, session, now); DistinctSessions(s) && Home(s, issuer)
  {
    var s := Auth(r, k, token, agent, session, now);
    if Admits(r, k, token) {
      var e, a := AuthShape(r, k, token, agent, session, now);
    }
    AuthSound(r, s, k, issuer, session, Admits(r, k, token));
  }

  lemma CloseMessageSound(r: Room, k: Sock, issuer: map<string, Sock>)
    requires DistinctSessions(r) && Home(r, issuer) && k in r.conns
    ensures var s := Close(Disconnect(r, k), k); DistinctSessions(s) && Home(s, issuer)
  {
    DisconnectShape(r, k);
    SessionLost(r, Close(Disconnect(r, k), k), k, issuer);
  }

  lemma OtherMessageSound(r: Room, k: Sock, msg: Msg, drawn: string, now: nat, issuer: map<string, Sock>)
    requires Seated(r) && DistinctSessions(r) && Home(r, issuer) && k in r.conns && !msg.AuthMsg? && !msg.CloseMsg?
    ensures var s := Handled(r, k, msg, drawn, now);
            DistinctSessions(s) && Home(s, if Issues(r, k, msg) then issuer[msg.request := k] else issuer)
  {
    OtherMessages(r, k, msg, drawn, now);
  }

  lemma AuthEventSound(r: Room, issuer: map<string, Sock>, h: Happening)
    requires Sound(r, issuer) && Possible(r, h) && Patient(r, h) && h.Received? && h.msg.AuthMsg?
    ensures var s := Next(r, h); DistinctSessions(s) && Home(s, issuer)
  {
    TouchSound(r, h.sock, h.now, issuer);
    AuthMessageSound(Touch(r, h.sock, h.now), h.sock, h.msg.token, h.msg.agent, h.drawn, h.now, issuer);
  }

  lemma CloseEventSound(r: Room, issuer: map<string, Sock>, h: Happening)
    requires Sound(r, issuer) && Possible(r, h) && h.Received? && h.msg.CloseMsg?
    ensures var s := Next(r, h); DistinctSessions(s) && Home(s, issuer)
  {
    TouchSound(r, h.sock, h.now, issuer);
    CloseMessageSound(Touch(r, h.sock, h.now), h.sock, issuer);
  }

  lemma OtherEventSound(r: Room, issuer: map<string, Sock>, h: Happening)
    requires Sound(r, issuer) && Possible(r, h) && h.Received? && !h.msg.AuthMsg? && !h.msg.CloseMsg?
    ensures var s := Next(r, h); DistinctSessions(s) && Home(s, Issuers(r, h, issuer))
  {
    TouchSound(r, h.sock, h.now, issuer);
    OtherMessageSound(Touch(r, h.sock, h.now), h.sock, h.msg, h.drawn, h.now, issuer);
  }

  lemma MessageSound(r: Room, issuer: map<string, Sock>, h: Happening)
    requires Sound(r, issuer) && Possible(r, h) && Patient(r, h) && h.Received?
    ensures var s := Next(r, h); DistinctSessions(s) && Home(s, Issuers(r, h, issuer))
  {
    if h.msg.AuthMsg? {
      AuthEventSound(r, issuer, h);
    } else if h.msg.CloseMsg? {
      CloseEventSound(r, issuer, h);
    } else {
      OtherEventSound(r, issuer, h);
    }
  }

  /** Noting that a socket was heard from changes nothing that matters here. */
  lemma TouchSound(r: Room, k: Sock, now: nat, issuer: map<string, Sock>)
    requires Sound(r, issuer) && k in r.conns
    ensures var t := Touch(r, k, now);
            Seated(t) && DistinctSessions(t) && Home(t, issuer) && Cands(t.order, t.conns) == Cands(r.order, r.conns)
  {
    SeatedTouch(r, k, now);
    TouchedCands(r, k, now);
  }

  lemma SeatedTouch(r: Room, k: Sock, now: nat)
    requires Seated(r) && k in r.conns
    ensures Seated(Touch(r, k, now))
  {}

  lemma {:induction false} CandsByAgents(order: seq<Sock>, a: map<Sock, Conn>, b: map<Sock, Conn>)
    requires forall k :: k in order ==> k in a && k in b && a[k].agent == b[k].agent
    ensures Cands(order, a) == Cands(order, b)
  {
    if order != [] { CandsByAgents(order[..|order| - 1], a, b); }
  }

  lemma TouchedCands(r: Room, k: Sock, now: nat)
    requires Seated(r) && k in r.conns
    ensures Cands(r.order, Touch(r, k, now).conns) == Cands(r.order, r.conns)
  {
    CandsByAgents(r.order, Touch(r, k, now).conns, r.conns);
  }

  lemma AuthSound(r: Room, s: Room, k: Sock, issuer: map<string, Sock>, drawn: string, admitted: bool)
    requires DistinctSessions(r) && Home(r, issuer) && k in r.conns && Unused(r, drawn)
    requires s.pending == r.pending && OthersKeep(r, s, k)
    requires if admitted then NothingAwaited(r, k) && s.conns[k].session == Some(drawn) else SameSessions(r, s)
    ensures DistinctSessions(s) && Home(s, issuer)
  {}

  lemma NextSound(r: Room, issuer: map<string, Sock>, h: Happening)
    requires Sound(r, issuer) && Possible(r, h) && Patient(r, h)
    ensures Sound(Next(r, h), Issuers(r, h, issuer))
  {
    NextSeated(r, h);
    match h {
      case Received(_, _, _, _) => MessageSound(r, issuer, h);
      case Closed(k) =>
        DisconnectShape(r, k);
        SessionLost(r, Next(r, h), k, issuer);
      case Broken(k) => CloseMessageSound(r, k, issuer);
      case Alarm(now) =>
        StaleSeated(r.order, r.conns, now);
        ReapAllSound(r, Stale(r.order, r.conns, now), issuer);
      case _ =>
    }
  }

  // --- runs ---------------------------------------------------------------------------------

  function Empty(serverToken: string): Room {
    Room([], map[], map[], serverToken)
  }

  /** Any sequence of events that can happen. */
  ghost predicate Run(r: Room, hs: seq<Happening>)
    decreases |hs|
  {
    hs == [] || (Seated(r) && Possible(r, hs[0]) && Run(Next(r, hs[0]), hs[1..]))
  }

  ghost function After(r: Room, hs: seq<Happening>): Room
    requires Run(r, hs)
    decreases |hs|
  {
    if hs == [] then r else After(Next(r, hs[0]), hs[1..])
  }

  ghost predicate SteadyRun(r: Room, hs: seq<Happening>)
    requires Run(r, hs)
    decreases |hs|
  {
    hs == [] || (Steady(r, hs[0]) && SteadyRun(Next(r, hs[0]), hs[1..]))
  }

  ghost predicate PatientRun(r: Room, hs: seq<Happening>)
    requires Run(r, hs)
    decreases |hs|
  {
    hs == [] || (Patient(r, hs[0]) && PatientRun(Next(r, hs[0]), hs[1..]))
  }

  ghost function IssuersAfter(r: Room, hs: seq<Happening>, issuer: map<string, Sock>): map<string, Sock>
    requires Run(r, hs)
    decreases |hs|
  {
    if hs == [] then issuer else IssuersAfter(Next(r, hs[0]), hs[1..], Issuers(r, hs[0], issuer))
  }

  lemma {:induction false} RunSound(r: Room, hs: seq<Happening>, issuer: map<string, Sock>)
    requires Run(r, hs) && PatientRun(r, hs) && Sound(r, issuer)
    ensures Sound(After(r, hs), IssuersAfter(r, hs, issuer))
    decreases |hs|
  {
    if hs != [] {
      NextSound(r, issuer, hs[0]);
      RunSound(Next(r, hs[0]), hs[1..], Issuers(r, hs[0], issuer));
    }
  }

  lemma {:induction false} RunGood(r: Room, hs: seq<Happening>)
    requires Run(r, hs) && SteadyRun(r, hs) && Good(r)
    ensures Good(After(r, hs))
    decreases |hs|
  {
    if hs != [] {
      NextKeeps(r, hs[0]);
      RunGood(Next(r, hs[0]), hs[1..]);
    }
  }

  /** In every state reached without authenticating an identity away, a client that takes in
      the frames still on their way to it then shows at least every other live machine and at
      most every other listed one, whatever it had taken in by now and whatever it showed
      before it connected. */
  lemma EveryRunAgrees(serverToken: string, hs: seq<Happening>, k: Sock, taken: nat, before: seq<AgentInfo>)
    requires Run(Empty(serverToken), hs) && SteadyRun(Empty(serverToken), hs)
    requires var r := After(Empty(serverToken), hs); k in r.conns && Informed(r.conns[k]) && taken <= |r.conns[k].wire|
    ensures var r := After(Empty(serverToken), hs);
            var c := r.conns[k];
            var shown := Ids(View(View(before, c.wire[..taken]), c.wire[taken..]));
            LiveIds(r) - Own(c) <= shown && shown - Own(c) <= AllIds(r)
  {
    var r := After(Empty(serverToken), hs);
    RunGood(Empty(serverToken), hs);
    var wire := r.conns[k].wire;
    ViewConcat(before, wire[..taken], wire[taken..]);
    assert wire[..taken] + wire[taken..] == wire;
    ListForgets(before, [], wire);
    assert AgreesWith(r.conns[k], LiveIds(r), AllIds(r));
  }

  /** With every listed machine live on some socket that is exact, and every open identified
      socket is a client of this kind. */
  lemma EveryRunAgreesExactly(serverToken: string, hs: seq<Happening>, k: Sock)
    requires Run(Empty(serverToken), hs) && SteadyRun(Empty(serverToken), hs)
    requires var r := After(Empty(serverToken), hs);
             k in r.conns && !r.conns[k].closing && (r.conns[k].agent.Some? || HasList(r.conns[k].wire)) &&
             LiveIds(r) == AllIds(r)
    ensures var r := After(Empty(serverToken), hs);
            Informed(r.conns[k]) && Shown(r.conns[k]) - Own(r.conns[k]) == AllIds(r) - Own(r.conns[k])
  {
    RunGood(Empty(serverToken), hs);
  }

  // --- replies --------------------------------------------------------------------------------

  lemma FindsTheSocket(r: Room, k: Sock)
    requires Seated(r) && DistinctSessions(r) && k in r.conns && r.conns[k].session.Some?
    ensures FindSession(r.order, r.conns, r.conns[k].session.value) == Some(k)
  {
    FoundSession(r.order, r.conns, r.conns[k].session.value);
  }

  /** In every state reached without authenticating while waiting, the result of a request in
      flight is sent to the socket that issued it last, and to no other; any other result goes
      to the observers. */
  lemma EveryReplyGoesHome(serverToken: string, hs: seq<Happening>, k: Sock, request: string, body: string)
    requires Run(Empty(serverToken), hs) && PatientRun(Empty(serverToken), hs) && k in After(Empty(serverToken), hs).conns
    ensures var r := After(Empty(serverToken), hs);
            var issuer := IssuersAfter(Empty(serverToken), hs, map[]);
            var f := Reply(request, NameOf(r.conns[k]), body);
            if request in r.pending
            then request in issuer && issuer[request] in r.conns && Seated(r) &&
                 Replied(r, k, request, body) == Send(r, issuer[request], f)
            else Seated(r) && Replied(r, k, request, body) == ToMcp(r, f)
  {
    var r := After(Empty(serverToken), hs);
    var issuer := IssuersAfter(Empty(serverToken), hs, map[]);
    RunSound(Empty(serverToken), hs, map[]);
    if request in r.pending {
      FindsTheSocket(r, issuer[request]);
    }
  }

  // --- authenticating twice ---------------------------------------------------------------------

  /** Every request in flight belongs to some socket's session. */
  ghost predicate AllWaiting(r: Room) {
    forall rid :: rid in r.pending ==> SomebodyWaits(r, r.pending[rid])
  }

  ghost predicate SomebodyWaits(r: Room, session: string) {
    exists k :: k in r.conns && r.conns[k].session == Some(session)
  }

  /** A second authentication strands the requests of the first session, if there are any. */
  lemma SecondAuthStrands(r: Room, k: Sock, token: string, agent: Option<AgentInfo>, session: string, now: nat)
    requires Seated(r) && DistinctSessions(r) && AllWaiting(r) && k in r.conns && Unused(r, session)
    requires Admits(r, k, token) && r.conns[k].session.Some?
    ensures AllWaiting(Auth(r, k, token, agent, session, now)) <==> NothingAwaited(r, k)
  {
    var s := Auth(r, k, token, agent, session, now);
    var e, a := AuthShape(r, k, token, agent, session, now);
    StrandedExactly(r, s, k, session);
  }

  lemma StrandedExactly(r: Room, s: Room, k: Sock, session: string)
    requires DistinctSessions(r) && AllWaiting(r) && k in r.conns && Unused(r, session) && r.conns[k].session.Some?
    requires s.pending == r.pending && OthersKeep(r, s, k) && s.conns[k].session == Some(session)
    ensures AllWaiting(s) <==> NothingAwaited(r, k)
  {
    var first := r.conns[k].session.value;
    forall rid | rid in r.pending ensures SomebodyWaits(s, s.pending[rid]) <==> r.pending[rid] != first {
      assert SomebodyWaits(r, r.pending[rid]);
      var j :| j in r.conns && r.conns[j].session == Some(r.pending[rid]);
      assert j != k ==> s.conns[j].session == Some(s.pending[rid]);
      assert j == k <==> r.pending[rid] == first;
    }
  }

  function IdOf(agent: Option<AgentInfo>): set<string> {
    if agent.Some? then {agent.value.id} else {}
  }

  /** After a second authentication, with whatever identity or none, another client's view has
      no unlisted id if and only if the socket keeps its id, or a further socket holds it, or
      the view did not have it; it had, unless the socket was already on its way out. */
  lemma SecondAuthHaunts(r: Room, k: Sock, token: string, agent: Option<AgentInfo>, session: string, now: nat, j: Sock)
    requires Good(r) && k in r.conns && Admits(r, k, token) && r.conns[k].agent.Some?
    requires j in r.conns && Informed(r.conns[j]) && r.conns[k].agent.value.id !in Own(r.conns[j])
    ensures var id := r.conns[k].agent.value.id; var s := Auth(r, k, token, agent, session, now);
            j in s.conns &&
            (Shown(s.conns[j]) - Own(s.conns[j]) <= AllIds(s) <==>
             id in IdOf(agent) || HeldElsewhere(r, k, id) || id !in Shown(r.conns[j])) &&
            (!r.conns[k].closing ==> id in Shown(r.conns[j]))
  {
    var s := Auth(r, k, token, agent, session, now);
    var e, a := AuthShape(r, k, token, agent, session, now);
    AuthAs(r, s, e, k, agent, session, a, j);
    HauntedExactly(r, s, k, IdOf(agent), j);
  }

  lemma HauntedExactly(r: Room, s: Room, k: Sock, names: set<string>, j: Sock)
    requires Good(r) && k in r.conns && r.conns[k].agent.Some?
    requires j in r.conns && Informed(r.conns[j]) && r.conns[k].agent.value.id !in Own(r.conns[j])
    requires j in s.conns && AllIds(s) == IdsBut(r, k) + names && Own(s.conns[j]) == Own(r.conns[j])
    requires Shown(s.conns[j]) == Shown(r.conns[j]) || Shown(s.conns[j]) == Shown(r.conns[j]) + names
    ensures var id := r.conns[k].agent.value.id;
            (Shown(s.conns[j]) - Own(s.conns[j]) <= AllIds(s) <==> id in names || HeldElsewhere(r, k, id) || id !in Shown(r.conns[j])) &&
            (!r.conns[k].closing ==> id in Shown(r.conns[j]))
  {
    var id := r.conns[k].agent.value.id;
    assert AgreesWith(r.conns[j], LiveIds(r), AllIds(r));
    BelowAll(r, k);
    assert AllIds(r) == IdsBut(r, k) + {id};
    assert !r.conns[k].closing ==> id in LiveIds(r);
    if HeldElsewhere(r, k, id) {
      assert AllIds(r) <= AllIds(s);
    } else {
      assert id in AllIds(s) <==> id in names;
    }
  }

  /** What an authentication does to the ids, and to another client's view. */
  lemma AuthAs(r: Room, s: Room, e: Room, k: Sock, agent: Option<AgentInfo>, session: string, a: AgentInfo, j: Sock)
    requires Entered(r, e, k, agent, session)
    requires if agent.Some? then Introduced(e, s, k, a) && a.id == agent.value.id else s == e
    requires j in r.conns && j != k && !r.conns[j].closing
    ensures j in s.conns && AllIds(s) == IdsBut(r, k) + IdOf(agent) && Own(s.conns[j]) == Own(r.conns[j])
    ensures Shown(s.conns[j]) == Shown(r.conns[j]) || Shown(s.conns[j]) == Shown(r.conns[j]) + IdOf(agent)
  {
    if agent.Some? {
      SeatsAreSessions(e, s);
      HeardShows(r.conns[j], AgentJoined(a));
    }
  }

}
