/**
 The state of a relay room and what each event does to it (worker/src/room.ts): sockets
 with their attachments, requests in flight, and what was sent on every socket.
 */
module RoomState {
  import opened Wrappers
  import opened Routing
  import opened Peers

  type Sock = nat

  const STALE_MS: nat := 90_000

  /** One socket: its attachment, whether it is on its way out (the room asked it to close, or
      it broke), and all frames sent on it so far. A socket on its way out takes no more. */
  datatype Conn = Conn(session: Option<string>, agent: Option<AgentInfo>, token: string, ip: string,
                       lastSeen: Option<nat>, closing: bool, wire: seq<Frame>)

  /** `order` is how the runtime lists the sockets; `serverToken` is "" when unset. */
  datatype Room = Room(order: seq<Sock>, conns: map<Sock, Conn>, pending: map<string, string>, serverToken: string)

  datatype Msg =
    | AuthMsg(token: string, agent: Option<AgentInfo>)
    | ListMsg
    | CommandMsg(request: string, target: Target, payload: string)
    | ResultMsg(request: string, body: string)
    | NotifyMsg(event: string)
    | PingMsg
    | CloseMsg
    | OfferMsg(toSession: string, signal: string)
    | AnswerMsg(signal: string)
    | UpdateMsg(newInfo: AgentInfo)
    | BadMsg

  /** Everything that can happen to a room. `drawn` is the session id that authentication would use. */
  datatype Happening =
    | Accepted(sock: Sock, token: string, ip: string, now: nat)
    | Received(sock: Sock, msg: Msg, drawn: string, now: nat)
    | Closed(sock: Sock)
    | Broken(sock: Sock)
    | Alarm(now: nat)
    | Hibernated

  /** The runtime lists every socket once. */
  ghost predicate Seated(r: Room) {
    (forall k :: k in r.order <==> k in r.conns) && forall i, j :: 0 <= i < j < |r.order| ==> r.order[i] != r.order[j]
  }

  // --- sending ---------------------------------------------------------------------

  function Heard(c: Conn, f: Frame): Conn {
    if c.closing then c else c.(wire := c.wire + [f])
  }

  predicate IsMcp(c: Conn) {
    c.agent.None?
  }

  /** An identified socket, unless it has the id to leave out; an empty id leaves out none. */
  predicate IsAgentBut(c: Conn, except: string) {
    c.agent.Some? && !(except != "" && c.agent.value.id == except)
  }

  function Send(r: Room, k: Sock, f: Frame): Room
    requires k in r.conns
  {
    r.(conns := r.conns[k := Heard(r.conns[k], f)])
  }

  function ToMcp(r: Room, f: Frame): Room {
    r.(conns := map k | k in r.conns :: if IsMcp(r.conns[k]) then Heard(r.conns[k], f) else r.conns[k])
  }

  function ToAgents(r: Room, f: Frame, except: string): Room {
    r.(conns := map k | k in r.conns :: if IsAgentBut(r.conns[k], except) then Heard(r.conns[k], f) else r.conns[k])
  }

  function Announce(r: Room, f: Frame, except: string): Room {
    ToAgents(ToMcp(r, f), f, except)
  }

  // --- who is there -------------------------------------------------------------------

  function Cands(order: seq<Sock>, conns: map<Sock, Conn>): seq<Candidate<Sock>>
    requires forall k :: k in order ==> k in conns
  {
    if order == [] then []
    else
      var last := order[|order| - 1];
      Cands(order[..|order| - 1], conns)
      + if conns[last].agent.Some? then [Candidate(conns[last].agent.value, last)] else []
  }

  function Agents(r: Room): seq<AgentInfo>
    requires Seated(r)
  {
    Infos(Cands(r.order, r.conns))
  }

  /** Sockets of any other id. */
  function Others(infos: seq<AgentInfo>, id: string): seq<AgentInfo> {
    if infos == [] then []
    else Others(infos[..|infos| - 1], id) + if infos[|infos| - 1].id == id then [] else [infos[|infos| - 1]]
  }

  /** Another socket holds the id of `k`. */
  ghost predicate HeldElsewhere(r: Room, k: Sock, id: string) {
    exists j :: j in r.conns && j != k && r.conns[j].agent.Some? && r.conns[j].agent.value.id == id
  }

  /** The socket of a session. */
  function FindSession(order: seq<Sock>, conns: map<Sock, Conn>, session: string): Option<Sock>
    requires forall k :: k in order ==> k in conns
  {
    if order == [] then None
    else if conns[order[0]].session == Some(session) then Some(order[0])
    else FindSession(order[1..], conns, session)
  }

  // --- leaving ---------------------------------------------------------------------------

  function Dropped(pending: map<string, string>, session: Option<string>): map<string, string> {
    map rid | rid in pending && session != Some(pending[rid]) :: pending[rid]
  }

  ghost function Disconnect(r: Room, k: Sock): Room
    requires k in r.conns
  {
    var c := r.conns[k];
    var told := if c.agent.Some? && !HeldElsewhere(r, k, c.agent.value.id)
                then Announce(r, AgentLeft(c.agent.value.id), c.agent.value.id) else r;
    told.(pending := Dropped(r.pending, c.session))
  }

  function Close(r: Room, k: Sock): Room
    requires k in r.conns
  {
    r.(conns := r.conns[k := r.conns[k].(closing := true)])
  }

  function Unlisted(order: seq<Sock>, k: Sock): seq<Sock> {
    if order == [] then []
    else if order[0] == k then order[1..]
    else [order[0]] + Unlisted(order[1..], k)
  }

  /** The runtime forgets a socket. */
  function Remove(r: Room, k: Sock): Room {
    r.(order := Unlisted(r.order, k), conns := r.conns - {k})
  }

  /** No longer a peer, and asked to close. */
  function Strip(r: Room, k: Sock): Room
    requires k in r.conns
  {
    Close(r.(conns := r.conns[k := r.conns[k].(agent := None, session := None)]), k)
  }

  // --- the reaper --------------------------------------------------------------------------

  predicate IsStale(c: Conn, now: nat) {
    c.lastSeen.Some? && now - c.lastSeen.value > STALE_MS
  }

  function Stale(order: seq<Sock>, conns: map<Sock, Conn>, now: nat): seq<Sock>
    requires forall k :: k in order ==> k in conns
  {
    if order == [] then []
    else (if IsStale(conns[order[0]], now) then [order[0]] else []) + Stale(order[1..], conns, now)
  }

  ghost function ReapOne(r: Room, k: Sock): Room
    requires k in r.conns
  {
    Strip(Disconnect(r, k), k)
  }

  ghost function ReapAll(r: Room, stale: seq<Sock>): (s: Room)
    requires forall k :: k in stale ==> k in r.conns
    decreases |stale|
  {
    if stale == [] then r else ReapAll(ReapOne(r, stale[0]), stale[1..])
  }

  ghost function Reap(r: Room, now: nat): Room
    requires Seated(r)
  {
    StaleSeated(r.order, r.conns, now);
    ReapAll(r, Stale(r.order, r.conns, now))
  }

  lemma {:induction false} StaleSeated(order: seq<Sock>, conns: map<Sock, Conn>, now: nat)
    requires forall k :: k in order ==> k in conns
    ensures forall k :: k in Stale(order, conns, now) <==> k in order && IsStale(conns[k], now)
  {
    if order != [] {
      StaleSeated(order[1..], conns, now);
      assert order == [order[0]] + order[1..];
    }
  }

  // --- messages ------------------------------------------------------------------------------

  function Touch(r: Room, k: Sock, now: nat): Room
    requires k in r.conns
  {
    r.(conns := r.conns[k := r.conns[k].(lastSeen := Some(now))])
  }

  /** The id a socket goes by in frames. */
  function NameOf(c: Conn): string {
    if c.agent.Some? then c.agent.value.id else "unknown"
  }

  function SessionOf(c: Conn): string {
    if c.session.Some? then c.session.value else ""
  }

  predicate Admits(r: Room, k: Sock, token: string)
    requires k in r.conns
  {
    (r.serverToken == "" || token == r.serverToken) && token == r.conns[k].token
  }

  /** A socket takes up its session, and its identity if it gave one. */
  function Enter(r: Room, k: Sock, agent: Option<AgentInfo>, session: string, now: nat): Room
    requires k in r.conns
  {
    var named := if agent.Some? then Some(agent.value.(session := session)) else None;
    var r1 := r.(conns := r.conns[k := r.conns[k].(session := Some(session), agent := named, lastSeen := Some(now))]);
    var r2 := Send(r1, k, AuthOk(session));
    if r.conns[k].ip != "" then Send(r2, k, YourEndpoint(r.conns[k].ip)) else r2
  }

  /** What the others are told about a machine: its merged capabilities. */
  function MergedInfo(infos: seq<AgentInfo>, agent: AgentInfo): AgentInfo {
    var own := Dedup(Sockets(infos, agent.id));
    if own == [] then agent else own[0]
  }

  /** The newcomer learns who else is there, then everybody learns of the newcomer. */
  function Introduce(r: Room, k: Sock, me: AgentInfo): Room
    requires Seated(r) && k in r.conns
  {
    var infos := Agents(r);
    var briefed := Send(r, k, AgentList(Dedup(Others(infos, me.id))));
    Announce(briefed, AgentJoined(MergedInfo(infos, me)), me.id)
  }

  function Auth(r: Room, k: Sock, token: string, agent: Option<AgentInfo>, session: string, now: nat): Room
    requires Seated(r) && k in r.conns
  {
    if !Admits(r, k, token) then Close(Send(r, k, AuthFailed), k)
    else
      var entered := Enter(r, k, agent, session, now);
      if agent.None? then entered else Introduce(entered, k, agent.value.(session := session))
  }

  function Listed(r: Room, k: Sock): Room
    requires Seated(r) && k in r.conns
  {
    Send(r, k, if r.conns[k].session.None? then Error else AgentList(Dedup(Agents(r))))
  }

  function ToTargets(r: Room, targets: seq<Candidate<Sock>>, f: Frame): Room
    requires forall c :: c in targets ==> c.item in r.conns
    decreases |targets|
  {
    if targets == [] then r
    else ToTargets(Send(r, targets[0].item, f), targets[1..], f)
  }

  lemma {:induction false} PicksAreCands<T(!new)>(cands: seq<Candidate<T>>, target: Target)
    ensures forall c :: c in Picks(cands, target) ==> c in cands
  {
    PicksSelect(cands, target);
    forall c | c in Picks(cands, target) ensures c in cands { assert Top(c, cands, target); }
  }

  lemma {:induction false} CandsSeated(order: seq<Sock>, conns: map<Sock, Conn>)
    requires forall k :: k in order ==> k in conns
    ensures forall c :: c in Cands(order, conns) <==>
              c.item in order && conns[c.item].agent == Some(c.info)
  {
    if order != [] {
      CandsSeated(order[..|order| - 1], conns);
      assert order == order[..|order| - 1] + [order[|order| - 1]];
    }
  }

  function Commanded(r: Room, k: Sock, request: string, target: Target, payload: string): Room
    requires Seated(r) && k in r.conns
  {
    var cands := Cands(r.order, r.conns);
    var targets := Picks(cands, target);
    if r.conns[k].session.None? then Send(r, k, Error)
    else if targets == [] then Send(r, k, NoTarget(request))
    else
      assert forall c :: c in targets ==> c.item in r.conns by {
        PicksAreCands(cands, target);
        CandsSeated(r.order, r.conns);
      }
      var session := r.conns[k].session.value;
      ToTargets(r.(pending := r.pending[request := session]), targets, Peers.Command(request, session, payload))
  }

  lemma {:induction false} FoundSession(order: seq<Sock>, conns: map<Sock, Conn>, session: string)
    requires forall k :: k in order ==> k in conns
    ensures var s := FindSession(order, conns, session);
            (s.Some? ==> s.value in order && conns[s.value].session == Some(session)) &&
            (s.None? ==> forall k :: k in order ==> conns[k].session != Some(session))
  {
    if order != [] && conns[order[0]].session != Some(session) {
      FoundSession(order[1..], conns, session);
      assert order == [order[0]] + order[1..];
    }
  }

  function Replied(r: Room, k: Sock, request: string, body: string): Room
    requires Seated(r) && k in r.conns
  {
    var f := Reply(request, NameOf(r.conns[k]), body);
    var origin := if request in r.pending && r.pending[request] != "" then FindSession(r.order, r.conns, r.pending[request]) else None;
    if origin.Some? then
      FoundSession(r.order, r.conns, r.pending[request]);
      Send(r, origin.value, f)
    else ToMcp(r, f)
  }

  function Offered(r: Room, k: Sock, toSession: string, signal: string): Room
    requires Seated(r) && k in r.conns
  {
    var to := FindSession(r.order, r.conns, toSession);
    FoundSession(r.order, r.conns, toSession);
    if to.Some? then Send(r, to.value, Udp(SessionOf(r.conns[k]), signal)) else r
  }

  function Updated(r: Room, k: Sock, agent: AgentInfo): Room
    requires k in r.conns
  {
    var c := r.conns[k];
    if c.agent.None? || c.agent.value.id != agent.id then r
    else
      var info := agent.(session := SessionOf(c), connectedAt := c.agent.value.connectedAt);
      var r1 := r.(conns := r.conns[k := c.(agent := Some(info))]);
      Announce(r1, AgentJoined(info), agent.id)
  }

  ghost function Handled(r: Room, k: Sock, msg: Msg, drawn: string, now: nat): Room
    requires Seated(r) && k in r.conns
  {
    match msg
    case AuthMsg(token, agent) => Auth(r, k, token, agent, drawn, now)
    case ListMsg => Listed(r, k)
    case CommandMsg(request, target, payload) => Commanded(r, k, request, target, payload)
    case ResultMsg(request, body) => Replied(r, k, request, body)
    case NotifyMsg(event) => ToMcp(r, Peers.Event(NameOf(r.conns[k]), event))
    case PingMsg => Send(r, k, Pong)
    case CloseMsg => Close(Disconnect(r, k), k)
    case OfferMsg(toSession, signal) => Offered(r, k, toSession, signal)
    case AnswerMsg(signal) => ToMcp(r, Udp(SessionOf(r.conns[k]), signal))
    case UpdateMsg(agent) => Updated(r, k, agent)
    case BadMsg => Send(r, k, Error)
  }

  // --- runs --------------------------------------------------------------------------------------

  /** A session id that nothing in the room uses yet. */
  ghost predicate Unused(r: Room, session: string) {
    session != "" && (forall k :: k in r.conns ==> r.conns[k].session != Some(session)) &&
    forall rid :: rid in r.pending ==> r.pending[rid] != session
  }

  ghost predicate Possible(r: Room, h: Happening) {
    match h
    case Accepted(k, _, _, _) => k !in r.conns
    case Received(k, _, drawn, _) => k in r.conns && Unused(r, drawn)
    case Closed(k) => k in r.conns
    case Broken(k) => k in r.conns
    case _ => true
  }

  ghost function Next(r: Room, h: Happening): Room
    requires Seated(r) && Possible(r, h)
  {
    match h
    case Accepted(k, token, ip, now) =>
      r.(order := r.order + [k], conns := r.conns[k := Conn(None, None, token, ip, Some(now), false, [])])
    case Received(k, msg, drawn, now) => Handled(Touch(r, k, now), k, msg, drawn, now)
    case Closed(k) => Remove(Disconnect(r, k), k)
    case Broken(k) => Close(Disconnect(r, k), k)
    case Alarm(now) => Reap(r, now)
    case Hibernated => r.(pending := map[])
  }
}
