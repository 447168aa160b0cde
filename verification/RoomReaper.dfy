/**
 One pass of the reaper (`alarm` in worker/src/room.ts): every machine all of whose
 sockets are stale is announced as gone exactly once, no other is, and the reaped
 sockets keep neither identity nor requests.
 */
module RoomReaper {
  import opened Wrappers
  import opened Peers
  import opened RoomState
  import opened RoomRoster
  import opened RoomRuns
  import opened RoomFrames

  function Departures(frames: seq<Frame>, id: string): nat {
    if frames == [] then 0
    else Departures(frames[..|frames| - 1], id) + if frames[|frames| - 1] == AgentLeft(id) then 1 else 0
  }

  predicate Holds(r: Room, k: Sock, id: string) {
    k in r.conns && r.conns[k].agent.Some? && r.conns[k].agent.value.id == id
  }

  /** No frame came for more than 90 seconds; a socket that was never seen is not silent. */
  predicate Silent(c: Conn, now: nat) {
    c.lastSeen.Some? && now > c.lastSeen.value + 90_000
  }

  /** The machine has sockets, and all of them are among `stale`. */
  ghost predicate AllStale(r: Room, id: string, stale: seq<Sock>) {
    (exists k :: Holds(r, k, id)) && forall k :: Holds(r, k, id) ==> k in stale
  }

  predicate OnlyDepartures(before: seq<Frame>, after: seq<Frame>) {
    before <= after && forall i :: |before| <= i < |after| ==> after[i].AgentLeft?
  }

  /** To a socket that stays, one reaped socket is a departure if it was the last of its machine. */
  lemma ReapOneTells(r: Room, s: Room, k: Sock, stale: seq<Sock>, id: string, j: Sock)
    requires k in r.conns && s.conns.Keys == r.conns.Keys && s.conns[k].agent.None?
    requires forall i :: i in r.conns && i != k ==> s.conns[i] == LeaveHeard(r, k, r.conns[i])
    requires j in r.conns && j != k && !r.conns[j].closing && j !in stale && k !in stale
    ensures !s.conns[j].closing && Own(s.conns[j]) == Own(r.conns[j]) && OnlyDepartures(r.conns[j].wire, s.conns[j].wire)
    ensures Departures(s.conns[j].wire, id) + (if AllStale(s, id, stale) then 1 else 0)
         == Departures(r.conns[j].wire, id) + (if AllStale(r, id, [k] + stale) then 1 else 0)
  {
    var c := r.conns[k];
    forall i ensures Holds(s, i, id) <==> Holds(r, i, id) && i != k {
      assert i in r.conns && i != k ==> SameSeat(r.conns[i], s.conns[i]);
    }
    if c.agent.Some? && !HeldElsewhere(r, k, c.agent.value.id) {
      if c.agent.value.id == id {
        assert Holds(r, k, id);
        assert !AllStale(s, id, stale);
        forall i | Holds(r, i, id) ensures i == k {}
      }
    } else if Holds(r, k, id) {
      var i :| i in r.conns && i != k && r.conns[i].agent.Some? && r.conns[i].agent.value.id == id;
      assert Holds(r, i, id) && Holds(s, i, id);
    }
  }

  /** A pass over any list of sockets: what a socket that stays hears about one machine. */
  lemma {:induction false} ReapAllTells(r: Room, stale: seq<Sock>, id: string, j: Sock)
    requires OnceOnly(stale) && (forall k :: k in stale ==> k in r.conns)
    requires j in r.conns && j !in stale && !r.conns[j].closing
    ensures var s := ReapAll(r, stale);
            j in s.conns && OnlyDepartures(r.conns[j].wire, s.conns[j].wire) &&
            Departures(s.conns[j].wire, id) == Departures(r.conns[j].wire, id) + if AllStale(r, id, stale) then 1 else 0
    decreases |stale|
  {
    if stale != [] {
      var k, rest, s := stale[0], stale[1..], ReapOne(r, stale[0]);
      assert stale == [k] + rest;
      ReapOneTells(r, s, k, rest, id, j);
      ReapAllTells(s, rest, id, j);
    } else {
      assert forall k :: Holds(r, k, id) ==> k !in stale;
    }
  }

  lemma {:induction false} StaleOnce(order: seq<Sock>, conns: map<Sock, Conn>, now: nat)
    requires (forall k :: k in order ==> k in conns) && OnceOnly(order)
    ensures OnceOnly(Stale(order, conns, now))
  {
    if order != [] {
      StaleOnce(order[1..], conns, now);
      StaleSeated(order[1..], conns, now);
    }
  }

  /** The pass announces a machine to each socket that stays: once if all its sockets were
      silent for too long, and not at all if one was not. It sends nothing else. */
  lemma ReaperAnnounces(r: Room, now: nat, id: string, j: Sock)
    requires Seated(r) && j in r.conns && !Silent(r.conns[j], now) && !r.conns[j].closing
    ensures var s := Reap(r, now);
            j in s.conns && OnlyDepartures(r.conns[j].wire, s.conns[j].wire) &&
            Departures(s.conns[j].wire, id) - Departures(r.conns[j].wire, id) ==
            if (exists k :: Holds(r, k, id)) && (forall k :: Holds(r, k, id) ==> Silent(r.conns[k], now)) then 1 else 0
  {
    StaleSeated(r.order, r.conns, now);
    StaleOnce(r.order, r.conns, now);
    ReapAllTells(r, Stale(r.order, r.conns, now), id, j);
  }

  // --- who is reaped ---------------------------------------------------------------------

  /** The sockets that are picked are those that were silent for too long. */
  lemma SilentAreStale(r: Room, now: nat, k: Sock)
    requires Seated(r)
    ensures k in Stale(r.order, r.conns, now) <==> k in r.conns && Silent(r.conns[k], now)
  {
    StaleSeated(r.order, r.conns, now);
  }

  /** A socket whose frame was taken in at `t`, and which did not sign in anew or leave by it, keeps its
      seat through every pass for the next 90 seconds, and loses it in every later one. */
  lemma FrameKeepsSeat(r: Room, k: Sock, msg: Msg, drawn: string, t: nat, now: nat)
    requires Seated(r) && Possible(r, Received(k, msg, drawn, t)) && !msg.AuthMsg? && !msg.CloseMsg?
    ensures var s := Next(r, Received(k, msg, drawn, t));
            Seated(s) && k in s.conns && k in Reap(s, now).conns &&
            if now <= t + 90_000 then SameSeat(s.conns[k], Reap(s, now).conns[k]) else Reaped(Reap(s, now).conns[k])
  {
    var s := Next(r, Received(k, msg, drawn, t));
    NextSeated(r, Received(k, msg, drawn, t));
    KeepsTouch(Touch(r, k, t), k, msg, drawn, t);
    ReaperStrips(s, now);
  }

  /** Neither signing in nor leaving, a frame does not change when its socket was heard from. */
  lemma KeepsTouch(r: Room, k: Sock, msg: Msg, drawn: string, t: nat)
    requires Seated(r) && k in r.conns && !msg.AuthMsg? && !msg.CloseMsg?
    ensures var s := Handled(r, k, msg, drawn, t); k in s.conns && s.conns[k].lastSeen == r.conns[k].lastSeen
  {
    match msg {
      case CommandMsg(_, _, _) => CommandKeepsTouch(r, k, msg);
      case ResultMsg(request, body) => RepliedSeats(r, k, request, body);
        assert SameSeat(r.conns[k], Replied(r, k, request, body).conns[k]);
      case UpdateMsg(agent) => UpdateIsAnnounced(r, k, agent, drawn, t);
      case OfferMsg(toSession, signal) => FoundSession(r.order, r.conns, toSession);
      case _ =>
    }
  }

  lemma CommandKeepsTouch(r: Room, k: Sock, msg: Msg)
    requires Seated(r) && k in r.conns && msg.CommandMsg?
    ensures var s := Commanded(r, k, msg.request, msg.target, msg.payload); k in s.conns && s.conns[k].lastSeen == r.conns[k].lastSeen
  {
    CommandedSeats(r, k, msg);
    assert SameSeat(r.conns[k], Commanded(r, k, msg.request, msg.target, msg.payload).conns[k]);
  }

  // --- the reaped -----------------------------------------------------------------------

  /** Stripped of identity, session and requests, and asked to close. */
  predicate Reaped(c: Conn) {
    c.agent.None? && c.session.None? && c.closing
  }

  lemma {:induction false} ReapAllStrips(r: Room, stale: seq<Sock>)
    requires forall k :: k in stale ==> k in r.conns
    ensures var s := ReapAll(r, stale);
            s.conns.Keys == r.conns.Keys && s.order == r.order &&
            (forall k :: k in r.conns ==> if k in stale then Reaped(s.conns[k]) else SameSeat(r.conns[k], s.conns[k])) &&
            (forall k :: k in r.conns && Reaped(r.conns[k]) ==> Reaped(s.conns[k]))
    decreases |stale|
  {
    if stale != [] {
      var k, s := stale[0], ReapOne(r, stale[0]);
      assert stale == [k] + stale[1..];
      ReapAllStrips(s, stale[1..]);
    }
  }

  /** Some socket of `stale` has the session. */
  ghost predicate SessionAmong(conns: map<Sock, Conn>, stale: seq<Sock>, session: string) {
    exists k :: k in stale && k in conns && conns[k].session == Some(session)
  }

  lemma {:induction false} ReapAllDrops(r: Room, stale: seq<Sock>)
    requires OnceOnly(stale) && forall k :: k in stale ==> k in r.conns
    ensures ReapAll(r, stale).pending == map rid | rid in r.pending && !SessionAmong(r.conns, stale, r.pending[rid]) :: r.pending[rid]
    decreases |stale|
  {
    if stale != [] {
      var k, rest, s := stale[0], stale[1..], ReapOne(r, stale[0]);
      assert stale == [k] + rest;
      ReapAllDrops(s, rest);
      forall session ensures SessionAmong(r.conns, stale, session) <==>
                             r.conns[k].session == Some(session) || SessionAmong(s.conns, rest, session)
      {}
    }
  }

  /** After the pass the reaped sockets have nothing left, the others everything; only the
      requests of reaped sessions are dropped. */
  lemma ReaperStrips(r: Room, now: nat)
    requires Seated(r)
    ensures var s := Reap(r, now);
            s.conns.Keys == r.conns.Keys &&
            (forall k :: k in r.conns ==> if Silent(r.conns[k], now) then Reaped(s.conns[k]) else SameSeat(r.conns[k], s.conns[k])) &&
            s.pending == map rid | rid in r.pending && !StaleSession(r, now, r.pending[rid]) :: r.pending[rid]
  {
    var stale := Stale(r.order, r.conns, now);
    StaleSeated(r.order, r.conns, now);
    StaleOnce(r.order, r.conns, now);
    ReapAllStrips(r, stale);
    ReapAllDrops(r, stale);
    forall rid | rid in r.pending ensures SessionAmong(r.conns, stale, r.pending[rid]) <==> StaleSession(r, now, r.pending[rid]) {
      forall k | k in r.conns ensures k in stale <==> Silent(r.conns[k], now) {}
    }
  }

  ghost predicate StaleSession(r: Room, now: nat, session: string) {
    exists k :: k in r.conns && Silent(r.conns[k], now) && r.conns[k].session == Some(session)
  }

  /** A reaped socket that closes later is announced no more, and drops nothing more. */
  lemma ReapedCloseSilently(r: Room, k: Sock)
    requires k in r.conns && Reaped(r.conns[k])
    ensures Disconnect(r, k) == r
  {
    assert Dropped(r.pending, None) == r.pending;
  }
}
