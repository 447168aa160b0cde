/**
 Who gets what: commands reach one socket of each machine they are meant for, updates
 keep a peer's seat, and authentication answers before it introduces.
 */
module RoomTraffic {
  import opened Wrappers
  import opened Routing
  import opened Peers
  import opened RoomState
  import opened RoomRoster
  import opened RoomRuns
  import opened RoomFrames

  // --- commands ---------------------------------------------------------------------

  predicate Targeted(targets: seq<Candidate<Sock>>, j: Sock) {
    exists i :: 0 <= i < |targets| && targets[i].item == j
  }

  predicate DifferentItems(targets: seq<Candidate<Sock>>) {
    forall i, j :: 0 <= i < j < |targets| ==> targets[i].item != targets[j].item
  }

  lemma {:induction false} ToTargetsAt(r: Room, targets: seq<Candidate<Sock>>, f: Frame, j: Sock)
    requires (forall c :: c in targets ==> c.item in r.conns) && DifferentItems(targets) && j in r.conns
    ensures var s := ToTargets(r, targets, f);
            j in s.conns && s.conns[j] == if Targeted(targets, j) then Heard(r.conns[j], f) else r.conns[j]
    decreases |targets|
  {
    if targets != [] {
      var rest, s := targets[1..], Send(r, targets[0].item, f);
      assert DifferentItems(rest) by {
        forall a, b | 0 <= a < b < |rest| ensures rest[a].item != rest[b].item {
          assert targets[a + 1].item != targets[b + 1].item;
        }
      }
      ToTargetsAt(s, rest, f, j);
      assert Targeted(targets, j) <==> targets[0].item == j || Targeted(rest, j) by {
        if Targeted(rest, j) {
          var i :| 0 <= i < |rest| && rest[i].item == j;
          assert targets[i + 1].item == j;
        }
        if Targeted(targets, j) {
          var i :| 0 <= i < |targets| && targets[i].item == j;
          assert i > 0 ==> rest[i - 1].item == j;
        }
      }
      assert targets[0].item == j ==> !Targeted(rest, j) by {
        forall i | 0 <= i < |rest| ensures rest[i].item != targets[0].item {
          assert targets[i + 1].item != targets[0].item;
        }
      }
    }
  }

  lemma PicksDiffer(r: Room, target: Target)
    requires Seated(r)
    ensures DifferentItems(Picks(Cands(r.order, r.conns), target))
    ensures forall c :: c in Picks(Cands(r.order, r.conns), target) ==> c.item in r.conns && r.conns[c.item].agent == Some(c.info)
  {
    var cands := Cands(r.order, r.conns);
    var targets := Picks(cands, target);
    PicksAreCands(cands, target);
    CandsSeated(r.order, r.conns);
    PicksSelect(cands, target);
    forall i, j | 0 <= i < j < |targets| ensures targets[i].item != targets[j].item {
      assert targets[i] in targets && targets[j] in targets && targets[i].info.id != targets[j].info.id;
    }
  }

  /** A command with a target arrives once at each selected socket and nowhere else, under
      the session that issued it; one without is answered to its sender alone. */
  lemma CommandArrives(r: Room, k: Sock, request: string, target: Target, payload: string, j: Sock)
    requires Seated(r) && k in r.conns && j in r.conns && r.conns[k].session.Some?
    ensures var targets := Picks(Cands(r.order, r.conns), target);
            var s := Commanded(r, k, request, target, payload);
            Selection(targets, Cands(r.order, r.conns), target) && j in s.conns &&
            Gets(r.conns[j], s.conns[j],
                 if targets == [] then (if j == k then [NoTarget(request)] else [])
                 else if Targeted(targets, j) then [Peers.Command(request, r.conns[k].session.value, payload)] else []) &&
            s.pending == if targets == [] then r.pending else r.pending[request := r.conns[k].session.value]
  {
    var cands := Cands(r.order, r.conns);
    var targets := Picks(cands, target);
    PicksSelect(cands, target);
    PicksDiffer(r, target);
    CommandedSeats(r, k, CommandMsg(request, target, payload));
    assert r.conns[j].wire + [] == r.conns[j].wire;
    if targets != [] {
      var session := r.conns[k].session.value;
      ToTargetsAt(r.(pending := r.pending[request := session]), targets, Peers.Command(request, session, payload), j);
    }
  }

  // --- updates ---------------------------------------------------------------------------

  /** An update under the socket's own id changes its description but not its seat: id,
      session and seniority stay; any other update does nothing. */
  lemma UpdateKeepsSeat(r: Room, k: Sock, agent: AgentInfo)
    requires Seated(r) && k in r.conns
    ensures var s := Updated(r, k, agent); var before := r.conns[k].agent;
            k in s.conns && s.conns[k].session == r.conns[k].session &&
            if before.Some? && before.value.id == agent.id
            then s.conns[k].agent.Some? &&
                 var after := s.conns[k].agent.value;
                 after.id == before.value.id && after.connectedAt == before.value.connectedAt &&
                 after.session == SessionOf(r.conns[k]) && Score(after) == Score(agent)
            else s == r
  {
    var c := r.conns[k];
    if c.agent.Some? && c.agent.value.id == agent.id {
      var info := agent.(session := SessionOf(c), connectedAt := c.agent.value.connectedAt);
      var t := r.(conns := r.conns[k := c.(agent := Some(info))]);
      SeatsAreSessions(t, Announce(t, AgentJoined(info), agent.id));
    }
  }

  // --- authentication -----------------------------------------------------------------------

  /** A refused socket is told so, closed, and left without session; nobody else notices.
      An admitted one hears of its session before anything else. */
  lemma AuthAnswersFirst(r: Room, k: Sock, token: string, agent: Option<AgentInfo>, session: string, now: nat)
    requires Seated(r) && k in r.conns && !r.conns[k].closing
    ensures var s := Auth(r, k, token, agent, session, now);
            k in s.conns &&
            if TokensMatch(r, k, token)
            then s.conns[k].session == Some(session) && !s.conns[k].closing &&
                 r.conns[k].wire + [AuthOk(session)] <= s.conns[k].wire
            else s == r.(conns := r.conns[k := r.conns[k].(wire := r.conns[k].wire + [AuthFailed], closing := true)])
  {
    if Admits(r, k, token) {
      var e := Enter(r, k, agent, session, now);
      EnterStarts(r, k, agent, session, now);
      if agent.Some? {
        IntroduceAdds(e, k, agent.value.(session := session));
      }
    }
  }

  lemma EnterStarts(r: Room, k: Sock, agent: Option<AgentInfo>, session: string, now: nat)
    requires k in r.conns && !r.conns[k].closing
    ensures var e := Enter(r, k, agent, session, now);
            k in e.conns && e.conns[k].session == Some(session) && !e.conns[k].closing &&
            r.conns[k].wire + [AuthOk(session)] <= e.conns[k].wire
  {}

  lemma IntroduceAdds(e: Room, k: Sock, me: AgentInfo)
    requires Seated(e) && k in e.conns && !e.conns[k].closing
    ensures var s := Introduce(e, k, me);
            k in s.conns && s.conns[k].session == e.conns[k].session && !s.conns[k].closing && e.conns[k].wire <= s.conns[k].wire
  {
    var infos := Agents(e);
    var f := AgentList(Dedup(Others(infos, me.id)));
    var t := Send(e, k, f);
    AnnounceReaches(t, AgentJoined(MergedInfo(infos, me)), me.id);
    assert t.conns[k].wire == e.conns[k].wire + [f];
  }
}
