/**
 Frames a room sends, and the list of peers a client keeps from them
 (crates/mcp-server/src/state.rs and relay_controller.rs).
 */
module Peers {
  import opened Routing

  datatype Frame =
    | AuthOk(session: string)
    | AuthFailed
    | YourEndpoint(addr: string)
    | AgentList(agents: seq<AgentInfo>)
    | AgentJoined(agent: AgentInfo)
    | AgentLeft(id: string)
    | Command(request: string, fromSession: string, payload: string)
    | Reply(request: string, agentId: string, body: string)
    | NoTarget(request: string)
    | Event(agentId: string, event: string)
    | Udp(fromSession: string, signal: string)
    | Pong
    | Error

  function Ids(list: seq<AgentInfo>): set<string> {
    set k | 0 <= k < |list| :: list[k].id
  }

  /** Replace the first entry of the same id, or append. */
  function Upsert(list: seq<AgentInfo>, peer: AgentInfo): seq<AgentInfo> {
    var k := At(list, peer.id);
    if k < |list| then list[k := peer] else list + [peer]
  }

  function Without(list: seq<AgentInfo>, id: string): seq<AgentInfo> {
    if list == [] then []
    else Without(list[..|list| - 1], id) + if list[|list| - 1].id == id then [] else [list[|list| - 1]]
  }

  /** One frame, as the client takes it in. */
  function Apply(list: seq<AgentInfo>, f: Frame): seq<AgentInfo> {
    match f
    case AgentList(agents) => agents
    case AgentJoined(agent) => Upsert(list, agent)
    case AgentLeft(id) => Without(list, id)
    case _ => list
  }

  function View(list: seq<AgentInfo>, frames: seq<Frame>): seq<AgentInfo> {
    if frames == [] then list else Apply(View(list, frames[..|frames| - 1]), frames[|frames| - 1])
  }

  predicate HasList(frames: seq<Frame>) {
    exists f :: f in frames && f.AgentList?
  }

  lemma ViewStep(list: seq<AgentInfo>, frames: seq<Frame>, f: Frame)
    ensures View(list, frames + [f]) == Apply(View(list, frames), f)
  {
    assert (frames + [f])[..|frames|] == frames;
  }

  /** Taking in some frames now and the rest later is taking them in all at once. */
  lemma {:induction false} ViewConcat(list: seq<AgentInfo>, some: seq<Frame>, rest: seq<Frame>)
    ensures View(View(list, some), rest) == View(list, some + rest)
  {
    if rest == [] {
      assert some + rest == some;
    } else {
      var init := rest[..|rest| - 1];
      ViewConcat(list, some, init);
      assert (some + rest)[..|some + rest| - 1] == some + init;
    }
  }

  /** Once a full list came, what the client believed before does not matter. */
  lemma {:induction false} ListForgets(a: seq<AgentInfo>, b: seq<AgentInfo>, frames: seq<Frame>)
    requires HasList(frames)
    ensures View(a, frames) == View(b, frames)
  {
    var init, last := frames[..|frames| - 1], frames[|frames| - 1];
    assert frames == init + [last];
    if !last.AgentList? {
      var f :| f in frames && f.AgentList?;
      assert f in init;
      ListForgets(a, b, init);
    }
  }

  lemma UpsertIds(list: seq<AgentInfo>, peer: AgentInfo)
    ensures Ids(Upsert(list, peer)) == Ids(list) + {peer.id}
    ensures ApartInfos(list) ==> ApartInfos(Upsert(list, peer))
  {
    var k, more := At(list, peer.id), Upsert(list, peer);
    forall i | 0 <= i < |list| ensures more[i].id == list[i].id {}
    assert more[k].id == peer.id;
    assert Ids(more) <= Ids(list) + {peer.id};
    forall id | id in Ids(list) ensures id in Ids(more) {
      var i :| 0 <= i < |list| && list[i].id == id;
      assert more[i].id == id;
    }
  }

  lemma {:induction false} WithoutIds(list: seq<AgentInfo>, id: string)
    ensures Ids(Without(list, id)) == Ids(list) - {id}
    ensures ApartInfos(list) ==> ApartInfos(Without(list, id))
  {
    if list != [] {
      var init, last := list[..|list| - 1], list[|list| - 1];
      WithoutIds(init, id);
      IdsGrow(init, last);
      IdsGrow(Without(init, id), last);
      assert init + [last] == list && Without(init, id) + [] == Without(init, id);
      if ApartInfos(list) {
        forall k | 0 <= k < |init| ensures init[k].id != last.id { assert list[k] == init[k]; }
        assert ApartInfos(init) by {
          forall i, j | 0 <= i < j < |init| ensures init[i].id != init[j].id { assert list[i].id != list[j].id; }
        }
        assert last.id !in Ids(init);
      }
    }
  }

  lemma IdsGrow(list: seq<AgentInfo>, a: AgentInfo)
    ensures Ids(list + [a]) == Ids(list) + {a.id}
    ensures ApartInfos(list) && a.id !in Ids(list) ==> ApartInfos(list + [a])
  {
    var more := list + [a];
    assert more[|list|] == a;
    forall k | 0 <= k < |list| ensures more[k].id in Ids(more) && list[k].id in Ids(list) && more[k] == list[k] {}
  }

  /** The client's copy of the roster. */
  class PeerList {
    var peers: seq<AgentInfo>

    constructor ()
      ensures peers == []
    {
      peers := [];
    }

    method Handle(f: Frame)
      modifies this
      ensures peers == Apply(old(peers), f)
    {
      match f {
        case AgentList(agents) => peers := agents;
        case AgentJoined(agent) => UpsertPeer(agent);
        case AgentLeft(id) => RemovePeer(id);
        case _ =>
      }
    }

    method UpsertPeer(peer: AgentInfo)
      modifies this
      ensures peers == Upsert(old(peers), peer)
    {
      var k := 0;
      while k < |peers| && peers[k].id != peer.id
        invariant k <= |peers| && peers == old(peers)
        invariant forall i :: 0 <= i < k ==> peers[i].id != peer.id
      {
        k := k + 1;
      }
      peers := if k < |peers| then peers[k := peer] else peers + [peer];
    }

    method RemovePeer(id: string)
      modifies this
      ensures peers == Without(old(peers), id)
    {
      var kept: seq<AgentInfo> := [];
      var k := 0;
      while k < |peers|
        invariant k <= |peers| && peers == old(peers)
        invariant kept == Without(peers[..k], id)
      {
        assert peers[..k + 1][..k] == peers[..k];
        if peers[k].id != id {
          kept := kept + [peers[k]];
        }
        k := k + 1;
      }
      assert peers[..k] == peers;
      peers := kept;
    }
  }
}
