/** Electing a leader among the proposers (paxos-wasm/core/leader-detector/src/leader-detector.rs). */
module LeaderDetection {
  import opened Prelude
  import opened PaxosTypes

  datatype LeaderState = LeaderState(proposers: seq<NodeId>, suspected: map<NodeId, bool>, lastLeader: Option<NodeId>) {
    predicate Suspects(id: NodeId) { id in suspected && suspected[id] }

    /** A proposer that is not suspected. */
    predicate Candidate(id: NodeId) { id in proposers && !Suspects(id) }

    /** The largest candidate, if there is one. */
    ghost predicate Elects(leader: Option<NodeId>) {
      match leader
      case None => forall id: NodeId :: !Candidate(id)
      case Some(l) => Candidate(l) && forall id: NodeId :: Candidate(id) ==> id <= l
    }

    ghost predicate Valid() { Elects(lastLeader) }
  }

  function MaxId(ids: seq<NodeId>): (m: Option<NodeId>)
    ensures m.None? <==> ids == []
    ensures m.Some? ==> m.value in ids && forall id :: id in ids ==> id <= m.value
  {
    if ids == [] then None
    else
      var last := ids[|ids| - 1];
      assert forall id :: id in ids ==> id in ids[..|ids| - 1] || id == last;
      match MaxId(ids[..|ids| - 1])
      case None => Some(last)
      case Some(m) => if last > m then Some(last) else Some(m)
  }

  function Candidates(s: LeaderState, ids: seq<NodeId>): (r: seq<NodeId>)
    ensures forall id :: id in r <==> id in ids && !s.Suspects(id)
  {
    if ids == [] then []
    else
      var (init, last) := (ids[..|ids| - 1], ids[|ids| - 1]);
      assert forall id :: id in ids <==> id in init || id == last;
      if s.Suspects(last) then Candidates(s, init) else Candidates(s, init) + [last]
  }

  function Recompute(s: LeaderState): (leader: Option<NodeId>)
    ensures s.Elects(leader)
  {
    MaxId(Candidates(s, s.proposers))
  }

  /** There is only one leader to elect. */
  lemma ElectsOne(s: LeaderState, a: Option<NodeId>, b: Option<NodeId>)
    requires s.Elects(a) && s.Elects(b)
    ensures a == b
  {
  }

  /** Marking a node; the answer is the new leader if that changed who leads. */
  function Mark(s: LeaderState, node: NodeId, suspect: bool): (r: (LeaderState, Option<NodeId>))
    ensures r.0.proposers == s.proposers && (s.Valid() ==> r.0.Valid())
  {
    if node !in s.proposers then (s, None)
    else
      var marked := s.(suspected := s.suspected[node := suspect]);
      var leader := Recompute(marked);
      if leader != s.lastLeader then (marked.(lastLeader := leader), leader) else (marked, None)
  }

  function Proposers(nodes: seq<Node>): (ids: seq<NodeId>)
    ensures forall id :: id in ids <==> exists n :: n in nodes && n.nodeId == id && (n.role == Coordinator || n.role == Proposer)
  {
    if nodes == [] then []
    else
      var (init, last) := (nodes[..|nodes| - 1], nodes[|nodes| - 1]);
      assert forall n :: n in nodes <==> n in init || n == last;
      if last.role == Coordinator || last.role == Proposer then Proposers(init) + [last.nodeId] else Proposers(init)
  }

  function Start(nodes: seq<Node>): (s: LeaderState)
    ensures s.Valid() && forall id :: !s.Suspects(id)
  {
    var ids := Proposers(nodes);
    LeaderState(ids, map id | id in ids :: false, MaxId(ids))
  }

  method CollectProposers(all: seq<Node>) returns (proposers: seq<NodeId>, suspected: map<NodeId, bool>)
    ensures proposers == Proposers(all) && suspected == map id | id in proposers :: false
  {
    proposers, suspected := [], map[];
    for i := 0 to |all|
      invariant proposers == Proposers(all[..i])
      invariant suspected == map id | id in proposers :: false
    {
      assert all[..i + 1][..i] == all[..i];
      if all[i].role == Coordinator || all[i].role == Proposer {
        proposers := proposers + [all[i].nodeId];
        suspected := suspected[all[i].nodeId := false];
      }
    }
    assert all[..|all|] == all;
  }

  method InitialLeader(proposers: seq<NodeId>) returns (leader: Option<NodeId>)
    ensures leader == MaxId(proposers)
  {
    leader := None;
    for i := 0 to |proposers|
      invariant leader == MaxId(proposers[..i])
    {
      assert proposers[..i + 1][..i] == proposers[..i];
      if leader == None || proposers[i] > leader.value {
        leader := Some(proposers[i]);
      }
    }
    assert proposers[..|proposers|] == proposers;
  }

  class LeaderDetector {
    const proposers: seq<NodeId>
    var suspected: map<NodeId, bool>
    var lastLeader: Option<NodeId>

    function State(): LeaderState
      reads this
    {
      LeaderState(proposers, suspected, lastLeader)
    }

    constructor (all: seq<Node>)
      ensures State() == Start(all)
    {
      var ids, marks := CollectProposers(all);
      var initial := InitialLeader(ids);
      proposers, suspected, lastLeader := ids, marks, initial;
    }

    method Suspect(node: NodeId) returns (changed: Option<NodeId>)
      modifies this
      ensures (State(), changed) == Mark(old(State()), node, true)
    {
      if node !in proposers {
        return None;
      }
      suspected := suspected[node := true];
      var leader := Recompute(State());
      assert leader == Recompute(old(State()).(suspected := suspected)) by {
        RecomputeIgnoresLast(State(), old(State()).(suspected := suspected));
      }
      if leader != lastLeader {
        lastLeader := leader;
        changed := leader;
      } else {
        changed := None;
      }
    }

    method Restore(node: NodeId) returns (changed: Option<NodeId>)
      modifies this
      ensures (State(), changed) == Mark(old(State()), node, false)
    {
      if node !in proposers {
        return None;
      }
      suspected := suspected[node := false];
      var leader := Recompute(State());
      assert leader == Recompute(old(State()).(suspected := suspected)) by {
        RecomputeIgnoresLast(State(), old(State()).(suspected := suspected));
      }
      if leader != lastLeader {
        lastLeader := leader;
        changed := leader;
      } else {
        changed := None;
      }
    }
  }

  lemma RecomputeIgnoresLast(s: LeaderState, t: LeaderState)
    requires s.proposers == t.proposers && s.suspected == t.suspected
    ensures Recompute(s) == Recompute(t)
  {
  }
}

/** Suspecting silent nodes (paxos-wasm/core/failure-detector/src/failure-detector.rs). */
module FailureDetection {
  import opened Prelude
  import opened PaxosTypes
  import opened LeaderDetection

  datatype FailureState = Alive | Suspected | Dead

  datatype DetectorState = DetectorState(
    localId: NodeId, nodes: seq<NodeId>, leader: LeaderState, states: map<NodeId, FailureState>, seen: map<NodeId, bool>)
  {
    function StateOf(id: NodeId): FailureState { if id in states then states[id] else Alive }

    predicate Saw(id: NodeId) { id in seen && seen[id] }
  }

  ghost predicate Distinct(ids: seq<NodeId>) { forall i, j :: 0 <= i < j < |ids| ==> ids[i] != ids[j] }

  function Ids(nodes: seq<Node>): seq<NodeId> { seq(|nodes|, i requires 0 <= i < |nodes| => nodes[i].nodeId) }

  function New(local: Node, others: seq<Node>): DetectorState {
    var all := others + [local];
    var ids := Ids(all);
    DetectorState(local.nodeId, ids, Start(all), map id | id in ids :: Alive, map[])
  }

  function Heartbeat(d: DetectorState, from: NodeId): DetectorState {
    d.(seen := d.seen[from := true][d.localId := true])
  }

  /** One round of the checking loop, for one node. */
  function CheckOne(d: DetectorState, id: NodeId, newLeader: Option<NodeId>): (DetectorState, Option<NodeId>) {
    var taken := d.(seen := d.seen - {id});
    if d.Saw(id) then
      var alive := taken.(states := d.states[id := Alive]);
      if d.StateOf(id) == Alive then (alive, newLeader)
      else
        var (leader, changed) := Mark(d.leader, id, false);
        (alive.(leader := leader), if changed.Some? then changed else newLeader)
    else
      match d.StateOf(id)
      case Alive => (taken.(states := d.states[id := Suspected]), newLeader)
      case Suspected =>
        var (leader, changed) := Mark(d.leader, id, true);
        (taken.(states := d.states[id := Dead], leader := leader), if changed.Some? then changed else newLeader)
      case Dead => (taken, newLeader)
  }

  function CheckFirst(d: DetectorState, n: nat): (DetectorState, Option<NodeId>)
    requires n <= |d.nodes|
  {
    if n == 0 then (d, None)
    else
      var (before, newLeader) := CheckFirst(d, n - 1);
      CheckOne(before, d.nodes[n - 1], newLeader)
  }

  function Check(d: DetectorState): (DetectorState, Option<NodeId>) {
    var (checked, newLeader) := CheckFirst(d, |d.nodes|);
    (checked.(seen := map[]), newLeader)
  }

  function NotDead(d: DetectorState, ids: seq<NodeId>): seq<NodeId> {
    if ids == [] then []
    else
      var init := NotDead(d, ids[..|ids| - 1]);
      if d.StateOf(ids[|ids| - 1]) != Dead then init + [ids[|ids| - 1]] else init
  }

  /** Node by node, in the order of the list, each as often as it is listed. */
  lemma {:induction false} NotDeadInOrder(d: DetectorState, a: seq<NodeId>, b: seq<NodeId>)
    ensures NotDead(d, a + b) == NotDead(d, a) + NotDead(d, b)
    ensures |a| == 1 ==> NotDead(d, a) == if d.StateOf(a[0]) == Dead then [] else a
  {
    hide DetectorState.StateOf;
    if b == [] {
      assert a + b == a;
    } else {
      var (init, last) := (b[..|b| - 1], b[|b| - 1]);
      NotDeadInOrder(d, a, init);
      var all := a + b;
      assert all[..|all| - 1] == a + init && all[|all| - 1] == last;
      OneMoreListed(NotDead(d, a), NotDead(d, init), last);
    }
    NotDeadOne(d, a);
  }

  lemma OneMoreListed(a: seq<NodeId>, b: seq<NodeId>, id: NodeId)
    ensures a + b + [id] == a + (b + [id])
  {
  }

  lemma NotDeadOne(d: DetectorState, a: seq<NodeId>)
    ensures |a| == 1 ==> NotDead(d, a) == if d.StateOf(a[0]) == Dead then [] else a
  {
    hide DetectorState.StateOf;
    if |a| == 1 {
      assert a[..0] == [] && a == [a[0]];
    }
  }

  class FailureDetector {
    const localId: NodeId
    const allNodes: seq<Node>
    const leaderDetector: LeaderDetector
    var stateMap: map<NodeId, FailureState>
    var seen: map<NodeId, bool>

    function State(): DetectorState
      reads this, leaderDetector
    {
      DetectorState(localId, Ids(allNodes), leaderDetector.State(), stateMap, seen)
    }

    constructor (local: Node, others: seq<Node>)
      ensures State() == New(local, others)
      ensures fresh(leaderDetector)
    {
      var all := others + [local];
      leaderDetector := new LeaderDetector(all);
      localId, allNodes, seen := local.nodeId, all, map[];
      var states: map<NodeId, FailureState> := map[];
      for i := 0 to |all|
        invariant states == map id | id in Ids(all[..i]) :: Alive
      {
        assert Ids(all[..i + 1]) == Ids(all[..i]) + [all[i].nodeId];
        states := states[all[i].nodeId := Alive];
      }
      assert all[..|all|] == all;
      stateMap := states;
    }

    method OnHeartbeat(from: NodeId)
      modifies this
      ensures State() == Heartbeat(old(State()), from)
    {
      seen := seen[from := true];
      seen := seen[localId := true];
    }

    method Checker() returns (newLeader: Option<NodeId>)
      modifies this, leaderDetector
      ensures (State(), newLeader) == Check(old(State()))
    {
      newLeader := None;
      ghost var before := State();
      for i := 0 to |allNodes|
        invariant (State(), newLeader) == CheckFirst(before, i)
      {
        var id := allNodes[i].nodeId;
        var current := if id in stateMap then stateMap[id] else Alive;
        var heard := id in seen && seen[id];
        seen := seen - {id};
        if heard {
          if current != Alive {
            var changed := leaderDetector.Restore(id);
            if changed.Some? {
              newLeader := changed;
            }
          }
          stateMap := stateMap[id := Alive];
        } else {
          match current {
            case Alive => stateMap := stateMap[id := Suspected];
            case Suspected =>
              stateMap := stateMap[id := Dead];
              var changed := leaderDetector.Suspect(id);
              if changed.Some? {
                newLeader := changed;
              }
            case Dead =>
          }
        }
      }
      seen := map[];
    }

    method AliveNodes() returns (ids: seq<NodeId>)
      ensures ids == NotDead(State(), State().nodes)
    {
      ids := [];
      var all := Ids(allNodes);
      for i := 0 to |allNodes|
        invariant ids == NotDead(State(), all[..i])
      {
        assert all[..i + 1][..i] == all[..i];
        var id := allNodes[i].nodeId;
        if (if id in stateMap then stateMap[id] else Alive) != Dead {
          ids := ids + [id];
        }
      }
      assert all[..|all|] == all;
    }
  }
}
