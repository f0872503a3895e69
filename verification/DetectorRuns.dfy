/** What the two detectors say after any run of heartbeats and checks. */
module DetectorRuns {
  import opened Prelude
  import opened PaxosTypes
  import opened LeaderDetection
  import opened FailureDetection

  datatype Event = Heard(from: NodeId) | Checked

  function Step(d: DetectorState, e: Event): DetectorState {
    match e
    case Heard(from) => Heartbeat(d, from)
    case Checked => Check(d).0
  }

  function After(d: DetectorState, events: seq<Event>): DetectorState {
    if events == [] then d else Step(After(d, events[..|events| - 1]), events[|events| - 1])
  }

  // ----- the history, independently of the detector ------------------------------------

  /** The senders heard in each completed round, and since the last check. */
  function Rounds(events: seq<Event>): (seq<seq<NodeId>>, seq<NodeId>) {
    if events == [] then ([], [])
    else
      var (rounds, current) := Rounds(events[..|events| - 1]);
      match events[|events| - 1]
      case Heard(from) => (rounds, current + [from])
      case Checked => (rounds + [current], [])
  }

  /** Any heartbeat counts for the local node too. */
  predicate HeardIn(round: seq<NodeId>, local: NodeId, id: NodeId) { id in round || (id == local && round != []) }

  /** How many of the last rounds in a row missed this node. */
  function Misses(rounds: seq<seq<NodeId>>, local: NodeId, id: NodeId): nat {
    if rounds == [] || HeardIn(rounds[|rounds| - 1], local, id) then 0
    else 1 + Misses(rounds[..|rounds| - 1], local, id)
  }

  function Judged(misses: nat): FailureState { if misses == 0 then Alive else if misses == 1 then Suspected else Dead }

  function Verdict(events: seq<Event>, local: NodeId, id: NodeId): FailureState {
    Judged(Misses(Rounds(events).0, local, id))
  }

  // ----- one check ----------------------------------------------------------------------

  function Next(state: FailureState, heard: bool): FailureState {
    if heard then Alive else if state == Alive then Suspected else Dead
  }

  /** The leader detector suspects exactly the dead proposers, and has elected from the rest. */
  ghost predicate InStep(d: DetectorState) {
    && Distinct(d.nodes) && d.leader.Valid()
    && (forall id :: id in d.leader.proposers ==> id in d.nodes)
    && (forall id: NodeId :: d.leader.Suspects(id) <==> id in d.leader.proposers && d.StateOf(id) == Dead)
  }

  lemma MarkFacts(s: LeaderState, id: NodeId, suspect: bool)
    ensures var m := Mark(s, id, suspect).0;
      && m.proposers == s.proposers && (s.Valid() ==> m.Valid())
      && (forall x: NodeId :: m.Suspects(x) <==> if x == id && id in s.proposers then suspect else s.Suspects(x))
  {
  }

  /** Checking one node moves that node one step, and no other. */
  ghost predicate Moves(d: DetectorState, c: DetectorState, id: NodeId) {
    && c.nodes == d.nodes && c.localId == d.localId && c.leader.proposers == d.leader.proposers
    && c.StateOf(id) == Next(d.StateOf(id), d.Saw(id))
    && (forall x: NodeId :: x != id ==> c.StateOf(x) == d.StateOf(x) && c.Saw(x) == d.Saw(x))
  }

  lemma CheckOneMoves(d: DetectorState, id: NodeId, newLeader: Option<NodeId>)
    ensures Moves(d, CheckOne(d, id, newLeader).0, id)
  {
  }

  lemma CheckOneInStep(d: DetectorState, id: NodeId, newLeader: Option<NodeId>)
    requires InStep(d)
    ensures InStep(CheckOne(d, id, newLeader).0)
  {
    hide Mark, LeaderState.Valid, Distinct;
    MarkFacts(d.leader, id, true);
    MarkFacts(d.leader, id, false);
  }

  ghost predicate Checks(d: DetectorState, c: DetectorState, n: nat)
    requires n <= |d.nodes|
  {
    && c.nodes == d.nodes && c.localId == d.localId && c.leader.proposers == d.leader.proposers
    && (forall i :: 0 <= i < n ==> c.StateOf(d.nodes[i]) == Next(d.StateOf(d.nodes[i]), d.Saw(d.nodes[i])))
    && (forall i :: n <= i < |d.nodes| ==>
          c.StateOf(d.nodes[i]) == d.StateOf(d.nodes[i]) && c.Saw(d.nodes[i]) == d.Saw(d.nodes[i]))
  }

  lemma ChecksExtend(d: DetectorState, before: DetectorState, c: DetectorState, n: nat)
    requires Distinct(d.nodes) && n < |d.nodes| && Checks(d, before, n) && Moves(before, c, d.nodes[n])
    ensures Checks(d, c, n + 1)
  {
  }

  lemma ChecksNothing(d: DetectorState)
    ensures Checks(d, d, 0)
  {
  }

  lemma ChecksNodes(d: DetectorState, c: DetectorState, n: nat)
    requires n <= |d.nodes| && Checks(d, c, n)
    ensures c.nodes == d.nodes
  {
  }

  lemma OneMoreChecks(d: DetectorState, before: DetectorState, newLeader: Option<NodeId>, n: nat)
    requires Distinct(d.nodes) && n < |d.nodes| && Checks(d, before, n) && InStep(before)
    ensures var c := CheckOne(before, d.nodes[n], newLeader).0; Checks(d, c, n + 1) && InStep(c)
  {
    hide CheckOne, InStep, Next, Moves, Distinct, Checks;
    ChecksNodes(d, before, n);
    CheckOneMoves(before, d.nodes[n], newLeader);
    CheckOneInStep(before, d.nodes[n], newLeader);
    ChecksExtend(d, before, CheckOne(before, d.nodes[n], newLeader).0, n);
  }

  lemma {:induction false} CheckFirstFacts(d: DetectorState, n: nat)
    requires InStep(d) && n <= |d.nodes|
    ensures Checks(d, CheckFirst(d, n).0, n) && InStep(CheckFirst(d, n).0)
  {
    hide CheckOne, InStep, Distinct, Checks;
    StepIsDistinct(d);
    if n == 0 {
      ChecksNothing(d);
    } else {
      CheckFirstFacts(d, n - 1);
      var (before, newLeader) := CheckFirst(d, n - 1);
      OneMoreChecks(d, before, newLeader, n - 1);
    }
  }

  lemma StepIsDistinct(d: DetectorState)
    requires InStep(d)
    ensures Distinct(d.nodes)
  {
  }

  // ----- runs -----------------------------------------------------------------------------

  /** The detector's state is what the history says. */
  ghost predicate Follows(d: DetectorState, all: seq<Node>, local: NodeId, events: seq<Event>) {
    && InStep(d) && d.localId == local && d.nodes == Ids(all) && d.leader.proposers == Proposers(all)
    && (forall id :: id in d.nodes ==> d.StateOf(id) == Verdict(events, local, id))
    && (forall id: NodeId :: d.Saw(id) <==> HeardIn(Rounds(events).1, local, id))
  }

  lemma ProposersAreNodes(all: seq<Node>)
    ensures forall id :: id in Proposers(all) ==> id in Ids(all)
  {
    forall id | id in Proposers(all) ensures id in Ids(all) {
      var n :| n in all && n.nodeId == id;
      var i :| 0 <= i < |all| && all[i] == n;
      assert Ids(all)[i] == id;
    }
  }

  lemma CheckFollows(d: DetectorState, all: seq<Node>, local: NodeId, events: seq<Event>)
    requires Follows(d, all, local, events)
    ensures Follows(Check(d).0, all, local, events + [Checked])
  {
    hide CheckFirst, Distinct, InStep, Verdict, Rounds, Proposers, DetectorState.StateOf;
    CheckFirstFacts(d, |d.nodes|);
    ClearInStep(CheckFirst(d, |d.nodes|).0);
    var c := CheckFirst(d, |d.nodes|).0;
    forall id | id in d.nodes ensures Check(d).0.StateOf(id) == Verdict(events + [Checked], local, id) {
      var i :| 0 <= i < |d.nodes| && d.nodes[i] == id;
      ClearKeepsState(c, id);
      VerdictOfRound(events, local, id);
    }
    RoundEnds(events);
    NothingSeen(c, events, local);
  }

  lemma NothingSeen(d: DetectorState, events: seq<Event>, local: NodeId)
    ensures forall id: NodeId :: d.(seen := map[]).Saw(id) <==> HeardIn(Rounds(events + [Checked]).1, local, id)
  {
    RoundEnds(events);
  }

  lemma ClearInStep(d: DetectorState)
    requires InStep(d)
    ensures InStep(d.(seen := map[]))
  {
  }

  lemma ClearKeepsState(d: DetectorState, id: NodeId)
    ensures d.(seen := map[]).StateOf(id) == d.StateOf(id)
  {
  }

  lemma RoundEnds(events: seq<Event>)
    ensures Rounds(events + [Checked]) == (Rounds(events).0 + [Rounds(events).1], [])
  {
  }

  lemma VerdictOfRound(events: seq<Event>, local: NodeId, id: NodeId)
    ensures Verdict(events + [Checked], local, id) ==
      Next(Verdict(events, local, id), HeardIn(Rounds(events).1, local, id))
  {
  }

  lemma HeartbeatFollows(d: DetectorState, all: seq<Node>, local: NodeId, events: seq<Event>, from: NodeId)
    requires Follows(d, all, local, events)
    ensures Follows(Heartbeat(d, from), all, local, events + [Heard(from)])
  {
    var later := events + [Heard(from)];
    assert later[..|events|] == events;
    var (rounds, current) := Rounds(events);
    assert Rounds(later) == (rounds, current + [from]);
    hide Misses, Distinct, LeaderState.Elects, Rounds;
    assert InStep(Heartbeat(d, from));
    forall id: NodeId ensures Heartbeat(d, from).Saw(id) <==> HeardIn(current + [from], local, id) {
      assert d.Saw(id) <==> HeardIn(current, local, id);
    }
  }

  lemma StartFollows(local: Node, others: seq<Node>)
    requires Distinct(Ids(others + [local]))
    ensures Follows(New(local, others), others + [local], local.nodeId, [])
  {
    ProposersAreNodes(others + [local]);
  }

  lemma {:induction false} RunFollows(local: Node, others: seq<Node>, events: seq<Event>)
    requires Distinct(Ids(others + [local]))
    ensures Follows(After(New(local, others), events), others + [local], local.nodeId, events)
  {
    if events == [] {
      StartFollows(local, others);
    } else {
      var (init, last) := (events[..|events| - 1], events[|events| - 1]);
      RunFollows(local, others, init);
      assert events == init + [last];
      var d := After(New(local, others), init);
      hide Follows, Check, Heartbeat;
      match last
      case Heard(from) => HeartbeatFollows(d, others + [local], local.nodeId, init, from);
      case Checked => CheckFollows(d, others + [local], local.nodeId, init);
    }
  }

  /** A node's state is the verdict on its missed rounds, a proposer is suspected exactly
      if that verdict is Dead, the leader is the largest proposer whose verdict is not, and
      the nodes reported alive are those whose verdict is not. */
  ghost predicate Refines(local: Node, others: seq<Node>, events: seq<Event>) {
    var (all, d) := (others + [local], After(New(local, others), events));
    && (forall id :: id in Ids(all) ==> d.StateOf(id) == Verdict(events, local.nodeId, id))
    && (forall id :: id in Proposers(all) ==> (d.leader.Suspects(id) <==> Verdict(events, local.nodeId, id) == Dead))
    && (forall id: NodeId :: id in NotDead(d, d.nodes) <==> id in Ids(all) && Verdict(events, local.nodeId, id) != Dead)
    && match d.leader.lastLeader
       case None => forall id :: id in Proposers(all) ==> Verdict(events, local.nodeId, id) == Dead
       case Some(l) =>
         && l in Proposers(all) && Verdict(events, local.nodeId, l) != Dead
         && forall id :: id in Proposers(all) && Verdict(events, local.nodeId, id) != Dead ==> id <= l
  }

  /** After any run of distinct nodes, all of that holds. */
  lemma DetectorRefinesHistory(local: Node, others: seq<Node>, events: seq<Event>)
    requires Distinct(Ids(others + [local]))
    ensures Refines(local, others, events)
  {
    RunFollows(local, others, events);
    FollowsMeans(After(New(local, others), events), others + [local], local.nodeId, events);
  }

  lemma FollowsMeans(d: DetectorState, all: seq<Node>, local: NodeId, events: seq<Event>)
    requires Follows(d, all, local, events)
    ensures forall id :: id in Ids(all) ==> d.StateOf(id) == Verdict(events, local, id)
    ensures forall id :: id in Proposers(all) ==> (d.leader.Suspects(id) <==> Verdict(events, local, id) == Dead)
    ensures forall id: NodeId :: id in NotDead(d, d.nodes) <==> id in Ids(all) && Verdict(events, local, id) != Dead
    ensures match d.leader.lastLeader
      case None => forall id :: id in Proposers(all) ==> Verdict(events, local, id) == Dead
      case Some(l) =>
        && l in Proposers(all) && Verdict(events, local, l) != Dead
        && forall id :: id in Proposers(all) && Verdict(events, local, id) != Dead ==> id <= l
  {
    hide Verdict, Distinct, Ids, Proposers, NotDead;
    forall id: NodeId ensures id in NotDead(d, d.nodes) <==> id in d.nodes && d.StateOf(id) != Dead {
      NotDeadHas(d, d.nodes, id);
    }
    forall id | id in d.leader.proposers ensures d.leader.Candidate(id) <==> Verdict(events, local, id) != Dead {
      assert id in d.nodes;
    }
  }

  lemma {:induction false} NotDeadHas(d: DetectorState, ids: seq<NodeId>, id: NodeId)
    ensures id in NotDead(d, ids) <==> id in ids && d.StateOf(id) != Dead
  {
    if ids != [] {
      var init := ids[..|ids| - 1];
      NotDeadHas(d, init, id);
      assert ids == init + [ids[|ids| - 1]];
    }
  }

  // ----- leader changes -------------------------------------------------------------------

  /** A report says whether the leader changed, and who leads now. */
  predicate Exact(before: Option<NodeId>, after: Option<NodeId>, report: Option<NodeId>) {
    && (report.Some? <==> before != after)
    && (report.Some? ==> report == after)
  }

  /** Among the nodes already visited, something rules the old leader out for the rest
      of the loop: it died, or a larger one (any, if there was none) came back. */
  ghost predicate Gone(before: Option<NodeId>, s: LeaderState, visited: seq<NodeId>) {
    || (before.Some? && before.value in visited && s.Suspects(before.value))
    || exists id :: id in visited && s.Candidate(id) && (before.Some? ==> before.value < id)
  }

  lemma GoneMeans(before: Option<NodeId>, s: LeaderState, visited: seq<NodeId>)
    requires s.Valid() && Gone(before, s, visited)
    ensures s.lastLeader != before
  {
  }

  /** While the leader is the old one nothing was reported; once it is not, it can never
      be again in this loop, and the last report names whoever leads. */
  ghost predicate Tracked(before: Option<NodeId>, s: LeaderState, visited: seq<NodeId>, report: Option<NodeId>) {
    && s.Valid()
    && if s.lastLeader == before then report == None
       else Gone(before, s, visited) && (s.lastLeader.Some? ==> report == s.lastLeader)
  }

  lemma GoneStays(before: Option<NodeId>, s: LeaderState, visited: seq<NodeId>, id: NodeId, suspect: bool)
    requires Gone(before, s, visited) && id !in visited
    ensures Gone(before, Mark(s, id, suspect).0, visited + [id])
  {
    hide Recompute;
    var m := Mark(s, id, suspect).0;
    if x :| x in visited && s.Candidate(x) && (before.Some? ==> before.value < x) {
      assert x in visited + [id] && m.Candidate(x);
    } else {
      assert before.value in visited + [id] && m.Suspects(before.value);
    }
  }

  /** A first change is caused by the node visited: the leader died, or this one came
      back above it. */
  lemma FirstChange(s: LeaderState, visited: seq<NodeId>, id: NodeId, suspect: bool)
    requires s.Valid() && Mark(s, id, suspect).0.lastLeader != s.lastLeader
    ensures Gone(s.lastLeader, Mark(s, id, suspect).0, visited + [id])
  {
    hide Recompute;
    var m := Mark(s, id, suspect).0;
    assert m.Valid() && id in visited + [id];
    MarkMoves(s, id, suspect);
    if !suspect {
      assert m.Candidate(id);
      assert s.lastLeader.Some? ==> m.Candidate(s.lastLeader.value);
    }
  }

  /** Marking one node leaves the leader, or takes it away from a suspect, or gives it to a
      node that is back. */
  lemma MarkMoves(s: LeaderState, id: NodeId, suspect: bool)
    requires s.Valid()
    ensures var m := Mark(s, id, suspect).0;
      m.lastLeader != s.lastLeader ==> id in s.proposers && if suspect then s.lastLeader == Some(id) else m.lastLeader == Some(id)
  {
    hide Recompute;
    var m := Mark(s, id, suspect).0;
    assert forall x: NodeId :: x != id ==> (m.Candidate(x) <==> s.Candidate(x));
    if suspect && s.lastLeader != Some(id) {
      ElectsOne(m, s.lastLeader, m.lastLeader);
    } else if !suspect && m.lastLeader != Some(id) {
      ElectsOne(s, s.lastLeader, m.lastLeader);
    }
  }

  lemma MarkTracked(before: Option<NodeId>, s: LeaderState, visited: seq<NodeId>, report: Option<NodeId>, id: NodeId, suspect: bool)
    requires Tracked(before, s, visited, report) && id !in visited
    ensures var (m, changed) := Mark(s, id, suspect);
      Tracked(before, m, visited + [id], if changed.Some? then changed else report)
  {
    hide Gone, Recompute, LeaderState.Valid;
    var m := Mark(s, id, suspect).0;
    if s.lastLeader != before {
      GoneStays(before, s, visited, id, suspect);
      GoneMeans(before, m, visited + [id]);
    } else if m.lastLeader != before {
      FirstChange(s, visited, id, suspect);
    }
  }

  /** A node whose mark does not change leaves the bookkeeping as it is. */
  lemma VisitTracked(before: Option<NodeId>, s: LeaderState, visited: seq<NodeId>, report: Option<NodeId>, id: NodeId)
    requires Tracked(before, s, visited, report)
    ensures Tracked(before, s, visited + [id], report)
  {
  }

  lemma {:induction false} LoopTracked(d: DetectorState, n: nat)
    requires Distinct(d.nodes) && d.leader.Valid() && n <= |d.nodes|
    ensures var (c, report) := CheckFirst(d, n);
      c.nodes == d.nodes && Tracked(d.leader.lastLeader, c.leader, d.nodes[..n], report)
  {
    hide Tracked, LeaderState.Valid, Mark, CheckOne;
    if n == 0 {
      StartTracked(d.leader);
    } else {
      LoopTracked(d, n - 1);
      var (c, report) := CheckFirst(d, n - 1);
      var (id, visited, before) := (d.nodes[n - 1], d.nodes[..n - 1], d.leader.lastLeader);
      assert d.nodes[..n] == visited + [id];
      CheckOneTracked(before, c, visited, report, id);
    }
  }

  lemma CheckOneTracked(before: Option<NodeId>, d: DetectorState, visited: seq<NodeId>, report: Option<NodeId>, id: NodeId)
    requires Tracked(before, d.leader, visited, report) && id !in visited
    ensures var (c, r) := CheckOne(d, id, report);
      c.nodes == d.nodes && Tracked(before, c.leader, visited + [id], r)
  {
    hide Tracked, LeaderState.Valid, Mark;
    MarkTracked(before, d.leader, visited, report, id, false);
    MarkTracked(before, d.leader, visited, report, id, true);
    VisitTracked(before, d.leader, visited, report, id);
  }

  lemma StartTracked(s: LeaderState)
    requires s.Valid()
    ensures Tracked(s.lastLeader, s, [], None)
  {
  }

  /** For distinct nodes, a check reports leader changes exactly unless it leaves nobody
      to lead where somebody led. */
  lemma CheckReports(d: DetectorState)
    requires Distinct(d.nodes) && d.leader.Valid()
    ensures var (c, report) := Check(d);
      Exact(d.leader.lastLeader, c.leader.lastLeader, report) <==> (c.leader.lastLeader.Some? || d.leader.lastLeader.None?)
  {
    hide CheckFirst;
    LoopTracked(d, |d.nodes|);
    var c := CheckFirst(d, |d.nodes|).0;
    assert d.nodes[..|d.nodes|] == d.nodes;
    if c.leader.lastLeader == None && Gone(d.leader.lastLeader, c.leader, d.nodes) {
      assert d.leader.lastLeader.Some?;
    }
  }

  /** The same, told before the call: after any run, the next check is exact exactly if
      nobody leads yet or some proposer was heard or had not missed a round. */
  lemma CheckerReportsLeaderChanges(local: Node, others: seq<Node>, events: seq<Event>)
    requires Distinct(Ids(others + [local]))
    ensures var d := After(New(local, others), events);
      var (c, report) := Check(d);
      Exact(d.leader.lastLeader, c.leader.lastLeader, report) <==>
        (d.leader.lastLeader.None? || exists id :: id in Proposers(others + [local]) && (d.Saw(id) || d.StateOf(id) == Alive))
  {
    RunFollows(local, others, events);
    NextLeader(After(New(local, others), events));
    CheckReports(After(New(local, others), events));
  }

  lemma NextLeader(d: DetectorState)
    requires InStep(d)
    ensures Check(d).0.leader.lastLeader.Some? <==> exists id :: id in d.leader.proposers && (d.Saw(id) || d.StateOf(id) == Alive)
  {
    hide CheckFirst;
    CheckFirstFacts(d, |d.nodes|);
    var c := CheckFirst(d, |d.nodes|).0;
    forall id | id in d.leader.proposers ensures c.leader.Candidate(id) <==> d.Saw(id) || d.StateOf(id) == Alive {
      var i :| 0 <= i < |d.nodes| && d.nodes[i] == id;
    }
  }

  /** What one mark makes of the leader, when it is known who should lead. */
  lemma MarkElects(s: LeaderState, id: NodeId, suspect: bool, leader: Option<NodeId>)
    requires id in s.proposers && s.(suspected := s.suspected[id := suspect]).Elects(leader)
    ensures var (m, changed) := Mark(s, id, suspect);
      m == s.(suspected := s.suspected[id := suspect], lastLeader := leader)
      && changed == if leader != s.lastLeader then leader else None
  {
    ElectsOne(s.(suspected := s.suspected[id := suspect]), leader, Recompute(s.(suspected := s.suspected[id := suspect])));
  }

  /** Two proposers, the smaller one local, both in this state and with nothing heard. */
  function Pair(low: NodeId, high: NodeId, leader: LeaderState, state: FailureState): DetectorState {
    DetectorState(low, [high, low], leader, map[high := state, low := state], map[])
  }

  function PairLeader(low: NodeId, high: NodeId): LeaderState {
    LeaderState([high, low], map[high := false, low := false], Some(high))
  }

  lemma PairProposers(local: Node, other: Node)
    requires local.role == Proposer && other.role == Proposer
    ensures Proposers([other, local]) == [other.nodeId, local.nodeId]
  {
    assert [other, local][..1] == [other] && [other][..0] == [];
    assert Proposers([other]) == [other.nodeId];
  }

  lemma PairLeads(low: NodeId, high: NodeId)
    requires low < high
    ensures MaxId([high, low]) == Some(high)
  {
    assert [high, low][..1] == [high] && [high][..0] == [];
    assert MaxId([high]) == Some(high);
  }

  lemma PairStarts(local: Node, other: Node)
    requires local.nodeId < other.nodeId && local.role == Proposer && other.role == Proposer
    ensures New(local, [other]) == Pair(local.nodeId, other.nodeId, PairLeader(local.nodeId, other.nodeId), Alive)
  {
    hide Proposers, MaxId;
    assert [other] + [local] == [other, local];
    PairProposers(local, other);
    PairLeads(local.nodeId, other.nodeId);
    assert Ids([other, local]) == [other.nodeId, local.nodeId];
  }

  lemma CheckTwo(d: DetectorState)
    requires |d.nodes| == 2
    ensures var (one, r) := CheckOne(d, d.nodes[0], None);
      var (two, report) := CheckOne(one, d.nodes[1], r);
      Check(d) == (two.(seen := map[]), report)
  {
    hide CheckOne;
    assert CheckFirst(d, 0) == (d, None);
    assert CheckFirst(d, 1) == CheckOne(d, d.nodes[0], None);
  }

  lemma PairSuspected(low: NodeId, high: NodeId, leader: LeaderState)
    requires low < high
    ensures Check(Pair(low, high, leader, Alive)).0 == Pair(low, high, leader, Suspected)
  {
    hide Mark, Check;
    var d := Pair(low, high, leader, Alive);
    CheckTwo(d);
    assert d.seen - {high} == d.seen && d.seen - {low} == d.seen;
    var one: map<NodeId, FailureState> := map[high := Suspected, low := Alive];
    assert d.states[high := Suspected] == one && one[low := Suspected] == map[high := Suspected, low := Suspected];
  }

  lemma PairElects(low: NodeId, high: NodeId, lowDead: bool, last: Option<NodeId>)
    requires low < high
    ensures LeaderState([high, low], map[high := true, low := lowDead], last).Elects(if lowDead then None else Some(low))
  {
  }

  lemma PairMarked(low: NodeId, high: NodeId)
    requires low < high
    ensures var s := PairLeader(low, high);
      var one := s.(suspected := map[high := true, low := false], lastLeader := Some(low));
      && Mark(s, high, true) == (one, Some(low))
      && Mark(one, low, true) == (one.(suspected := map[high := true, low := true], lastLeader := None), None)
  {
    hide Mark, Recompute, LeaderState.Elects;
    var s := PairLeader(low, high);
    var one := s.(suspected := map[high := true, low := false], lastLeader := Some(low));
    assert s.suspected[high := true] == one.suspected;
    PairElects(low, high, false, s.lastLeader);
    MarkElects(s, high, true, Some(low));
    assert one.suspected[low := true] == map[high := true, low := true];
    PairElects(low, high, true, Some(low));
    MarkElects(one, low, true, None);
  }

  lemma PairDies(low: NodeId, high: NodeId)
    requires low < high
    ensures var (c, report) := Check(Pair(low, high, PairLeader(low, high), Suspected));
      c.leader.lastLeader == None && report == Some(low) && c.StateOf(low) == Dead
  {
    hide Mark, Check;
    var d := Pair(low, high, PairLeader(low, high), Suspected);
    PairMarked(low, high);
    CheckTwo(d);
    var one := d.leader.(suspected := map[high := true, low := false], lastLeader := Some(low));
    assert d.seen - {high} == d.seen;
    assert d.states[high := Dead] == map[high := Dead, low := Suspected];
  }

  /** Two silent proposers die in one check.  The larger one's death makes the smaller one
      leader, its own death leaves nobody, and the check reports the dead one. */
  lemma LastCandidateDies(local: Node, other: Node)
    requires local.nodeId < other.nodeId && local.role == Proposer && other.role == Proposer
    ensures var d := After(New(local, [other]), [Checked]);
      var (c, report) := Check(d);
      && d.leader.lastLeader == Some(other.nodeId) && c.leader.lastLeader == None
      && report == Some(local.nodeId) && c.StateOf(local.nodeId) == Dead
  {
    hide Check, New;
    assert [Checked][..0] == [];
    PairStarts(local, other);
    PairSuspected(local.nodeId, other.nodeId, PairLeader(local.nodeId, other.nodeId));
    PairDies(local.nodeId, other.nodeId);
  }

  // ----- why the ids must differ --------------------------------------------------------

  /** A node listed twice is judged twice in one round, the second time without its
      heartbeat. */
  lemma {:induction false} SecondVisitMisses(d: DetectorState, i: nat, j: nat, n: nat)
    requires i < j < |d.nodes| && d.nodes[i] == d.nodes[j] && n <= |d.nodes|
    ensures var c := CheckFirst(d, n).0;
      c.nodes == d.nodes && (i < n ==> !c.Saw(d.nodes[j])) && (j < n ==> c.StateOf(d.nodes[j]) != Alive)
  {
    hide CheckOne;
    if n > 0 {
      SecondVisitMisses(d, i, j, n - 1);
      var (before, newLeader) := CheckFirst(d, n - 1);
      CheckOneMisses(before, d.nodes[n - 1], newLeader, d.nodes[j]);
    }
  }

  lemma CheckOneMisses(d: DetectorState, id: NodeId, newLeader: Option<NodeId>, x: NodeId)
    ensures var c := CheckOne(d, id, newLeader).0;
      && c.nodes == d.nodes && !c.Saw(id) && (!d.Saw(x) ==> !c.Saw(x))
      && (!d.Saw(x) && (x == id || d.StateOf(x) != Alive) ==> c.StateOf(x) != Alive)
  {
    hide Mark;
  }

  lemma RepeatedIdIsSuspected(d: DetectorState, i: nat, j: nat)
    requires i < j < |d.nodes| && d.nodes[i] == d.nodes[j]
    ensures Check(d).0.StateOf(d.nodes[j]) != Alive
  {
    hide CheckFirst;
    SecondVisitMisses(d, i, j, |d.nodes|);
  }

  lemma HeardOnce(local: Node, others: seq<Node>, id: NodeId)
    ensures var events := [Heard(id)] + [Checked];
      && After(New(local, others), events) == Check(Heartbeat(New(local, others), id)).0
      && Verdict(events, local.nodeId, id) == Alive
  {
    hide Check, New;
    var events := [Heard(id)] + [Checked];
    assert events[..1] == [Heard(id)] && [Heard(id)][..0] == [];
    assert After(New(local, others), [Heard(id)]) == Heartbeat(New(local, others), id);
    assert Rounds([Heard(id)]).1 == [id] && Rounds([Heard(id)]).0 == [];
    assert Rounds(events).0 == [[id]];
  }

  /** The detector refines its history in every run exactly when the node ids differ. */
  lemma RefinesIffDistinct(local: Node, others: seq<Node>)
    ensures (forall events :: Refines(local, others, events)) <==> Distinct(Ids(others + [local]))
  {
    hide Refines, Ids;
    var ids := Ids(others + [local]);
    if Distinct(ids) {
      forall events ensures Refines(local, others, events) {
        DetectorRefinesHistory(local, others, events);
      }
    } else {
      var i, j :| 0 <= i < j < |ids| && ids[i] == ids[j];
      RepeatedIdBreaks(local, others, i, j);
    }
  }

  /** Why: heard and then checked, a repeated id is not Alive, though its verdict is. */
  lemma RepeatedIdBreaks(local: Node, others: seq<Node>, i: nat, j: nat)
    requires var ids := Ids(others + [local]); i < j < |ids| && ids[i] == ids[j]
    ensures var (id, events) := (Ids(others + [local])[i], [Heard(Ids(others + [local])[i])] + [Checked]);
      && After(New(local, others), events).StateOf(id) != Alive && Verdict(events, local.nodeId, id) == Alive
      && !Refines(local, others, events)
  {
    hide Verdict, Check, Proposers, NotDead;
    var id := Ids(others + [local])[i];
    HeardOnce(local, others, id);
    RepeatedIdIsSuspected(Heartbeat(New(local, others), id), i, j);
  }
}
