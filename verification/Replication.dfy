/** Exactly which systems replicate in every run. */
module Replication {
  import opened Prelude
  import opened PaxosTypes
  import opened Quorum
  import opened Journal
  import opened AcceptorCore
  import opened AcceptorAgents
  import opened LearnerCore
  import opened LearnerAgents
  import opened Protocol
  import opened Safety
  import opened OneVote

  /** The world can come about. */
  ghost predicate Reachable(sys: System, w: World)
    requires sys.Valid()
  {
    exists run :: IsRun(sys, run) && run[|run| - 1] == w
  }

  lemma StepReaches(sys: System, w: World, e: Event)
    requires sys.Valid() && Shaped(sys, w) && Reachable(sys, w) && Allowed(sys, w, e)
    ensures Reachable(sys, Step(sys, w, e))
  {
    hide Step, Allowed, System.Valid;
    var run :| IsRun(sys, run) && run[|run| - 1] == w;
    assert Next(sys, w, Step(sys, w, e));
    assert IsRun(sys, run + [Step(sys, w, e)]);
  }

  // ----- an acceptor that forgets ------------------------------------------------------

  /** The last slot that is due for a checkpoint. */
  function LastGridSlot(cfg: StorageConfig): Slot
    requires cfg.Valid()
  {
    TWO_TO_THE_64 - 1 - (TWO_TO_THE_64 - 1 - cfg.snapshotOffset) % cfg.snapshotInterval
  }

  lemma Multiple(s: int, d: int)
    requires 0 <= s
    ensures 1 <= d ==> s <= s * d
    ensures d <= -1 ==> s * d <= -s
  {
  }

  /** Division with a remainder in range is the division. */
  lemma RemainderIs(x: nat, s: nat, q: nat, o: nat)
    requires o < s && x == s * q + o
    ensures x % s == o
  {
    var (d, r) := (x / s, x % s);
    assert x == s * d + r;
    assert s * (q - d) == s * q - s * d;
    Multiple(s, q - d);
  }

  lemma SpanCoversInterval(cfg: StorageConfig)
    requires cfg.Valid() && CanPrune(cfg)
    ensures 1 <= cfg.snapshotInterval <= cfg.KeepSpan()
  {
    Multiple(cfg.snapshotInterval, cfg.maxSnapshots);
  }

  lemma LastGridSlotIsLast(cfg: StorageConfig)
    requires cfg.Valid() && CanPrune(cfg)
    ensures cfg.OnGrid(LastGridSlot(cfg)) && 1 < LastGridSlot(cfg)
    ensures cfg.OnGrid(TWO_TO_THE_64 - 1) ==> LastGridSlot(cfg) == TWO_TO_THE_64 - 1
  {
    SpanCoversInterval(cfg);
    LastAtOffset(TWO_TO_THE_64 - 1, cfg.snapshotInterval, cfg.snapshotOffset);
  }

  lemma LastAtOffset(x: nat, s: nat, o: nat)
    requires o < s <= x
    ensures var last := x - (x - o) % s;
      last % s == o && x - s < last && (x % s == o ==> last == x)
  {
    var (q, r) := ((x - o) / s, (x - o) % s);
    assert x - o == s * q + r;
    RemainderIs(x - r, s, q, o);
    if x % s == o {
      assert x == s * (x / s) + x % s;
      RemainderIs(x - o, s, x / s, 0);
    }
  }

  function Told(cfg: StorageConfig, st: AcceptorState, slot: Slot, v: Value): AcceptorState
    requires cfg.Valid()
  {
    Accept(cfg, st, slot, 1, v).0
  }

  // It takes slot 1, then two slots far ahead, the second one due for a checkpoint if the
  // first was not.  Then slot 1 is gone and can be taken again.

  lemma FirstTold(cfg: StorageConfig, u: Value)
    requires cfg.Valid() && CanPrune(cfg)
    ensures Accept(cfg, AcceptorCore.Fresh(), 1, 1, u).1.Accepted?
    ensures var st := Told(cfg, AcceptorCore.Fresh(), 1, u);
      st.promises == [] && st.accepted.Keys == {1} && st.store.lastSnapshot <= 1
  {
    SpanCoversInterval(cfg);
    hide StorageConfig.KeepSpan, StorageConfig.OnGrid;
    var live: map<Slot, PValue> := map[1 := PValue(1, 1, Some(u))];
    assert live.Keys == {1} && MaxOf(live.Keys) == 1;
    assert AcceptorCore.Fresh().accepted[1 := PValue(1, 1, Some(u))] == live;
  }

  lemma FarPrunes(cfg: StorageConfig, live: map<Slot, PValue>)
    requires cfg.Valid() && CanPrune(cfg) && TWO_TO_THE_64 - 1 in live.Keys
    ensures 1 !in Prune(cfg, live)
  {
    hide StorageConfig.KeepSpan, StorageConfig.OnGrid;
    assert MaxOf(live.Keys) == TWO_TO_THE_64 - 1;
  }

  lemma FarTold(cfg: StorageConfig, st: AcceptorState, u: Value)
    requires cfg.Valid() && CanPrune(cfg)
    requires st.promises == [] && st.accepted.Keys == {1} && st.store.lastSnapshot <= 1
    ensures var (last, st') := (TWO_TO_THE_64 - 1, Told(cfg, st, TWO_TO_THE_64 - 1, u));
      && st'.promises == [] && st'.accepted.Keys <= {1, last}
      && if cfg.OnGrid(last) then 1 !in st'.accepted
         else st'.store.lastSnapshot <= 1 && last in st'.accepted
  {
    hide Prune, Checkpoint, StorageConfig.OnGrid;
    FarPrunes(cfg, st.accepted[TWO_TO_THE_64 - 1 := PValue(TWO_TO_THE_64 - 1, 1, Some(u))]);
    PruneOnlyDrops(cfg, st.accepted[TWO_TO_THE_64 - 1 := PValue(TWO_TO_THE_64 - 1, 1, Some(u))]);
  }

  lemma PruneOnlyDrops(cfg: StorageConfig, live: map<Slot, PValue>)
    ensures Prune(cfg, live).Keys <= live.Keys
  {
  }

  lemma GridTold(cfg: StorageConfig, st: AcceptorState, u: Value)
    requires cfg.Valid() && CanPrune(cfg)
    requires st.promises == [] && st.accepted.Keys <= {1, TWO_TO_THE_64 - 1}
    requires if cfg.OnGrid(TWO_TO_THE_64 - 1) then 1 !in st.accepted
      else st.store.lastSnapshot <= 1 && TWO_TO_THE_64 - 1 in st.accepted
    ensures var st' := Told(cfg, st, LastGridSlot(cfg), u); st'.promises == [] && 1 !in st'.accepted
  {
    hide Prune, Checkpoint, StorageConfig.OnGrid, LastGridSlot;
    LastGridSlotIsLast(cfg);
    var live := st.accepted[LastGridSlot(cfg) := PValue(LastGridSlot(cfg), 1, Some(u))];
    PruneOnlyDrops(cfg, live);
    if !cfg.OnGrid(TWO_TO_THE_64 - 1) {
      FarPrunes(cfg, live);
    }
  }

  lemma TakesAgain(cfg: StorageConfig, st: AcceptorState, v: Value)
    requires cfg.Valid() && st.promises == [] && 1 !in st.accepted
    ensures Accept(cfg, st, 1, 1, v).1.Accepted?
  {
  }

  // ----- acceptors are told values -------------------------------------------------------

  /** What changes when one acceptor is told a value under ballot 1. */
  lemma Tell(sys: System, w: World, a: NodeId, slot: Slot, v: Value) returns (w': World)
    requires sys.Valid() && Shaped(sys, w) && Reachable(sys, w) && a in sys.acceptors
    requires a in sys.restarting ==> w.acceptors[a] == AcceptorCore.Fresh() && slot == 1
    ensures Shaped(sys, w') && Reachable(sys, w') && w.net <= w'.net && w'.learners == w.learners
    ensures w'.acceptors == w.acceptors[a := Told(sys.acceptors[a], w.acceptors[a], slot, v)]
    ensures Accept(sys.acceptors[a], w.acceptors[a], slot, 1, v).1.Accepted? ==> LearnMsg(a, slot, v) in w'.net
  {
    hide Accept, Reachable;
    var (cfg, st) := (sys.acceptors[a], w.acceptors[a]);
    assert Accept(cfg, st, slot, 1, v).1.Accepted? ==>
      Handle(cfg, a, st, AcceptReq(slot, 1, v)).1[0] == LearnMsg(a, slot, v);
    StepReaches(sys, w, AcceptorHandles(a, AcceptReq(slot, 1, v)));
    w' := Step(sys, w, AcceptorHandles(a, AcceptReq(slot, 1, v)));
  }

  lemma FreshAccepts(cfg: StorageConfig, v: Value)
    requires cfg.Valid()
    ensures Accept(cfg, AcceptorCore.Fresh(), 1, 1, v).1.Accepted?
  {
  }

  lemma TellFresh(sys: System, w: World, a: NodeId, v: Value) returns (w': World)
    requires sys.Valid() && Shaped(sys, w) && Reachable(sys, w) && a in sys.acceptors && w.acceptors[a] == AcceptorCore.Fresh()
    ensures Shaped(sys, w') && Reachable(sys, w') && w.net <= w'.net && w'.learners == w.learners
    ensures forall b :: b in sys.acceptors && b != a ==> w'.acceptors[b] == w.acceptors[b]
    ensures LearnMsg(a, 1, v) in w'.net
  {
    hide Accept, Reachable, Told;
    FreshAccepts(sys.acceptors[a], v);
    w' := Tell(sys, w, a, 1, v);
  }

  /** A forgetful acceptor votes for both values. */
  lemma TellForgetful(sys: System, w: World, a: NodeId, u: Value, v: Value) returns (w': World)
    requires sys.Valid() && Shaped(sys, w) && Reachable(sys, w) && a in Forgetful(sys) && w.acceptors[a] == AcceptorCore.Fresh()
    ensures Shaped(sys, w') && Reachable(sys, w') && w.net <= w'.net && w'.learners == w.learners
    ensures forall b :: b in sys.acceptors && b != a ==> w'.acceptors[b] == w.acceptors[b]
    ensures LearnMsg(a, 1, u) in w'.net && LearnMsg(a, 1, v) in w'.net
  {
    hide Accept, Reachable, Told, CanPrune, StorageConfig.OnGrid, LastGridSlot;
    var cfg := sys.acceptors[a];
    FirstTold(cfg, u);
    w' := Tell(sys, w, a, 1, u);
    FarTold(cfg, w'.acceptors[a], u);
    w' := Tell(sys, w', a, TWO_TO_THE_64 - 1, u);
    GridTold(cfg, w'.acceptors[a], u);
    w' := Tell(sys, w', a, LastGridSlot(cfg), u);
    TakesAgain(cfg, w'.acceptors[a], v);
    w' := Tell(sys, w', a, 1, v);
  }

  /** All of `p` vote for `u` and all of `q` for `v`, if only forgetful acceptors are in both. */
  lemma {:induction false} TellAll(sys: System, w: World, todo: set<NodeId>, p: set<NodeId>, q: set<NodeId>, u: Value, v: Value)
      returns (w': World)
    requires sys.Valid() && Shaped(sys, w) && Reachable(sys, w) && p * q <= Forgetful(sys) && todo <= sys.acceptors.Keys
    requires forall a :: a in todo ==> w.acceptors[a] == AcceptorCore.Fresh()
    ensures Shaped(sys, w') && Reachable(sys, w') && w.net <= w'.net && w'.learners == w.learners
    ensures forall a :: a in todo * p ==> LearnMsg(a, 1, u) in w'.net
    ensures forall a :: a in todo * q ==> LearnMsg(a, 1, v) in w'.net
    decreases |todo|
  {
    hide Reachable, Forgetful;
    if todo == {} {
      w' := w;
    } else {
      var a :| a in todo;
      if a in p && a in q {
        w' := TellForgetful(sys, w, a, u, v);
      } else {
        w' := TellFresh(sys, w, a, if a in p then u else v);
      }
      w' := TellAll(sys, w', todo - {a}, p, q, u, v);
    }
  }

  // ----- a learner hears a majority --------------------------------------------------------

  /** A new learner that has heard these acceptors vote for `v` for slot 1. */
  ghost function HeardFrom(heard: set<NodeId>, v: Value): AgentState {
    var all: map<NodeId, Value> := map a | a in heard :: v;
    var votes: map<Slot, Votes> := if heard == {} then map[] else map[1 := all];
    FreshAgent().(learner := LearnerCore.Fresh().(votes := votes))
  }

  lemma NothingHeard(v: Value)
    ensures HeardFrom({}, v) == FreshAgent()
  {
  }

  lemma OneMoreHeard(cfg: AgentConfig, heard: set<NodeId>, a: NodeId, v: Value)
    requires cfg.Valid() && a !in heard
    ensures OnLearn(cfg, HeardFrom(heard, v), 1, v, a, None) == HeardFrom(heard + {a}, v)
    ensures Record(HeardFrom(heard, v).learner, 1, v, a) == HeardFrom(heard + {a}, v).learner
  {
    var all: map<NodeId, Value> := map b | b in heard :: v;
    var more: map<NodeId, Value> := map b | b in heard + {a} :: v;
    assert all[a := v] == more;
    if heard == {} {
      assert all == map[];
    }
  }

  lemma VotersHeard(heard: set<NodeId>, v: Value, x: Value)
    requires heard != {}
    ensures 1 in HeardFrom(heard, v).learner.votes
    ensures Voters(HeardFrom(heard, v).learner.votes[1], x) == if x == v then heard else {}
  {
  }

  lemma HearsOne(cfg: AgentConfig, heard: set<NodeId>, a: NodeId, v: Value, quorum: nat)
    requires cfg.Valid() && a !in heard && quorum == QuorumSize(cfg.numAcceptors)
    ensures |heard| + 1 < quorum ==> CanWin(cfg, HeardFrom(heard, v), 1, v, a, None)
    ensures |heard| + 1 == quorum ==> CanWin(cfg, HeardFrom(heard, v), 1, v, a, Some(v))
  {
    hide HeardFrom, Voters, OnLearn, Record, AgentConfig.Valid;
    OneMoreHeard(cfg, heard, a, v);
    forall x
      ensures 1 in HeardFrom(heard + {a}, v).learner.votes
      ensures |Voters(HeardFrom(heard + {a}, v).learner.votes[1], x)| == if x == v then |heard| + 1 else 0
    {
      VotersHeard(heard + {a}, v, x);
    }
  }

  /** The vote that completes the quorum has slot 1 executed at once. */
  lemma QuorumExecutes(cfg: AgentConfig, heard: set<NodeId>, a: NodeId, v: Value)
    requires cfg.Valid()
    ensures OnLearn(cfg, HeardFrom(heard, v), 1, v, a, Some(v)).log == [LearnedEntry(1, v)]
  {
    hide KvMachine.ApplyAll, CollectAndDispatch, MaybeSnapshot, SaveChange;
    var (learner, isNew) := HandleLearn(cfg.storage, HeardFrom(heard, v).learner, 1, v, a, Some(v));
    assert learner.learned == map[1 := v] && NextAdu(learner.learned, 0) == 1;
    assert ToBeExecuted(cfg.storage, learner).1 == [LearnedEntry(1, v)];
    CollectKeepsLog(cfg, ExecuteChosen(cfg, HeardFrom(heard, v).(learner := learner)), true);
  }

  lemma Hear(sys: System, w: World, l: NodeId, heard: set<NodeId>, a: NodeId, v: Value, winner: Option<Value>)
      returns (w': World)
    requires sys.Valid() && Shaped(sys, w) && Reachable(sys, w) && l in sys.learners && w.learners[l] == HeardFrom(heard, v)
    requires LearnMsg(a, 1, v) in w.net && CanWin(sys.learners[l], HeardFrom(heard, v), 1, v, a, winner)
    ensures Shaped(sys, w') && Reachable(sys, w') && w'.net == w.net
    ensures w'.learners == w.learners[l := OnLearn(sys.learners[l], HeardFrom(heard, v), 1, v, a, winner)]
  {
    hide Reachable, HeardFrom, OnLearn, CanWin, AgentConfig.Valid;
    StepReaches(sys, w, LearnerGets(l, LearnMsg(a, 1, v), winner));
    w' := Step(sys, w, LearnerGets(l, LearnMsg(a, 1, v), winner));
  }

  lemma {:induction false} HearQuorum(sys: System, w: World, l: NodeId, heard: set<NodeId>, rest: set<NodeId>, v: Value)
      returns (w': World)
    requires sys.Valid() && Shaped(sys, w) && Reachable(sys, w) && l in sys.learners && w.learners[l] == HeardFrom(heard, v)
    requires rest != {} && heard !! rest && |heard| + |rest| == QuorumSize(|sys.acceptors.Keys|)
    requires forall a :: a in rest ==> LearnMsg(a, 1, v) in w.net
    ensures Shaped(sys, w') && Reachable(sys, w') && w'.net == w.net && w'.learners.Keys == w.learners.Keys
    ensures forall m :: m in w.learners && m != l ==> w'.learners[m] == w.learners[m]
    ensures w'.learners[l].log == [LearnedEntry(1, v)]
    decreases |rest|
  {
    hide Reachable, HeardFrom, OnLearn, CanWin, AgentConfig.Valid;
    var a :| a in rest;
    assert |rest - {a}| == |rest| - 1;
    var cfg := sys.learners[l];
    HearsOne(cfg, heard, a, v, QuorumSize(|sys.acceptors.Keys|));
    if rest == {a} {
      QuorumExecutes(cfg, heard, a, v);
      w' := Hear(sys, w, l, heard, a, v, Some(v));
    } else {
      assert rest - {a} != {};
      OneMoreHeard(cfg, heard, a, v);
      w' := Hear(sys, w, l, heard, a, v, None);
      w' := HearQuorum(sys, w', l, heard + {a}, rest - {a}, v);
    }
  }

  // ----- the two directions ------------------------------------------------------------------

  lemma {:induction false} SubsetOfSize(s: set<NodeId>, n: nat) returns (r: set<NodeId>)
    requires n <= |s|
    ensures r <= s && |r| == n
  {
    if n == |s| {
      r := s;
    } else {
      var x :| x in s;
      r := SubsetOfSize(s - {x}, n);
    }
  }

  /** Where forgetful acceptors are enough to fill what two smallest majorities share, two
      majorities share nobody else. */
  lemma UnsteadyMajorities(sys: System) returns (p: set<NodeId>, q: set<NodeId>)
    requires !Steady(sys)
    ensures p <= sys.acceptors.Keys && q <= sys.acceptors.Keys && p * q <= Forgetful(sys)
    ensures |p| == |q| == QuorumSize(|sys.acceptors.Keys|)
  {
    var (all, size) := (sys.acceptors.Keys, QuorumSize(|sys.acceptors.Keys|));
    SubsetCardinality(Forgetful(sys), all);
    hide Forgetful;
    var shared := SubsetOfSize(Forgetful(sys), 2 * size - |all|);
    var rest := all - shared;
    var half := SubsetOfSize(rest, |all| - size);
    p, q := shared + half, shared + (rest - half);
  }

  /** In any system that is not steady, two learners can execute different values. */
  lemma UnsteadyParts(sys: System, l: NodeId, m: NodeId, u: Value, v: Value) returns (run: seq<World>)
    requires sys.Valid() && !Steady(sys) && l in sys.learners && m in sys.learners && l != m
    ensures IsRun(sys, run)
    ensures var learners := run[|run| - 1].learners;
      && l in learners && learners[l].log == [LearnedEntry(1, u)]
      && m in learners && learners[m].log == [LearnedEntry(1, v)]
  {
    hide Steady, Forgetful, HeardFrom, Next;
    var w := Protocol.Start(sys);
    StartReached(sys);
    var p, q := UnsteadyMajorities(sys);
    NothingHeard(u);
    NothingHeard(v);
    w := TellAll(sys, w, sys.acceptors.Keys, p, q, u, v);
    w := HearQuorum(sys, w, l, {}, p, u);
    w := HearQuorum(sys, w, m, {}, q, v);
    run :| IsRun(sys, run) && run[|run| - 1] == w;
  }

  lemma StartReached(sys: System)
    requires sys.Valid()
    ensures Reachable(sys, Protocol.Start(sys)) && Shaped(sys, Protocol.Start(sys))
  {
    assert IsRun(sys, [Protocol.Start(sys)]);
  }

  ghost predicate ReplicasAt(run: seq<World>, i: nat, j: nat, l: NodeId, m: NodeId)
    requires i < |run| && j < |run|
  {
    l in run[i].learners && m in run[j].learners && Replicas(run[i].learners[l], run[j].learners[m])
  }

  /** In every run any two learners, each at any moment, are replicas. */
  ghost predicate AlwaysReplicates(sys: System)
    requires sys.Valid()
  {
    forall run, i: nat, j: nat, l, m :: IsRun(sys, run) && i <= j < |run| && l in sys.learners && m in sys.learners ==>
      ReplicasAt(run, i, j, l, m)
  }

  lemma LoneLearnerReplicates(sys: System, run: seq<World>, i: nat, j: nat, l: NodeId)
    requires sys.Valid() && IsRun(sys, run) && i <= j < |run| && l in sys.learners
    ensures ReplicasAt(run, i, j, l, l)
  {
    hide Next, Replicas;
    LogsGrow(sys, run, i, j, l);
    PrefixesReplicate(sys, run, i, j, l, l);
  }

  lemma TwoOf(s: set<NodeId>) returns (l: NodeId, m: NodeId)
    requires 1 < |s|
    ensures l in s && m in s && l != m
  {
    l :| l in s;
    assert |s - {l}| == |s| - 1;
    m :| m in s - {l};
  }

  lemma OnlyOne(s: set<NodeId>, l: NodeId, m: NodeId)
    requires |s| <= 1 && l in s && m in s
    ensures l == m
  {
    SubsetCardinality({l, m}, s);
  }

  /** A system replicates in every run if and only if it is steady, or has at most one
      learner. */
  lemma ReplicatesIffSteady(sys: System)
    requires sys.Valid()
    ensures AlwaysReplicates(sys) <==> Steady(sys) || |sys.learners.Keys| <= 1
  {
    hide IsRun, Steady, Replicas;
    if Steady(sys) {
      forall run, i: nat, j: nat, l, m | IsRun(sys, run) && i <= j < |run| && l in sys.learners && m in sys.learners
        ensures ReplicasAt(run, i, j, l, m)
      {
        SteadyReplicates(sys, run, i, j, l, m);
      }
    } else if |sys.learners.Keys| <= 1 {
      forall run, i: nat, j: nat, l, m | IsRun(sys, run) && i <= j < |run| && l in sys.learners && m in sys.learners
        ensures ReplicasAt(run, i, j, l, m)
      {
        OnlyOne(sys.learners.Keys, l, m);
        LoneLearnerReplicates(sys, run, i, j, l);
      }
    } else {
      var l, m := TwoOf(sys.learners.Keys);
      UnsteadyBreaks(sys, l, m);
    }
  }

  lemma UnsteadyBreaks(sys: System, l: NodeId, m: NodeId)
    requires sys.Valid() && !Steady(sys) && l in sys.learners && m in sys.learners && l != m
    ensures !AlwaysReplicates(sys)
  {
    hide Steady, Next;
    var (u, v) := (Value(None, "", 0), Value(None, "", 1));
    var run := UnsteadyParts(sys, l, m, u, v);
    var j: nat := |run| - 1;
    assert LearnedEntry(1, u) != LearnedEntry(1, v);
    assert run[j].learners[l].log[0] != run[j].learners[m].log[0];
    assert !Replicas(run[j].learners[l], run[j].learners[m]);
    assert !ReplicasAt(run, j, j, l, m);
  }
}
