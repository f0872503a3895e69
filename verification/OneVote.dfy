/** Acceptors that never prune, or are given new slots in order, vote once for each slot.
    Where any two majorities share one of them, agreement and replication need no care
    about pruning. */
module OneVote {
  import opened Prelude
  import opened PaxosTypes
  import opened Quorum
  import opened Journal
  import opened AcceptorCore
  import opened AcceptorAgents
  import opened LearnerAgents
  import opened Protocol
  import opened Safety

  /** It may ever drop a slot from memory: the newest slot can lie further ahead than is
      kept. */
  predicate CanPrune(cfg: StorageConfig) {
    cfg.enabled && 0 < cfg.maxSnapshots && cfg.KeepSpan() < TWO_TO_THE_64 - 1
  }

  /** The acceptors that can prune a slot and then be given it anew; those that may restart
      are given new slots in order. */
  function Forgetful(sys: System): set<NodeId> {
    set a | a in sys.acceptors && CanPrune(sys.acceptors[a]) && a !in sys.restarting
  }

  /** Any two majorities share an acceptor that is not forgetful. */
  predicate Steady(sys: System) {
    var n := |sys.acceptors.Keys|;
    |Forgetful(sys)| < 2 * QuorumSize(n) - n
  }

  /** A vote is for what is stored, or for a pruned slot, which comes no more. */
  ghost predicate Stands(ordered: bool, st: AcceptorState, m: Message)
    requires m.LearnMsg?
  {
    if m.slot in st.accepted then st.accepted[m.slot].value == Some(m.value)
    else ordered && m.slot < R.NextSlot(st)
  }

  /** No two votes of acceptor `a` for one slot differ, and all of them stand.  Slot 0 is
      never executed, and any checkpoint drops it. */
  ghost predicate VotesOnce(ordered: bool, a: NodeId, st: AcceptorState, net: set<Message>) {
    && (forall m :: m in net && VoteOf(a, m) ==> Stands(ordered, st, m))
    && (forall m, k :: m in net && k in net && VoteOf(a, m) && VoteOf(a, k) && m.slot == k.slot ==> m == k)
  }

  predicate VoteOf(a: NodeId, m: Message) { m.from == a && m.LearnMsg? && 0 < m.slot }

  /** Entries go only behind the next slot, and new ones come at or after it. */
  ghost predicate Advances(ordered: bool, st: AcceptorState, st': AcceptorState) {
    && (ordered ==> R.NextSlot(st) <= R.NextSlot(st'))
    && (forall s :: s in st.accepted && 0 < s ==>
          if s in st'.accepted then st'.accepted[s] == st.accepted[s] else ordered && s < R.NextSlot(st'))
    && (forall s :: s in st'.accepted && s !in st.accepted && ordered ==> R.NextSlot(st) <= s)
  }

  lemma AdvanceVotesOnce(ordered: bool, a: NodeId, st: AcceptorState, st': AcceptorState, net: set<Message>)
    requires VotesOnce(ordered, a, st, net) && Advances(ordered, st, st')
    ensures VotesOnce(ordered, a, st', net)
  {
    hide R.NextSlot;
    forall m | m in net && VoteOf(a, m) ensures Stands(ordered, st', m) {
      assert Stands(ordered, st, m);
    }
  }

  lemma StoredVotesOnce(ordered: bool, a: NodeId, st: AcceptorState, net: set<Message>, sent: seq<Message>)
    requires VotesOnce(ordered, a, st, net)
    requires forall m :: m in sent && m.LearnMsg? && 0 < m.slot ==>
      m.slot in st.accepted && st.accepted[m.slot].value == Some(m.value)
    ensures VotesOnce(ordered, a, st, net + Sent(sent))
  {
    hide R.NextSlot;
  }

  lemma NothingPruned(cfg: StorageConfig, store: Store<PValue>, live: map<Slot, PValue>, slot: Slot)
    requires cfg.Valid() && !CanPrune(cfg)
    ensures forall s :: s in live && 0 < s ==> s in MaybeSnapshot(cfg, store, live, slot, None).1
  {
    hide StorageConfig.OnGrid, Checkpoint;
  }

  lemma AcceptAdvances(cfg: StorageConfig, ordered: bool, st: AcceptorState, slot: Slot, ballot: Ballot, value: Value)
    requires cfg.Valid()
    requires if ordered then cfg.enabled && R.InOrder(cfg, st, R.AcceptOp(slot, ballot, value)) else !CanPrune(cfg)
    ensures var (st', r) := Accept(cfg, st, slot, ballot, value);
      && Advances(ordered, st, st')
      && (r.Accepted? && 0 < slot ==> slot in st'.accepted && st'.accepted[slot].value == Some(value))
  {
    hide MaybeSnapshot, CanPrune;
    if HighestPromised(st.promises) <= ballot && slot !in st.accepted {
      var p := PValue(slot, ballot, Some(value));
      var (store, live) := (SaveChange(cfg, st.store, Entry(slot, p)), st.accepted[slot := p]);
      MaybeSnapshotKeeps(cfg, store, live, slot, None);
      if ordered {
        R.NewestIsKept(cfg, store, live, slot);
      } else {
        NothingPruned(cfg, store, live, slot);
      }
    }
  }

  lemma HandleVotesOnce(cfg: StorageConfig, ordered: bool, a: NodeId, st: AcceptorState, net: set<Message>, req: Request)
    requires cfg.Valid() && VotesOnce(ordered, a, st, net) && Ordered(st)
    requires if ordered then cfg.enabled && InOrder(cfg, st, req) else !CanPrune(cfg)
    requires req.RetryReq? ==> forall s :: s in req.slots ==> s in st.accepted
    ensures var (st', sent) := Handle(cfg, a, st, req); VotesOnce(ordered, a, st', net + Sent(sent))
  {
    hide VotesOnce, Accept, Advances, CanPrune;
    var (st', sent) := Handle(cfg, a, st, req);
    match req
    case PrepareReq(slot, ballot) =>
      SameEntriesAdvance(ordered, st, st');
      AdvanceVotesOnce(ordered, a, st, st', net);
      StoredVotesOnce(ordered, a, st', net, sent);
    case AcceptReq(slot, ballot, value) =>
      AcceptAdvances(cfg, ordered, st, slot, ballot, value);
      AdvanceVotesOnce(ordered, a, st, st', net);
      StoredVotesOnce(ordered, a, st', net, sent);
    case RetryReq(slots) =>
      forall m | m in sent ensures m.LearnMsg? && m.slot in st.accepted && st.accepted[m.slot].value == Some(m.value) {
        var i :| 0 <= i < |sent| && sent[i] == m;
        assert slots[i] in slots;
      }
      StoredVotesOnce(ordered, a, st, net, sent);
  }

  lemma SameEntriesAdvance(ordered: bool, st: AcceptorState, st': AcceptorState)
    requires st'.accepted == st.accepted
    ensures Advances(ordered, st, st')
  {
  }

  // ----- the whole system ---------------------------------------------------------------

  /** So for every acceptor that is not forgetful. */
  ghost predicate AllVoteOnce(sys: System, w: World) {
    forall a :: a in w.acceptors && a !in Forgetful(sys) ==> VotesOnce(a in sys.restarting, a, w.acceptors[a], w.net)
  }

  lemma FrameVotesOnce(ordered: bool, a: NodeId, st: AcceptorState, net: set<Message>, net': set<Message>)
    requires VotesOnce(ordered, a, st, net) && forall m :: m in net' && m !in net ==> m.from != a
    ensures VotesOnce(ordered, a, st, net')
  {
    hide Stands;
  }

  lemma AcceptorVotesOnce(sys: System, w: World, a: NodeId, req: Request)
    requires sys.Valid() && AllVoteOnce(sys, w) && Safe(sys, w) && Allowed(sys, w, AcceptorHandles(a, req))
    ensures AllVoteOnce(sys, Step(sys, w, AcceptorHandles(a, req)))
  {
    hide VotesOnce, GenuineLearner, GenuineTable, Handle, Ordered, InOrder, CanPrune;
    var (st, sent) := Handle(sys.acceptors[a], a, w.acceptors[a], req);
    if a !in Forgetful(sys) {
      assert Faithful(sys.acceptors[a], a, w.acceptors[a], w.net);
      HandleVotesOnce(sys.acceptors[a], a in sys.restarting, a, w.acceptors[a], w.net, req);
    }
    forall m | m in sent ensures m.from == a {
      SentByMe(sys.acceptors[a], a, w.acceptors[a], req, m);
    }
    forall b | b in w.acceptors && b != a && b !in Forgetful(sys)
      ensures VotesOnce(b in sys.restarting, b, w.acceptors[b], w.net + Sent(sent))
    {
      FrameVotesOnce(b in sys.restarting, b, w.acceptors[b], w.net, w.net + Sent(sent));
    }
  }

  lemma RestartVotesOnce(sys: System, w: World, a: NodeId)
    requires sys.Valid() && AllVoteOnce(sys, w) && Shaped(sys, w) && AllJournaled(sys, w) && Allowed(sys, w, AcceptorRestarts(a))
    ensures AllVoteOnce(sys, Step(sys, w, AcceptorRestarts(a)))
  {
    hide VotesOnce, Journaled, R.Restart, R.Recoverable, Advances, CanPrune;
    var (cfg, st) := (sys.acceptors[a], w.acceptors[a]);
    RestartKeepsState(cfg, st);
    SameEntriesAdvance(true, st, R.Restart(cfg, st));
    AdvanceVotesOnce(true, a, st, R.Restart(cfg, st), w.net);
  }

  lemma StepVotesOnce(sys: System, w: World, w': World)
    requires sys.Valid() && AllVoteOnce(sys, w) && Safe(sys, w) && AllJournaled(sys, w) && Next(sys, w, w')
    ensures AllVoteOnce(sys, w')
  {
    hide Allowed, Safe, Forgetful, Handle, OnLearn, OnTick, R.Restart, AllJournaled, VotesOnce;
    var e :| Allowed(sys, w, e) && w' == Step(sys, w, e);
    match e
    case AcceptorHandles(a, req) => AcceptorVotesOnce(sys, w, a, req);
    case AcceptorRestarts(a) => RestartVotesOnce(sys, w, a);
    case _ => assert w'.acceptors == w.acceptors && w'.net == w.net;
  }

  lemma {:induction false} RunVotesOnce(sys: System, run: seq<World>, j: nat)
    requires sys.Valid() && IsRun(sys, run) && j < |run|
    ensures AllVoteOnce(sys, run[j])
  {
    hide Next, Safe, AllJournaled, Forgetful;
    if j > 0 {
      RunVotesOnce(sys, run, j - 1);
      RunSafe(sys, run, j - 1, j - 1);
      RunJournaled(sys, run, j - 1);
      StepVotesOnce(sys, run[j - 1], run[j]);
    }
  }

  lemma SteadyMajoritiesMeet(sys: System, p: set<NodeId>, q: set<NodeId>) returns (a: NodeId)
    requires Steady(sys) && Majority(sys.acceptors.Keys, p) && Majority(sys.acceptors.Keys, q)
    ensures a in p && a in q && a !in Forgetful(sys)
  {
    hide Forgetful;
    SubsetCardinality(p + q, sys.acceptors.Keys);
    assert |p + q| + |p * q| == |p| + |q|;
    a := OneBeyond(p * q, Forgetful(sys));
  }

  lemma {:induction false} OneBeyond(s: set<NodeId>, few: set<NodeId>) returns (a: NodeId)
    requires |few| < |s|
    ensures a in s && a !in few
  {
    a :| a in s;
    if a in few {
      a := OneBeyond(s - {a}, few - {a});
    }
  }

  lemma OnceIsOne(sys: System, w: World, slot: Slot, u: Value, v: Value)
    requires Steady(sys) && AllVoteOnce(sys, w) && w.acceptors.Keys == sys.acceptors.Keys
    requires 0 < slot && Chosen(sys, w.net, slot, u) && Chosen(sys, w.net, slot, v)
    ensures u == v
  {
    hide Stands, Steady, Forgetful;
    var a := SteadyMajoritiesMeet(sys, Votes(w.net, slot, u), Votes(w.net, slot, v));
    assert VotesOnce(a in sys.restarting, a, w.acceptors[a], w.net);
    assert LearnMsg(a, slot, u) in w.net && LearnMsg(a, slot, v) in w.net;
  }

  /** In a steady system at most one value is ever chosen for a slot, pruned or not, in any
      run with restarts. */
  lemma OneValueEver(sys: System, run: seq<World>, i: nat, j: nat, slot: Slot, u: Value, v: Value)
    requires sys.Valid() && Steady(sys) && IsRun(sys, run) && i <= j < |run| && 0 < slot
    requires Chosen(sys, run[i].net, slot, u) && Chosen(sys, run[j].net, slot, v)
    ensures u == v
  {
    hide Next, Chosen, AllVoteOnce, Steady;
    RunSafe(sys, run, i, j);
    SafeIsGenuine(sys, run[j]);
    hide Safe;
    RunVotesOnce(sys, run, j);
    ChosenGrows(sys, run[i].net, run[j].net, slot, u);
    OnceIsOne(sys, run[j], slot, u, v);
  }

  /** State machine replication with nothing asked of the run: in a steady system any two
      learners, each at any moment, are replicas. */
  lemma SteadyReplicates(sys: System, run: seq<World>, i: nat, j: nat, l: NodeId, m: NodeId)
    requires sys.Valid() && Steady(sys) && IsRun(sys, run) && i <= j < |run|
    requires l in sys.learners && m in sys.learners
    ensures l in run[i].learners && m in run[j].learners
    ensures Replicas(run[i].learners[l], run[j].learners[m])
  {
    hide Next, Safe, Steady, Chosen, Replicas;
    LogsGrow(sys, run, i, i, l);
    LogsGrow(sys, run, j, j, m);
    var (x, y) := (run[i].learners[l].log, run[j].learners[m].log);
    RunSafe(sys, run, i, i);
    RunSafe(sys, run, j, j);
    forall k | 0 <= k < |x| && k < |y| ensures x[k] == y[k] {
      ExecutedIsChosen(sys, run[i], l, k);
      ExecutedIsChosen(sys, run[j], m, k);
      OneValueEver(sys, run, i, j, x[k].slot, x[k].value, y[k].value);
    }
    SameWhereBoth(x, y);
    PrefixesReplicate(sys, run, i, j, l, m);
  }
}
