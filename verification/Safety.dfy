/** Safety of the replicated log, over all runs with arbitrary proposers. */
module Safety {
  import opened Prelude
  import opened PaxosTypes
  import opened Quorum
  import opened Journal
  import opened AcceptorCore
  import opened AcceptorAgents
  import opened PromiseRound
  import opened LearnerCore
  import opened LearnerAgents
  import opened Protocol
  import R = AcceptorRecovery

  // ----- at most one value a slot is ever held by a majority ------------------

  ghost predicate Holds(w: World, a: NodeId, slot: Slot, v: Value) {
    && a in w.acceptors && slot in w.acceptors[a].accepted
    && w.acceptors[a].accepted[slot].value == Some(v)
  }

  ghost predicate HeldBy(w: World, q: set<NodeId>, slot: Slot, v: Value) {
    forall a :: a in q ==> Holds(w, a, slot, v)
  }

  /** No acceptor with storage has pruned this slot so far. */
  ghost predicate Unpruned(sys: System, w: World, slot: Slot) {
    forall a :: a in sys.acceptors && sys.acceptors[a].enabled ==>
      a in w.acceptors && w.acceptors[a].store.prunedTo < slot
  }

  /** This acceptor has not pruned the slot. */
  ghost predicate Kept(cfg: StorageConfig, st: AcceptorState, slot: Slot) { !cfg.enabled || st.store.prunedTo < slot }

  lemma HandleKeepsHeld(cfg: StorageConfig, me: NodeId, st: AcceptorState, req: Request, slot: Slot)
    requires cfg.Valid()
    ensures var st' := Handle(cfg, me, st, req).0;
      && st.store.prunedTo <= st'.store.prunedTo
      && (slot in st.accepted && (!cfg.enabled || st'.store.prunedTo < slot) ==>
            slot in st'.accepted && st'.accepted[slot] == st.accepted[slot])
  {
    hide Accept, CollectFrom;
    if req.AcceptReq? {
      AcceptFacts(cfg, st, req.slot, req.ballot, req.value);
    }
  }

  // an acceptor that restarts

  /** Memory and disk are in step, as in the recovery results. */
  ghost predicate Journaled(cfg: StorageConfig, st: AcceptorState)
    requires cfg.Valid()
  {
    exists line :: R.Durable(cfg, st, line)
  }

  ghost predicate AllJournaled(sys: System, w: World)
    requires sys.Valid() && Shaped(sys, w)
  {
    forall a :: a in sys.restarting ==> Journaled(sys.acceptors[a], w.acceptors[a])
  }

  lemma OpStaysJournaled(cfg: StorageConfig, st: AcceptorState, op: R.Op)
    requires cfg.Valid() && cfg.enabled && 0 < cfg.maxSnapshots && Journaled(cfg, st) && R.InOrder(cfg, st, op)
    ensures Journaled(cfg, R.Do(cfg, st, op))
  {
    hide R.Durable, R.Do, R.InOrder;
    var line :| R.Durable(cfg, st, line);
    var next := R.StepStaysDurable(cfg, st, line, op);
  }

  lemma HandleStaysJournaled(cfg: StorageConfig, me: NodeId, st: AcceptorState, req: Request)
    requires cfg.Valid() && cfg.enabled && 0 < cfg.maxSnapshots && Journaled(cfg, st) && InOrder(cfg, st, req)
    ensures Journaled(cfg, Handle(cfg, me, st, req).0)
  {
    hide Journaled, Accept, Prepare;
    match req
    case PrepareReq(slot, ballot) => OpStaysJournaled(cfg, st, R.PrepareOp(slot, ballot));
    case AcceptReq(slot, ballot, value) => OpStaysJournaled(cfg, st, R.AcceptOp(slot, ballot, value));
    case RetryReq(_) =>
  }

  /** A recoverable restart changes nothing but the process. */
  lemma RestartKeepsState(cfg: StorageConfig, st: AcceptorState)
    requires cfg.Valid() && cfg.enabled && 0 < cfg.maxSnapshots && Journaled(cfg, st) && R.Recoverable(cfg, st)
    ensures var st' := R.Restart(cfg, st);
      && st'.accepted == st.accepted && st'.promises == st.promises && st'.store.prunedTo == st.store.prunedTo
      && Journaled(cfg, st')
  {
    hide R.Durable, R.NothingForgotten, R.OldestReadable, Restore;
    var line :| R.Durable(cfg, st, line);
    R.RestartExactly(cfg, st, line);
    OpStaysJournaled(cfg, st, R.RestartOp);
  }

  lemma StepStaysJournaled(sys: System, w: World, w': World)
    requires sys.Valid() && Next(sys, w, w') && AllJournaled(sys, w)
    ensures AllJournaled(sys, w')
  {
    hide Handle, Insert, OnLearn, OnTick, CanWin, StorageConfig.Valid, AgentConfig.Valid, Journaled, InOrder,
      R.Restart, R.Recoverable;
    var e :| Allowed(sys, w, e) && w' == Step(sys, w, e);
    match e
    case AcceptorHandles(a, req) =>
      if a in sys.restarting {
        HandleStaysJournaled(sys.acceptors[a], a, w.acceptors[a], req);
      }
    case AcceptorRestarts(a) => RestartKeepsState(sys.acceptors[a], w.acceptors[a]);
    case _ => assert w'.acceptors == w.acceptors;
  }

  lemma StartsJournaled(sys: System)
    requires sys.Valid()
    ensures AllJournaled(sys, Protocol.Start(sys))
  {
    forall a | a in sys.restarting ensures Journaled(sys.acceptors[a], AcceptorCore.Fresh()) {
      var line := R.RunStaysDurable(sys.acceptors[a], []);
    }
  }

  lemma {:induction false} RunJournaled(sys: System, run: seq<World>, j: nat)
    requires sys.Valid() && IsRun(sys, run) && j < |run|
    ensures Shaped(sys, run[j]) && AllJournaled(sys, run[j])
  {
    hide AllJournaled, Next;
    if j == 0 {
      StartsJournaled(sys);
    } else {
      RunJournaled(sys, run, j - 1);
      assert Next(sys, run[j - 1], run[j]);
      StepShaped(sys, run[j - 1], run[j]);
      StepStaysJournaled(sys, run[j - 1], run[j]);
    }
  }

  lemma StepShaped(sys: System, w: World, w': World)
    requires sys.Valid() && Next(sys, w, w')
    ensures Shaped(sys, w) && Shaped(sys, w')
  {
    hide Step, Allowed;
  }

  lemma StepKeepsHeld(sys: System, w: World, w': World, a: NodeId, slot: Slot, v: Value)
    requires sys.Valid() && Next(sys, w, w') && AllJournaled(sys, w) && a in w.acceptors && a in w'.acceptors && a in sys.acceptors
    requires Kept(sys.acceptors[a], w'.acceptors[a], slot)
    ensures Kept(sys.acceptors[a], w.acceptors[a], slot)
    ensures Holds(w, a, slot, v) ==> Holds(w', a, slot, v)
  {
    hide Handle, Insert, OnLearn, OnTick, CanWin, StorageConfig.Valid, AgentConfig.Valid, Journaled, InOrder, R.Restart,
      R.Recoverable;
    var e :| Allowed(sys, w, e) && w' == Step(sys, w, e);
    match e
    case AcceptorHandles(b, req) => HandleKeepsHeld(sys.acceptors[b], b, w.acceptors[b], req, slot);
    case AcceptorRestarts(b) => RestartKeepsState(sys.acceptors[b], w.acceptors[b]);
    case _ => assert w'.acceptors == w.acceptors;
  }

  /** What an acceptor holds it holds forever, until it prunes the slot. */
  lemma {:induction false} HeldForever(sys: System, run: seq<World>, i: nat, j: nat, a: NodeId, slot: Slot, v: Value)
    requires sys.Valid() && IsRun(sys, run) && i <= j < |run| && a in sys.acceptors
    ensures a in run[i].acceptors && a in run[j].acceptors
    ensures Kept(sys.acceptors[a], run[j].acceptors[a], slot) ==>
      Kept(sys.acceptors[a], run[i].acceptors[a], slot) && (Holds(run[i], a, slot, v) ==> Holds(run[j], a, slot, v))
    decreases j - i
  {
    hide Next, Holds, Kept, AllJournaled;
    RunJournaled(sys, run, j);
    if i < j {
      RunJournaled(sys, run, j - 1);
      HeldForever(sys, run, i, j - 1, a, slot, v);
      if Kept(sys.acceptors[a], run[j].acceptors[a], slot) {
        StepKeepsHeld(sys, run[j - 1], run[j], a, slot, v);
      }
    }
  }

  /** Once an acceptor holds `v` for a slot it has not pruned, every accept of `v` there,
      under whatever ballot not below its last promise, is answered with its vote and an
      acknowledgement under that ballot. */
  lemma HeldIsAcknowledged(sys: System, run: seq<World>, i: nat, j: nat, a: NodeId, slot: Slot, ballot: Ballot, v: Value)
    requires sys.Valid() && IsRun(sys, run) && i <= j < |run| && a in sys.acceptors && Holds(run[i], a, slot, v)
    requires a in run[j].acceptors && Kept(sys.acceptors[a], run[j].acceptors[a], slot)
    requires HighestPromised(run[j].acceptors[a].promises) <= ballot
    ensures Shaped(sys, run[j]) && Allowed(sys, run[j], AcceptorHandles(a, AcceptReq(slot, ballot, v)))
    ensures var w' := Step(sys, run[j], AcceptorHandles(a, AcceptReq(slot, ballot, v)));
      LearnMsg(a, slot, v) in w'.net && AcceptedMsg(a, slot, ballot, v) in w'.net
  {
    hide Next, Handle, AllJournaled;
    HeldForever(sys, run, i, j, a, slot, v);
    RunJournaled(sys, run, j);
    var (cfg, st) := (sys.acceptors[a], run[j].acceptors[a]);
    AnswersAreExact(cfg, a, st, AcceptReq(slot, ballot, v));
    var sent := Handle(cfg, a, st, AcceptReq(slot, ballot, v)).1;
    assert sent[0] == LearnMsg(a, slot, v) && sent[1] == AcceptedMsg(a, slot, ballot, v);
  }

  /** Agreement for any proposer: the majorities may be different, at different
      times, under any ballots, with crashes and restarts in between.  With storage on,
      for slots no acceptor has pruned. */
  lemma Agreement(sys: System, run: seq<World>, i: nat, j: nat, slot: Slot,
                  p: set<NodeId>, u: Value, q: set<NodeId>, v: Value)
    requires sys.Valid() && IsRun(sys, run) && i < |run| && j < |run|
    requires Unpruned(sys, run[i], slot) && Unpruned(sys, run[j], slot)
    requires Majority(sys.acceptors.Keys, p) && HeldBy(run[i], p, slot, u)
    requires Majority(sys.acceptors.Keys, q) && HeldBy(run[j], q, slot, v)
    ensures u == v
  {
    var a := MajoritiesIntersect(sys.acceptors.Keys, p, q);
    if i <= j {
      HeldForever(sys, run, i, j, a, slot, u);
    } else {
      HeldForever(sys, run, j, i, a, slot, v);
    }
  }

  // ----- what one acceptor has said ----------------------------------------------

  ghost predicate Reported(p: Promise, slot: Slot, v: Value) {
    exists pv :: pv in p.accepted && pv.slot == slot && pv.value == Some(v)
  }

  /** A vote or an acknowledgement, and the value behind it. */
  ghost predicate Backed(cfg: StorageConfig, st: AcceptorState, m: Message)
    requires !m.PromiseMsg?
  {
    Kept(cfg, st, m.slot) ==> m.slot in st.accepted && st.accepted[m.slot].value == Some(m.value)
  }

  /** An acknowledgement under a smaller ballot shows up in a promise report. */
  ghost predicate Discovered(cfg: StorageConfig, st: AcceptorState, m: Message, p: Promise)
    requires m.AcceptedMsg?
  {
    Kept(cfg, st, m.slot) && m.ballot < p.ballot && p.slot <= m.slot ==> Reported(p, m.slot, m.value)
  }

  /** Every vote and acknowledgement of acceptor `a` is still backed by its state, every
      promise report is exact below its ballot, and no report misses a value acknowledged
      under a smaller ballot, for all slots that `a` has not pruned.  Accepts never raise
      the promised ballot, so the last clause cannot rest on ballots alone. */
  ghost predicate Faithful(cfg: StorageConfig, a: NodeId, st: AcceptorState, net: set<Message>) {
    && Ordered(st)
    && (forall m :: m in net && m.from == a && !m.PromiseMsg? ==> Backed(cfg, st, m))
    && (forall m :: m in net && m.from == a && m.PromiseMsg? ==> ExactReport(cfg, st, m.promise))
    && (forall m, k :: m in net && m.from == a && m.AcceptedMsg? && k in net && k.from == a && k.PromiseMsg? ==>
          Discovered(cfg, st, m, k.promise))
  }

  ghost predicate Ordered(st: AcceptorState) {
    && StrictlyIncreasing(st.promises)
    && (forall s :: s in st.accepted ==> st.accepted[s].slot == s && st.accepted[s].value.Some?)
  }

  /** Everything stored from the promised slot on under a smaller ballot is reported, and
      everything reported is still stored unless it was pruned. */
  ghost predicate ExactReport(cfg: StorageConfig, st: AcceptorState, p: Promise) {
    && p.ballot <= HighestPromised(st.promises)
    && (forall pv :: pv in p.accepted ==>
          p.slot <= pv.slot && (Kept(cfg, st, pv.slot) ==> pv.slot in st.accepted && st.accepted[pv.slot] == pv))
    && (forall s :: s in st.accepted && p.slot <= s && st.accepted[s].ballot < p.ballot ==> st.accepted[s] in p.accepted)
  }

  /** How one request or restart may change an acceptor: entries go only by pruning, and
      new ones come at or above the promised ballot. */
  ghost predicate Moves(cfg: StorageConfig, st: AcceptorState, st': AcceptorState) {
    && HighestPromised(st.promises) <= HighestPromised(st'.promises)
    && st.store.prunedTo <= st'.store.prunedTo
    && (forall s :: s in st.accepted && Kept(cfg, st', s) ==> s in st'.accepted && st'.accepted[s] == st.accepted[s])
    && (forall s :: s in st'.accepted ==>
          (s in st.accepted && st'.accepted[s] == st.accepted[s]) || HighestPromised(st.promises) <= st'.accepted[s].ballot)
  }

  lemma MovesKeepsBacked(cfg: StorageConfig, st: AcceptorState, st': AcceptorState, m: Message)
    requires Moves(cfg, st, st') && !m.PromiseMsg? && Backed(cfg, st, m)
    ensures Backed(cfg, st', m)
  {
  }

  lemma MovesKeepsReport(cfg: StorageConfig, st: AcceptorState, st': AcceptorState, p: Promise)
    requires Moves(cfg, st, st') && ExactReport(cfg, st, p)
    ensures ExactReport(cfg, st', p)
  {
  }

  /** What was said before a move is as true after it. */
  lemma MovesStaysFaithful(cfg: StorageConfig, a: NodeId, st: AcceptorState, st': AcceptorState, net: set<Message>)
    requires Moves(cfg, st, st') && Ordered(st') && Faithful(cfg, a, st, net)
    ensures Faithful(cfg, a, st', net)
  {
    assert forall s :: Kept(cfg, st', s) ==> Kept(cfg, st, s);
    hide Moves, Ordered, Backed, ExactReport, Reported, Kept;
    forall m | m in net && m.from == a && !m.PromiseMsg? ensures Backed(cfg, st', m) {
      MovesKeepsBacked(cfg, st, st', m);
    }
    forall m | m in net && m.from == a && m.PromiseMsg? ensures ExactReport(cfg, st', m.promise) {
      MovesKeepsReport(cfg, st, st', m.promise);
    }
  }

  /** New votes and acknowledgements, at or above the promised ballot. */
  lemma VotesStayFaithful(cfg: StorageConfig, a: NodeId, st: AcceptorState, net: set<Message>, sent: seq<Message>)
    requires Faithful(cfg, a, st, net)
    requires forall m :: m in sent ==> !m.PromiseMsg? && Backed(cfg, st, m)
    requires forall m :: m in sent && m.AcceptedMsg? ==> HighestPromised(st.promises) <= m.ballot
    ensures Faithful(cfg, a, st, net + Sent(sent))
  {
    hide Ordered, Backed, Reported, Kept;
    var all := net + Sent(sent);
    forall m, k | m in all && m.from == a && m.AcceptedMsg? && k in all && k.from == a && k.PromiseMsg?
      ensures Discovered(cfg, st, m, k.promise)
    {
      assert ExactReport(cfg, st, k.promise);
    }
  }

  lemma StoredIsReported(cfg: StorageConfig, st: AcceptorState, m: Message, p: Promise)
    requires m.AcceptedMsg? && Backed(cfg, st, m) && Ordered(st)
    requires forall s :: s in st.accepted && p.slot <= s ==> Reported(p, s, st.accepted[s].value.value)
    ensures Discovered(cfg, st, m, p)
  {
    hide Reported, StrictlyIncreasing;
  }

  /** A new promise that reports everything stored from its slot on. */
  lemma PromiseStaysFaithful(cfg: StorageConfig, a: NodeId, st: AcceptorState, net: set<Message>, p: Promise)
    requires Faithful(cfg, a, st, net) && ExactReport(cfg, st, p)
    requires forall s :: s in st.accepted && p.slot <= s ==> Reported(p, s, st.accepted[s].value.value)
    ensures Faithful(cfg, a, st, net + {PromiseMsg(a, p)})
  {
    hide Ordered, Backed, Reported, Kept, ExactReport, Discovered;
    var all := net + {PromiseMsg(a, p)};
    forall m, k | m in all && m.from == a && m.AcceptedMsg? && k in all && k.from == a && k.PromiseMsg?
      ensures Discovered(cfg, st, m, k.promise)
    {
      assert m in net;
      if k !in net {
        StoredIsReported(cfg, st, m, p);
      }
    }
  }

  lemma EntriesNamed(st: AcceptorState)
    requires Ordered(st)
    ensures forall s :: s in st.accepted ==> st.accepted[s].slot == s && st.accepted[s].value.Some?
  {
  }

  lemma PrepareKeepsOrder(cfg: StorageConfig, st: AcceptorState, slot: Slot, ballot: Ballot)
    requires Ordered(st) && Prepare(cfg, st, slot, ballot).1.Promised?
    ensures var st' := Prepare(cfg, st, slot, ballot).0;
      Ordered(st') && st'.accepted == st.accepted && HighestPromised(st.promises) <= HighestPromised(st'.promises)
  {
  }

  lemma PrepareReports(cfg: StorageConfig, st: AcceptorState, slot: Slot, ballot: Ballot)
    requires Ordered(st) && Prepare(cfg, st, slot, ballot).1.Promised?
    ensures var (st', r) := Prepare(cfg, st, slot, ballot);
      && Ordered(st') && st'.accepted == st.accepted
      && HighestPromised(st.promises) <= HighestPromised(st'.promises)
      && ExactReport(cfg, st', r.promise)
      && (forall s :: s in st.accepted && slot <= s ==> Reported(r.promise, s, st.accepted[s].value.value))
  {
    hide CollectFrom, Ordered, StrictlyIncreasing;
    PrepareKeepsOrder(cfg, st, slot, ballot);
    var report := CollectFrom(st.accepted, slot);
    assert forall s :: s in st.accepted ==> st.accepted[s].slot == s && st.accepted[s].value.Some? by { EntriesNamed(st); }
    forall pv ensures pv in report <==> exists s :: s in st.accepted && slot <= s && st.accepted[s] == pv {
      CollectFromReports(st.accepted, slot, pv);
    }
    forall s | s in st.accepted && slot <= s ensures st.accepted[s] in report {}
  }

  lemma PrepareStaysFaithful(cfg: StorageConfig, a: NodeId, st: AcceptorState, net: set<Message>, slot: Slot, ballot: Ballot)
    requires cfg.Valid() && Faithful(cfg, a, st, net)
    ensures var (st', sent) := Handle(cfg, a, st, PrepareReq(slot, ballot));
      Faithful(cfg, a, st', net + Sent(sent))
  {
    hide CollectFrom, ExactReport, Reported, Ordered, Backed, Discovered, Kept;
    var (st', r) := Prepare(cfg, st, slot, ballot);
    if r.Promised? {
      PrepareReports(cfg, st, slot, ballot);
      MovesStaysFaithful(cfg, a, st, st', net);
      PromiseStaysFaithful(cfg, a, st', net, r.promise);
      assert Sent([PromiseMsg(a, r.promise)]) == {PromiseMsg(a, r.promise)};
    } else {
      assert Sent([]) == {} && net + {} == net;
    }
  }

  lemma AcceptMoves(cfg: StorageConfig, st: AcceptorState, slot: Slot, ballot: Ballot, value: Value)
    requires cfg.Valid() && Ordered(st)
    ensures var (st', r) := Accept(cfg, st, slot, ballot, value);
      && Moves(cfg, st, st') && Ordered(st')
      && (r.Accepted? ==>
            && HighestPromised(st'.promises) <= ballot
            && (Kept(cfg, st', slot) ==> slot in st'.accepted && st'.accepted[slot].value == Some(value)))
  {
    hide Accept;
    AcceptFacts(cfg, st, slot, ballot, value);
  }

  lemma AcceptStaysFaithful(cfg: StorageConfig, a: NodeId, st: AcceptorState, net: set<Message>, slot: Slot, ballot: Ballot, value: Value)
    requires cfg.Valid() && Faithful(cfg, a, st, net)
    ensures var (st', sent) := Handle(cfg, a, st, AcceptReq(slot, ballot, value));
      Faithful(cfg, a, st', net + Sent(sent))
  {
    hide Accept, Ordered, Moves, Faithful, Kept;
    OrderedIfFaithful(cfg, a, st, net);
    AcceptMoves(cfg, st, slot, ballot, value);
    var (st', sent) := Handle(cfg, a, st, AcceptReq(slot, ballot, value));
    MovesStaysFaithful(cfg, a, st, st', net);
    VotesStayFaithful(cfg, a, st', net, sent);
  }

  lemma OrderedIfFaithful(cfg: StorageConfig, a: NodeId, st: AcceptorState, net: set<Message>)
    requires Faithful(cfg, a, st, net)
    ensures Ordered(st)
  {
  }

  lemma RestartStaysFaithful(cfg: StorageConfig, a: NodeId, st: AcceptorState, net: set<Message>)
    requires cfg.Valid() && cfg.enabled && 0 < cfg.maxSnapshots && Journaled(cfg, st) && R.Recoverable(cfg, st)
    requires Faithful(cfg, a, st, net)
    ensures Faithful(cfg, a, R.Restart(cfg, st), net)
  {
    hide Faithful, R.Restart, R.Recoverable, Journaled;
    OrderedIfFaithful(cfg, a, st, net);
    RestartKeepsState(cfg, st);
    MovesStaysFaithful(cfg, a, st, R.Restart(cfg, st), net);
  }

  lemma HandleStaysFaithful(cfg: StorageConfig, a: NodeId, st: AcceptorState, net: set<Message>, req: Request)
    requires cfg.Valid() && Faithful(cfg, a, st, net)
    requires req.RetryReq? ==> forall s :: s in req.slots ==> s in st.accepted
    ensures var (st', sent) := Handle(cfg, a, st, req);
      Faithful(cfg, a, st', net + Sent(sent))
  {
    hide Faithful, Prepare, Accept;
    match req
    case PrepareReq(slot, ballot) => PrepareStaysFaithful(cfg, a, st, net, slot, ballot);
    case AcceptReq(slot, ballot, value) => AcceptStaysFaithful(cfg, a, st, net, slot, ballot, value);
    case RetryReq(slots) =>
      OrderedIfFaithful(cfg, a, st, net);
      var sent := RetryVotes(a, st.accepted, slots);
      forall m | m in sent ensures m.LearnMsg? && Backed(cfg, st, m) {
        var i :| 0 <= i < |sent| && sent[i] == m;
        assert slots[i] in slots;
      }
      VotesStayFaithful(cfg, a, st, net, sent);
  }

  // ----- the whole system -------------------------------------------------------

  ghost predicate FaithfulAcceptors(sys: System, w: World) {
    forall a :: a in w.acceptors ==> a in sys.acceptors && Faithful(sys.acceptors[a], a, w.acceptors[a], w.net)
  }

  ghost predicate GenuineNet(sys: System, w: World) { forall m :: m in w.net ==> m.from in sys.acceptors }

  /** Whatever a proposer has filed was sent by the acceptor it is filed under. */
  ghost predicate GenuineTable(table: Table, net: set<Message>) {
    forall b, n :: b in table && n in table[b] ==> PromiseMsg(n, table[b][n]) in net && table[b][n].ballot == b
  }

  ghost function Votes(net: set<Message>, slot: Slot, v: Value): set<NodeId> {
    set m | m in net && m.LearnMsg? && m.slot == slot && m.value == v :: m.from
  }

  /** A quorum of acceptors has voted for `v`. */
  ghost predicate Chosen(sys: System, net: set<Message>, slot: Slot, v: Value) {
    Majority(sys.acceptors.Keys, Votes(net, slot, v))
  }

  ghost predicate GenuineLearner(sys: System, cfg: AgentConfig, st: AgentState, net: set<Message>) {
    && (forall s, n :: s in st.learner.votes && n in st.learner.votes[s] ==> LearnMsg(n, s, st.learner.votes[s][n]) in net)
    && (forall s :: s in st.learner.learned ==> Chosen(sys, net, s, st.learner.learned[s]))
    && (forall i :: 0 <= i < |st.log| ==> Chosen(sys, net, st.log[i].slot, st.log[i].value))
    && Conserved(cfg, st)
  }

  ghost predicate Safe(sys: System, w: World) {
    && Shaped(sys, w)
    && GenuineNet(sys, w)
    && FaithfulAcceptors(sys, w)
    && (forall p :: p in w.tables ==> GenuineTable(w.tables[p], w.net))
    && (forall l :: l in w.learners ==> GenuineLearner(sys, sys.learners[l], w.learners[l], w.net))
  }

  lemma FaithfulFrame(cfg: StorageConfig, a: NodeId, st: AcceptorState, net: set<Message>, net': set<Message>)
    requires Faithful(cfg, a, st, net) && net <= net'
    requires forall m :: m in net' && m !in net ==> m.from != a
    ensures Faithful(cfg, a, st, net')
  {
    hide Ordered, Backed, ExactReport, Discovered;
  }

  lemma ChosenGrows(sys: System, net: set<Message>, net': set<Message>, slot: Slot, v: Value)
    requires net <= net' && Chosen(sys, net, slot, v)
    requires forall m :: m in net' ==> m.from in sys.acceptors
    ensures Chosen(sys, net', slot, v)
  {
    LargerMajority(sys.acceptors.Keys, Votes(net, slot, v), Votes(net', slot, v));
  }

  lemma GenuineLearnerGrows(sys: System, cfg: AgentConfig, st: AgentState, net: set<Message>, net': set<Message>)
    requires GenuineLearner(sys, cfg, st, net) && net <= net'
    requires forall m :: m in net' ==> m.from in sys.acceptors
    ensures GenuineLearner(sys, cfg, st, net')
  {
    hide Chosen, Conserved;
    forall s | s in st.learner.learned ensures Chosen(sys, net', s, st.learner.learned[s]) {
      ChosenGrows(sys, net, net', s, st.learner.learned[s]);
    }
    forall i | 0 <= i < |st.log| ensures Chosen(sys, net', st.log[i].slot, st.log[i].value) {
      ChosenGrows(sys, net, net', st.log[i].slot, st.log[i].value);
    }
  }

  lemma SentByMe(cfg: StorageConfig, a: NodeId, st: AcceptorState, req: Request, m: Message)
    requires cfg.Valid() && m in Handle(cfg, a, st, req).1
    ensures m.from == a
  {
  }

  lemma AcceptorStepSafe(sys: System, w: World, a: NodeId, req: Request)
    requires sys.Valid() && Safe(sys, w) && Allowed(sys, w, AcceptorHandles(a, req))
    ensures var w' := Step(sys, w, AcceptorHandles(a, req)); Safe(sys, w') && w.net <= w'.net
  {
    hide Faithful, GenuineLearner, Handle;
    var (st, sent) := Handle(sys.acceptors[a], a, w.acceptors[a], req);
    var w' := Step(sys, w, AcceptorHandles(a, req));
    assert w' == w.(acceptors := w.acceptors[a := st], net := w.net + Sent(sent));
    forall m | m in sent ensures m.from == a {
      SentByMe(sys.acceptors[a], a, w.acceptors[a], req, m);
    }
    HandleStaysFaithful(sys.acceptors[a], a, w.acceptors[a], w.net, req);
    forall b | b in w'.acceptors ensures Faithful(sys.acceptors[b], b, w'.acceptors[b], w'.net) {
      if b != a {
        FaithfulFrame(sys.acceptors[b], b, w.acceptors[b], w.net, w'.net);
      }
    }
    forall l | l in w.learners ensures GenuineLearner(sys, sys.learners[l], w.learners[l], w'.net) {
      GenuineLearnerGrows(sys, sys.learners[l], w.learners[l], w.net, w'.net);
    }
  }

  /** A value found by the quorum count of a learner is chosen. */
  lemma WinnerIsChosen(sys: System, cfg: AgentConfig, st: AgentState, net: set<Message>, vote: Message, w: Option<Value>)
    requires GenuineLearner(sys, cfg, st, net) && vote in net && vote.LearnMsg?
    requires forall m :: m in net ==> m.from in sys.acceptors
    requires cfg.numAcceptors == |sys.acceptors.Keys|
    requires CanWin(cfg, st, vote.slot, vote.value, vote.from, w) && w.Some?
    ensures Chosen(sys, net, vote.slot, w.value)
  {
    var votes := Record(st.learner, vote.slot, vote.value, vote.from).votes[vote.slot];
    forall n | n in Voters(votes, w.value) ensures n in Votes(net, vote.slot, w.value) {
      assert LearnMsg(n, vote.slot, w.value) in net;
    }
    SubsetCardinality(Voters(votes, w.value), Votes(net, vote.slot, w.value));
  }

  lemma ExecuteStaysGenuine(sys: System, cfg: AgentConfig, st: AgentState, net: set<Message>)
    requires cfg.Valid() && GenuineLearner(sys, cfg, st, net)
    ensures GenuineLearner(sys, cfg, ExecuteChosen(cfg, st), net)
  {
    hide Chosen, Conserved, ToBeExecuted, KvMachine.ApplyAll;
    ExecuteConserves(cfg, st);
    ToBeExecutedFacts(cfg.storage, st.learner);
    var batch := ToBeExecuted(cfg.storage, st.learner).1;
    var st' := ExecuteChosen(cfg, st);
    forall i | 0 <= i < |st'.log| ensures Chosen(sys, net, st'.log[i].slot, st'.log[i].value) {
      assert st'.log[i] == if i < |st.log| then st.log[i] else batch[i - |st.log|];
    }
  }

  lemma FlushStaysGenuine(sys: System, cfg: AgentConfig, st: AgentState, net: set<Message>, requireFull: bool)
    requires GenuineLearner(sys, cfg, st, net)
    ensures GenuineLearner(sys, cfg, CollectAndDispatch(cfg, st, requireFull), net)
  {
    hide Chosen, Conserved;
    CollectAndDispatchConserves(cfg, st, requireFull);
  }

  lemma OnLearnStaysGenuine(sys: System, cfg: AgentConfig, st: AgentState, net: set<Message>, vote: Message, w: Option<Value>)
    requires cfg.Valid() && GenuineLearner(sys, cfg, st, net) && vote in net && vote.LearnMsg?
    requires forall m :: m in net ==> m.from in sys.acceptors
    requires cfg.numAcceptors == |sys.acceptors.Keys|
    requires CanWin(cfg, st, vote.slot, vote.value, vote.from, w)
    ensures GenuineLearner(sys, cfg, OnLearn(cfg, st, vote.slot, vote.value, vote.from, w), net)
  {
    hide Chosen, ExecuteChosen, CollectAndDispatch, CanWin, Conserved, AgentConfig.Valid;
    if w.Some? {
      WinnerIsChosen(sys, cfg, st, net, vote, w);
    }
    assert Conserved(cfg, st);
    LearnConserves(cfg, st, vote.slot, vote.value, vote.from, w);
    var (learner, isNew) := HandleLearn(cfg.storage, st.learner, vote.slot, vote.value, vote.from, w);
    var st' := st.(learner := learner);
    assert GenuineLearner(sys, cfg, st', net);
    if isNew {
      ExecuteStaysGenuine(sys, cfg, st', net);
      FlushStaysGenuine(sys, cfg, ExecuteChosen(cfg, st'), net, true);
    }
  }

  lemma OnTickStaysGenuine(sys: System, cfg: AgentConfig, st: AgentState, net: set<Message>, due: bool)
    requires cfg.Valid() && GenuineLearner(sys, cfg, st, net)
    ensures GenuineLearner(sys, cfg, OnTick(cfg, st, due), net)
  {
    hide ExecuteChosen, CollectAndDispatch, GenuineLearner;
    if due {
      ExecuteStaysGenuine(sys, cfg, st, net);
      FlushStaysGenuine(sys, cfg, ExecuteChosen(cfg, st), net, false);
    }
  }

  lemma LearnerChangeSafe(sys: System, w: World, l: NodeId, st: AgentState)
    requires Safe(sys, w) && l in sys.learners
    requires GenuineLearner(sys, sys.learners[l], st, w.net)
    ensures Safe(sys, w.(learners := w.learners[l := st]))
  {
    hide GenuineLearner, Faithful;
  }

  lemma LearnerGetsSafe(sys: System, w: World, l: NodeId, vote: Message, winner: Option<Value>)
    requires sys.Valid() && Safe(sys, w) && Allowed(sys, w, LearnerGets(l, vote, winner))
    ensures var w' := Step(sys, w, LearnerGets(l, vote, winner)); Safe(sys, w') && w'.net == w.net
  {
    hide GenuineLearner, Faithful, OnLearn, CanWin;
    OnLearnStaysGenuine(sys, sys.learners[l], w.learners[l], w.net, vote, winner);
    LearnerChangeSafe(sys, w, l, OnLearn(sys.learners[l], w.learners[l], vote.slot, vote.value, vote.from, winner));
  }

  lemma LearnerTicksSafe(sys: System, w: World, l: NodeId, due: bool)
    requires sys.Valid() && Safe(sys, w) && Allowed(sys, w, LearnerTicks(l, due))
    ensures var w' := Step(sys, w, LearnerTicks(l, due)); Safe(sys, w') && w'.net == w.net
  {
    hide GenuineLearner, Faithful, OnTick;
    OnTickStaysGenuine(sys, sys.learners[l], w.learners[l], w.net, due);
    LearnerChangeSafe(sys, w, l, OnTick(sys.learners[l], w.learners[l], due));
  }

  lemma ProposerGetsSafe(sys: System, w: World, p: NodeId, promise: Message)
    requires sys.Valid() && Safe(sys, w) && Allowed(sys, w, ProposerGets(p, promise))
    ensures var w' := Step(sys, w, ProposerGets(p, promise)); Safe(sys, w') && w'.net == w.net
  {
    hide GenuineLearner, Faithful;
    assert GenuineTable(w.tables[p], w.net);
  }

  lemma AcceptorRestartSafe(sys: System, w: World, a: NodeId)
    requires sys.Valid() && Safe(sys, w) && AllJournaled(sys, w) && Allowed(sys, w, AcceptorRestarts(a))
    ensures var w' := Step(sys, w, AcceptorRestarts(a)); Safe(sys, w') && w'.net == w.net
  {
    hide Faithful, GenuineLearner, R.Restart, R.Recoverable, Journaled;
    RestartStaysFaithful(sys.acceptors[a], a, w.acceptors[a], w.net);
  }

  lemma StepSafe(sys: System, w: World, w': World)
    requires sys.Valid() && Safe(sys, w) && Next(sys, w, w') && AllJournaled(sys, w)
    ensures Safe(sys, w') && w.net <= w'.net
  {
    hide Safe, Allowed, Step, AllJournaled;
    var e :| Allowed(sys, w, e) && w' == Step(sys, w, e);
    match e
    case AcceptorHandles(a, req) => AcceptorStepSafe(sys, w, a, req);
    case AcceptorRestarts(a) => AcceptorRestartSafe(sys, w, a);
    case ProposerGets(p, promise) => ProposerGetsSafe(sys, w, p, promise);
    case LearnerGets(l, vote, winner) => LearnerGetsSafe(sys, w, l, vote, winner);
    case LearnerTicks(l, due) => LearnerTicksSafe(sys, w, l, due);
  }

  lemma StartSafe(sys: System)
    requires sys.Valid()
    ensures Safe(sys, Protocol.Start(sys))
  {
    hide Faithful, GenuineLearner;
    forall a | a in sys.acceptors ensures Faithful(sys.acceptors[a], a, AcceptorCore.Fresh(), {}) {
      FreshIsFaithful(sys.acceptors[a], a);
    }
    forall l | l in sys.learners ensures GenuineLearner(sys, sys.learners[l], FreshAgent(), {}) {
      FreshIsGenuine(sys, sys.learners[l]);
    }
  }

  lemma FreshIsFaithful(cfg: StorageConfig, a: NodeId)
    ensures Faithful(cfg, a, AcceptorCore.Fresh(), {})
  {
  }

  lemma FreshIsGenuine(sys: System, cfg: AgentConfig)
    ensures GenuineLearner(sys, cfg, FreshAgent(), {})
  {
  }

  lemma {:induction false} RunSafe(sys: System, run: seq<World>, i: nat, j: nat)
    requires sys.Valid() && IsRun(sys, run) && i <= j < |run|
    ensures Safe(sys, run[j]) && run[i].net <= run[j].net
    decreases j
  {
    hide Next, Safe, Start, AllJournaled;
    if j == 0 {
      StartSafe(sys);
    } else {
      RunSafe(sys, run, if i < j then i else j - 1, j - 1);
      RunJournaled(sys, run, j - 1);
      StepSafe(sys, run[j - 1], run[j]);
    }
  }

  // ----- the main results ----------------------------------------------------------

  /** In a safe world a slot that no acceptor has pruned has at most one chosen value. */
  lemma OneChosenValue(sys: System, w: World, slot: Slot, u: Value, v: Value)
    requires sys.Valid() && Safe(sys, w) && Unpruned(sys, w, slot)
    requires Chosen(sys, w.net, slot, u) && Chosen(sys, w.net, slot, v)
    ensures u == v
  {
    hide GenuineLearner, ExactReport, Discovered, Ordered, GenuineTable;
    var a := MajoritiesIntersect(sys.acceptors.Keys, Votes(w.net, slot, u), Votes(w.net, slot, v));
    assert Faithful(sys.acceptors[a], a, w.acceptors[a], w.net);
    assert LearnMsg(a, slot, u) in w.net && LearnMsg(a, slot, v) in w.net;
    assert Backed(sys.acceptors[a], w.acceptors[a], LearnMsg(a, slot, u));
    assert Backed(sys.acceptors[a], w.acceptors[a], LearnMsg(a, slot, v));
  }

  /** The same over runs: votes may be cast at any time, before or after restarts. */
  lemma OneValueIsChosen(sys: System, run: seq<World>, i: nat, j: nat, slot: Slot, u: Value, v: Value)
    requires sys.Valid() && IsRun(sys, run) && i <= j < |run| && Unpruned(sys, run[j], slot)
    requires Chosen(sys, run[i].net, slot, u) && Chosen(sys, run[j].net, slot, v)
    ensures u == v
  {
    hide Next, Chosen, Unpruned;
    RunSafe(sys, run, i, j);
    SafeIsGenuine(sys, run[j]);
    hide Safe;
    ChosenGrows(sys, run[i].net, run[j].net, slot, u);
    OneChosenValue(sys, run[j], slot, u, v);
  }

  lemma SafeIsGenuine(sys: System, w: World)
    requires Safe(sys, w)
    ensures Shaped(sys, w) && GenuineNet(sys, w)
  {
  }

  // executed logs

  lemma CollectKeepsLog(cfg: AgentConfig, st: AgentState, requireFull: bool)
    ensures CollectAndDispatch(cfg, st, requireFull).log == st.log
  {
  }

  /** A step only appends to executed logs, and leaves the acceptors alone if it does. */
  lemma StepGrowsLogs(sys: System, w: World, w': World, l: NodeId)
    requires sys.Valid() && Next(sys, w, w') && l in sys.learners
    ensures l in w.learners && l in w'.learners && w.learners[l].log <= w'.learners[l].log
    ensures w.learners[l].log != w'.learners[l].log ==> w'.acceptors == w.acceptors
  {
    hide Handle, Insert, CanWin, StorageConfig.Valid, AgentConfig.Valid, InOrder, R.Restart, R.Recoverable, CollectAndDispatch,
      ToBeExecuted, HandleLearn, KvMachine.ApplyAll;
    var e :| Allowed(sys, w, e) && w' == Step(sys, w, e);
    match e
    case LearnerGets(k, vote, winner) =>
      var cfg := sys.learners[k];
      var st := w.learners[k].(learner :=
        HandleLearn(cfg.storage, w.learners[k].learner, vote.slot, vote.value, vote.from, winner).0);
      CollectKeepsLog(cfg, ExecuteChosen(cfg, st), true);
    case LearnerTicks(k, due) =>
      CollectKeepsLog(sys.learners[k], ExecuteChosen(sys.learners[k], w.learners[k]), false);
    case _ =>
  }

  lemma {:induction false} LogsGrow(sys: System, run: seq<World>, i: nat, j: nat, l: NodeId)
    requires sys.Valid() && IsRun(sys, run) && i <= j < |run| && l in sys.learners
    ensures l in run[i].learners && l in run[j].learners && run[i].learners[l].log <= run[j].learners[l].log
    decreases j - i
  {
    hide Next, AllJournaled;
    RunJournaled(sys, run, j);
    if i < j {
      LogsGrow(sys, run, i, j - 1, l);
      StepGrowsLogs(sys, run[j - 1], run[j], l);
    }
  }

  /** What learners executed for a slot that no acceptor has pruned is the same value. */
  lemma ExecutedSlotsAgree(sys: System, run: seq<World>, i: nat, j: nat, l: NodeId, m: NodeId, k: nat)
    requires sys.Valid() && IsRun(sys, run) && i <= j < |run| && l in sys.learners && m in sys.learners
    requires l in run[i].learners && m in run[j].learners
    requires k < |run[i].learners[l].log| && k < |run[j].learners[m].log|
    requires Unpruned(sys, run[j], run[j].learners[m].log[k].slot)
    ensures run[i].learners[l].log[k] == run[j].learners[m].log[k]
  {
    hide Next, Chosen, Unpruned;
    RunSafe(sys, run, i, i);
    RunSafe(sys, run, j, j);
    ExecutedIsChosen(sys, run[i], l, k);
    ExecutedIsChosen(sys, run[j], m, k);
    hide Safe;
    var (x, y) := (run[i].learners[l].log[k], run[j].learners[m].log[k]);
    OneValueIsChosen(sys, run, i, j, y.slot, x.value, y.value);
  }

  lemma ExecutedIsChosen(sys: System, w: World, l: NodeId, k: nat)
    requires Safe(sys, w) && l in w.learners && k < |w.learners[l].log|
    ensures var e := w.learners[l].log[k]; e.slot == k + 1 && Chosen(sys, w.net, e.slot, e.value)
  {
    hide Chosen, FaithfulAcceptors, GenuineTable, KvMachine.Results, KvMachine.Run, SentResults;
    assert GenuineLearner(sys, sys.learners[l], w.learners[l], w.net);
    assert Conserved(sys.learners[l], w.learners[l]);
  }

  /** No acceptor has pruned a slot that one of these learners has yet to execute. */
  ghost predicate PrunesBehind(sys: System, w: World, l: NodeId, m: NodeId) {
    forall a :: a in sys.acceptors && sys.acceptors[a].enabled && a in w.acceptors ==>
      && (l in w.learners ==> w.acceptors[a].store.prunedTo <= |w.learners[l].log|)
      && (m in w.learners ==> w.acceptors[a].store.prunedTo <= |w.learners[m].log|)
  }

  lemma SameWhereBoth(x: seq<LearnedEntry>, y: seq<LearnedEntry>)
    requires forall k :: 0 <= k < |x| && k < |y| ==> x[k] == y[k]
    ensures x <= y || y <= x
  {
  }

  /** The logs of two learners never part, as long as acceptors prune behind them. */
  lemma {:induction false} LogsNeverPart(sys: System, run: seq<World>, j: nat, l: NodeId, m: NodeId)
    requires sys.Valid() && IsRun(sys, run) && j < |run| && l in sys.learners && m in sys.learners
    requires forall t :: 0 <= t <= j ==> PrunesBehind(sys, run[t], l, m)
    ensures l in run[j].learners && m in run[j].learners
    ensures run[j].learners[l].log <= run[j].learners[m].log || run[j].learners[m].log <= run[j].learners[l].log
  {
    hide Next, Safe, PrunesBehind, Unpruned;
    LogsGrow(sys, run, 0, j, l);
    LogsGrow(sys, run, 0, j, m);
    if j == 0 {
    } else {
      LogsNeverPart(sys, run, j - 1, l, m);
      StepGrowsLogs(sys, run[j - 1], run[j], l);
      StepGrowsLogs(sys, run[j - 1], run[j], m);
      var (x, y) := (run[j].learners[l].log, run[j].learners[m].log);
      var (x', y') := (run[j - 1].learners[l].log, run[j - 1].learners[m].log);
      forall k | 0 <= k < |x| && k < |y| ensures x[k] == y[k] {
        if k < |x'| && k < |y'| {
          assert x[k] == x'[k] && y[k] == y'[k];
        } else {
          NewSlotUnpruned(sys, run, j, l, m, k);
          ExecutedSlotsAgree(sys, run, j, j, l, m, k);
        }
      }
      SameWhereBoth(x, y);
    }
  }

  lemma NewSlotUnpruned(sys: System, run: seq<World>, j: nat, l: NodeId, m: NodeId, k: nat)
    requires sys.Valid() && IsRun(sys, run) && 0 < j < |run| && l in sys.learners && m in sys.learners
    requires l in run[j - 1].learners && m in run[j - 1].learners && l in run[j].learners && m in run[j].learners
    requires PrunesBehind(sys, run[j - 1], l, m)
    requires k < |run[j].learners[l].log| && k < |run[j].learners[m].log|
    requires |run[j - 1].learners[l].log| <= k || |run[j - 1].learners[m].log| <= k
    ensures Unpruned(sys, run[j], run[j].learners[m].log[k].slot)
  {
    hide Next, Safe;
    StepGrowsLogs(sys, run[j - 1], run[j], l);
    StepGrowsLogs(sys, run[j - 1], run[j], m);
    assert run[j].acceptors == run[j - 1].acceptors;
    RunSafe(sys, run, j, j);
    SafeIsGenuine(sys, run[j]);
    ExecutedIsChosen(sys, run[j], m, k);
  }

  /** One executed log is a prefix of the other, and at equal cursors the stores and all
      results, sent or still buffered, are equal. */
  ghost predicate Replicas(x: AgentState, y: AgentState) {
    && (x.log <= y.log || y.log <= x.log)
    && (x.learner.adu == y.learner.adu ==>
          x.kv == y.kv && SentResults(x.sent) + x.buffer == SentResults(y.sent) + y.buffer)
  }

  /** State machine replication.  Any two learners, each at any moment of any run with
      restarts, are replicas, as long as acceptors prune behind them. */
  lemma StateMachineReplication(sys: System, run: seq<World>, i: nat, j: nat, l: NodeId, m: NodeId)
    requires sys.Valid() && IsRun(sys, run) && i <= j < |run|
    requires l in sys.learners && m in sys.learners
    requires forall t :: 0 <= t <= j ==> PrunesBehind(sys, run[t], l, m)
    ensures l in run[i].learners && m in run[j].learners
    ensures Replicas(run[i].learners[l], run[j].learners[m])
  {
    hide Next, Safe, PrunesBehind, Replicas;
    LogsGrow(sys, run, i, j, l);
    LogsNeverPart(sys, run, j, l, m);
    PrefixesMeet(run[i].learners[l].log, run[j].learners[l].log, run[j].learners[m].log);
    PrefixesReplicate(sys, run, i, j, l, m);
  }

  lemma PrefixesMeet(x: seq<LearnedEntry>, z: seq<LearnedEntry>, y: seq<LearnedEntry>)
    requires x <= z && (z <= y || y <= z)
    ensures x <= y || y <= x
  {
    if |x| <= |y| {
      assert x == y[..|x|];
    }
  }

  lemma PrefixesReplicate(sys: System, run: seq<World>, i: nat, j: nat, l: NodeId, m: NodeId)
    requires sys.Valid() && IsRun(sys, run) && i <= j < |run|
    requires l in run[i].learners && m in run[j].learners
    requires run[i].learners[l].log <= run[j].learners[m].log || run[j].learners[m].log <= run[i].learners[l].log
    ensures Replicas(run[i].learners[l], run[j].learners[m])
  {
    hide Next, Safe;
    RunSafe(sys, run, i, i);
    RunSafe(sys, run, j, j);
    LearnerConserved(sys, run[i], l);
    LearnerConserved(sys, run[j], m);
    hide KvMachine.Results, KvMachine.Run, SentResults;
    var (x, y) := (run[i].learners[l], run[j].learners[m]);
    assert |x.log| == |y.log| ==> x.log == y.log;
  }

  lemma LearnerConserved(sys: System, w: World, l: NodeId)
    requires Safe(sys, w) && l in w.learners
    ensures l in sys.learners && Conserved(sys.learners[l], w.learners[l])
  {
    hide FaithfulAcceptors, GenuineTable, Conserved;
    assert GenuineLearner(sys, sys.learners[l], w.learners[l], w.net);
  }

  /** A promise is final below its ballot, through restarts.  At every later moment what
      the acceptor stores from the promised slot on under a smaller ballot was reported,
      and what was reported is stored, unless the acceptor has pruned the slot. */
  lemma PromiseReportsAreFinal(sys: System, run: seq<World>, i: nat, j: nat, a: NodeId, p: Promise, pv: PValue)
    requires sys.Valid() && IsRun(sys, run) && i <= j < |run|
    requires PromiseMsg(a, p) in run[i].net && pv.ballot < p.ballot
    ensures a in sys.acceptors && a in run[j].acceptors
    ensures var accepted := run[j].acceptors[a].accepted;
      var stored := p.slot <= pv.slot && pv.slot in accepted && accepted[pv.slot] == pv;
      && (stored ==> pv in p.accepted)
      && (Kept(sys.acceptors[a], run[j].acceptors[a], pv.slot) ==> (pv in p.accepted <==> stored))
  {
    hide Next, GenuineLearner, GenuineTable, Discovered, Backed, Ordered;
    RunSafe(sys, run, i, j);
    assert PromiseMsg(a, p).from in sys.acceptors;
    assert Faithful(sys.acceptors[a], a, run[j].acceptors[a], run[j].net);
    assert ExactReport(sys.acceptors[a], run[j].acceptors[a], p);
  }

  lemma AcknowledgedIsReported(cfg: StorageConfig, a: NodeId, st: AcceptorState, net: set<Message>,
                               slot: Slot, b: Ballot, v: Value, p: Promise)
    requires Faithful(cfg, a, st, net) && AcceptedMsg(a, slot, b, v) in net && PromiseMsg(a, p) in net
    requires b < p.ballot && p.slot <= slot && Kept(cfg, st, slot)
    ensures Reported(p, slot, v)
  {
    hide Reported, Backed, ExactReport, Ordered, Kept;
    var (ack, promise) := (AcceptedMsg(a, slot, b, v), PromiseMsg(a, p));
    assert ack.from == a && promise.from == a;
    assert Discovered(cfg, st, ack, promise.promise);
  }

  /** Among the senders of a promise list is an acceptor of any majority. */
  lemma ListMeetsMajority(sys: System, w: World, q: set<NodeId>, proposer: NodeId, ballot: Ballot, list: seq<Promise>)
      returns (a: NodeId, i: nat)
    requires Safe(sys, w) && Majority(sys.acceptors.Keys, q) && proposer in w.tables
    requires Reports(w.tables[proposer], QuorumSize(|sys.acceptors.Keys|), Some((ballot, list)))
    ensures a in q && i < |list| && list[i].ballot == ballot && PromiseMsg(a, list[i]) in w.net
  {
    hide FaithfulAcceptors, GenuineLearner;
    var table := w.tables[proposer];
    assert GenuineTable(table, w.net);
    var senders :| ListsAs(table[ballot], list, senders);
    forall n | n in table[ballot] ensures n in sys.acceptors {
      assert PromiseMsg(n, table[ballot][n]).from in sys.acceptors;
    }
    a := MajoritiesIntersect(sys.acceptors.Keys, q, table[ballot].Keys);
    i :| 0 <= i < |senders| && senders[i] == a;
  }

  lemma ListDiscoversChosen(sys: System, w: World, q: set<NodeId>, slot: Slot, b: Ballot, v: Value,
                            proposer: NodeId, ballot: Ballot, list: seq<Promise>)
    requires Safe(sys, w) && proposer in w.tables && Unpruned(sys, w, slot)
    requires Majority(sys.acceptors.Keys, q) && forall a :: a in q ==> AcceptedMsg(a, slot, b, v) in w.net
    requires Reports(w.tables[proposer], QuorumSize(|sys.acceptors.Keys|), Some((ballot, list)))
    requires b < ballot && forall i :: 0 <= i < |list| ==> list[i].slot <= slot
    ensures exists i :: 0 <= i < |list| && Reported(list[i], slot, v)
  {
    hide Reports, Reported, Faithful, GenuineLearner, GenuineTable;
    var a, i := ListMeetsMajority(sys, w, q, proposer, ballot, list);
    assert AcceptedMsg(a, slot, b, v).from in sys.acceptors;
    AcknowledgedIsReported(sys.acceptors[a], a, w.acceptors[a], w.net, slot, b, v, list[i]);
  }

  /** If a majority acknowledged `v` for a slot under ballot `b`, every promise list
      a proposer obtains for a larger ballot, over slots that include it, reports `v`
      for that slot if no acceptor has pruned it, however the two rounds and restarts
      interleaved. */
  lemma PromiseQuorumsDiscoverChosen(sys: System, run: seq<World>, j: nat, q: set<NodeId>, slot: Slot, b: Ballot, v: Value,
                                     proposer: NodeId, ballot: Ballot, list: seq<Promise>)
    requires sys.Valid() && IsRun(sys, run) && j < |run| && Unpruned(sys, run[j], slot)
    requires Majority(sys.acceptors.Keys, q) && forall a :: a in q ==> AcceptedMsg(a, slot, b, v) in run[j].net
    requires proposer in run[j].tables
    requires Reports(run[j].tables[proposer], QuorumSize(|sys.acceptors.Keys|), Some((ballot, list)))
    requires b < ballot && forall i :: 0 <= i < |list| ==> list[i].slot <= slot
    ensures exists i :: 0 <= i < |list| && Reported(list[i], slot, v)
  {
    hide Next, Safe, Reports, Reported, Unpruned;
    RunSafe(sys, run, j, j);
    ListDiscoversChosen(sys, run[j], q, slot, b, v, proposer, ballot, list);
  }

  // ----- what promises and tables say ---------------------------------------------------

  /** The promised ballot is 0, or that of a promise sent. */
  ghost predicate PromiseSent(a: NodeId, st: AcceptorState, net: set<Message>) {
    HighestPromised(st.promises) == 0 ||
    exists m :: m in net && m.PromiseMsg? && m.from == a && m.promise.ballot == HighestPromised(st.promises)
  }

  lemma HandleSendsPromise(cfg: StorageConfig, a: NodeId, st: AcceptorState, net: set<Message>, req: Request)
    requires cfg.Valid() && PromiseSent(a, st, net)
    ensures var (st', sent) := Handle(cfg, a, st, req); PromiseSent(a, st', net + Sent(sent))
  {
    hide Prepare, Accept;
    var (st', sent) := Handle(cfg, a, st, req);
    match req
    case PrepareReq(slot, ballot) =>
      PrepareIsExact(cfg, st, slot, ballot);
      if HighestPromised(st.promises) <= ballot {
        assert sent[0] in net + Sent(sent);
      }
    case AcceptReq(slot, ballot, value) => AcceptFacts(cfg, st, slot, ballot, value);
    case RetryReq(_) =>
  }

  lemma StepSendsPromises(sys: System, w: World, w': World, a: NodeId)
    requires sys.Valid() && Next(sys, w, w') && AllJournaled(sys, w) && a in w.acceptors && a in w'.acceptors
    requires PromiseSent(a, w.acceptors[a], w.net)
    ensures PromiseSent(a, w'.acceptors[a], w'.net)
  {
    hide Handle, Insert, OnLearn, OnTick, CanWin, StorageConfig.Valid, AgentConfig.Valid, Journaled, InOrder, R.Restart,
      R.Recoverable;
    var e :| Allowed(sys, w, e) && w' == Step(sys, w, e);
    match e
    case AcceptorHandles(b, req) =>
      if b == a {
        HandleSendsPromise(sys.acceptors[a], a, w.acceptors[a], w.net, req);
      } else {
        PromiseStaysSent(a, w.acceptors[a], w.net, w'.net);
      }
    case AcceptorRestarts(b) => RestartKeepsState(sys.acceptors[b], w.acceptors[b]);
    case _ => assert w'.acceptors == w.acceptors && w'.net == w.net;
  }

  lemma PromiseStaysSent(a: NodeId, st: AcceptorState, net: set<Message>, net': set<Message>)
    requires PromiseSent(a, st, net) && net <= net'
    ensures PromiseSent(a, st, net')
  {
  }

  lemma {:induction false} RunSendsPromises(sys: System, run: seq<World>, j: nat, a: NodeId)
    requires sys.Valid() && IsRun(sys, run) && j < |run| && a in sys.acceptors
    ensures a in run[j].acceptors && PromiseSent(a, run[j].acceptors[a], run[j].net)
  {
    hide Next, PromiseSent, AllJournaled;
    RunJournaled(sys, run, j);
    if j == 0 {
      FreshPromise(a);
    } else {
      RunSendsPromises(sys, run, j - 1, a);
      RunJournaled(sys, run, j - 1);
      StepSendsPromises(sys, run[j - 1], run[j], a);
    }
  }

  lemma FreshPromise(a: NodeId)
    ensures PromiseSent(a, AcceptorCore.Fresh(), {})
  {
  }

  /** In every run the ballot an acceptor goes by is the largest it ever promised, or 0. */
  lemma LastPromiseIsLargest(sys: System, run: seq<World>, j: nat, a: NodeId)
    requires sys.Valid() && IsRun(sys, run) && j < |run| && a in sys.acceptors
    ensures a in run[j].acceptors
    ensures var highest := HighestPromised(run[j].acceptors[a].promises);
      && (forall m :: m in run[j].net && m.PromiseMsg? && m.from == a ==> m.promise.ballot <= highest)
      && (highest == 0 || exists m :: m in run[j].net && m.PromiseMsg? && m.from == a && m.promise.ballot == highest)
  {
    hide Next, GenuineLearner, GenuineTable, Discovered, Backed, Ordered;
    RunSafe(sys, run, j, j);
    RunSendsPromises(sys, run, j, a);
    assert Faithful(sys.acceptors[a], a, run[j].acceptors[a], run[j].net);
    forall m | m in run[j].net && m.PromiseMsg? && m.from == a
      ensures m.promise.ballot <= HighestPromised(run[j].acceptors[a].promises)
    {
      assert ExactReport(sys.acceptors[a], run[j].acceptors[a], m.promise);
    }
  }

  /** These promises were received, and make the proposer's table. */
  ghost predicate FiledFrom(table: Table, received: seq<Delivery>, net: set<Message>) {
    table == PromiseRound.Filed(received) && forall d :: d in received ==> PromiseMsg(d.sender, d.promise) in net
  }

  lemma StepFiles(sys: System, w: World, w': World, p: NodeId, received: seq<Delivery>) returns (later: seq<Delivery>)
    requires sys.Valid() && Next(sys, w, w') && w.net <= w'.net && p in w.tables && FiledFrom(w.tables[p], received, w.net)
    ensures p in w'.tables && FiledFrom(w'.tables[p], later, w'.net)
  {
    hide Handle, Insert, OnLearn, OnTick, CanWin, StorageConfig.Valid, AgentConfig.Valid, InOrder, R.Restart, R.Recoverable;
    var e :| Allowed(sys, w, e) && w' == Step(sys, w, e);
    later := received;
    if e.ProposerGets? && e.p == p {
      later := received + [Delivery(e.promise.promise, e.promise.from)];
      assert later[..|received|] == received;
    }
  }

  /** In every run the table of a proposer is that of some promises sent to it, so that
      RoundIsExact says when it reports, and what. */
  lemma {:induction false} TablesAreFiled(sys: System, run: seq<World>, j: nat, p: NodeId) returns (received: seq<Delivery>)
    requires sys.Valid() && IsRun(sys, run) && j < |run| && p in sys.proposers
    ensures p in run[j].tables && FiledFrom(run[j].tables[p], received, run[j].net)
  {
    hide Next, Safe, FiledFrom;
    if j == 0 {
      received := [];
      NothingFiledAtFirst();
    } else {
      received := TablesAreFiled(sys, run, j - 1, p);
      RunSafe(sys, run, j - 1, j);
      received := StepFiles(sys, run[j - 1], run[j], p, received);
    }
  }

  lemma NothingFiledAtFirst()
    ensures FiledFrom(map[], [], {})
  {
  }

  // ----- why retries are guarded -------------------------------------------------------

  /** Two of three acceptors answer a retry for a slot they have not accepted with a
      no-op; one of them then accepts `v`, as the third already has.  Both the no-op
      and `v` now have a quorum of votes for the slot. */
  lemma NoopFallbackBreaksAgreement(cfg: StorageConfig, slot: Slot, v: Value)
    requires cfg.Valid() && v != NOOP
    ensures var st := AcceptorCore.Fresh();
      var accept := AcceptReq(slot, 1, v);
      var net := Sent(Handle(cfg, 1, st, accept).1) + Sent(Handle(cfg, 2, st, RetryReq([slot])).1)
               + Sent(Handle(cfg, 3, st, RetryReq([slot])).1) + Sent(Handle(cfg, 2, st, accept).1);
      Majority({1, 2, 3}, Votes(net, slot, v)) && Majority({1, 2, 3}, Votes(net, slot, NOOP))
  {
    hide Handle;
    var st := AcceptorCore.Fresh();
    var accept := AcceptReq(slot, 1, v);
    var (one, two) := (Handle(cfg, 1, st, accept).1, Handle(cfg, 2, st, accept).1);
    var (noop2, noop3) := (Handle(cfg, 2, st, RetryReq([slot])).1, Handle(cfg, 3, st, RetryReq([slot])).1);
    var net := Sent(one) + Sent(noop2) + Sent(noop3) + Sent(two);
    FreshSends(cfg, 1, slot, v);
    FreshSends(cfg, 2, slot, v);
    FreshSends(cfg, 3, slot, v);
    assert one[0] in net && two[0] in net && noop2[0] in net && noop3[0] in net;
    assert Votes(net, slot, v) == {1, 2};
    assert Votes(net, slot, NOOP) == {2, 3};
  }

  /** What a new acceptor sends when it accepts a value, and when it is asked to retry. */
  lemma FreshSends(cfg: StorageConfig, me: NodeId, slot: Slot, v: Value)
    requires cfg.Valid()
    ensures var (accept, retry) := (AcceptReq(slot, 1, v), RetryReq([slot]));
      && Handle(cfg, me, AcceptorCore.Fresh(), accept).1 == [LearnMsg(me, slot, v), AcceptedMsg(me, slot, 1, v)]
      && Handle(cfg, me, AcceptorCore.Fresh(), retry).1 == [LearnMsg(me, slot, NOOP)]
  {
  }
}
