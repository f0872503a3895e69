/** The replicated log as a state machine.  The network is a growing set of
    messages: a message once sent may be delivered at any time, any number of times,
    in any order, or never.  Proposers are adversaries: any Prepare and any Accept
    may reach any acceptor at any moment. */
module Protocol {
  import opened Prelude
  import opened PaxosTypes
  import opened Journal
  import opened AcceptorCore
  import opened AcceptorAgents
  import opened PromiseRound
  import opened LearnerAgents
  import AcceptorRecovery

  /** The membership, the configuration each node runs with, and the acceptors that may
      crash and restart from their disk. */
  datatype System = System(
    acceptors: map<NodeId, StorageConfig>,
    restarting: set<NodeId>,
    proposers: set<NodeId>,
    learners: map<NodeId, AgentConfig>)
  {
    predicate Valid() {
      && (forall a :: a in acceptors ==> acceptors[a].Valid())
      && (forall a :: a in restarting ==> a in acceptors && acceptors[a].enabled && 0 < acceptors[a].maxSnapshots)
      && (forall l :: l in learners ==> learners[l].Valid() && learners[l].numAcceptors == |acceptors.Keys|)
    }
  }

  datatype World = World(
    acceptors: map<NodeId, AcceptorState>,
    tables: map<NodeId, Table>,
    learners: map<NodeId, AgentState>,
    net: set<Message>)

  datatype Event =
    | AcceptorHandles(a: NodeId, req: Request)
    | AcceptorRestarts(a: NodeId)
    | ProposerGets(p: NodeId, promise: Message)
    | LearnerGets(l: NodeId, vote: Message, winner: Option<Value>)
    | LearnerTicks(l: NodeId, due: bool)

  predicate InOrder(cfg: StorageConfig, st: AcceptorState, req: Request) {
    req.AcceptReq? ==> AcceptorRecovery.InOrder(cfg, st, AcceptorRecovery.AcceptOp(req.slot, req.ballot, req.value))
  }

  function Sent(messages: seq<Message>): set<Message> { set m | m in messages }

  function Start(sys: System): World {
    World(map a | a in sys.acceptors :: AcceptorCore.Fresh(),
          map p | p in sys.proposers :: map[],
          map l | l in sys.learners :: FreshAgent(),
          {})
  }

  ghost predicate Shaped(sys: System, w: World) {
    && w.acceptors.Keys == sys.acceptors.Keys
    && w.tables.Keys == sys.proposers
    && w.learners.Keys == sys.learners.Keys
  }

  /** A RetryLearns is answered here only for slots the acceptor has accepted.  The
      agent answers the others too, with a no-op it does not hold; see
      NoopFallbackBreaksAgreement.  An acceptor that may restart is given new slots in
      order, and restarts only when its disk gives everything back; see AcceptorRecovery
      for what happens otherwise. */
  ghost predicate Allowed(sys: System, w: World, e: Event)
    requires sys.Valid() && Shaped(sys, w)
  {
    match e
    case AcceptorHandles(a, req) =>
      && a in sys.acceptors
      && (req.RetryReq? ==> forall s :: s in req.slots ==> s in w.acceptors[a].accepted)
      && (a in sys.restarting ==> InOrder(sys.acceptors[a], w.acceptors[a], req))
    case AcceptorRestarts(a) =>
      a in sys.restarting && AcceptorRecovery.Recoverable(sys.acceptors[a], w.acceptors[a])
    case ProposerGets(p, promise) =>
      p in sys.proposers && promise in w.net && promise.PromiseMsg?
    case LearnerGets(l, vote, winner) =>
      && l in sys.learners && vote in w.net && vote.LearnMsg?
      && CanWin(sys.learners[l], w.learners[l], vote.slot, vote.value, vote.from, winner)
    case LearnerTicks(l, due) =>
      l in sys.learners
  }

  ghost function Step(sys: System, w: World, e: Event): (w': World)
    requires sys.Valid() && Shaped(sys, w) && Allowed(sys, w, e)
    ensures Shaped(sys, w')
  {
    match e
    case AcceptorHandles(a, req) =>
      var (st, sent) := Handle(sys.acceptors[a], a, w.acceptors[a], req);
      w.(acceptors := w.acceptors[a := st], net := w.net + Sent(sent))
    case AcceptorRestarts(a) =>
      w.(acceptors := w.acceptors[a := AcceptorRecovery.Restart(sys.acceptors[a], w.acceptors[a])])
    case ProposerGets(p, promise) =>
      w.(tables := w.tables[p := Insert(w.tables[p], promise.promise, promise.from)])
    case LearnerGets(l, vote, winner) =>
      w.(learners := w.learners[l := OnLearn(sys.learners[l], w.learners[l], vote.slot, vote.value, vote.from, winner)])
    case LearnerTicks(l, due) =>
      w.(learners := w.learners[l := OnTick(sys.learners[l], w.learners[l], due)])
  }

  ghost predicate Next(sys: System, w: World, w': World)
    requires sys.Valid()
  {
    Shaped(sys, w) && exists e :: Allowed(sys, w, e) && w' == Step(sys, w, e)
  }

  ghost predicate IsRun(sys: System, run: seq<World>)
    requires sys.Valid()
  {
    && run != [] && run[0] == Start(sys)
    && forall i, j :: 0 <= i && j == i + 1 < |run| ==> Next(sys, run[i], run[j])
  }
}
